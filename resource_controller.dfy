/**
 * The resource controller: a per-app permission ledger (app id to the list of
 * permission strings it holds) and a table of named policies, both updated in place.
 */
module ResourceControl {
  import opened Wrappers
  import opened Json

  datatype ResourceRequest = ResourceRequest(appId: string, resource: string, action: string, data: Json)

  datatype ResourceResponse = ResourceResponse(success: bool, error: Option<string>, data: Option<Json>)

  datatype ResourcePolicy = ResourcePolicy(
    name: string,
    description: string,
    permissions: seq<string>,
    restrictions: seq<string>,
    timeout: nat)

  class ResourceController {
    var permissions: map<string, seq<string>>
    var policies: map<string, ResourcePolicy>
    /** Declared and initialised by the source but never read. */
    var nextId: nat

    constructor ()
      ensures permissions == map[] && policies == map[] && nextId == 0
    {
      permissions := map[];
      policies := map[];
      nextId := 0;
    }

    /** Policies are keyed by their own name; registering a name again replaces the earlier policy. */
    method RegisterPolicy(policy: ResourcePolicy)
      modifies this`policies
      ensures policy.name in policies && policies[policy.name] == policy
      ensures forall n :: n != policy.name ==> (n in policies <==> n in old(policies))
      ensures forall n :: n != policy.name && n in policies ==> policies[n] == old(policies)[n]
    {
      policies := policies[policy.name := policy];
    }

    /** Replaces the app's whole list (no union); every other app's entry is unchanged. */
    method GrantPermissions(appId: string, perms: seq<string>)
      modifies this`permissions
      ensures permissions == old(permissions)[appId := perms]
      ensures GetAppPermissions(appId) == perms
      ensures forall p :: CheckPermission(appId, p) <==> p in perms
      ensures forall a, p :: a != appId ==> CheckPermission(a, p) == old(CheckPermission(a, p))
    {
      permissions := permissions[appId := perms];
    }

    /** False for an app without an entry; otherwise whether its list holds `permission`. */
    function CheckPermission(appId: string, permission: string): (r: bool)
      reads this
      ensures appId !in permissions ==> !r
      ensures appId in permissions ==> (r <==> permission in permissions[appId])
      ensures r <==> permission in GetAppPermissions(appId)
    {
      if appId in permissions then permission in permissions[appId] else false
    }

    /**
     * Authorises on `resource` (never on `action`): a denial carries the message
     * "Permission denied: <resource>" and no data, an approval echoes the request's data.
     */
    function HandleRequest(request: ResourceRequest): (r: ResourceResponse)
      reads this
      ensures r.success <==> CheckPermission(request.appId, request.resource)
      ensures !r.success ==> r.error == Some("Permission denied: " + request.resource) && r.data == None
      ensures r.success ==> r.error == None && r.data == Some(request.data)
    {
      if !CheckPermission(request.appId, request.resource) then
        ResourceResponse(false, Some("Permission denied: " + request.resource), None)
      else
        ResourceResponse(true, None, Some(request.data))
    }

    /**
     * Grants the named policy's permission list to the app, or fails with
     * "Policy not found: <name>" and leaves the ledger unchanged.
     */
    method ApplyPolicy(appId: string, policyName: string) returns (r: Outcome<string>)
      modifies this`permissions
      ensures policyName in policies ==>
        r == Pass && permissions == old(permissions)[appId := policies[policyName].permissions]
      ensures policyName in policies ==> GetAppPermissions(appId) == policies[policyName].permissions
      ensures policyName !in policies ==>
        r == Fail("Policy not found: " + policyName) && permissions == old(permissions)
    {
      if policyName in policies {
        GrantPermissions(appId, policies[policyName].permissions);
        r := Pass;
      } else {
        r := Fail("Policy not found: " + policyName);
      }
    }

    /** Removes the app's entry: afterwards it holds nothing, and other apps are untouched. */
    method RevokePermissions(appId: string)
      modifies this`permissions
      ensures permissions == old(permissions) - {appId}
      ensures forall p :: !CheckPermission(appId, p)
      ensures GetAppPermissions(appId) == []
      ensures forall a, p :: a != appId ==> CheckPermission(a, p) == old(CheckPermission(a, p))
    {
      permissions := permissions - {appId};
    }

    /** The most recently granted list, or the empty list for an app without an entry. */
    function GetAppPermissions(appId: string): (r: seq<string>)
      reads this
      ensures appId in permissions ==> r == permissions[appId]
      ensures appId !in permissions ==> r == []
    {
      if appId in permissions then permissions[appId] else []
    }
  }
}
