/**
 * One sandboxed app instance: its configuration (declared permissions and feature
 * flags), the shared resource controller, an MCP client, and the mutable sandbox state
 * (loaded URL, recorded permissions, key/value storage, sent notifications).
 */
module SandboxRuntime {
  import opened Wrappers
  import opened Json
  import opened ResourceControl

  datatype SandboxConfig = SandboxConfig(network: bool, storage: bool, notifications: bool, system: bool, mcp: bool)

  /** `permissions` is the app's declared permission list. */
  datatype PWAConfig = PWAConfig(name: string, url: string, permissions: seq<string>, sandbox: SandboxConfig)

  /** A URL that `Url::parse` accepted, kept as its serialisation. */
  datatype Url = Url(serialization: string)

  datatype McpRequest = McpRequest(appId: string, protocol: string, action: string, data: Json)

  datatype McpResponse = McpResponse(success: bool, error: Option<string>, data: Option<Json>)

  /**
   * The MCP client as the sandbox sees it: every `send` is recorded, and the reply
   * (transport and decoding included) comes from outside the model.
   */
  class McpClient {
    var sent: seq<McpRequest>

    constructor ()
      ensures sent == []
    {
      sent := [];
    }

    method Send(request: McpRequest, reply: Result<McpResponse, string>) returns (r: Result<McpResponse, string>)
      modifies this
      ensures sent == old(sent) + [request]
      ensures r == reply
    {
      sent := sent + [request];
      r := reply;
    }
  }

  class PWASandbox {
    const config: PWAConfig
    const controller: ResourceController
    const client: McpClient

    var url: Option<Url>
    var permissions: map<string, bool>
    var storage: map<string, string>
    var notifications: seq<string>

    /** A new sandbox starts with no URL, no permissions, empty storage and no notifications. */
    constructor (config: PWAConfig, controller: ResourceController, client: McpClient)
      ensures this.config == config && this.controller == controller && this.client == client
      ensures url == None && permissions == map[] && storage == map[] && notifications == []
    {
      this.config := config;
      this.controller := controller;
      this.client := client;
      url := None;
      permissions := map[];
      storage := map[];
      notifications := [];
    }

    /**
     * Stores the URL when it parses; on a parse error the stored URL is unchanged,
     * since the error returns before the assignment.
     */
    method LoadUrl(parsed: Result<Url, string>) returns (r: Outcome<string>)
      modifies this`url
      ensures parsed.Ok? ==> r == Pass && url == Some(parsed.value)
      ensures parsed.Err? ==> r == Fail(parsed.error) && url == old(url)
    {
      if parsed.Err? {
        return Fail(parsed.error);
      }
      url := Some(parsed.value);
      r := Pass;
    }

    /**
     * A permission outside the declared list is refused without asking the controller;
     * otherwise the controller's answer is returned, and recorded as `true` only when it grants.
     */
    method RequestPermission(permission: string) returns (r: bool)
      modifies this`permissions
      ensures permission !in config.permissions ==> !r && permissions == old(permissions)
      ensures permission in config.permissions ==> r == controller.CheckPermission(config.name, permission)
      ensures r ==> permissions == old(permissions)[permission := true]
      ensures !r ==> permissions == old(permissions)
    {
      if permission !in config.permissions {
        return false;
      }
      r := controller.CheckPermission(config.name, permission);
      if r {
        permissions := permissions[permission := true];
      }
    }

    /** Fails when storage is disabled; otherwise inserts or overwrites exactly `key`. */
    method StoreData(key: string, value: string) returns (r: Outcome<string>)
      modifies this`storage
      ensures !config.sandbox.storage ==> r == Fail("Storage permission denied") && storage == old(storage)
      ensures config.sandbox.storage ==> r == Pass && storage == old(storage)[key := value]
      ensures config.sandbox.storage ==> GetData(key) == Ok(Some(value))
      ensures forall k :: k != key ==> GetData(k) == old(GetData(k))
    {
      if !config.sandbox.storage {
        return Fail("Storage permission denied");
      }
      storage := storage[key := value];
      r := Pass;
    }

    /** Fails when storage is disabled, `None` for an absent key; reads only. */
    function GetData(key: string): (r: Result<Option<string>, string>)
      reads this
      ensures !config.sandbox.storage ==> r == Err("Storage permission denied")
      ensures config.sandbox.storage && key !in storage ==> r == Ok(None)
      ensures config.sandbox.storage && key in storage ==> r == Ok(Some(storage[key]))
    {
      if !config.sandbox.storage then Err("Storage permission denied")
      else if key in storage then Ok(Some(storage[key]))
      else Ok(None)
    }

    /** Fails when notifications are disabled; otherwise appends the message last. */
    method SendNotification(message: string) returns (r: Outcome<string>)
      modifies this`notifications
      ensures !config.sandbox.notifications ==>
        r == Fail("Notifications permission denied") && notifications == old(notifications)
      ensures config.sandbox.notifications ==> r == Pass && notifications == old(notifications) + [message]
    {
      if !config.sandbox.notifications {
        return Fail("Notifications permission denied");
      }
      notifications := notifications + [message];
      r := Pass;
    }

    /** With the mcp flag off, fails without sending anything; otherwise forwards to the client. */
    method McpCall(request: McpRequest, reply: Result<McpResponse, string>) returns (r: Result<McpResponse, string>)
      modifies client
      ensures !config.sandbox.mcp ==> r == Err("MCP permission denied") && client.sent == old(client.sent)
      ensures config.sandbox.mcp ==> r == reply && client.sent == old(client.sent) + [request]
    {
      if !config.sandbox.mcp {
        return Err("MCP permission denied");
      }
      r := client.Send(request, reply);
    }
  }
}
