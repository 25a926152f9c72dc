/**
 * The folder selector's path rules: the forbidden-prefix security check, resolution of
 * relative and placeholder paths, the validation order for a picked folder, the safety
 * test for app folders, and the batch selection loop. Paths are POSIX strings; what
 * the file system and the native dialog report arrives as inputs.
 */
module FolderSelection {
  import opened Wrappers
  import opened Text

  datatype FolderError =
    | NoSelection
    | InvalidPath
    | PermissionDenied(message: string)
    | FolderNotExists(path: string)
    | Io(detail: string)

  datatype SelectionOptions = SelectionOptions(
    title: string,
    defaultPath: Option<string>,
    createIfMissing: bool,
    validatePermissions: bool)

  /** `PathBuf::is_absolute` on a POSIX path: a leading '/'. */
  predicate IsAbsolute(p: string) {
    |p| > 0 && p[0] == '/'
  }

  /**
   * `PathBuf::join`: an absolute `p` replaces the base; otherwise `p` is appended,
   * with a '/' in between unless the base is empty or already ends in one.
   */
  function Join(base: string, p: string): (r: string)
    ensures IsAbsolute(p) ==> r == p
    ensures !IsAbsolute(p) ==> base <= r && |base| + |p| <= |r| && r[|r| - |p|..] == p
    ensures IsAbsolute(base) ==> IsAbsolute(r)
  {
    if IsAbsolute(p) then p
    else if base == [] || base[|base| - 1] == '/' then base + p
    else base + "/" + p
  }

  // ---- Security check ----

  /** The forbidden system directories, in the order the check tries them. */
  const Forbidden: seq<string> := [
    "/system", "/sys", "/proc", "/dev",
    "c:\\windows", "c:\\program files", "c:\\system",
    "/system", "/library/system", "/usr/bin"
  ]

  /** Whether some entry of `prefixes` is a prefix of `s`, trying them in order. */
  function StartsWithAny(s: string, prefixes: seq<string>): (r: bool)
    ensures r <==> exists k :: 0 <= k < |prefixes| && prefixes[k] <= s
    decreases |prefixes|
  {
    if prefixes == [] then false
    else if prefixes[0] <= s then true
    else
      var rest := StartsWithAny(s, prefixes[1..]);
      assert forall k :: 1 <= k < |prefixes| ==> prefixes[k] == prefixes[1..][k - 1];
      rest
  }

  const SystemDirectoryMessage := "Cannot select system directory for security reasons"

  /**
   * `check_security_restrictions`: rejected exactly when the lowercased path starts with
   * a forbidden prefix (plain prefix matching, not path components). The sensitive-name
   * scan after it only logs, so it has no part in the outcome.
   */
  function CheckSecurityRestrictions(path: string): (r: Outcome<FolderError>)
    ensures r.Fail? <==> exists k :: 0 <= k < |Forbidden| && Forbidden[k] <= ToLower(path)
    ensures r.Fail? ==> r.error == PermissionDenied(SystemDirectoryMessage)
  {
    if StartsWithAny(ToLower(path), Forbidden) then Fail(PermissionDenied(SystemDirectoryMessage))
    else Pass
  }

  /** Any path holding a forbidden prefix, in any letter case, is rejected. */
  lemma ForbiddenPrefixRejected(path: string, k: nat)
    requires k < |Forbidden| && Forbidden[k] <= ToLower(path)
    ensures CheckSecurityRestrictions(path) == Fail(PermissionDenied(SystemDirectoryMessage))
  {
  }

  /** The rejection is unchanged by further text after a forbidden prefix. */
  lemma RejectionSurvivesExtension(path: string, extra: string)
    requires CheckSecurityRestrictions(path).Fail?
    ensures CheckSecurityRestrictions(path + extra).Fail?
  {
    var k :| 0 <= k < |Forbidden| && Forbidden[k] <= ToLower(path);
    assert ToLower(path + extra)[..|path|] == ToLower(path);
    assert Forbidden[k] <= ToLower(path + extra);
  }

  /** The test's "/system" is rejected, and so is "/sysfoo", which is no system directory. */
  lemma SystemPathsRejected(system: string, sysfoo: string)
    requires system == "/system" && sysfoo == "/sysfoo"
    ensures CheckSecurityRestrictions(system).Fail?
    ensures CheckSecurityRestrictions(sysfoo).Fail?
  {
    ToLowerOfLower(system);
    ToLowerOfLower(sysfoo);
    assert Forbidden[0] <= system;
    assert Forbidden[1] <= sysfoo;
  }

  /** A home directory under "/home", even one holding ".ssh", passes: sensitive names only log. */
  lemma HomeSubdirectoryAccepted(path: string)
    requires "/home/" <= path
    ensures CheckSecurityRestrictions(path) == Pass
  {
    var lower := ToLower(path);
    assert lower[0] == '/' && lower[1] == 'h';
    forall k | 0 <= k < |Forbidden|
      ensures !(Forbidden[k] <= lower)
    {
      var f := Forbidden[k];
      assert f[0] != '/' || f[1] != 'h';
    }
  }

  // ---- Path resolution ----

  /**
   * `resolve_path`: an absolute path unchanged; "~/" onto the home directory when one
   * is known; "$DOCUMENTS/" and "$DOWNLOADS/" onto those folders with their 11 characters
   * stripped; anything else onto the documents folder. It never fails.
   */
  function ResolvePath(path: string, home: Option<string>, documents: string, downloads: string): (r: Result<string, FolderError>)
    ensures r.Ok?
    ensures IsAbsolute(path) ==> r == Ok(path)
    ensures !IsAbsolute(path) && "~/" <= path && home.Some? ==> r == Ok(Join(home.value, path[2..]))
    ensures !IsAbsolute(path) && !("~/" <= path && home.Some?) && "$DOCUMENTS/" <= path ==>
      r == Ok(Join(documents, path[11..]))
    ensures !IsAbsolute(path) && !("~/" <= path && home.Some?) && !("$DOCUMENTS/" <= path) && "$DOWNLOADS/" <= path ==>
      r == Ok(Join(downloads, path[11..]))
    ensures !IsAbsolute(path) && !("~/" <= path && home.Some?) && !("$DOCUMENTS/" <= path) && !("$DOWNLOADS/" <= path) ==>
      r == Ok(Join(documents, path))
  {
    if IsAbsolute(path) then Ok(path)
    else if "~/" <= path && home.Some? then Ok(Join(home.value, path[2..]))
    else if "$DOCUMENTS/" <= path then Ok(Join(documents, path[11..]))
    else if "$DOWNLOADS/" <= path then Ok(Join(downloads, path[11..]))
    else Ok(Join(documents, path))
  }

  /** With absolute home, documents and downloads folders, every path resolves to an absolute one. */
  lemma ResolvedIsAbsolute(path: string, home: Option<string>, documents: string, downloads: string)
    requires home.Some? ==> IsAbsolute(home.value)
    requires IsAbsolute(documents) && IsAbsolute(downloads)
    ensures IsAbsolute(ResolvePath(path, home, documents, downloads).value)
  {
  }

  /** Resolving a resolved path changes nothing. */
  lemma ResolveIdempotent(path: string, home: Option<string>, documents: string, downloads: string)
    requires home.Some? ==> IsAbsolute(home.value)
    requires IsAbsolute(documents) && IsAbsolute(downloads)
    ensures var once := ResolvePath(path, home, documents, downloads).value;
      ResolvePath(once, home, documents, downloads) == Ok(once)
  {
    ResolvedIsAbsolute(path, home, documents, downloads);
  }

  /** "$DOCUMENTS/x" lands under the documents folder and "$DOWNLOADS/x" under the downloads folder. */
  lemma PlaceholdersResolve(x: string, home: Option<string>, documents: string, downloads: string)
    ensures ResolvePath("$DOCUMENTS/" + x, home, documents, downloads) == Ok(Join(documents, x))
    ensures ResolvePath("$DOWNLOADS/" + x, home, documents, downloads) == Ok(Join(downloads, x))
  {
    var p, q := "$DOCUMENTS/" + x, "$DOWNLOADS/" + x;
    assert p[..11] == "$DOCUMENTS/" && p[11..] == x && p[0] == '$' && p[1] == 'D';
    assert q[..11] == "$DOWNLOADS/" && q[11..] == x && q[0] == '$' && q[3] == 'W';
  }

  /** Without a known home directory, "~/x" is taken as a relative name under the documents folder. */
  lemma TildeWithoutHome(x: string, documents: string, downloads: string)
    ensures ResolvePath("~/" + x, None, documents, downloads) == Ok(Join(documents, "~/" + x))
  {
    var p := "~/" + x;
    assert p[0] == '~';
    assert !("$DOCUMENTS/" <= p) && !("$DOWNLOADS/" <= p);
  }

  // ---- Validation and selection ----

  /**
   * `validate_folder_selection`: a missing folder fails first when it may not be created,
   * then the permission probe when enabled, and the security check last. Existence and
   * the outcome of the write probe are inputs.
   */
  function ValidateFolderSelection(path: string, options: SelectionOptions, present: bool, writeProbe: Outcome<FolderError>): (r: Outcome<FolderError>)
    ensures !options.createIfMissing && !present ==> r == Fail(FolderNotExists(path))
    ensures (options.createIfMissing || present) && options.validatePermissions && writeProbe.Fail? ==> r == writeProbe
    ensures r.Pass? <==>
      (options.createIfMissing || present)
      && (options.validatePermissions ==> writeProbe.Pass?)
      && CheckSecurityRestrictions(path).Pass?
  {
    if !options.createIfMissing && !present then Fail(FolderNotExists(path))
    else if options.validatePermissions && writeProbe.Fail? then writeProbe
    else CheckSecurityRestrictions(path)
  }

  /**
   * `select_folder` for one dialog: the dialog's pick (None when cancelled), then
   * validation, then creation of a missing folder when allowed.
   */
  function SelectFolder(options: SelectionOptions, picked: Option<string>, present: bool, writeProbe: Outcome<FolderError>, created: Outcome<FolderError>): (r: Result<string, FolderError>)
    ensures picked.None? ==> r == Err(NoSelection)
    ensures r.Ok? ==> picked == Some(r.value) && ValidateFolderSelection(r.value, options, present, writeProbe).Pass?
    ensures r.Ok? ==> CheckSecurityRestrictions(r.value).Pass?
    ensures picked.Some? && ValidateFolderSelection(picked.value, options, present, writeProbe).Fail? ==>
      r == Err(ValidateFolderSelection(picked.value, options, present, writeProbe).error)
    ensures picked.Some? && ValidateFolderSelection(picked.value, options, present, writeProbe).Pass? ==>
      r == if options.createIfMissing && !present && created.Fail? then Err(created.error) else Ok(picked.value)
  {
    match picked
    case None => Err(NoSelection)
    case Some(path) =>
      match ValidateFolderSelection(path, options, present, writeProbe)
      case Fail(e) => Err(e)
      case Pass =>
        if options.createIfMissing && !present && created.Fail? then Err(created.error)
        else Ok(path)
  }

  /** The picks up to the first cancellation, or the first other error. */
  function Gather(outcomes: seq<Result<string, FolderError>>): (r: Result<seq<string>, FolderError>)
    ensures r.Ok? ==> |r.value| <= |outcomes| && forall i :: 0 <= i < |r.value| ==> outcomes[i] == Ok(r.value[i])
    decreases |outcomes|
  {
    if outcomes == [] then Ok([])
    else
      match outcomes[0]
      case Err(NoSelection) => Ok([])
      case Err(e) => Err(e)
      case Ok(p) =>
        var rest := Gather(outcomes[1..]);
        if rest.Err? then rest else Ok([p] + rest.value)
  }

  /** What `select_multiple_folders` returns, given the selection outcome for each title in order. */
  function MultipleSelection(outcomes: seq<Result<string, FolderError>>): (r: Result<seq<string>, FolderError>)
    ensures r.Ok? ==> r.value != [] && Gather(outcomes) == r
    ensures Gather(outcomes).Err? ==> r == Gather(outcomes)
    ensures Gather(outcomes) == Ok([]) ==> r == Err(NoSelection)
  {
    match Gather(outcomes)
    case Err(e) => Err(e)
    case Ok(paths) => if paths == [] then Err(NoSelection) else Ok(paths)
  }

  /** `paths` put in front of a gathered result. */
  function Prepend(paths: seq<string>, g: Result<seq<string>, FolderError>): Result<seq<string>, FolderError> {
    match g
    case Err(e) => Err(e)
    case Ok(rest) => Ok(paths + rest)
  }

  lemma GatherStep(outcomes: seq<Result<string, FolderError>>, selected: seq<string>, i: nat)
    requires i < |outcomes| && outcomes[i].Ok?
    requires Gather(outcomes) == Prepend(selected, Gather(outcomes[i..]))
    ensures Gather(outcomes) == Prepend(selected + [outcomes[i].value], Gather(outcomes[i + 1..]))
  {
    assert outcomes[i..][1..] == outcomes[i + 1..];
    var g := Gather(outcomes[i + 1..]);
    if g.Ok? {
      assert selected + ([outcomes[i].value] + g.value) == selected + [outcomes[i].value] + g.value;
    }
  }

  /**
   * The loop of `select_multiple_folders`: a pick is pushed, a cancellation ends the
   * loop, any other error is returned at once; an empty result is NoSelection.
   */
  method SelectMultipleFolders(outcomes: seq<Result<string, FolderError>>) returns (r: Result<seq<string>, FolderError>)
    ensures r == MultipleSelection(outcomes)
  {
    var selected: seq<string> := [];
    var i := 0;
    assert outcomes[0..] == outcomes;
    if Gather(outcomes).Ok? {
      assert [] + Gather(outcomes).value == Gather(outcomes).value;
    }
    while i < |outcomes|
      invariant 0 <= i <= |outcomes|
      invariant Gather(outcomes) == Prepend(selected, Gather(outcomes[i..]))
    {
      match outcomes[i] {
        case Ok(path) =>
          GatherStep(outcomes, selected, i);
          selected := selected + [path];
        case Err(NoSelection) =>
          assert Gather(outcomes[i..]) == Ok([]);
          break;
        case Err(e) =>
          assert Gather(outcomes[i..]) == Err(e);
          return Err(e);
      }
      i := i + 1;
    }
    assert i == |outcomes| ==> Gather(outcomes[i..]) == Ok([]);
    assert selected + [] == selected;
    if selected == [] {
      r := Err(NoSelection);
    } else {
      r := Ok(selected);
    }
  }

  /**
   * The batch result lists the chosen paths in title order, at most one per title;
   * a cancellation makes the titles after it irrelevant.
   */
  lemma MultipleSelectionInOrder(outcomes: seq<Result<string, FolderError>>)
    ensures var r := MultipleSelection(outcomes);
      r.Ok? ==> 0 < |r.value| <= |outcomes| && forall i :: 0 <= i < |r.value| ==> outcomes[i] == Ok(r.value[i])
  {
  }

  lemma {:induction false} CancelEndsSelection(outcomes: seq<Result<string, FolderError>>, k: nat, later: seq<Result<string, FolderError>>)
    requires k < |outcomes| && outcomes[k] == Err(NoSelection)
    ensures Gather(outcomes + later) == Gather(outcomes[..k + 1])
    decreases k
  {
    if k == 0 {
      assert (outcomes + later)[0] == outcomes[0];
      assert outcomes[..1][0] == outcomes[0];
    } else {
      assert (outcomes + later)[1..] == outcomes[1..] + later;
      assert outcomes[..k + 1][1..] == outcomes[1..][..k];
      assert (outcomes + later)[0] == outcomes[0] == outcomes[..k + 1][0];
      CancelEndsSelection(outcomes[1..], k - 1, later);
    }
  }

  /** `is_safe_app_folder`: absolute, not forbidden, and writable according to the probe. */
  function IsSafeAppFolder(path: string, writeProbe: Outcome<FolderError>): (r: bool)
    ensures !IsAbsolute(path) ==> !r
    ensures CheckSecurityRestrictions(path).Fail? ==> !r
    ensures r <==> IsAbsolute(path) && CheckSecurityRestrictions(path).Pass? && writeProbe.Pass?
  {
    if !IsAbsolute(path) then false
    else if CheckSecurityRestrictions(path).Fail? then false
    else writeProbe.Pass?
  }
}
