/**
 * The desktop updater's decision logic: version comparison, classification of
 * release-asset filenames, parsing of a GitHub release record, the first-newer
 * endpoint scan, the platform lookup before installation and the size check after
 * download. HTTP, the event bus and the installers stay outside; fetched release
 * bodies and file sizes arrive as inputs.
 */
module Updater {
  import opened Wrappers
  import opened Text
  import opened Json
  import opened Versions
  import opened AssetNames

  datatype UpdateError =
    | Http(detail: string)
    | JsonError(detail: string)
    | Io(detail: string)
    | Validation(message: string)
    | Download(message: string)
    | Installation(message: string)
    | NoUpdate

  datatype PlatformUpdate = PlatformUpdate(platform: string, arch: string, url: string, signature: string, size: nat)

  datatype UpdateInfo = UpdateInfo(version: string, name: string, notes: string, pubDate: string, platforms: seq<PlatformUpdate>)

  // ---- Release parsing ----

  /** `trim_start_matches('v')`: every leading 'v' removed. */
  function TrimLeadingV(s: string): (r: string)
    ensures |r| <= |s| && r == s[|s| - |r|..]
    ensures r == [] || r[0] != 'v'
    ensures forall i :: 0 <= i < |s| - |r| ==> s[i] == 'v'
    decreases |s|
  {
    if s != [] && s[0] == 'v' then TrimLeadingV(s[1..]) else s
  }

  function StrOr(v: Json, default: string): string {
    match AsStr(v)
    case Some(s) => s
    case None => default
  }

  /** One asset of the release: kept only when its name names a platform and it has a download URL. */
  function AssetEntry(asset: Json): (r: Option<PlatformUpdate>)
    ensures r.Some? ==> r.value.platform in {"windows", "darwin", "linux"} && r.value.url != "" && r.value.signature == ""
  {
    var name := StrOr(Get(asset, "name"), "");
    var url := StrOr(Get(asset, "browser_download_url"), "");
    var size := match AsU64(Get(asset, "size")) case Some(n) => n case None => 0;
    var (platform, arch) := ParsePlatformFromFilename(name);
    if platform != "" && url != "" then Some(PlatformUpdate(platform, arch, url, "", size)) else None
  }

  /** The values of the present entries, in order. */
  function Somes<T>(s: seq<Option<T>>): (r: seq<T>)
    ensures |r| <= |s|
    decreases |s|
  {
    if s == [] then [] else (match s[0] case Some(x) => [x] case None => []) + Somes(s[1..])
  }

  /** Dropping the absent entries keeps input order: the values of a concatenation are the concatenated values. */
  lemma {:induction false} SomesAppend<T>(a: seq<Option<T>>, b: seq<Option<T>>)
    ensures Somes(a + b) == Somes(a) + Somes(b)
    decreases |a|
  {
    if a == [] {
      assert a + b == b;
    } else {
      assert (a + b)[1..] == a[1..] + b;
      SomesAppend(a[1..], b);
    }
  }

  lemma SomesStep<T>(s: seq<Option<T>>, i: nat)
    requires i < |s|
    ensures Somes(s[..i + 1]) == Somes(s[..i]) + (match s[i] case Some(x) => [x] case None => [])
  {
    SomesAppend(s[..i], [s[i]]);
    assert s[..i + 1] == s[..i] + [s[i]];
  }

  /** Every value kept was present in the input. */
  lemma {:induction false} SomesFrom<T>(s: seq<Option<T>>, x: T)
    requires x in Somes(s)
    ensures Some(x) in s
    decreases |s|
  {
    if s[0] != Some(x) {
      SomesFrom(s[1..], x);
    }
  }

  function AssetEntries(assets: seq<Json>): (r: seq<Option<PlatformUpdate>>)
    ensures |r| == |assets| && forall k :: 0 <= k < |assets| ==> r[k] == AssetEntry(assets[k])
  {
    seq(|assets|, k requires 0 <= k < |assets| => AssetEntry(assets[k]))
  }

  /** The platform entries the asset loop keeps. */
  function KeptPlatforms(assets: seq<Json>): seq<PlatformUpdate> {
    Somes(AssetEntries(assets))
  }

  /** Every kept entry names a platform, has a URL and an empty signature. */
  lemma KeptPlatformsWellFormed(assets: seq<Json>)
    ensures |KeptPlatforms(assets)| <= |assets|
    ensures forall p :: p in KeptPlatforms(assets) ==>
      p.platform in {"windows", "darwin", "linux"} && p.url != "" && p.signature == ""
  {
    forall p | p in KeptPlatforms(assets)
      ensures p.platform in {"windows", "darwin", "linux"} && p.url != "" && p.signature == ""
    {
      SomesFrom(AssetEntries(assets), p);
    }
  }

  /** What `parse_github_release` returns for a release record. */
  function ReleaseInfo(release: Json): (r: Result<UpdateInfo, UpdateError>)
    ensures AsStr(Get(release, "tag_name")).None? ==> r == Err(Validation("Missing tag_name"))
    ensures AsStr(Get(release, "tag_name")).Some? && AsArray(Get(release, "assets")).None? ==>
      r == Err(Validation("No assets found"))
    ensures r.Ok? ==>
      && r.value.version == TrimLeadingV(AsStr(Get(release, "tag_name")).value)
      && r.value.name == StrOr(Get(release, "name"), r.value.version)
      && r.value.notes == StrOr(Get(release, "body"), "")
      && r.value.pubDate == StrOr(Get(release, "published_at"), "")
      && r.value.platforms == KeptPlatforms(AsArray(Get(release, "assets")).value)
  {
    match AsStr(Get(release, "tag_name"))
    case None => Err(Validation("Missing tag_name"))
    case Some(tag) =>
      var version := TrimLeadingV(tag);
      match AsArray(Get(release, "assets"))
      case None => Err(Validation("No assets found"))
      case Some(assets) =>
        Ok(UpdateInfo(
          version,
          StrOr(Get(release, "name"), version),
          StrOr(Get(release, "body"), ""),
          StrOr(Get(release, "published_at"), ""),
          KeptPlatforms(assets)))
  }

  /** The asset loop of `parse_github_release`: kept entries are pushed in input order. */
  method CollectPlatforms(assets: seq<Json>) returns (platforms: seq<PlatformUpdate>)
    ensures platforms == KeptPlatforms(assets)
  {
    ghost var entries := AssetEntries(assets);
    platforms := [];
    var i := 0;
    while i < |assets|
      invariant 0 <= i <= |assets|
      invariant platforms == Somes(entries[..i])
    {
      var entry := AssetEntry(assets[i]);
      SomesStep(entries, i);
      if entry.Some? {
        platforms := platforms + [entry.value];
      }
      i := i + 1;
    }
    assert entries[..i] == entries;
  }

  /** `parse_github_release`: the tag and the asset array are required, the rest defaults. */
  method ParseGithubRelease(release: Json) returns (r: Result<UpdateInfo, UpdateError>)
    ensures r == ReleaseInfo(release)
  {
    var tag := AsStr(Get(release, "tag_name"));
    if tag.None? {
      return Err(Validation("Missing tag_name"));
    }
    var version := TrimLeadingV(tag.value);
    var name := StrOr(Get(release, "name"), version);
    var notes := StrOr(Get(release, "body"), "");
    var pubDate := StrOr(Get(release, "published_at"), "");
    var assets := AsArray(Get(release, "assets"));
    if assets.None? {
      return Err(Validation("No assets found"));
    }
    var platforms := CollectPlatforms(assets.value);
    r := Ok(UpdateInfo(version, name, notes, pubDate, platforms));
  }

  // ---- Endpoint scan ----

  /** An endpoint's fetch result, when it parsed, offers a version newer than the current one. */
  predicate Offers(current: string, fetched: Result<UpdateInfo, UpdateError>) {
    fetched.Ok? && IsNewerVersion(current, fetched.value.version)
  }

  function OfferFlags(current: string, fetched: seq<Result<UpdateInfo, UpdateError>>): (r: seq<bool>)
    ensures |r| == |fetched| && forall k :: 0 <= k < |fetched| ==> r[k] == Offers(current, fetched[k])
  {
    seq(|fetched|, k requires 0 <= k < |fetched| => Offers(current, fetched[k]))
  }

  /** The index of the first set flag, or the number of flags when none is set. */
  function FirstTrue(flags: seq<bool>): (k: nat)
    ensures k <= |flags|
    ensures k < |flags| ==> flags[k]
    ensures forall j :: 0 <= j < k ==> !flags[j]
    decreases |flags|
  {
    if flags == [] then 0
    else if flags[0] then 0
    else 1 + FirstTrue(flags[1..])
  }

  lemma {:induction false} FirstTrueIs(flags: seq<bool>, i: nat)
    requires i < |flags| && flags[i]
    requires forall j :: 0 <= j < i ==> !flags[j]
    ensures FirstTrue(flags) == i
    decreases i
  {
    if i > 0 {
      FirstTrueIs(flags[1..], i - 1);
    }
  }

  lemma {:induction false} FirstTrueNone(flags: seq<bool>)
    requires forall j :: 0 <= j < |flags| ==> !flags[j]
    ensures FirstTrue(flags) == |flags|
    decreases |flags|
  {
    if flags != [] {
      FirstTrueNone(flags[1..]);
    }
  }

  /** The index of the first endpoint offering a newer version, or the number of endpoints. */
  function FirstOffer(current: string, fetched: seq<Result<UpdateInfo, UpdateError>>): nat {
    FirstTrue(OfferFlags(current, fetched))
  }

  /**
   * The scan's choice is a parsed release newer than the current version, and every
   * endpoint before it failed or offered nothing newer; with no such endpoint, none offers.
   */
  lemma FirstOfferMeaning(current: string, fetched: seq<Result<UpdateInfo, UpdateError>>)
    ensures var k := FirstOffer(current, fetched);
      && (k < |fetched| ==> fetched[k].Ok? && IsNewerVersion(current, fetched[k].value.version))
      && (forall j :: 0 <= j < k ==> fetched[j].Err? || !IsNewerVersion(current, fetched[j].value.version))
  {
    var flags := OfferFlags(current, fetched);
    var k := FirstTrue(flags);
    assert forall j :: 0 <= j < k ==> !flags[j];
  }

  // ---- Installation lookup and download check ----

  /**
   * The `find` in `download_and_install_update`: the first entry matching both platform
   * and arch, or a Validation error naming "<platform>-<arch>".
   */
  function FindPlatformUpdate(info: UpdateInfo, platform: string, arch: string): (r: Result<PlatformUpdate, UpdateError>)
    ensures r.Ok? <==> exists k :: 0 <= k < |info.platforms| && info.platforms[k].platform == platform && info.platforms[k].arch == arch
    ensures r.Ok? ==> r.value in info.platforms && r.value.platform == platform && r.value.arch == arch
    ensures r.Err? ==> r == Err(Validation("No update available for platform: " + platform + "-" + arch))
    decreases |info.platforms|
  {
    if info.platforms == [] then
      Err(Validation("No update available for platform: " + platform + "-" + arch))
    else if info.platforms[0].platform == platform && info.platforms[0].arch == arch then
      Ok(info.platforms[0])
    else
      var rest := FindPlatformUpdate(info.(platforms := info.platforms[1..]), platform, arch);
      assert forall k :: 1 <= k < |info.platforms| ==> info.platforms[k] == info.platforms[1..][k - 1];
      rest
  }

  /** The lookup returns the earliest matching entry. */
  lemma {:induction false} FindPlatformUpdateFirst(info: UpdateInfo, platform: string, arch: string, k: nat)
    requires k < |info.platforms| && info.platforms[k].platform == platform && info.platforms[k].arch == arch
    requires forall j :: 0 <= j < k ==> !(info.platforms[j].platform == platform && info.platforms[j].arch == arch)
    ensures FindPlatformUpdate(info, platform, arch) == Ok(info.platforms[k])
    decreases k
  {
    if k > 0 {
      FindPlatformUpdateFirst(info.(platforms := info.platforms[1..]), platform, arch, k - 1);
    }
  }

  /**
   * As written, the lookup compares against the host's `std::env::consts::OS` and
   * `ARCH`, whose values for macOS and 32-bit x86 are "macos" and "x86": names the
   * filename classifier never produces.
   */
  function FindHostUpdateAsWritten(info: UpdateInfo, hostOs: string, hostArch: string): (r: Result<PlatformUpdate, UpdateError>)
    ensures r.Ok? ==> r.value.platform == hostOs && r.value.arch == hostArch
    ensures r.Err? ==> r == Err(Validation("No update available for platform: " + hostOs + "-" + hostArch))
  {
    FindPlatformUpdate(info, hostOs, hostArch)
  }

  /** A macOS host finds no update when the release carries only a darwin build. */
  lemma MacHostMissesDarwinBuild(entry: PlatformUpdate)
    requires entry.platform == "darwin" && entry.arch == "aarch64"
    ensures FindHostUpdateAsWritten(UpdateInfo("2.0.0", "2.0.0", "", "", [entry]), "macos", "aarch64").Err?
  {
  }

  /** A 32-bit x86 Windows host finds no update when the release carries only an i686 build. */
  lemma X86HostMissesI686Build(entry: PlatformUpdate)
    requires entry.platform == "windows" && entry.arch == "i686"
    ensures FindHostUpdateAsWritten(UpdateInfo("2.0.0", "2.0.0", "", "", [entry]), "windows", "x86").Err?
  {
  }

  /** The classifier's name for a host operating system. */
  function ReleasePlatformTag(hostOs: string): (r: string)
    ensures hostOs in {"windows", "macos", "linux"} ==> r in {"windows", "darwin", "linux"}
    ensures hostOs == "macos" ==> r == "darwin"
    ensures hostOs != "macos" ==> r == hostOs
  {
    if hostOs == "macos" then "darwin" else hostOs
  }

  /** The classifier's name for a host architecture. */
  function ReleaseArchTag(hostArch: string): (r: string)
    ensures hostArch in {"x86", "x86_64", "aarch64"} ==> r in {"i686", "x86_64", "aarch64"}
    ensures hostArch == "x86" ==> r == "i686"
    ensures hostArch != "x86" ==> r == hostArch
  {
    if hostArch == "x86" then "i686" else hostArch
  }

  /** The intended lookup: host names translated into the classifier's vocabulary first. */
  function FindHostUpdate(info: UpdateInfo, hostOs: string, hostArch: string): (r: Result<PlatformUpdate, UpdateError>)
    ensures r == FindPlatformUpdate(info, ReleasePlatformTag(hostOs), ReleaseArchTag(hostArch))
  {
    FindPlatformUpdate(info, ReleasePlatformTag(hostOs), ReleaseArchTag(hostArch))
  }

  /**
   * With the translation, every host whose build is in the release finds it: an asset
   * classified for the host's platform and arch is found.
   */
  lemma HostFindsClassifiedBuild(info: UpdateInfo, hostOs: string, hostArch: string, k: nat)
    requires k < |info.platforms|
    requires info.platforms[k].platform == ReleasePlatformTag(hostOs)
    requires info.platforms[k].arch == ReleaseArchTag(hostArch)
    ensures FindHostUpdate(info, hostOs, hostArch).Ok?
    ensures FindHostUpdate(info, hostOs, hostArch).value.platform == ReleasePlatformTag(hostOs)
  {
  }

  /** On a macOS host the darwin build is found. */
  lemma MacHostFindsDarwinBuild(entry: PlatformUpdate)
    requires entry.platform == "darwin" && entry.arch == "aarch64"
    ensures FindHostUpdate(UpdateInfo("2.0.0", "2.0.0", "", "", [entry]), "macos", "aarch64") == Ok(entry)
  {
  }

  /** The size check of `verify_download`; the file's size (or the error reading it) is an input. */
  function VerifyDownload(fileSize: Result<nat, UpdateError>, update: PlatformUpdate): (r: Outcome<UpdateError>)
    ensures fileSize.Err? ==> r == Fail(fileSize.error)
    ensures fileSize.Ok? ==> (r.Pass? <==> fileSize.value == update.size)
    ensures fileSize.Ok? && r.Fail? ==>
      r.error == Validation("File size mismatch: expected " + NatToDecimal(update.size) + ", got " + NatToDecimal(fileSize.value))
  {
    match fileSize
    case Err(e) => Fail(e)
    case Ok(n) =>
      if n != update.size then
        Fail(Validation("File size mismatch: expected " + NatToDecimal(update.size) + ", got " + NatToDecimal(n)))
      else Pass
  }
}
