/** The endpoint scan of `check_for_updates`, over the fetch results of the configured endpoints. */
module UpdateCheck {
  import opened Wrappers
  import opened Versions
  import opened Updater

  /** The test the loop applies to one endpoint's result: it parsed, and its version is newer. */
  method IsOffer(current: string, fetched: Result<UpdateInfo, UpdateError>) returns (offers: bool)
    ensures offers == Offers(current, fetched)
  {
    offers := fetched.Ok? && IsNewerVersion(current, fetched.value.version);
  }

  /**
   * The endpoint loop of `check_for_updates`. `fetched[i]` is what `fetch_update_info`
   * yields for endpoint i (HTTP and `ParseGithubRelease` of the body); entries past the
   * first offer are never requested. Failures and old versions are skipped and the scan
   * stops at the first newer version; `consulted` counts the endpoints requested.
   */
  method SelectUpdate(current: string, fetched: seq<Result<UpdateInfo, UpdateError>>)
    returns (latest: Option<UpdateInfo>, consulted: nat)
    ensures var k := FirstOffer(current, fetched);
      && (k == |fetched| ==> latest == None && consulted == |fetched|)
      && (k < |fetched| ==> latest == Some(fetched[k].value) && consulted == k + 1)
  {
    ghost var flags := OfferFlags(current, fetched);
    latest := None;
    consulted := 0;
    var i := 0;
    while i < |fetched|
      invariant 0 <= i <= |fetched|
      invariant forall j :: 0 <= j < i ==> !flags[j]
      invariant latest == None && consulted == i
    {
      consulted := consulted + 1;
      var info := fetched[i];
      var offered := IsOffer(current, info);
      if offered {
        latest := Some(info.value);
        FirstTrueIs(flags, i);
        return;
      }
      i := i + 1;
    }
    FirstTrueNone(flags);
  }
}
