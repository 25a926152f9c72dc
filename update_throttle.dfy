/**
 * The marketplace's periodic update check: a last-check timestamp that suppresses
 * checks for `checkInterval` after each successful one, and the choice of asset a
 * download fetches. The clock, the updater's check and the download arrive as inputs;
 * times are whole seconds.
 */
module UpdateThrottle {
  import opened Wrappers

  datatype ReleaseAsset = ReleaseAsset(name: string, browserDownloadUrl: string)
  datatype Release = Release(version: string, assets: seq<ReleaseAsset>)

  /** A check consults the updater unless one succeeded less than `interval` ago. */
  predicate ShouldConsult(lastCheck: Option<int>, now: int, interval: nat): (r: bool)
    ensures lastCheck.None? ==> r
    ensures lastCheck.Some? && now >= lastCheck.value + interval ==> r
  {
    lastCheck.None? || now - lastCheck.value >= interval
  }

  /** Within the interval after a success, and when the clock went backwards, no check is made. */
  lemma ThrottleWindow(last: int, now: int, interval: nat)
    ensures !ShouldConsult(Some(last), now, interval) <==> now < last + interval
  {
  }

  class AutoUpdater {
    const checkInterval: nat
    var lastCheck: Option<int>

    constructor (checkInterval: nat)
      ensures this.checkInterval == checkInterval && lastCheck == None
    {
      this.checkInterval := checkInterval;
      lastCheck := None;
    }

    /**
     * `check_for_updates` at time `now`; `check` is what the updater's own check
     * would return. `consulted` says whether it was asked.
     */
    method CheckForUpdates(now: int, check: Result<Release, string>)
      returns (r: Result<Option<Release>, string>, consulted: bool)
      modifies this`lastCheck
      ensures consulted == ShouldConsult(old(lastCheck), now, checkInterval)
      ensures !consulted ==> r == Ok(None) && lastCheck == old(lastCheck)
      ensures consulted && check.Ok? ==> r == Ok(Some(check.value)) && lastCheck == Some(now)
      ensures consulted && check.Err? ==> r == Err(check.error) && lastCheck == old(lastCheck)
    {
      consulted := false;
      if lastCheck.Some? {
        if now - lastCheck.value < checkInterval {
          return Ok(None), false;
        }
      }
      consulted := true;
      match check {
        case Ok(release) =>
          lastCheck := Some(now);
          r := Ok(Some(release));
        case Err(e) =>
          r := Err(e);
      }
    }
  }

  /** A success suppresses a second check inside the interval. */
  method SuccessThenEarlyCheck(u: AutoUpdater, now: int, soon: int, release: Release, again: Result<Release, string>)
    returns (first: Result<Option<Release>, string>, second: Result<Option<Release>, string>, consulted: bool)
    requires ShouldConsult(u.lastCheck, now, u.checkInterval)
    requires now <= soon < now + u.checkInterval
    modifies u
    ensures first == Ok(Some(release))
    ensures second == Ok(None) && !consulted
  {
    var c1;
    first, c1 := u.CheckForUpdates(now, Ok(release));
    second, consulted := u.CheckForUpdates(soon, again);
  }

  /** A failed check records nothing, so the very next call asks the updater again. */
  method FailureThenRetry(u: AutoUpdater, now: int, error: string, again: Result<Release, string>)
    returns (first: Result<Option<Release>, string>, consulted: bool)
    requires ShouldConsult(u.lastCheck, now, u.checkInterval)
    modifies u
    ensures first == Err(error)
    ensures consulted
  {
    var c1, second;
    first, c1 := u.CheckForUpdates(now, Err(error));
    second, consulted := u.CheckForUpdates(now, again);
  }

  /**
   * `download_update`: indexing the asset list panics when it is empty, so a caller
   * must pass a release with assets. The first asset's URL is the one fetched, and
   * the download's outcome (`download`) is returned unchanged.
   */
  method DownloadUpdate(release: Release, download: Result<string, string>) returns (url: string, r: Result<string, string>)
    requires |release.assets| > 0
    ensures url == release.assets[0].browserDownloadUrl
    ensures r == download
  {
    url := release.assets[0].browserDownloadUrl;
    r := download;
  }
}
