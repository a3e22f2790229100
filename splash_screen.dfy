/** The state both splash screens keep while the gate runs: the push link
    read at launch, the token from the token task, the last record received,
    and (Android) the time of the last back press; plus the persisted
    first-launch flag. The decisions themselves live in `Splash`. */
module SplashScreen {
  import opened Common
  import opened ConfigData
  import opened Splash
  import AppConfig

  // ---------------------------------------------------------------------------
  // The first-launch flag
  // ---------------------------------------------------------------------------

  /** The stored `isFirst` preference: despite its name it is true once the app
      has launched before. A fresh install reads it as false. */
  class Preferences {
    var isFirst: bool

    constructor ()
      ensures !isFirst
    {
      isFirst := false;
    }

    /** `onCreate`/`viewDidLoad`: when the flag is unset, set it and seed the
        default loading image; the answer says whether seeding happened. */
    method SeedIfFirstLaunch() returns (seeded: bool)
      modifies this
      ensures seeded == !old(isFirst)
      ensures isFirst
    {
      seeded := !isFirst;
      if seeded {
        isFirst := true;
      }
    }
  }

  /** `n` launches on one device, each running the first-launch check on the
      same stored flag: the loading image is seeded on the first launch of a
      fresh install and never again, and the flag is set from then on. */
  method LaunchRepeatedly(prefs: Preferences, n: nat) returns (seedings: nat)
    modifies prefs
    ensures seedings == if old(prefs.isFirst) || n == 0 then 0 else 1
    ensures prefs.isFirst == (old(prefs.isFirst) || n > 0)
  {
    seedings := 0;
    var launches := 0;
    while launches < n
      invariant launches <= n
      invariant seedings == if old(prefs.isFirst) || launches == 0 then 0 else 1
      invariant prefs.isFirst == (old(prefs.isFirst) || launches > 0)
    {
      var seeded := prefs.SeedIfFirstLaunch();
      if seeded {
        seedings := seedings + 1;
      }
      launches := launches + 1;
    }
  }

  // ---------------------------------------------------------------------------
  // The back key (Android `onKeyDown`)
  // ---------------------------------------------------------------------------

  /** The two key events `onKeyDown` tells apart. */
  datatype KeyEvent = BackDown | OtherKey

  /** What one back press does: exit, or remember its time and show the
      "press again to exit" hint. */
  datatype BackResult = ExitApp | Armed(at: int)

  /** The window of the double press, in milliseconds. */
  const ExitWindowMs := 2000

  /** A press exits when it comes 0 to 2000 ms after the remembered press. */
  function BackPress(last: int, now: int): BackResult {
    if 0 <= now - last <= ExitWindowMs then ExitApp else Armed(now)
  }

  /** Presses at the given clock times, starting from a remembered time: exit
      at the first press that exits, else armed at the last press. */
  function BackPresses(last: int, times: seq<int>): BackResult
    decreases |times|
  {
    if times == [] then Armed(last)
    else
      match BackPress(last, times[0])
      case ExitApp => ExitApp
      case Armed(t) => BackPresses(t, times[1..])
  }

  /** The press before press `k`: the remembered one for the first. */
  function PreviousPress(last: int, times: seq<int>, k: nat): int
    requires k < |times|
  {
    if k == 0 then last else times[k - 1]
  }

  /** Presses exit exactly when two consecutive ones (the remembered press
      counting as the first) are 0 to 2000 ms apart: a press that does not exit
      always becomes the remembered one. */
  lemma {:induction false} BackPressesExitIff(last: int, times: seq<int>)
    ensures BackPresses(last, times) == ExitApp <==>
      exists k :: 0 <= k < |times| && 0 <= times[k] - PreviousPress(last, times, k) <= ExitWindowMs
    ensures BackPresses(last, times) != ExitApp && times != [] ==> BackPresses(last, times) == Armed(times[|times| - 1])
    decreases |times|
  {
    if times != [] && BackPress(last, times[0]) != ExitApp {
      var rest := times[1..];
      BackPressesExitIff(times[0], rest);
      forall k | 0 < k < |times|
        ensures PreviousPress(last, times, k) == PreviousPress(times[0], rest, k - 1) && times[k] == rest[k - 1]
      {
      }
      if BackPresses(last, times) == ExitApp {
        var j :| 0 <= j < |rest| && 0 <= rest[j] - PreviousPress(times[0], rest, j) <= ExitWindowMs;
        assert 0 <= times[j + 1] - PreviousPress(last, times, j + 1) <= ExitWindowMs;
      }
      if rest != [] {
        assert times[|times| - 1] == rest[|rest| - 1];
      }
    } else if times != [] {
      assert 0 <= times[0] - PreviousPress(last, times, 0) <= ExitWindowMs;
    }
  }

  /** A clock that went backwards (a negative gap) re-arms instead of exiting,
      and the remembered time moves back with it. */
  lemma ClockBackwardsRearms(last: int, now: int)
    requires now < last
    ensures BackPress(last, now) == Armed(now)
  {
  }

  // ---------------------------------------------------------------------------
  // The splash screen's fields
  // ---------------------------------------------------------------------------

  /** The push link kept at launch. Android keeps the `url` extra only when it
      is present and non-empty; iOS keeps the launch URL's text as it is. */
  function LaunchPushUrl(p: Platform, extra: Option<string>): (url: Option<string>)
    ensures p == Android ==> (url.Some? <==> extra.Some? && extra.value != "")
    ensures p == Ios ==> url == extra
    ensures url.Some? ==> url == extra
  {
    match p
    case Android => if extra.Some? && extra.value != "" then extra else None
    case Ios => extra
  }

  /** The push delay applies exactly when the launch carried a non-empty link,
      on both platforms; otherwise the server's delay stands. */
  lemma PushDelayNeedsALink(p: Platform, c: AppConfigData, extra: Option<string>)
    ensures extra.Some? && extra.value != "" ==>
      ProceedDelay(c, LaunchPushUrl(p, extra)) == AppConfig.PushNotificationSplashDelayMs
    ensures !(extra.Some? && extra.value != "") ==> ProceedDelay(c, LaunchPushUrl(p, extra)) == c.delayTime
  {
  }

  class Screen {
    const platform: Platform
    var pushUrl: Option<string>
    var fcmToken: Option<string>
    var appConfig: Option<AppConfigData>
    var backBtnTime: int

    constructor (p: Platform)
      ensures platform == p
      ensures pushUrl == None && fcmToken == None && appConfig == None && backBtnTime == 0
    {
      platform := p;
      pushUrl := None;
      fcmToken := None;
      appConfig := None;
      backBtnTime := 0;
    }

    /** Reads the push link from the launch (the intent's `url` extra, or the
        launch options' URL). */
    method ReadLaunchUrl(extra: Option<string>)
      modifies this
      ensures pushUrl == (if LaunchPushUrl(platform, extra).Some? then LaunchPushUrl(platform, extra) else old(pushUrl))
      ensures fcmToken == old(fcmToken) && appConfig == old(appConfig) && backBtnTime == old(backBtnTime)
    {
      var url := LaunchPushUrl(platform, extra);
      if url.Some? {
        pushUrl := url;
      }
    }

    /** The Android token task's success callback: the result, cast to a
        string, replaces the kept token (a non-string result clears it). The
        failure paths and iOS never touch it. */
    method ReceiveToken(outcome: TokenOutcome)
      modifies this
      ensures fcmToken == (if platform == Android && outcome.TokenReceived? then outcome.token else old(fcmToken))
      ensures pushUrl == old(pushUrl) && appConfig == old(appConfig) && backBtnTime == old(backBtnTime)
    {
      if platform == Android && outcome.TokenReceived? {
        fcmToken := outcome.token;
      }
    }

    /** The main-thread part of `syncServerConfig`: the received record (or
        its absence) replaces the kept one, and with a record the gate decides
        with the kept push link; without one there is no decision here (the
        caller proceeds after the default delay). */
    method CompleteSync(domain: string, config: Option<AppConfigData>) returns (d: Option<Decision>)
      modifies this
      ensures appConfig == config
      ensures pushUrl == old(pushUrl) && fcmToken == old(fcmToken) && backBtnTime == old(backBtnTime)
      ensures d.Some? <==> config.Some?
      ensures d.Some? ==> d.value == HandleAppConfig(platform, config.value, domain, pushUrl)
    {
      appConfig := config;
      if config.Some? {
        d := Some(HandleAppConfig(platform, config.value, domain, pushUrl));
      } else {
        d := None;
      }
    }

    /** Android `onKeyDown` at clock time `now`: a back press is consumed and
        either exits or re-arms the timer; any other key is passed on
        (`handled` false) and changes nothing. */
    method OnKeyDown(key: KeyEvent, now: int) returns (handled: bool, exit: bool)
      modifies this
      ensures handled <==> key == BackDown
      ensures exit <==> key == BackDown && BackPress(old(backBtnTime), now) == ExitApp
      ensures backBtnTime == (if key == BackDown && !exit then now else old(backBtnTime))
      ensures pushUrl == old(pushUrl) && fcmToken == old(fcmToken) && appConfig == old(appConfig)
    {
      handled, exit := false, false;
      if key == BackDown {
        match BackPress(backBtnTime, now) {
          case ExitApp =>
            exit := true;
          case Armed(t) =>
            backBtnTime := t;
        }
        handled := true;
      }
    }
  }
}
