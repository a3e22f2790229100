/** The launch gate of both splash screens (`SplashActivity` on Android,
    `SplashViewController` on iOS) as pure decisions: what `handleAppConfig`
    shows or does for a record, where each dialog's buttons lead, and the
    whole launch from the network check to the first decision. Dialogs are
    returned as values instead of being presented; starting the main screen
    is `Proceed` with the delay after which the splash overlay goes away. */
module Splash {
  import opened Common
  import opened ConfigData
  import AppConfig
  import Strings

  /** A background-image download the gate starts on the side. */
  datatype ImageRequest = ImageRequest(url: string, name: string)

  datatype Action =
    | NoConnectionDialog
    | NotUseDialog
    | UpdateDialog(title: string, message: string, mandatory: bool, storeUrl: string)
    | NoticeDialog(title: string, message: string, confirm: bool)
    | Proceed(delayMs: int)
    | OpenStoreAndExit(storeUrl: string)
    | Exit

  /** What a shown dialog can report: its main button, the "continue" button of
      an optional update, or (Android only) the cancel and dismiss listeners. */
  datatype DialogInput = Positive | Negative | Cancelled | Dismissed

  /** An action that ends the splash screen's part: nothing is shown after it. */
  predicate Terminal(a: Action) {
    a.Proceed? || a.OpenStoreAndExit? || a.Exit?
  }

  /** The inputs a platform's dialog can deliver. Every Android dialog also
      has a dismiss listener; its cancel listener is routed too, but every
      dialog is non-cancelable, so it never fires. An iOS alert reports only
      its buttons. Only an optional update has a second button. */
  predicate Offered(p: Platform, a: Action, i: DialogInput) {
    match a
    case UpdateDialog(_, _, mandatory, _) =>
      i == Positive || (!mandatory && i == Negative) || (p == Android && i == Dismissed)
    case NoConnectionDialog | NotUseDialog | NoticeDialog(_, _, _) =>
      i == Positive || (p == Android && i == Dismissed)
    case _ => false
  }

  /** The configured app version has no surrounding whitespace, so the
      trimming in `getCurrentVersionName` and again before the comparison
      leaves it as it is; the model compares against it directly. */
  lemma AppVersionIsTrimmed(p: Platform)
    ensures Strings.Trim(p, AppConfig.AppVersion) == AppConfig.AppVersion
    ensures Strings.Trim(p, Strings.Trim(p, AppConfig.AppVersion)) == AppConfig.AppVersion
  {
    Strings.TrimUnchanged(p, AppConfig.AppVersion);
  }

  /** The store link of the update dialog: the Play Store entry of the package
      on Android; on iOS the App Store entry of the server's `app_id`, or of
      the bundle id when the server names none. */
  function StoreUrl(p: Platform, c: AppConfigData): (url: string)
    ensures p == Android ==> url == "market://details?id=" + AppConfig.AndroidPackageName
    ensures p == Ios && c.appId != Sentinel ==> url == "https://apps.apple.com/app/id" + c.appId
    ensures p == Ios && c.appId == Sentinel ==> url == "https://apps.apple.com/app/id" + AppConfig.IosBundleId
  {
    match p
    case Android => "market://details?id=" + AppConfig.AndroidPackageName
    case Ios =>
      var appId := if c.appId != Sentinel then c.appId else AppConfig.IosBundleId;
      "https://apps.apple.com/app/id" + appId
  }

  /** `showUpdateDialog`: the server's title and formatted text; mandatory
      exactly when `isRequiredUpdate`. */
  function UpdateDialogFor(p: Platform, c: AppConfigData): Action {
    UpdateDialog(c.updateTitle, FormattedUpdateDesc(c), IsRequiredUpdate(c), StoreUrl(p, c))
  }

  /** `showNotificationDialog`: the notice's title and formatted text; it lets
      the user in only when `app_btn` is "confirm". */
  function NoticeDialogFor(c: AppConfigData): Action {
    NoticeDialog(c.notiTitle, FormattedNotiDesc(c), c.appBtn == "confirm")
  }

  /** The delay when every check passes: the short push delay when the launch
      came from a push link, else the server's `delay_time`. */
  function ProceedDelay(c: AppConfigData, pushUrl: Option<string>): (ms: int)
    ensures pushUrl.Some? && pushUrl.value != "" ==> ms == AppConfig.PushNotificationSplashDelayMs
    ensures (pushUrl.None? || pushUrl.value == "") ==> ms == c.delayTime
  {
    if pushUrl.Some? && pushUrl.value != "" then AppConfig.PushNotificationSplashDelayMs else c.delayTime
  }

  /** The server's version differs from the app's, once both are trimmed. */
  predicate VersionMismatch(p: Platform, c: AppConfigData) {
    AppConfig.AppVersion != Strings.Trim(p, c.appVersion)
  }

  datatype Decision = Decision(action: Action, download: Option<ImageRequest>)

  /** `handleAppConfig`: the not-use dialog first; then the image download;
      then the update dialog on a version mismatch, else the notice when one is
      configured, else the main screen. */
  function HandleAppConfig(p: Platform, c: AppConfigData, domain: string, pushUrl: Option<string>): (d: Decision)
    ensures d.action == NotUseDialog <==> !IsAppUsable(c)
    ensures d.action.UpdateDialog? <==> IsAppUsable(c) && NeedsVersionCheck(c) && VersionMismatch(p, c)
    ensures d.action.NoticeDialog? <==>
      IsAppUsable(c) && !(NeedsVersionCheck(c) && VersionMismatch(p, c)) && NeedsNotification(c)
    ensures d.action.Proceed? <==>
      IsAppUsable(c) && !(NeedsVersionCheck(c) && VersionMismatch(p, c)) && !NeedsNotification(c)
    ensures d.action.Proceed? ==> d.action.delayMs == ProceedDelay(c, pushUrl)
    ensures d.action.UpdateDialog? ==>
      && d.action.mandatory == (c.appUpdate == 1)
      && d.action.storeUrl == StoreUrl(p, c)
      && d.action.title == c.updateTitle
      && d.action.message == FormattedUpdateDesc(c)
    ensures d.action.NoticeDialog? ==>
      && d.action.confirm == (c.appBtn == "confirm")
      && d.action.title == c.notiTitle
      && d.action.message == FormattedNotiDesc(c)
    ensures d.download.Some? <==> IsAppUsable(c) && HasBackgroundImage(c) && domain != ""
    ensures d.download.Some? ==> d.download.value == ImageRequest(AppConfig.HttpsUrl(domain, c.bgImage), c.bgName)
  {
    if !IsAppUsable(c) then Decision(NotUseDialog, None)
    else
      var imageUrl := AppConfig.BackgroundImageUrl(domain, c.bgImage);
      var download := if HasBackgroundImage(c) && imageUrl != "" then Some(ImageRequest(imageUrl, c.bgName)) else None;
      var action :=
        if NeedsVersionCheck(c) then
          if VersionMismatch(p, c) then UpdateDialogFor(p, c)
          else if NeedsNotification(c) then NoticeDialogFor(c)
          else Proceed(ProceedDelay(c, pushUrl))
        else if NeedsNotification(c) then NoticeDialogFor(c)
        else Proceed(ProceedDelay(c, pushUrl));
      Decision(action, download)
  }

  /** Where a dialog's input leads. An update's store button opens the store and
      exits; a mandatory update does so on every input. "Continue" (and, on
      Android, cancel or dismiss) of an optional update goes to the notice when
      one is configured, else proceeds after `delay_time`. A confirm notice
      proceeds at once; any other notice, the not-use and the no-connection
      dialogs exit. A terminal action stays as it is. */
  function Next(c: AppConfigData, a: Action, i: DialogInput): (b: Action)
    ensures a.NoConnectionDialog? || a.NotUseDialog? ==> b == Exit
    ensures a.UpdateDialog? && (a.mandatory || i == Positive) ==> b == OpenStoreAndExit(a.storeUrl)
    ensures a.UpdateDialog? && !a.mandatory && i != Positive ==>
      b == if NeedsNotification(c) then NoticeDialogFor(c) else Proceed(c.delayTime)
    ensures a.NoticeDialog? ==> b == if a.confirm then Proceed(0) else Exit
    ensures Terminal(a) ==> b == a
  {
    match a
    case NoConnectionDialog => Exit
    case NotUseDialog => Exit
    case UpdateDialog(_, _, mandatory, storeUrl) =>
      if mandatory || i == Positive then OpenStoreAndExit(storeUrl)
      else if NeedsNotification(c) then NoticeDialogFor(c)
      else Proceed(c.delayTime)
    case NoticeDialog(_, _, confirm) => if confirm then Proceed(0) else Exit
    case _ => a
  }

  /** The screen after a sequence of dialog inputs. */
  function Run(c: AppConfigData, a: Action, inputs: seq<DialogInput>): Action
    decreases |inputs|
  {
    if inputs == [] then a else Run(c, Next(c, a, inputs[0]), inputs[1..])
  }

  // ---------------------------------------------------------------------------
  // The launch, from the network check to the first decision
  // ---------------------------------------------------------------------------

  /** How the Android token request ended: Firebase missing from the build, the
      reflective call failing, the task failing, or the task succeeding with
      a result that may or may not be a string. */
  datatype TokenOutcome = NoFirebase | TokenError | TokenFailed | TokenReceived(token: Option<string>)

  /** How `syncServerConfig` ended: the fetch threw, or it returned a record or
      `null`. */
  datatype FetchOutcome = SyncThrew | Fetched(config: Option<AppConfigData>)

  /** The token handed to `syncServerConfig`: on iOS always none (its token
      fetch is a stub that passes `nil`); on Android the result of a
      successful token task, and none on every failure path. */
  function SyncToken(p: Platform, t: TokenOutcome): (token: Option<string>)
    ensures p == Ios ==> token == None
    ensures token.Some? <==> p == Android && t.TokenReceived? && t.token.Some?
  {
    match p
    case Ios => None
    case Android => if t.TokenReceived? then t.token else None
  }

  datatype TokenPost = TokenPost(url: string, token: string)

  datatype LaunchResult = LaunchResult(
    configRequest: Option<string>,
    decision: Decision,
    tokenPost: Option<TokenPost>)

  /** The configuration endpoint each platform queries for a domain. */
  function ConfigRequestUrl(p: Platform, domain: string): string {
    match p
    case Android => AppConfig.AndroidAppInfoRequestUrl(domain, domain)
    case Ios => AppConfig.IosAppInfoRequestUrl(domain, domain)
  }

  /** The token-registration endpoint each platform posts to. */
  function TokenRequestUrl(p: Platform, domain: string): string {
    match p
    case Android => AppConfig.AndroidDeviceTokenRequestUrl(domain, domain)
    case Ios => AppConfig.IosDeviceTokenRequestUrl(domain, domain)
  }

  /** `onCreate`/`viewDidLoad` through `syncServerConfig`: without a network,
      the no-connection dialog; without a domain, the main screen after the
      default delay; otherwise the configuration is requested (with the token
      when there is one), and a missing record or a thrown sync also proceed
      after the default delay. With a record, the token is posted when there
      is one, and `handleAppConfig` decides. */
  function Launch(p: Platform, networkAvailable: bool, domain: string, token: TokenOutcome,
                  fetched: FetchOutcome, pushUrl: Option<string>): (r: LaunchResult)
    ensures !networkAvailable ==> r.decision == Decision(NoConnectionDialog, None)
    ensures r.configRequest.Some? <==> networkAvailable && domain != ""
    ensures r.tokenPost.Some? ==> r.configRequest.Some? && fetched.Fetched? && fetched.config.Some?
  {
    if !networkAvailable then LaunchResult(None, Decision(NoConnectionDialog, None), None)
    else if domain == "" then LaunchResult(None, Decision(Proceed(AppConfig.DefaultSplashDelayMs), None), None)
    else
      var deviceToken := SyncToken(p, token);
      var request := Some(ConfigRequestUrl(p, domain));
      match fetched
      case SyncThrew => LaunchResult(request, Decision(Proceed(AppConfig.DefaultSplashDelayMs), None), None)
      case Fetched(None) => LaunchResult(request, Decision(Proceed(AppConfig.DefaultSplashDelayMs), None), None)
      case Fetched(Some(c)) =>
        var post := if deviceToken.Some? then Some(TokenPost(TokenRequestUrl(p, domain), deviceToken.value)) else None;
        LaunchResult(request, HandleAppConfig(p, c, domain, pushUrl), post)
  }

  // ---------------------------------------------------------------------------
  // What the gate promises
  // ---------------------------------------------------------------------------

  /** Usability has priority: an unusable record yields the not-use dialog and
      no download, whatever its update, notice, image or delay fields say, and
      whatever the domain or the push link. */
  lemma UnusableDecidesAlone(p: Platform, c: AppConfigData, c': AppConfigData, domain: string, domain': string,
                             pushUrl: Option<string>, pushUrl': Option<string>)
    requires !IsAppUsable(c) && !IsAppUsable(c')
    ensures HandleAppConfig(p, c, domain, pushUrl) == HandleAppConfig(p, c', domain', pushUrl')
    ensures HandleAppConfig(p, c, domain, pushUrl) == Decision(NotUseDialog, None)
  {
  }

  /** A server version equal to the app's "1.4.1", up to surrounding
      whitespace, raises no update dialog. */
  lemma PaddedAppVersionMatches(p: Platform, c: AppConfigData, before: string, after: string)
    requires Strings.AllSpace(p, before) && Strings.AllSpace(p, after)
    requires c.appVersion == before + AppConfig.AppVersion + after
    ensures !VersionMismatch(p, c)
  {
    Strings.TrimPadded(p, before, AppConfig.AppVersion, after);
  }

  /** The update policy the design names decides the dialog: with a version
      mismatch on a usable record, an update is asked exactly when the policy
      gates, and it is mandatory exactly under the mandatory policy. */
  lemma GateFollowsPolicy(p: Platform, c: AppConfigData, domain: string, pushUrl: Option<string>)
    requires IsAppUsable(c) && VersionMismatch(p, c)
    ensures var a := HandleAppConfig(p, c, domain, pushUrl).action;
      && (a.UpdateDialog? <==> PolicyOf(c) != NoGate)
      && (a.UpdateDialog? ==> (a.mandatory <==> PolicyOf(c) == MandatoryUpdate))
  {
  }

  /** A mandatory update (`app_update` 1 with a declared version that differs
      from the app's) never reaches the main screen: the dialog has no
      "continue" button, and its button, and on Android its cancel and dismiss,
      all open the store at the dialog's link and exit. */
  lemma {:induction false} MandatoryUpdateNeverProceeds(p: Platform, c: AppConfigData, domain: string,
                                                        pushUrl: Option<string>, inputs: seq<DialogInput>)
    requires IsAppUsable(c) && PolicyOf(c) == MandatoryUpdate && VersionMismatch(p, c)
    ensures HandleAppConfig(p, c, domain, pushUrl).action
      == UpdateDialog(c.updateTitle, FormattedUpdateDesc(c), true, StoreUrl(p, c))
    ensures !Offered(p, HandleAppConfig(p, c, domain, pushUrl).action, Negative)
    ensures inputs != [] ==>
      Run(c, HandleAppConfig(p, c, domain, pushUrl).action, inputs) == OpenStoreAndExit(StoreUrl(p, c))
  {
    var a := HandleAppConfig(p, c, domain, pushUrl).action;
    assert a.UpdateDialog? && a.mandatory;
    if inputs != [] {
      assert Run(c, a, inputs) == Run(c, OpenStoreAndExit(StoreUrl(p, c)), inputs[1..]);
      TerminalStays(c, OpenStoreAndExit(StoreUrl(p, c)), inputs[1..]);
    }
  }

  /** Continuing past an optional update uses the server's `delay_time`, even
      when the launch came from a push link that would have shortened the
      direct path to 500 ms. */
  lemma OptionalContinueIgnoresPush(p: Platform, c: AppConfigData, domain: string, push: string, i: DialogInput)
    requires IsAppUsable(c) && NeedsVersionCheck(c) && VersionMismatch(p, c) && !IsRequiredUpdate(c)
    requires !NeedsNotification(c)
    requires Offered(p, UpdateDialogFor(p, c), i) && i != Positive
    ensures Next(c, HandleAppConfig(p, c, domain, Some(push)).action, i) == Proceed(c.delayTime)
  {
    assert HandleAppConfig(p, c, domain, Some(push)).action == UpdateDialogFor(p, c);
  }

  /** The notice's button, and on Android its cancel and dismiss, all do the
      same: a confirm notice proceeds at once (no delay), any other exits. */
  lemma NoticeRouting(p: Platform, c: AppConfigData, i: DialogInput)
    requires Offered(p, NoticeDialogFor(c), i)
    ensures c.appBtn == "confirm" ==> Next(c, NoticeDialogFor(c), i) == Proceed(0)
    ensures c.appBtn != "confirm" ==> Next(c, NoticeDialogFor(c), i) == Exit
  {
  }

  /** After an optional update is continued, the notice (when shown) and its
      answer decide alone: the update is not asked again. */
  lemma OptionalUpdateThenNotice(p: Platform, c: AppConfigData, i: DialogInput, j: DialogInput)
    requires !IsRequiredUpdate(c) && NeedsNotification(c)
    requires Offered(p, UpdateDialogFor(p, c), i) && i != Positive
    requires Offered(p, NoticeDialogFor(c), j)
    ensures Run(c, UpdateDialogFor(p, c), [i, j]) == if c.appBtn == "confirm" then Proceed(0) else Exit
  {
    var a := UpdateDialogFor(p, c);
    assert Next(c, a, i) == NoticeDialogFor(c);
    assert [i, j][1..] == [j] && [j][1..] == [];
    assert Run(c, a, [i, j]) == Run(c, NoticeDialogFor(c), [j]);
    assert Run(c, NoticeDialogFor(c), [j]) == Run(c, Next(c, NoticeDialogFor(c), j), []);
    NoticeRouting(p, c, j);
  }

  /** The cancel listeners Android registers (which a non-cancelable dialog
      never fires) would do exactly what its dismiss listeners do. */
  lemma CancelActsAsDismiss(c: AppConfigData, a: Action)
    ensures Next(c, a, Cancelled) == Next(c, a, Dismissed)
    ensures a.UpdateDialog? && !a.mandatory ==> Next(c, a, Dismissed) == Next(c, a, Negative)
  {
  }

  /** Every launch settles within two dialog answers: whatever the decision and
      whatever inputs the dialogs deliver, after at most two of them the
      screen is the main screen, the store or exit. */
  lemma {:induction false} GateSettles(p: Platform, c: AppConfigData, domain: string, pushUrl: Option<string>,
                                       inputs: seq<DialogInput>)
    requires |inputs| >= 2
    requires forall k :: 0 <= k < |inputs| ==>
      (Offered(p, Run(c, HandleAppConfig(p, c, domain, pushUrl).action, inputs[..k]), inputs[k])
       || Terminal(Run(c, HandleAppConfig(p, c, domain, pushUrl).action, inputs[..k])))
    ensures Terminal(Run(c, HandleAppConfig(p, c, domain, pushUrl).action, inputs))
  {
    var a := HandleAppConfig(p, c, domain, pushUrl).action;
    var a1 := Next(c, a, inputs[0]);
    var a2 := Next(c, a1, inputs[1]);
    assert Terminal(a2) by {
      if a.UpdateDialog? && !a.mandatory && inputs[0] != Positive && NeedsNotification(c) {
        assert a1 == NoticeDialogFor(c);
      }
    }
    assert Run(c, a, inputs) == Run(c, a2, inputs[2..]) by {
      assert inputs[1..][1..] == inputs[2..];
    }
    TerminalStays(c, a2, inputs[2..]);
  }

  /** Inputs after the end change nothing. */
  lemma {:induction false} TerminalStays(c: AppConfigData, a: Action, inputs: seq<DialogInput>)
    requires Terminal(a)
    ensures Run(c, a, inputs) == a
    decreases |inputs|
  {
    if inputs != [] {
      TerminalStays(c, Next(c, a, inputs[0]), inputs[1..]);
    }
  }

  /** Dialog texts never show the raw `|@|` marker. */
  lemma DialogTextsHaveNoMarker(p: Platform, c: AppConfigData)
    ensures !Strings.ContainsMarker(UpdateDialogFor(p, c).message)
    ensures !Strings.ContainsMarker(NoticeDialogFor(c).message)
  {
  }

  /** Without a domain, without a record, or when the sync throws, the launch
      goes to the main screen after the default 3000 ms, with no dialog, no
      download and no token post. */
  lemma LaunchFallsBackToDefaultDelay(p: Platform, domain: string, token: TokenOutcome,
                                      fetched: FetchOutcome, pushUrl: Option<string>)
    requires domain == "" || fetched == SyncThrew || fetched == Fetched(None)
    ensures Launch(p, true, domain, token, fetched, pushUrl).decision == Decision(Proceed(3000), None)
    ensures Launch(p, true, domain, token, fetched, pushUrl).tokenPost == None
  {
  }

  /** iOS never posts a device token. On Android the token is posted exactly
      when a successful token task yielded a string and the record arrived,
      and it goes to the token endpoint of the same domain. */
  lemma TokenPostedOnlyOnAndroid(p: Platform, domain: string, token: TokenOutcome,
                                 fetched: FetchOutcome, pushUrl: Option<string>)
    ensures var r := Launch(p, true, domain, token, fetched, pushUrl);
      r.tokenPost.Some? <==>
        (p == Android && domain != "" && token.TokenReceived? && token.token.Some?
         && fetched.Fetched? && fetched.config.Some?)
    ensures var r := Launch(p, true, domain, token, fetched, pushUrl);
      r.tokenPost.Some? ==> r.tokenPost.value == TokenPost(AppConfig.HttpsUrl(domain, AppConfig.ServerApiPathDeviceToken), token.token.value)
    ensures Launch(Ios, true, domain, token, fetched, pushUrl).tokenPost == None
  {
    if domain != "" {
      AppConfig.RequestUrlsUseTheDomain(domain);
    }
  }

  /** With a domain, each platform requests its own endpoint on that domain. */
  lemma LaunchRequestsTheDomain(p: Platform, domain: string, token: TokenOutcome,
                                fetched: FetchOutcome, pushUrl: Option<string>)
    requires domain != ""
    ensures Launch(p, true, domain, token, fetched, pushUrl).configRequest
      == Some(AppConfig.HttpsUrl(domain, if p == Android then AppConfig.ServerApiPathAppInfo else AppConfig.ServerApiPathAppInfoIos))
  {
    AppConfig.RequestUrlsUseTheDomain(domain);
  }

  /** The launch with a record is `handleAppConfig` of that record. */
  lemma LaunchWithRecordIsHandleAppConfig(p: Platform, domain: string, token: TokenOutcome,
                                          c: AppConfigData, pushUrl: Option<string>)
    requires domain != ""
    ensures Launch(p, true, domain, token, Fetched(Some(c)), pushUrl).decision == HandleAppConfig(p, c, domain, pushUrl)
  {
  }
}
