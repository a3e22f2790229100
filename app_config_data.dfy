/** The remote configuration document (`AppConfigData` on both platforms): an
    immutable record whose fields default to the sentinel "-99" (strings) or
    to per-field integers, the five predicates the splash screen asks of it,
    and the `|@|` line-break formatting of its two long texts. */
module ConfigData {
  import opened Common
  import Strings
  import AppConfig

  /** The payload's "field absent" marker for strings and for the two
      enumerated integers. */
  const Sentinel := "-99"
  const AbsentInt := -99

  /** All fields of both platforms' record. `appId` exists only on iOS; the
      Android parser never sets it, so it stays at the sentinel there. */
  datatype AppConfigData = AppConfigData(
    delayTime: int,
    bgImage: string,
    bgName: string,
    appUse: int,
    appVersion: string,
    updateTitle: string,
    updateDesc: string,
    appUpdate: int,
    notiUse: int,
    notiTitle: string,
    notiDesc: string,
    appBtn: string,
    appId: string)

  /** The record built from no payload at all: the data class defaults and the
      Swift `init` defaults. */
  function Default(): AppConfigData {
    AppConfigData(AppConfig.DefaultSplashDelayMs, Sentinel, Sentinel, 1, Sentinel, Sentinel,
      Sentinel, AbsentInt, AbsentInt, Sentinel, Sentinel, Sentinel, Sentinel)
  }

  /** `isAppUsable`: only `app_use == -1` switches the app off. */
  predicate IsAppUsable(c: AppConfigData) {
    c.appUse != -1
  }

  /** `hasBackgroundImage`: a real, non-empty image path. */
  predicate HasBackgroundImage(c: AppConfigData) {
    c.bgImage != Sentinel && c.bgImage != ""
  }

  /** `needsVersionCheck`: the server declares a version and an update policy. */
  predicate NeedsVersionCheck(c: AppConfigData) {
    c.appVersion != Sentinel && c.appUpdate != AbsentInt
  }

  /** `needsNotification`: the notice is switched on and its title, text and
      button mode are all present. */
  predicate NeedsNotification(c: AppConfigData) {
    c.notiUse == 1 && c.notiTitle != Sentinel && c.notiDesc != Sentinel && c.appBtn != Sentinel
  }

  /** `isRequiredUpdate`: 1 is mandatory; any other value the gate lets through
      (0, but also 2 or -1) is treated as optional. */
  predicate IsRequiredUpdate(c: AppConfigData) {
    c.appUpdate == 1
  }

  /** `getFormattedUpdateDesc`: the update text with every `|@|` turned into a
      line break. */
  function FormattedUpdateDesc(c: AppConfigData): (r: string)
    ensures !Strings.ContainsMarker(r)
    ensures !Strings.ContainsMarker(c.updateDesc) ==> r == c.updateDesc
  {
    Strings.ExpandLineBreaksFacts(c.updateDesc);
    Strings.ExpandLineBreaks(c.updateDesc)
  }

  /** `getFormattedNotiDesc`: the same expansion for the notice text. */
  function FormattedNotiDesc(c: AppConfigData): (r: string)
    ensures !Strings.ContainsMarker(r)
    ensures !Strings.ContainsMarker(c.notiDesc) ==> r == c.notiDesc
  {
    Strings.ExpandLineBreaksFacts(c.notiDesc);
    Strings.ExpandLineBreaks(c.notiDesc)
  }

  // ---------------------------------------------------------------------------
  // The design's tri-state update policy, and what the predicates make of it
  // ---------------------------------------------------------------------------

  /** The update policy the design describes: no gate, optional or mandatory. */
  datatype UpdatePolicy = NoGate | OptionalUpdate | MandatoryUpdate

  /** How the code classifies a record: the gate first, then 1 against the rest. */
  function PolicyOf(c: AppConfigData): (r: UpdatePolicy)
    ensures r == NoGate <==> c.appVersion == Sentinel || c.appUpdate == AbsentInt
    ensures r == MandatoryUpdate <==> c.appVersion != Sentinel && c.appUpdate == 1
    ensures r == OptionalUpdate <==> c.appVersion != Sentinel && c.appUpdate != 1 && c.appUpdate != AbsentInt
  {
    if !NeedsVersionCheck(c) then NoGate
    else if IsRequiredUpdate(c) then MandatoryUpdate
    else OptionalUpdate
  }

  /** The raw encoding the design names: -99 no gate, 0 optional, 1 mandatory
      (with a declared version); every other gated value also reads optional. */
  lemma PolicyOfRawValues(c: AppConfigData)
    requires c.appVersion != Sentinel
    ensures c.appUpdate == AbsentInt ==> PolicyOf(c) == NoGate
    ensures c.appUpdate == 0 ==> PolicyOf(c) == OptionalUpdate
    ensures c.appUpdate == 1 ==> PolicyOf(c) == MandatoryUpdate
    ensures c.appUpdate == 2 || c.appUpdate == -1 ==> PolicyOf(c) == OptionalUpdate
  {
  }

  /** The sentinel is never treated as content: with a domain at hand, an image
      URL is built exactly when `hasBackgroundImage` holds, and it is the image
      path under that domain. */
  lemma BackgroundImageUrlIffImage(c: AppConfigData, domain: string)
    requires domain != ""
    ensures HasBackgroundImage(c) <==> AppConfig.BackgroundImageUrl(domain, c.bgImage) != ""
    ensures HasBackgroundImage(c) ==> AppConfig.BackgroundImageUrl(domain, c.bgImage) == AppConfig.HttpsUrl(domain, c.bgImage)
  {
  }

  /** The record with every default is usable, has no image, no version gate
      and no notice: a launch without a payload just waits and proceeds. */
  lemma DefaultIsPermissive()
    ensures var d := Default();
      && d.delayTime == 3000 && d.appUse == 1 && d.appUpdate == -99 && d.notiUse == -99
      && d.bgImage == d.bgName == d.appVersion == d.updateTitle == d.updateDesc == Sentinel
      && d.notiTitle == d.notiDesc == d.appBtn == d.appId == Sentinel
      && IsAppUsable(d) && !HasBackgroundImage(d) && !NeedsVersionCheck(d) && !NeedsNotification(d)
      && PolicyOf(d) == NoGate
  {
  }

  // ---------------------------------------------------------------------------
  // Fields by their wire names (the XML tags and the JSON keys are the same)
  // ---------------------------------------------------------------------------

  /** The thirteen fields, named independently of their wire spelling. */
  datatype Key =
    | DelayTime | BgImage | BgName | AppUse | AppVersion | UpdateTitle | UpdateDesc
    | AppUpdate | NotiUse | NotiTitle | NotiDesc | AppBtn | AppId

  datatype FieldValue = IntVal(i: int) | StrVal(s: string)

  predicate IsIntKey(k: Key) {
    k == DelayTime || k == AppUse || k == AppUpdate || k == NotiUse
  }

  /** The XML tag / JSON key of each field (Swift `CodingKeys`). */
  function WireName(k: Key): string {
    match k
    case DelayTime => "delay_time"
    case BgImage => "bg_image"
    case BgName => "bg_name"
    case AppUse => "app_use"
    case AppVersion => "app_version"
    case UpdateTitle => "update_title"
    case UpdateDesc => "update_desc"
    case AppUpdate => "app_update"
    case NotiUse => "noti_use"
    case NotiTitle => "noti_title"
    case NotiDesc => "noti_desc"
    case AppBtn => "app_btn"
    case AppId => "app_id"
  }

  /** The field a wire name selects, if any. */
  function KeyOf(name: string): (k: Option<Key>)
    ensures k.Some? ==> WireName(k.value) == name
  {
    if name == "delay_time" then Some(DelayTime)
    else if name == "bg_image" then Some(BgImage)
    else if name == "bg_name" then Some(BgName)
    else if name == "app_use" then Some(AppUse)
    else if name == "app_version" then Some(AppVersion)
    else if name == "update_title" then Some(UpdateTitle)
    else if name == "update_desc" then Some(UpdateDesc)
    else if name == "app_update" then Some(AppUpdate)
    else if name == "noti_use" then Some(NotiUse)
    else if name == "noti_title" then Some(NotiTitle)
    else if name == "noti_desc" then Some(NotiDesc)
    else if name == "app_btn" then Some(AppBtn)
    else if name == "app_id" then Some(AppId)
    else None
  }

  /** Every field is reachable by its own wire name, and by no other. */
  lemma KeyOfWireName(k: Key)
    ensures KeyOf(WireName(k)) == Some(k)
  {
  }

  /** The field a key denotes. */
  function Field(c: AppConfigData, k: Key): (v: FieldValue)
    ensures IsIntKey(k) <==> v.IntVal?
  {
    match k
    case DelayTime => IntVal(c.delayTime)
    case BgImage => StrVal(c.bgImage)
    case BgName => StrVal(c.bgName)
    case AppUse => IntVal(c.appUse)
    case AppVersion => StrVal(c.appVersion)
    case UpdateTitle => StrVal(c.updateTitle)
    case UpdateDesc => StrVal(c.updateDesc)
    case AppUpdate => IntVal(c.appUpdate)
    case NotiUse => IntVal(c.notiUse)
    case NotiTitle => StrVal(c.notiTitle)
    case NotiDesc => StrVal(c.notiDesc)
    case AppBtn => StrVal(c.appBtn)
    case AppId => StrVal(c.appId)
  }

  /** The record with one field replaced, all others kept. */
  function WithField(c: AppConfigData, k: Key, v: FieldValue): (d: AppConfigData)
    requires IsIntKey(k) <==> v.IntVal?
    ensures Field(d, k) == v
  {
    match k
    case DelayTime => c.(delayTime := v.i)
    case BgImage => c.(bgImage := v.s)
    case BgName => c.(bgName := v.s)
    case AppUse => c.(appUse := v.i)
    case AppVersion => c.(appVersion := v.s)
    case UpdateTitle => c.(updateTitle := v.s)
    case UpdateDesc => c.(updateDesc := v.s)
    case AppUpdate => c.(appUpdate := v.i)
    case NotiUse => c.(notiUse := v.i)
    case NotiTitle => c.(notiTitle := v.s)
    case NotiDesc => c.(notiDesc := v.s)
    case AppBtn => c.(appBtn := v.s)
    case AppId => c.(appId := v.s)
  }

  /** Replacing one field leaves every other field as it was. */
  lemma WithFieldFrame(c: AppConfigData, k: Key, v: FieldValue)
    requires IsIntKey(k) <==> v.IntVal?
    ensures forall j :: j != k ==> Field(WithField(c, k, v), j) == Field(c, j)
  {
  }

  /** Per-field defaults: 3000 for the delay, 1 for `app_use`, -99 for the two
      enumerated integers, the sentinel for every string. */
  function DefaultValue(k: Key): (v: FieldValue)
    ensures IsIntKey(k) <==> v.IntVal?
  {
    match k
    case DelayTime => IntVal(AppConfig.DefaultSplashDelayMs)
    case AppUse => IntVal(1)
    case AppUpdate | NotiUse => IntVal(AbsentInt)
    case _ => StrVal(Sentinel)
  }

  /** Two records that agree on every field are the same record. */
  lemma FieldsDetermineRecord(c: AppConfigData, d: AppConfigData)
    requires forall k :: Field(c, k) == Field(d, k)
    ensures c == d
  {
    assert Field(c, DelayTime) == Field(d, DelayTime);
    assert Field(c, BgImage) == Field(d, BgImage);
    assert Field(c, BgName) == Field(d, BgName);
    assert Field(c, AppUse) == Field(d, AppUse);
    assert Field(c, AppVersion) == Field(d, AppVersion);
    assert Field(c, UpdateTitle) == Field(d, UpdateTitle);
    assert Field(c, UpdateDesc) == Field(d, UpdateDesc);
    assert Field(c, AppUpdate) == Field(d, AppUpdate);
    assert Field(c, NotiUse) == Field(d, NotiUse);
    assert Field(c, NotiTitle) == Field(d, NotiTitle);
    assert Field(c, NotiDesc) == Field(d, NotiDesc);
    assert Field(c, AppBtn) == Field(d, AppBtn);
    assert Field(c, AppId) == Field(d, AppId);
  }

  /** The default record is the record of defaults, field by field. */
  lemma DefaultFields(k: Key)
    ensures Field(Default(), k) == DefaultValue(k)
  {
  }
}
