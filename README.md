# Remote gate of the WebView wrapper's splash screen

A Flutter WebView wrapper opens every launch on a native splash screen.
Android implements it in `SplashActivity`; iOS implements it in
`SplashViewController`. That screen asks the site's server for a small
configuration document, then decides one of four things:

- switch the app off;
- show an update prompt, mandatory or optional;
- show a notice;
- go on to the web view after a delay.

This project models that gate in Dafny, for both platforms:

- **The configuration record** (`AppConfigData`): its per-field defaults, the
  `"-99"` sentinel, the five predicates, and the `|@|` line-break formatting.
- **The two payload readers:**
  - Android's XML pull-parser loop (`parseXml`), modelled as an imperative
    method over the parser's event sequence;
  - iOS's JSON field mapping (`parseJson`, `parseInt`, `parseString`) over the
    decoded object.
- **The URL builders and delay constants** of `AppConfig`, with the website
  domain as a parameter.
- **The splash decisions:**
  - `handleAppConfig`;
  - where each dialog's buttons lead;
  - the launch from the network check to the first decision, including the
    fallbacks to the default delay.
- **The state the splash screens keep:** the push link, the token, the last
  record, the double-back-press timer, and the persisted first-launch flag.

Files, in dependency order:

| file | module | models |
|---|---|---|
| `common.dfy` | `Common` | `Option`; the two platforms |
| `strings.dfy` | `Strings` | each platform's trim; decimal integer parsing; `|@|` expansion |
| `app_config.dfy` | `AppConfig` | constants and URL builders of `AppConfig.kt` / `AppConfig.swift` |
| `app_config_data.dfy` | `ConfigData` | the record, its predicates and formatters; fields addressed by wire name |
| `xml_parser.dfy` | `XmlParser` | Android `parseXml` |
| `json_parser.dfy` | `JsonParser` | iOS `parseJson` |
| `splash_decision.dfy` | `Splash` | `handleAppConfig`, dialog routing, the launch flow |
| `splash_screen.dfy` | `SplashScreen` | the screens' mutable fields, `onKeyDown`, the `isFirst` flag |

**Platform differences the model keeps:**

- **Whitespace for trimming.** Kotlin's `Char.isWhitespace` also counts
  U+001C..U+001F. Swift's `whitespacesAndNewlines` also counts U+0085.
- **Integer width.** Kotlin's `toIntOrNull` reads 32-bit values. Swift's
  `Int(String)` reads 64-bit values.
- **Trimming payload text.** Android trims the XML text. iOS does not trim
  JSON strings.
- **`appId`.** Only iOS reads it. The Android parser never sets it, so it
  stays `"-99"` there.
- **Store link.** Android uses the Play Store link of the package. iOS uses
  the App Store link of `app_id`, or of the bundle id when the server sends
  none.
- **Device token.** iOS never obtains one, so it never posts one.

## Model

Source paths are relative to the repository root.

| member | source | states |
|---|---|---|
| `Strings.Trim` | android/app/src/main/kotlin/com/example/flutter_webview_app/AppConfigParser.kt:46 | Kotlin `trim()` and Swift `trimmingCharacters(in: .whitespacesAndNewlines)`: whitespace is dropped from both ends, each platform with its own whitespace set |
| `Strings.TrimIsSlice` | android/app/src/main/kotlin/com/example/flutter_webview_app/AppConfigParser.kt:46 | the trimmed text is the slice of the input after the leading whitespace, and it neither starts nor ends with whitespace |
| `Strings.TrimCutsLeadingSpace` | android/app/src/main/kotlin/com/example/flutter_webview_app/AppConfigParser.kt:46 | everything trimming drops from the front is whitespace |
| `Strings.TrimCutsTrailingSpace` | android/app/src/main/kotlin/com/example/flutter_webview_app/AppConfigParser.kt:46 | everything trimming drops from the end is whitespace |
| `Strings.TrimStartCut` | android/app/src/main/kotlin/com/example/flutter_webview_app/AppConfigParser.kt:46 | trimming the front keeps a suffix of the text and drops only whitespace |
| `Strings.TrimEndCut` | android/app/src/main/kotlin/com/example/flutter_webview_app/AppConfigParser.kt:46 | trimming the end keeps a prefix of the text and drops only whitespace |
| `Strings.TrimPadded` | android/app/src/main/kotlin/com/example/flutter_webview_app/AppConfigParser.kt:46 | text padded with whitespace on either side trims back to the text |
| `Strings.TrimIdempotent` | android/app/src/main/kotlin/com/example/flutter_webview_app/SplashActivity.kt:258-264 | trimming twice is trimming once, so the extra trim of an already trimmed version changes nothing |
| `Strings.ParseInteger` | android/app/src/main/kotlin/com/example/flutter_webview_app/AppConfigParser.kt:48 | a value is read only from an optional sign and then digits only, and it lies in the requested range (32-bit for `toIntOrNull`, 64-bit for `Int(String)`); conversely, digits alone, or after `+` or `-`, are read as their signed value exactly when that value is in range |
| `Strings.LeadingZerosAndPlus` | android/app/src/main/kotlin/com/example/flutter_webview_app/AppConfigParser.kt:48 | a number written with leading zeros, after `+`, or after `-` (`"007"`, `"+5"`) is read as its value when in range, and not at all otherwise |
| `Strings.ParseIntToString` | ios/Runner/AppConfigParser.swift:184 | parsing an integer's decimal rendering gives it back when it is in range, and nothing when it is not |
| `Strings.IntToStringTrimmed` | android/app/src/main/kotlin/com/example/flutter_webview_app/AppConfigParser.kt:46-48 | a rendered number has no whitespace at its ends, so the parser's trim leaves it alone |
| `Strings.ExpandLineBreaks` | android/app/src/main/kotlin/com/example/flutter_webview_app/AppConfigData.kt:49-51 | `replace("|@|", "\n")` / `replacingOccurrences`: left to right and without overlap, each marker becomes one newline (its properties are the three lemmas below) |
| `Strings.ExpandedHasNoMarker` | android/app/src/main/kotlin/com/example/flutter_webview_app/AppConfigData.kt:49-51 | no `|@|` is left after the expansion |
| `Strings.ExpandWithoutMarker` | ios/Runner/AppConfigData.swift:77-83 | text without `|@|` is returned unchanged |
| `Strings.ExpandAcrossMarker` | android/app/src/main/kotlin/com/example/flutter_webview_app/AppConfigData.kt:49 | a marker between two pieces becomes exactly one newline, and the rest is expanded on its own |
| `AppConfig.WebsiteDomain` | android/app/src/main/kotlin/com/example/flutter_webview_app/AppConfig.kt:56-63 | the domain is empty exactly when the URL parser gives no host (or an empty one), and is the host otherwise; every other member takes this domain as a parameter |
| `AppConfig.HttpsUrlInjective` | android/app/src/main/kotlin/com/example/flutter_webview_app/AppConfig.kt:65-90 | two `https://domain/path` URLs with the same path coincide only for the same domain |
| `AppConfig.AppInfoUrl` | android/app/src/main/kotlin/com/example/flutter_webview_app/AppConfig.kt:65-72 | empty exactly when the domain is empty, otherwise `https://domain/` plus the app-info path |
| `AppConfig.AppInfoIosUrl` | ios/Runner/AppConfig.swift:67-71 | empty exactly when the domain is empty, otherwise `https://domain/` plus the iOS app-info path |
| `AppConfig.DeviceTokenUrl` | android/app/src/main/kotlin/com/example/flutter_webview_app/AppConfig.kt:74-81 | empty exactly when the domain is empty, otherwise `https://domain/` plus the device-token path |
| `AppConfig.BackgroundImageUrl` | ios/Runner/AppConfig.swift:79-87 | empty exactly when the domain or the path is empty or the path is `"-99"`, otherwise `https://domain/path` |
| `AppConfig.EndpointsDistinct` | ios/Runner/AppConfig.swift:61-77 | the three endpoints of one domain differ pairwise, and each determines its domain |
| `AppConfig.AndroidAppInfoRequestUrl` | android/app/src/main/kotlin/com/example/flutter_webview_app/AppConfigParser.kt:98-99 | the configured endpoint when the domain is non-empty, else the same path under `targetUrl` |
| `AppConfig.AndroidDeviceTokenRequestUrl` | android/app/src/main/kotlin/com/example/flutter_webview_app/AppConfigParser.kt:136-137 | the configured token endpoint when the domain is non-empty, else the same path under `targetUrl` |
| `AppConfig.IosAppInfoRequestUrl` | ios/Runner/AppConfigParser.swift:68-70 | the iOS endpoint unless it is empty, else the iOS path under `targetUrl` |
| `AppConfig.IosDeviceTokenRequestUrl` | ios/Runner/AppConfigParser.swift:131-133 | the token endpoint unless it is empty, else the token path under `targetUrl` |
| `AppConfig.RequestUrlsUseTheDomain` | android/app/src/main/kotlin/com/example/flutter_webview_app/SplashActivity.kt:183-193 | with `targetUrl` equal to the non-empty domain, both branches of every fallback give that domain's endpoint |
| `AppConfig.PushDelayIsShorter` | android/app/src/main/kotlin/com/example/flutter_webview_app/AppConfig.kt:24-25 | the push delay (500 ms) is positive and shorter than the default delay (3000 ms) |
| `ConfigData.Default` | android/app/src/main/kotlin/com/example/flutter_webview_app/AppConfigData.kt:7-20 | the record with every default: delay 3000, `appUse` 1, -99 for the two policy integers, `"-99"` for every string (its properties are `DefaultIsPermissive` and `DefaultFields`) |
| `ConfigData.IsAppUsable` | android/app/src/main/kotlin/com/example/flutter_webview_app/AppConfigData.kt:24 | `isAppUsable`: only `app_use` -1 switches the app off (its use is stated by `HandleAppConfig` and `UnusableDecidesAlone`) |
| `ConfigData.HasBackgroundImage` | android/app/src/main/kotlin/com/example/flutter_webview_app/AppConfigData.kt:29 | `hasBackgroundImage`: the image path is neither `"-99"` nor empty (stated by `BackgroundImageUrlIffImage`) |
| `ConfigData.NeedsVersionCheck` | android/app/src/main/kotlin/com/example/flutter_webview_app/AppConfigData.kt:34 | `needsVersionCheck`: a version and an update policy are both declared (stated by `PolicyOf`) |
| `ConfigData.NeedsNotification` | android/app/src/main/kotlin/com/example/flutter_webview_app/AppConfigData.kt:39 | `needsNotification`: the notice is on and its title, text and button mode are all present (stated by `HandleAppConfig` and `Next`) |
| `ConfigData.IsRequiredUpdate` | android/app/src/main/kotlin/com/example/flutter_webview_app/AppConfigData.kt:44 | `isRequiredUpdate`: `app_update` 1 is mandatory, every other value optional (stated by `PolicyOf` and `GateFollowsPolicy`) |
| `ConfigData.FormattedUpdateDesc` | android/app/src/main/kotlin/com/example/flutter_webview_app/AppConfigData.kt:49 | the formatted update text has no `|@|`, and marker-free text is unchanged |
| `ConfigData.FormattedNotiDesc` | ios/Runner/AppConfigData.swift:81-83 | the formatted notice text has no `|@|`, and marker-free text is unchanged |
| `ConfigData.PolicyOf` | android/app/src/main/kotlin/com/example/flutter_webview_app/AppConfigData.kt:34-44 | `needsVersionCheck` and `isRequiredUpdate` together: no gate iff the version or `app_update` is absent; mandatory iff gated with `app_update == 1`; optional for every other gated value |
| `ConfigData.PolicyOfRawValues` | ios/Runner/AppConfigData.swift:62-74 | with a declared version, -99 is no gate, 1 mandatory, and 0, 2 and -1 all optional |
| `ConfigData.BackgroundImageUrlIffImage` | android/app/src/main/kotlin/com/example/flutter_webview_app/AppConfigData.kt:29 | with a domain, an image URL is built exactly when `hasBackgroundImage` holds (`bgImage` neither `"-99"` nor empty) |
| `ConfigData.DefaultIsPermissive` | android/app/src/main/kotlin/com/example/flutter_webview_app/AppConfigData.kt:8-19 | the defaults are delay 3000, `appUse` 1, -99 for the two policy integers and `"-99"` for every string (with `appId`); that record is usable and has no image, no gate and no notice |
| `ConfigData.DefaultFields` | ios/Runner/AppConfigData.swift:21-35 | each field of the default record is that field's own default value |
| `ConfigData.KeyOfWireName` | ios/Runner/AppConfigData.swift:87-102 | each field's wire name leads back to that field, so no two fields share a key |
| `ConfigData.WithFieldFrame` | android/app/src/main/kotlin/com/example/flutter_webview_app/AppConfigParser.kt:47-60 | storing one field leaves every other field as it was |
| `ConfigData.FieldsDetermineRecord` | ios/Runner/AppConfigData.swift:41-55 | two records with the same thirteen fields are the same record |
| `XmlParser.XmlKey` | android/app/src/main/kotlin/com/example/flutter_webview_app/AppConfigParser.kt:47-60 | a tag selects a field exactly when it is one of the twelve dispatched wire names (`app_id` is not dispatched) |
| `XmlParser.XmlFieldValue` | android/app/src/main/kotlin/com/example/flutter_webview_app/AppConfigParser.kt:46-59 | the value a text event stores: integers for exactly the four integer fields, read from the trimmed text with the field's fallback, strings as the trimmed text or `"-99"` when blank |
| `XmlParser.XmlFieldValueBounds` | android/app/src/main/kotlin/com/example/flutter_webview_app/AppConfigParser.kt:46-59 | a stored integer is 32-bit, and a stored string is non-empty and has no whitespace at its ends |
| `XmlParser.Step` | android/app/src/main/kotlin/com/example/flutter_webview_app/AppConfigParser.kt:40-67 | one pass of the `while` loop: a start tag becomes the open tag, an end tag closes it, text stores into the open tag's field, and a tokeniser failure ends the parse (its properties are `StepFrame`, `StepStoresText` and `StepIgnoresText`) |
| `XmlParser.Scan` | android/app/src/main/kotlin/com/example/flutter_webview_app/AppConfigParser.kt:40-67 | the loop run over the events in order, failing for good at the first failure (`ScanFailurePersists`) |
| `XmlParser.XmlConfig` | android/app/src/main/kotlin/com/example/flutter_webview_app/AppConfigParser.kt:17-87 | the record the whole event sequence builds, or null when parsing throws; `ParseXml` is proved to compute it |
| `XmlParser.StepFrame` | android/app/src/main/kotlin/com/example/flutter_webview_app/AppConfigParser.kt:40-66 | one event fails only when it is malformed; tags change only the open tag; text changes at most the field of the open tag |
| `XmlParser.StepStoresText` | android/app/src/main/kotlin/com/example/flutter_webview_app/AppConfigParser.kt:46-60 | text under an open field tag stores that field's converted value and nothing else |
| `XmlParser.StepIgnoresText` | android/app/src/main/kotlin/com/example/flutter_webview_app/AppConfigParser.kt:47-60 | text with no open tag, or under an unknown tag, changes nothing |
| `XmlParser.ScanFailurePersists` | android/app/src/main/kotlin/com/example/flutter_webview_app/AppConfigParser.kt:83-86 | once a prefix fails, every longer prefix fails too |
| `XmlParser.StoreText` | android/app/src/main/kotlin/com/example/flutter_webview_app/AppConfigParser.kt:46-60 | the `TEXT` branch (trim, then look the open tag up among the twelve tags the `when` lists, and store into that tag's field) performs exactly one step of the event-by-event specification |
| `XmlParser.StoreField` | android/app/src/main/kotlin/com/example/flutter_webview_app/AppConfigParser.kt:48-59 | each arm of the `when` assigns exactly the field its tag names: the integer arms read the text with `toIntOrNull` and fall back to 3000, 1, -99 and -99; the string arms store the text, or `"-99"` when it is empty |
| `XmlParser.XmlKeyOfWireName` | android/app/src/main/kotlin/com/example/flutter_webview_app/AppConfigParser.kt:47-59 | each of the twelve listed tags selects its own field |
| `XmlParser.ParseXml` | android/app/src/main/kotlin/com/example/flutter_webview_app/AppConfigParser.kt:17-87 | the loop, whose twelve field locals are held as one record beside `currentTag`, returns exactly the record that the event-by-event specification gives, or null on a parse failure |
| `XmlParser.XmlParseSucceedsIffWellFormed` | android/app/src/main/kotlin/com/example/flutter_webview_app/AppConfigParser.kt:83-86 | the parser returns null exactly when a malformed event occurs |
| `XmlParser.StepKeepsClosedField` | android/app/src/main/kotlin/com/example/flutter_webview_app/AppConfigParser.kt:42-64 | an event that does not open a closed field's tag leaves that field and keeps the tag closed |
| `XmlParser.FieldUntouched` | android/app/src/main/kotlin/com/example/flutter_webview_app/AppConfigParser.kt:42-64 | a field whose tag is not open and is never opened again keeps its value to the end |
| `XmlParser.UnopenedFieldKeepsDefault` | android/app/src/main/kotlin/com/example/flutter_webview_app/AppConfigParser.kt:24-35 | a field whose tag never appears keeps its initial default |
| `XmlParser.AppIdNeverSet` | android/app/src/main/kotlin/com/example/flutter_webview_app/AppConfigParser.kt:69-82 | the Android parser always leaves `appId` at `"-99"` |
| `XmlParser.LastTextWins` | android/app/src/main/kotlin/com/example/flutter_webview_app/AppConfigParser.kt:40-67 | when a field's element is followed only by events that do not reopen it, that element's text decides the field |
| `XmlParser.XmlRoundTrip` | android/app/src/main/kotlin/com/example/flutter_webview_app/AppConfigParser.kt:24-82 | the document that writes every field of an XML-representable record as its own element parses back to that record |
| `XmlParser.XmlReadsPaddedNumber` | android/app/src/main/kotlin/com/example/flutter_webview_app/AppConfigParser.kt:48 | an integer field's text holding a 32-bit number with surrounding whitespace is read as that number (`" 3000 "` gives 3000) |
| `XmlParser.XmlReadsTrimmedNumber` | android/app/src/main/kotlin/com/example/flutter_webview_app/AppConfigParser.kt:46-48 | an integer field whose text trims to a 32-bit number stores that number |
| `XmlParser.XmlOverflowFallsBack` | android/app/src/main/kotlin/com/example/flutter_webview_app/AppConfigParser.kt:51 | a number outside the 32-bit range falls back to the field's default (3000, 1 or -99) |
| `XmlParser.XmlBlankIsAbsent` | android/app/src/main/kotlin/com/example/flutter_webview_app/AppConfigParser.kt:49-59 | whitespace-only text under a string field stores the sentinel `"-99"` |
| `JsonParser.Lookup` | ios/Runner/AppConfigParser.swift:27-39 | a key's value is present exactly when the object has the key |
| `JsonParser.ParseInt` | ios/Runner/AppConfigParser.swift:180-188 | an integer is taken as it is; a string gives its 64-bit reading when it has one and the default otherwise; a missing or other value gives the default |
| `JsonParser.ParseString` | ios/Runner/AppConfigParser.swift:190-195 | a non-empty string is taken as it is; otherwise the result is the default |
| `JsonParser.ParseJson` | ios/Runner/AppConfigParser.swift:18-23 | a record comes back exactly when the top level is an object |
| `JsonParser.ParseJsonFields` | ios/Runner/AppConfigParser.swift:27-39 | each field is read from its own key with its own default, through `parseInt` or `parseString` by kind |
| `JsonParser.JsonMissingKeyDefault` | ios/Runner/AppConfigParser.swift:30 | a missing key leaves its field at the default (1 for `app_use`, -99 for `app_update`/`noti_use`, `"-99"` for `app_id`) |
| `JsonParser.JsonEmptyObjectIsDefault` | ios/Runner/AppConfigParser.swift:41-55 | an empty object parses to the all-defaults record |
| `JsonParser.ParseIntStringOrNumber` | ios/Runner/AppConfigParser.swift:181-186 | a 64-bit number reads the same given as a number or as its decimal string |
| `JsonParser.ParseIntSignedOrZeroPadded` | ios/Runner/AppConfigParser.swift:180-188 | a string with leading zeros or a `+` sign (`"007"`, `"+5"`) is read as its 64-bit value |
| `JsonParser.JsonDelayAsStringOrNumber` | ios/Runner/AppConfigParser.swift:27 | `delay_time` given as `"3000"`-style text or as a number gives that delay |
| `JsonParser.ParseIntDoesNotTrim` | ios/Runner/AppConfigParser.swift:184 | a number with leading whitespace is not read, and the default is used |
| `JsonParser.EncodeJsonFields` | ios/Runner/AppConfigData.swift:88-101 | the encoded object stores each field under its `CodingKeys` name |
| `JsonParser.JsonRoundTrip` | ios/Runner/AppConfigParser.swift:9-60 | a record with non-empty strings survives encoding and `parseJson` |
| `Splash.AppVersionIsTrimmed` | ios/Runner/SplashViewController.swift:192-201 | the local version is already trimmed, so `getCurrentVersionName` and the second trim return `"1.4.1"` |
| `Splash.StoreUrl` | ios/Runner/SplashViewController.swift:224-225 | Android: `market://details?id=hello.mobile`; iOS: the App Store link of `app_id`, or of the bundle id when `app_id` is `"-99"` |
| `Splash.UpdateDialogFor` | android/app/src/main/kotlin/com/example/flutter_webview_app/SplashActivity.kt:342-403 | `showUpdateDialog`: the update title, the formatted text, mandatory exactly when `isRequiredUpdate`, and the platform's store link (stated by `HandleAppConfig`) |
| `Splash.NoticeDialogFor` | android/app/src/main/kotlin/com/example/flutter_webview_app/SplashActivity.kt:408-447 | `showNotificationDialog`: the notice title, the formatted text, and a continue button exactly when `app_btn` is `"confirm"` (stated by `HandleAppConfig` and `NoticeRouting`) |
| `Splash.ProceedDelay` | android/app/src/main/kotlin/com/example/flutter_webview_app/SplashActivity.kt:287-292 | 500 ms when the push link is present and non-empty, else `delay_time` |
| `Splash.HandleAppConfig` | android/app/src/main/kotlin/com/example/flutter_webview_app/SplashActivity.kt:242-293 | not-use iff unusable; update iff usable, gated and the trimmed versions differ, and then the dialog is mandatory exactly when `app_update` is 1, links to the platform's store and shows the update title and formatted text; notice iff usable, not prompted to update and `needsNotification`, showing the notice title and formatted text and letting the user in exactly when `app_btn` is `"confirm"`; proceed otherwise, with the push or server delay; an image download iff usable, with an image and a domain (the iOS chain at SplashViewController.swift:148-190 is the same) |
| `Splash.Next` | android/app/src/main/kotlin/com/example/flutter_webview_app/SplashActivity.kt:322-447 | the not-use and no-connection dialogs exit; an update's store button, and every input of a mandatory update, open the store at the dialog's link and exit; the other inputs of an optional update show the notice when one is configured and otherwise proceed after `delay_time`; a confirm notice proceeds at once and any other notice exits; a finished screen is never changed |
| `Splash.Run` | android/app/src/main/kotlin/com/example/flutter_webview_app/SplashActivity.kt:322-447 | the screen after a sequence of dialog answers, each routed by `Next` (stated by `GateSettles`, `TerminalStays` and `MandatoryUpdateNeverProceeds`) |
| `Splash.SyncToken` | ios/Runner/SplashViewController.swift:102-120 | iOS hands no token to the sync; Android hands one exactly when the token task succeeded with a string |
| `Splash.Launch` | android/app/src/main/kotlin/com/example/flutter_webview_app/SplashActivity.kt:182-237 | no network gives the no-connection dialog; a request is made exactly with a network and a domain; a token is posted only after a record arrived |
| `Splash.UnusableDecidesAlone` | android/app/src/main/kotlin/com/example/flutter_webview_app/SplashActivity.kt:244-247 | an unusable record gives the not-use dialog and no download, whatever its other fields, the domain or the push link |
| `Splash.PaddedAppVersionMatches` | android/app/src/main/kotlin/com/example/flutter_webview_app/SplashActivity.kt:258-264 | a server version that is `"1.4.1"` up to surrounding whitespace raises no update dialog |
| `Splash.GateFollowsPolicy` | android/app/src/main/kotlin/com/example/flutter_webview_app/SplashActivity.kt:257-268 | with a version mismatch on a usable record, an update dialog is shown exactly when the policy gates, and it is mandatory exactly under the mandatory policy |
| `Splash.MandatoryUpdateNeverProceeds` | android/app/src/main/kotlin/com/example/flutter_webview_app/SplashActivity.kt:355-368 | for a usable record whose policy is mandatory (`app_update` 1 with a declared version) and whose version differs, the gate shows a mandatory update dialog with the update title, formatted text and store link and no "continue" button, and any answer to it opens the store at that link and exits |
| `Splash.OptionalContinueIgnoresPush` | android/app/src/main/kotlin/com/example/flutter_webview_app/SplashActivity.kt:369-398 | continuing an optional update without a notice proceeds after `delay_time`, even when a push link is present |
| `Splash.NoticeRouting` | android/app/src/main/kotlin/com/example/flutter_webview_app/SplashActivity.kt:418-443 | every input of a `"confirm"` notice proceeds at once (0 ms); every input of any other notice exits |
| `Splash.OptionalUpdateThenNotice` | ios/Runner/SplashViewController.swift:234-273 | continuing an optional update with a notice configured shows the notice, and its answer decides: proceed at once for `"confirm"`, exit otherwise |
| `Splash.CancelActsAsDismiss` | android/app/src/main/kotlin/com/example/flutter_webview_app/SplashActivity.kt:374-397 | a cancel routes as a dismiss does, and on an optional update both route as "continue" |
| `Splash.GateSettles` | ios/Runner/SplashViewController.swift:149-273 | whatever the record and the dialog answers, the screen reaches proceed, store or exit within two answers |
| `Splash.TerminalStays` | android/app/src/main/kotlin/com/example/flutter_webview_app/SplashActivity.kt:613-616 | inputs after the end change nothing |
| `Splash.DialogTextsHaveNoMarker` | ios/Runner/SplashViewController.swift:217-262 | neither dialog shows a raw `|@|` |
| `Splash.LaunchFallsBackToDefaultDelay` | android/app/src/main/kotlin/com/example/flutter_webview_app/SplashActivity.kt:224-234 | an empty domain, a null record or a failed sync proceed after 3000 ms, with no dialog, download or token post |
| `Splash.TokenPostedOnlyOnAndroid` | ios/Runner/SplashViewController.swift:134-138 | iOS never posts a token; Android posts exactly when it received a string token and a record, to the domain's token endpoint |
| `Splash.LaunchRequestsTheDomain` | ios/Runner/SplashViewController.swift:102-115 | with a domain, each platform requests its own app-info endpoint on that domain |
| `Splash.LaunchWithRecordIsHandleAppConfig` | android/app/src/main/kotlin/com/example/flutter_webview_app/SplashActivity.kt:223 | with a record, the launch decides exactly as `handleAppConfig` does |
| `SplashScreen.Preferences.constructor` | android/app/src/main/kotlin/com/example/flutter_webview_app/SplashActivity.kt:72 | a fresh install reads `isFirst` as false |
| `SplashScreen.Preferences.SeedIfFirstLaunch` | ios/Runner/SplashViewController.swift:38-42 | seeding happens exactly when the flag was unset, and the flag is set afterwards |
| `SplashScreen.LaunchRepeatedly` | android/app/src/main/kotlin/com/example/flutter_webview_app/SplashActivity.kt:71-79 | running the first-launch check on one stored flag over any number of launches seeds the image once on a fresh install and never from a set flag, and leaves the flag set |
| `SplashScreen.BackPressesExitIff` | android/app/src/main/kotlin/com/example/flutter_webview_app/SplashActivity.kt:621-637 | a run of back presses exits exactly when two consecutive presses are 0 to 2000 ms apart; otherwise the last press is remembered |
| `SplashScreen.BackPress` | android/app/src/main/kotlin/com/example/flutter_webview_app/SplashActivity.kt:621-637 | one back press: exit when it comes 0 to 2000 ms after the remembered press, else remember its time (stated by `BackPressesExitIff` and `OnKeyDown`) |
| `SplashScreen.ClockBackwardsRearms` | android/app/src/main/kotlin/com/example/flutter_webview_app/SplashActivity.kt:625-631 | a negative gap re-arms the timer at the new time instead of exiting |
| `SplashScreen.LaunchPushUrl` | android/app/src/main/kotlin/com/example/flutter_webview_app/SplashActivity.kt:65-68 | Android keeps the `url` extra only when present and non-empty; iOS keeps the launch URL as it is |
| `SplashScreen.PushDelayNeedsALink` | ios/Runner/SplashViewController.swift:29-35 | the push delay applies exactly when the launch carried a non-empty link |
| `SplashScreen.Screen.constructor` | android/app/src/main/kotlin/com/example/flutter_webview_app/SplashActivity.kt:38-42 | a new screen has no push link, token or record, and a back-press time of 0 |
| `SplashScreen.Screen.ReadLaunchUrl` | ios/Runner/SplashViewController.swift:29-35 | the kept push link is replaced by the launch's link when there is one, and nothing else changes |
| `SplashScreen.Screen.ReceiveToken` | android/app/src/main/kotlin/com/example/flutter_webview_app/SplashActivity.kt:131-136 | only Android's successful token task sets the kept token (to null for a non-string result) |
| `SplashScreen.Screen.CompleteSync` | ios/Runner/SplashViewController.swift:127-145 | the kept record becomes the received one, and with a record the decision is `handleAppConfig` of it and the kept push link |
| `SplashScreen.Screen.OnKeyDown` | android/app/src/main/kotlin/com/example/flutter_webview_app/SplashActivity.kt:621-637 | a back press is consumed and exits within 2000 ms of the remembered press, else remembers its time; other keys pass through unchanged |

## Left out

- HTTP transport is not modelled: connections, timeouts, status codes and
  request bodies. Only the request URLs and their fallbacks are kept, and
  the fetch's outcome is an input (`FetchOutcome`).
- The XML tokeniser (`XmlPullParser`) is a foreign library. Its output is
  the event sequence. A tokeniser exception is a `Malformed` event at the
  point where it would be thrown.
- `JSONSerialization` is a foreign library. Its output is a `JsonDocument`.
  The UTF-8 conversion guard cannot fail on a Swift string, so it is not
  modelled.
- `NSNumber` bridging is not modelled: booleans and whole-valued floats can
  cast to `Int` in Swift, but here only `JInt` is an integer.
- `JsonParser.ParseInt`: `JInt` carries any integer rather than only 64-bit
  ones.
- Integer parsing reads ASCII digits only. `toIntOrNull` also accepts other
  Unicode decimal digits.
- Swift compares strings by canonical equivalence. The model compares
  character sequences.
- Host extraction in `getWebsiteDomain` (`Uri.parse`, `URL.host`) is a
  foreign call. The host is a parameter, and the domain is a parameter
  everywhere else.
- Image download, decoding and cache files are I/O. Only the download
  request (URL and name) is modelled.
- The seeded loading image and `loadSplashImage` are I/O. Only the
  first-launch flag is modelled.
- Executors, dispatch queues, `postDelayed` and `asyncAfter` are not
  modelled. A delay is the number of milliseconds handed on.
- iOS stores delays as `TimeInterval` seconds, which is floating point.
  The model uses integer milliseconds.
- A negative `delay_time` is not modelled: it is handed on as it is, and
  what the scheduler does with it is out of scope.
- Reachability checks are an input (`networkAvailable`).
- Firebase reflection is not modelled. Its result is a `TokenOutcome`.
- Alert presentation, `startActivity`, `finishAffinity` and
  `System.exit`/`exit(0)` are side effects. Dialogs are `Action` values,
  and leaving the splash screen is `Proceed`, `OpenStoreAndExit` or `Exit`.
- Android's dismiss listener also fires after a button click. The model
  treats each answer as one event.
- The `ifEmpty { packageName }` fallback for the store link is not modelled.
  The package name constant is non-empty, so that branch never runs.
- `SplashScreen.Screen.OnKeyDown` does not model 64-bit `Long` wrap-around
  in `now - backBtnTime`. Clock times are unbounded integers.
- `SplashScreen.Screen.OnKeyDown`: iOS has no back key. Its `backBtnTime`
  field is never used, so the method models Android only.
- The rest of the repository is not part of this model: `MainActivity`,
  `AppDelegate`, the WebView, the method channels and the Flutter side.
