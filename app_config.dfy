/** Build-time configuration of the two shells (`AppConfig` on both
    platforms): the server paths, the splash delays, the local version and
    the URL builders. The website domain, which the source derives from a
    constant URL through the platform's URL parser, is a parameter here. */
module AppConfig {
  import opened Common

  const ServerApiPathAppInfo := "modules/appmgmt/libs/appInfo.php"
  const ServerApiPathAppInfoIos := "modules/appmgmt/libs/appInfo_ios.php"
  const ServerApiPathDeviceToken := "modules/appmgmt/libs/deviceToken.php"

  /** Splash delays in milliseconds (iOS stores them as seconds). */
  const DefaultSplashDelayMs := 3000
  const PushNotificationSplashDelayMs := 500

  /** The version the app reports for the update check, on both platforms. */
  const AppVersion := "1.4.1"
  /** Android: the Play Store package id; iOS: the bundle id used when the
      server names no App Store id. */
  const AndroidPackageName := "hello.mobile"
  const IosBundleId := "com.example.flutterWebviewApp"

  /** The host of the configured website URL, or empty when the platform's URL
      parser gives none (`getWebsiteDomain`). */
  function WebsiteDomain(host: Option<string>): (domain: string)
    ensures domain == "" <==> host == None || host == Some("")
    ensures host.Some? ==> domain == host.value
  {
    match host
    case Some(h) => h
    case None => ""
  }

  /** `https://{domain}/{path}`, the one URL shape every builder produces. */
  function HttpsUrl(domain: string, path: string): string {
    "https://" + domain + "/" + path
  }

  /** Two URLs of this shape with the same path are equal only for equal domains. */
  lemma HttpsUrlInjective(d1: string, d2: string, path: string)
    requires HttpsUrl(d1, path) == HttpsUrl(d2, path)
    ensures d1 == d2
  {
    var u := HttpsUrl(d1, path);
    assert |d1| == |d2|;
    forall i | 0 <= i < |d1| ensures d1[i] == d2[i] {
      assert u[8 + i] == d1[i];
      assert HttpsUrl(d2, path)[8 + i] == d2[i];
    }
  }

  /** The Android configuration endpoint, or "" without a domain. */
  function AppInfoUrl(domain: string): (url: string)
    ensures url == "" <==> domain == ""
    ensures domain != "" ==> url == HttpsUrl(domain, ServerApiPathAppInfo)
  {
    if domain != "" then "https://" + domain + "/" + ServerApiPathAppInfo else ""
  }

  /** The iOS configuration endpoint, or "" without a domain. */
  function AppInfoIosUrl(domain: string): (url: string)
    ensures url == "" <==> domain == ""
    ensures domain != "" ==> url == HttpsUrl(domain, ServerApiPathAppInfoIos)
  {
    if domain == "" then "" else "https://" + domain + "/" + ServerApiPathAppInfoIos
  }

  /** The token-registration endpoint, or "" without a domain. */
  function DeviceTokenUrl(domain: string): (url: string)
    ensures url == "" <==> domain == ""
    ensures domain != "" ==> url == HttpsUrl(domain, ServerApiPathDeviceToken)
  {
    if domain != "" then "https://" + domain + "/" + ServerApiPathDeviceToken else ""
  }

  /** The splash image URL; "" when the domain or the path is empty or the path
      is the "-99" sentinel. */
  function BackgroundImageUrl(domain: string, imagePath: string): (url: string)
    ensures url == "" <==> domain == "" || imagePath == "" || imagePath == "-99"
    ensures url != "" ==> url == HttpsUrl(domain, imagePath)
  {
    if domain != "" && imagePath != "" && imagePath != "-99" then "https://" + domain + "/" + imagePath else ""
  }

  /** The three endpoints of one domain are pairwise different, and each
      determines the domain it was built from. */
  lemma EndpointsDistinct(domain: string, other: string)
    requires domain != ""
    ensures AppInfoUrl(domain) != DeviceTokenUrl(domain)
    ensures AppInfoUrl(domain) != AppInfoIosUrl(domain)
    ensures AppInfoIosUrl(domain) != DeviceTokenUrl(domain)
    ensures AppInfoUrl(domain) == AppInfoUrl(other) ==> domain == other
    ensures DeviceTokenUrl(domain) == DeviceTokenUrl(other) ==> domain == other
  {
    var pre := |"https://" + domain + "/"|;
    assert AppInfoUrl(domain)[pre + 21] != DeviceTokenUrl(domain)[pre + 21];
    assert AppInfoUrl(domain)[pre + 28] != AppInfoIosUrl(domain)[pre + 28];
    assert AppInfoIosUrl(domain)[pre + 21] != DeviceTokenUrl(domain)[pre + 21];
    if AppInfoUrl(domain) == AppInfoUrl(other) {
      HttpsUrlInjective(domain, other, ServerApiPathAppInfo);
    }
    if DeviceTokenUrl(domain) == DeviceTokenUrl(other) {
      HttpsUrlInjective(domain, other, ServerApiPathDeviceToken);
    }
  }

  /** Android `fetchAppConfig`: `getAppInfoUrl()` unless it is empty, else the
      same path under the caller's `targetUrl`. */
  function AndroidAppInfoRequestUrl(domain: string, targetUrl: string): (url: string)
    ensures domain != "" ==> url == AppInfoUrl(domain)
    ensures domain == "" ==> url == HttpsUrl(targetUrl, ServerApiPathAppInfo)
  {
    var configured := AppInfoUrl(domain);
    if configured != "" then configured else "https://" + targetUrl + "/" + ServerApiPathAppInfo
  }

  /** Android `postDeviceToken`: `getDeviceTokenUrl()` unless it is empty, else
      the same path under `targetUrl`. */
  function AndroidDeviceTokenRequestUrl(domain: string, targetUrl: string): (url: string)
    ensures domain != "" ==> url == DeviceTokenUrl(domain)
    ensures domain == "" ==> url == HttpsUrl(targetUrl, ServerApiPathDeviceToken)
  {
    var configured := DeviceTokenUrl(domain);
    if configured != "" then configured else "https://" + targetUrl + "/" + ServerApiPathDeviceToken
  }

  /** iOS `fetchAppConfig`: the fallback is taken when `getAppInfoIOSUrl()` is empty. */
  function IosAppInfoRequestUrl(domain: string, targetUrl: string): (url: string)
    ensures domain != "" ==> url == AppInfoIosUrl(domain)
    ensures domain == "" ==> url == HttpsUrl(targetUrl, ServerApiPathAppInfoIos)
  {
    if AppInfoIosUrl(domain) == "" then "https://" + targetUrl + "/" + ServerApiPathAppInfoIos else AppInfoIosUrl(domain)
  }

  /** iOS `postDeviceToken`: the fallback is taken when `getDeviceTokenUrl()` is empty. */
  function IosDeviceTokenRequestUrl(domain: string, targetUrl: string): (url: string)
    ensures domain != "" ==> url == DeviceTokenUrl(domain)
    ensures domain == "" ==> url == HttpsUrl(targetUrl, ServerApiPathDeviceToken)
  {
    if DeviceTokenUrl(domain) == "" then "https://" + targetUrl + "/" + ServerApiPathDeviceToken else DeviceTokenUrl(domain)
  }

  /** The splash screen hands the fetcher `targetUrl == getWebsiteDomain()`, so
      the fallback never changes the request: whichever branch is taken, the
      request goes to the configured endpoint of that non-empty domain. */
  lemma RequestUrlsUseTheDomain(domain: string)
    requires domain != ""
    ensures AndroidAppInfoRequestUrl(domain, domain) == HttpsUrl(domain, ServerApiPathAppInfo)
    ensures AndroidDeviceTokenRequestUrl(domain, domain) == HttpsUrl(domain, ServerApiPathDeviceToken)
    ensures IosAppInfoRequestUrl(domain, domain) == HttpsUrl(domain, ServerApiPathAppInfoIos)
    ensures IosDeviceTokenRequestUrl(domain, domain) == HttpsUrl(domain, ServerApiPathDeviceToken)
  {
  }

  /** A push deep link shortens the splash: 500 ms against the 3000 ms default. */
  lemma PushDelayIsShorter()
    ensures 0 < PushNotificationSplashDelayMs < DefaultSplashDelayMs
  {
  }
}
