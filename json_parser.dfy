/** The iOS payload parser (`AppConfigParser.parseJson`): the decoded JSON
    object is read key by key through `parseInt` and `parseString`, each with
    its own default. `JSONSerialization` is not modelled: its output arrives as
    a `JsonDocument`, a top-level object being a map from keys to values. */
module JsonParser {
  import opened Common
  import opened ConfigData
  import Strings

  /** A JSON value as the helpers' casts see it: a number that bridges to
      `Int`, a string, or anything else (null, boolean, array, object, a
      fractional number). */
  datatype JVal = JInt(n: int) | JStr(s: string) | JOther

  /** What `JSONSerialization.jsonObject` yields: an object (`[String: Any]`),
      some other top-level value, or a thrown error. */
  datatype JsonDocument = JObject(fields: map<string, JVal>) | JNonObject | JMalformed

  /** `json[key]`: the value under a key, if the object has it. */
  function Lookup(json: map<string, JVal>, key: string): (v: Option<JVal>)
    ensures v.Some? <==> key in json
    ensures v.Some? ==> v.value == json[key]
  {
    if key in json then Some(json[key]) else None
  }

  /** `parseInt(from:defaultValue:)`: a number is taken as it is, a string is
      taken when `Int(String)` reads it (64-bit, untrimmed), anything else
      gives the default. */
  function ParseInt(value: Option<JVal>, defaultValue: int): (r: int)
    ensures value.Some? && value.value.JInt? ==> r == value.value.n
    ensures value.Some? && value.value.JStr? ==>
      r == Strings.ParseInteger(value.value.s, Strings.Int64Min, Strings.Int64Max).GetOr(defaultValue)
    ensures value.None? || value.value.JOther? ==> r == defaultValue
  {
    match value
    case Some(JInt(n)) => n
    case Some(JStr(s)) => Strings.ParseInteger(s, Strings.Int64Min, Strings.Int64Max).GetOr(defaultValue)
    case _ => defaultValue
  }

  /** `parseString(from:defaultValue:)`: a non-empty string is taken as it is;
      an empty string or a value of another kind gives the default. */
  function ParseString(value: Option<JVal>, defaultValue: string): (r: string)
    ensures value.Some? && value.value.JStr? && value.value.s != "" ==> r == value.value.s
    ensures r == defaultValue || (value == Some(JStr(r)) && r != "")
  {
    match value
    case Some(JStr(s)) => if s == "" then defaultValue else s
    case _ => defaultValue
  }

  /** `parseJson`: `nil` unless the top level is an object; otherwise every
      field is read under its own key with its own default, so a record always
      comes back. */
  function ParseJson(doc: JsonDocument): (r: Option<AppConfigData>)
    ensures r.Some? <==> doc.JObject?
  {
    match doc
    case JObject(json) =>
      var delayTime := ParseInt(Lookup(json, "delay_time"), 3000);
      var bgImage := ParseString(Lookup(json, "bg_image"), "-99");
      var bgName := ParseString(Lookup(json, "bg_name"), "-99");
      var appUse := ParseInt(Lookup(json, "app_use"), 1);
      var appVersion := ParseString(Lookup(json, "app_version"), "-99");
      var updateTitle := ParseString(Lookup(json, "update_title"), "-99");
      var updateDesc := ParseString(Lookup(json, "update_desc"), "-99");
      var appUpdate := ParseInt(Lookup(json, "app_update"), -99);
      var notiUse := ParseInt(Lookup(json, "noti_use"), -99);
      var notiTitle := ParseString(Lookup(json, "noti_title"), "-99");
      var notiDesc := ParseString(Lookup(json, "noti_desc"), "-99");
      var appBtn := ParseString(Lookup(json, "app_btn"), "-99");
      var appId := ParseString(Lookup(json, "app_id"), "-99");
      Some(AppConfigData(delayTime, bgImage, bgName, appUse, appVersion, updateTitle, updateDesc,
        appUpdate, notiUse, notiTitle, notiDesc, appBtn, appId))
    case _ => None
  }

  /** How one field is read from the value under its key: integers through
      `parseInt`, strings through `parseString`, each with the field's default. */
  function JsonFieldValue(k: Key, value: Option<JVal>): (v: FieldValue)
    ensures IsIntKey(k) <==> v.IntVal?
  {
    match DefaultValue(k)
    case IntVal(d) => IntVal(ParseInt(value, d))
    case StrVal(d) => StrVal(ParseString(value, d))
  }

  /** Every field of the parsed record is read from its own key (the `CodingKeys`
      name) with its own default: no field reads another's key. */
  lemma ParseJsonFields(json: map<string, JVal>, k: Key)
    ensures Field(ParseJson(JObject(json)).value, k) == JsonFieldValue(k, Lookup(json, WireName(k)))
  {
  }

  /** A key the object lacks leaves its field at the default; in particular
      `app_use` defaults to 1, `app_update` and `noti_use` to -99, `app_id` to
      the sentinel. */
  lemma JsonMissingKeyDefault(json: map<string, JVal>, k: Key)
    requires WireName(k) !in json
    ensures Field(ParseJson(JObject(json)).value, k) == DefaultValue(k)
  {
    ParseJsonFields(json, k);
  }

  /** An empty object parses to the all-defaults record. */
  lemma JsonEmptyObjectIsDefault()
    ensures ParseJson(JObject(map[])) == Some(Default())
  {
    var d := ParseJson(JObject(map[])).value;
    forall k ensures Field(d, k) == Field(Default(), k) {
      JsonMissingKeyDefault(map[], k);
      DefaultFields(k);
    }
    FieldsDetermineRecord(d, Default());
  }

  /** A number and its decimal string read the same when the string is in the
      64-bit range (so `"3000"` and 3000 both give a 3000 ms delay). */
  lemma ParseIntStringOrNumber(n: int, defaultValue: int)
    requires Strings.Int64Min <= n <= Strings.Int64Max
    ensures ParseInt(Some(JStr(Strings.IntToString(n))), defaultValue) == n
    ensures ParseInt(Some(JInt(n)), defaultValue) == n
  {
    Strings.ParseIntToString(n, Strings.Int64Min, Strings.Int64Max);
  }

  /** `delay_time` read as a string or as a number gives the same delay. */
  lemma JsonDelayAsStringOrNumber(json: map<string, JVal>, n: int)
    requires Strings.Int64Min <= n <= Strings.Int64Max
    requires Lookup(json, "delay_time") == Some(JStr(Strings.IntToString(n)))
      || Lookup(json, "delay_time") == Some(JInt(n))
    ensures ParseJson(JObject(json)).value.delayTime == n
  {
    ParseIntStringOrNumber(n, 3000);
  }

  /** A string with a `+` sign or leading zeros (`"+5"`, `"007"`) is read at
      its value when that fits in 64 bits, as `Int(String)` reads it. */
  lemma ParseIntSignedOrZeroPadded(n: nat, k: nat, defaultValue: int)
    requires n <= Strings.Int64Max
    ensures ParseInt(Some(JStr(Strings.Zeros(k) + Strings.NatToString(n))), defaultValue) == n
    ensures ParseInt(Some(JStr("+" + Strings.Zeros(k) + Strings.NatToString(n))), defaultValue) == n
  {
    Strings.LeadingZerosAndPlus(n, k, Strings.Int64Min, Strings.Int64Max);
  }

  /** Unlike the Android reader, iOS does not trim: a number with leading
      whitespace is unreadable and gives the default. */
  lemma ParseIntDoesNotTrim(pad: string, n: int, defaultValue: int)
    requires pad != [] && Strings.AllSpace(Ios, pad)
    ensures ParseInt(Some(JStr(pad + Strings.IntToString(n))), defaultValue) == defaultValue
  {
    var s := pad + Strings.IntToString(n);
    assert s[0] == pad[0];
    assert !Strings.IsDigit(s[0]);
  }

  // ---------------------------------------------------------------------------
  // Round trip: the `Codable` encoding of a record parses back to it
  // ---------------------------------------------------------------------------

  /** The value a field is written as. */
  function ToJson(v: FieldValue): JVal {
    match v
    case IntVal(n) => JInt(n)
    case StrVal(s) => JStr(s)
  }

  /** The object `Codable` writes for a record, under the `CodingKeys` names. */
  function EncodeJson(c: AppConfigData): map<string, JVal> {
    map[
      "delay_time" := JInt(c.delayTime), "bg_image" := JStr(c.bgImage), "bg_name" := JStr(c.bgName),
      "app_use" := JInt(c.appUse), "app_version" := JStr(c.appVersion),
      "update_title" := JStr(c.updateTitle), "update_desc" := JStr(c.updateDesc),
      "app_update" := JInt(c.appUpdate), "noti_use" := JInt(c.notiUse),
      "noti_title" := JStr(c.notiTitle), "noti_desc" := JStr(c.notiDesc),
      "app_btn" := JStr(c.appBtn), "app_id" := JStr(c.appId)]
  }

  /** The encoding stores each field under its own name. */
  lemma EncodeJsonFields(c: AppConfigData, k: Key)
    ensures Lookup(EncodeJson(c), WireName(k)) == Some(ToJson(Field(c, k)))
  {
  }

  /** A record whose strings are all non-empty survives the `Codable` encoding
      and `parseJson`; an empty string would come back as the sentinel. */
  lemma JsonRoundTrip(c: AppConfigData)
    requires forall k :: Field(c, k).StrVal? ==> Field(c, k).s != ""
    ensures ParseJson(JObject(EncodeJson(c))) == Some(c)
  {
    var d := ParseJson(JObject(EncodeJson(c))).value;
    forall k ensures Field(d, k) == Field(c, k) {
      ParseJsonFields(EncodeJson(c), k);
      EncodeJsonFields(c, k);
    }
    FieldsDetermineRecord(d, c);
  }
}
