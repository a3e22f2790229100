/** The Android payload parser (`AppConfigParser.parseXml`): a pull-parser loop
    that remembers the most recently opened tag and, on each text event,
    stores the trimmed text into the field that tag names. The tokeniser is
    not modelled: the document arrives as the sequence of events
    `XmlPullParser.next()` reports before END_DOCUMENT, and a tokeniser
    failure is the `Malformed` event at the point where `next()` throws. */
module XmlParser {
  import opened Common
  import opened ConfigData
  import Strings
  import AppConfig

  datatype XmlEvent = StartTag(name: string) | Text(text: string) | EndTag | Malformed

  /** The loop's state: the record built so far and the open tag, if any. */
  datatype ScanState = ScanState(config: AppConfigData, currentTag: Option<string>)

  /** The twelve tags the Android parser dispatches on; `app_id` is not among
      them, so on Android that field always keeps its sentinel. */
  function XmlKey(tag: string): (k: Option<Key>)
    ensures k.Some? ==> k.value != AppId && WireName(k.value) == tag
    ensures k == None <==> tag == "app_id" || KeyOf(tag) == None
  {
    if tag == "app_id" then None else KeyOf(tag)
  }

  /** What the parser stores for a field, given the raw text of the event: the
      text is trimmed; integers go through `toIntOrNull` (32-bit) and fall back
      to the field's default; an empty string becomes the sentinel. */
  function XmlFieldValue(k: Key, raw: string): (v: FieldValue)
    ensures IsIntKey(k) <==> v.IntVal?
  {
    TextValue(k, Strings.Trim(Android, raw))
  }

  /** The value the `when` assigns for already trimmed text. */
  function TextValue(k: Key, text: string): (v: FieldValue)
    ensures IsIntKey(k) <==> v.IntVal?
  {
    if IsIntKey(k) then IntVal(IntOr(text, DefaultValue(k).i)) else StrVal(OrSentinel(text))
  }

  /** `text.toIntOrNull() ?: fallback`: a 32-bit integer, or the fallback. */
  function IntOr(text: string, fallback: int): int {
    Strings.ParseInteger(text, Strings.Int32Min, Strings.Int32Max).GetOr(fallback)
  }

  /** `if (text.isEmpty()) "-99" else text`. */
  function OrSentinel(text: string): string {
    if text == "" then Sentinel else text
  }

  /** Whatever the text, a stored integer is a 32-bit value and a stored string
      is non-empty and has no whitespace at either end. */
  lemma XmlFieldValueBounds(k: Key, raw: string)
    ensures var v := XmlFieldValue(k, raw);
      && (v.IntVal? ==> Strings.Int32Min <= v.i <= Strings.Int32Max)
      && (v.StrVal? ==> v.s != "" && Strings.Trim(Android, v.s) == v.s)
  {
    var text := Strings.Trim(Android, raw);
    if !IsIntKey(k) {
      if text == "" {
        Strings.TrimUnchanged(Android, Sentinel);
      } else {
        Strings.TrimIdempotent(Android, raw);
      }
    }
  }

  /** The state before the first event: every field at its default, no tag open. */
  function InitialState(): ScanState {
    ScanState(Default(), None)
  }

  /** One iteration of the `while` loop; `None` when `next()` throws. */
  function Step(st: ScanState, e: XmlEvent): Option<ScanState> {
    match e
    case StartTag(name) => Some(st.(currentTag := Some(name)))
    case EndTag => Some(st.(currentTag := None))
    case Malformed => None
    case Text(raw) =>
      match st.currentTag
      case None => Some(st)
      case Some(tag) =>
        match XmlKey(tag)
        case None => Some(st)
        case Some(k) => Some(st.(config := WithField(st.config, k, XmlFieldValue(k, raw))))
  }

  /** Only a thrown `next()` fails a step; tags change no field, and a text
      event changes at most the field the open tag names. */
  lemma StepFrame(st: ScanState, e: XmlEvent)
    ensures Step(st, e) == None <==> e.Malformed?
    ensures Step(st, e).Some? && !e.Text? ==> Step(st, e).value.config == st.config
    ensures Step(st, e).Some? ==> forall j ::
      Field(Step(st, e).value.config, j) == Field(st.config, j)
      || (e.Text? && st.currentTag.Some? && XmlKey(st.currentTag.value) == Some(j))
  {
    if e.Text? && st.currentTag.Some? && XmlKey(st.currentTag.value).Some? {
      var k := XmlKey(st.currentTag.value).value;
      WithFieldFrame(st.config, k, XmlFieldValue(k, e.text));
    }
  }

  /** Each of the twelve dispatched tags selects its own field. */
  lemma XmlKeyOfWireName(k: Key)
    requires k != AppId
    ensures XmlKey(WireName(k)) == Some(k)
  {
    KeyOfWireName(k);
    assert WireName(k) != "app_id" by {
      assert KeyOf("app_id") == Some(AppId);
    }
  }

  /** A text event under one of the twelve tags stores into that tag's field. */
  lemma StepStoresText(st: ScanState, k: Key, raw: string)
    requires k != AppId && st.currentTag == Some(WireName(k))
    ensures Step(st, Text(raw)) == Some(st.(config := WithField(st.config, k, XmlFieldValue(k, raw))))
  {
    XmlKeyOfWireName(k);
  }

  /** A text event with no tag open, or under any other tag, changes nothing. */
  lemma StepIgnoresText(st: ScanState, raw: string)
    requires st.currentTag == None || XmlKey(st.currentTag.value) == None
    ensures Step(st, Text(raw)) == Some(st)
  {
  }

  /** The loop run over a prefix of the events, the last event applied last. */
  function Scan(events: seq<XmlEvent>): Option<ScanState> {
    if events == [] then Some(InitialState())
    else
      match Scan(events[..|events| - 1])
      case None => None
      case Some(st) => Step(st, events[|events| - 1])
  }

  /** The parser's result: the record the whole event sequence builds, or
      `None` when parsing throws. */
  function XmlConfig(events: seq<XmlEvent>): Option<AppConfigData> {
    match Scan(events)
    case None => None
    case Some(st) => Some(st.config)
  }

  predicate WellFormed(events: seq<XmlEvent>) {
    forall i :: 0 <= i < |events| ==> !events[i].Malformed?
  }

  /** Once a prefix has thrown, the whole parse has. */
  lemma {:induction false} ScanFailurePersists(events: seq<XmlEvent>, k: nat)
    requires k <= |events|
    requires Scan(events[..k]) == None
    ensures Scan(events) == None
    decreases |events|
  {
    if k == |events| {
      assert events[..k] == events;
    } else {
      var front := events[..|events| - 1];
      assert front[..k] == events[..k];
      ScanFailurePersists(front, k);
    }
  }

  /** The `TEXT` branch of the loop: the text is trimmed, and the open tag,
      when it is one of the twelve the `when` lists (the table `XmlKey`),
      selects the field that receives it; proved to be one `Step`. */
  method StoreText(config: AppConfigData, currentTag: Option<string>, raw: string) returns (next: AppConfigData)
    ensures Step(ScanState(config, currentTag), Text(raw)) == Some(ScanState(next, currentTag))
  {
    next := config;
    if currentTag.Some? {
      var text := Strings.Trim(Android, raw);
      match XmlKey(currentTag.value) {
        case None =>
          StepIgnoresText(ScanState(config, currentTag), raw);
        case Some(k) =>
          next := StoreField(config, k, text);
          assert XmlFieldValue(k, raw) == TextValue(k, text);
      }
    } else {
      StepIgnoresText(ScanState(config, currentTag), raw);
    }
  }

  /** The arms of the `when`: each assigns its own local, integers through
      `toIntOrNull` with the field's default, strings with the sentinel for
      empty text. */
  method StoreField(config: AppConfigData, k: Key, text: string) returns (next: AppConfigData)
    requires k != AppId
    ensures next == WithField(config, k, TextValue(k, text))
  {
    match k {
      case DelayTime => next := config.(delayTime := IntOr(text, AppConfig.DefaultSplashDelayMs));
      case BgImage => next := config.(bgImage := OrSentinel(text));
      case BgName => next := config.(bgName := OrSentinel(text));
      case AppUse => next := config.(appUse := IntOr(text, 1));
      case AppVersion => next := config.(appVersion := OrSentinel(text));
      case UpdateTitle => next := config.(updateTitle := OrSentinel(text));
      case UpdateDesc => next := config.(updateDesc := OrSentinel(text));
      case AppUpdate => next := config.(appUpdate := IntOr(text, AbsentInt));
      case NotiUse => next := config.(notiUse := IntOr(text, AbsentInt));
      case NotiTitle => next := config.(notiTitle := OrSentinel(text));
      case NotiDesc => next := config.(notiDesc := OrSentinel(text));
      case AppBtn => next := config.(appBtn := OrSentinel(text));
    }
  }

  /** `parseXml`: the loop of the source. Its twelve field locals are the
      fields of `config` (the thirteenth, `appId`, is never assigned), and
      `currentTag` is the open tag; proved to compute `XmlConfig`. */
  method ParseXml(events: seq<XmlEvent>) returns (r: Option<AppConfigData>)
    ensures r == XmlConfig(events)
  {
    var config := Default();
    var currentTag: Option<string> := None;
    var i := 0;
    while i < |events|
      invariant 0 <= i <= |events|
      invariant Scan(events[..i]) == Some(ScanState(config, currentTag))
    {
      ghost var st := ScanState(config, currentTag);
      assert events[..i + 1][..i] == events[..i];
      assert Scan(events[..i + 1]) == Step(st, events[i]);
      match events[i] {
      case StartTag(name) =>
        currentTag := Some(name);
      case Text(raw) =>
        config := StoreText(config, currentTag, raw);
      case EndTag =>
        currentTag := None;
      case Malformed =>
        ScanFailurePersists(events, i + 1);
        return None;
      }
      i := i + 1;
    }
    assert events[..i] == events;
    r := Some(config);
  }

  // ---------------------------------------------------------------------------
  // What the parse promises
  // ---------------------------------------------------------------------------

  /** `parseXml` returns a record exactly when the tokeniser never throws. */
  lemma {:induction false} XmlParseSucceedsIffWellFormed(events: seq<XmlEvent>)
    ensures XmlConfig(events).Some? <==> WellFormed(events)
    decreases |events|
  {
    if events != [] {
      var front := events[..|events| - 1];
      XmlParseSucceedsIffWellFormed(front);
      assert WellFormed(events) <==> WellFormed(front) && !events[|events| - 1].Malformed? by {
        assert forall i :: 0 <= i < |front| ==> front[i] == events[i];
      }
      if Scan(front).Some? {
        StepFrame(Scan(front).value, events[|events| - 1]);
      }
    }
  }

  /** Scanning one more event is one more step. */
  lemma ScanSnoc(events: seq<XmlEvent>, e: XmlEvent)
    ensures Scan(events + [e]) == if Scan(events).None? then None else Step(Scan(events).value, e)
  {
    assert (events + [e])[..|events|] == events;
  }

  /** One event that does not open a field's tag, while that tag is closed,
      leaves the field as it was and the tag closed. */
  lemma StepKeepsClosedField(st: ScanState, e: XmlEvent, k: Key)
    requires st.currentTag != Some(WireName(k)) && e != StartTag(WireName(k))
    requires Step(st, e).Some?
    ensures Field(Step(st, e).value.config, k) == Field(st.config, k)
    ensures Step(st, e).value.currentTag != Some(WireName(k))
  {
    StepFrame(st, e);
  }

  /** A field whose tag is not open and is never opened again keeps its value,
      and its tag stays closed. */
  lemma {:induction false} FieldUntouched(events: seq<XmlEvent>, more: seq<XmlEvent>, k: Key)
    requires Scan(events).Some? && Scan(events).value.currentTag != Some(WireName(k))
    requires forall i :: 0 <= i < |more| ==> more[i] != StartTag(WireName(k))
    ensures Scan(events + more).Some? ==>
      && Field(Scan(events + more).value.config, k) == Field(Scan(events).value.config, k)
      && Scan(events + more).value.currentTag != Some(WireName(k))
    decreases |more|
  {
    if more == [] {
      assert events + more == events;
    } else {
      var front := more[..|more| - 1];
      var e := more[|more| - 1];
      assert events + more == (events + front) + [e];
      ScanSnoc(events + front, e);
      FieldUntouched(events, front, k);
      if Scan(events + front).Some? && Scan(events + more).Some? {
        StepKeepsClosedField(Scan(events + front).value, e, k);
      }
    }
  }

  /** A field whose tag never appears keeps its default (3000 for the delay, 1
      for `app_use`, -99 or the sentinel otherwise). */
  lemma UnopenedFieldKeepsDefault(events: seq<XmlEvent>, k: Key)
    requires k != AppId
    requires forall i :: 0 <= i < |events| ==> events[i] != StartTag(WireName(k))
    ensures XmlConfig(events).Some? ==> Field(XmlConfig(events).value, k) == DefaultValue(k)
  {
    assert [] + events == events;
    DefaultFields(k);
    FieldUntouched([], events, k);
  }

  /** The Android parser has no `app_id` branch: the field is the sentinel
      whatever the document says. */
  lemma {:induction false} AppIdNeverSet(events: seq<XmlEvent>)
    ensures XmlConfig(events).Some? ==> XmlConfig(events).value.appId == Sentinel
    decreases |events|
  {
    if events != [] {
      var front := events[..|events| - 1];
      AppIdNeverSet(front);
      if Scan(front).Some? && Scan(events).Some? {
        StepFrame(Scan(front).value, events[|events| - 1]);
        assert Field(Scan(front).value.config, AppId) == Field(Scan(events).value.config, AppId);
      }
    }
  }

  /** Opening a field's tag and reading text stores that text in the field
      and leaves the tag open. */
  lemma ScanOpenThenText(pre: seq<XmlEvent>, k: Key, raw: string)
    requires k != AppId && Scan(pre).Some?
    ensures Scan(pre + [StartTag(WireName(k)), Text(raw)])
      == Some(ScanState(WithField(Scan(pre).value.config, k, XmlFieldValue(k, raw)), Some(WireName(k))))
  {
    var tagged := pre + [StartTag(WireName(k))];
    ScanSnoc(pre, StartTag(WireName(k)));
    ScanSnoc(tagged, Text(raw));
    assert tagged + [Text(raw)] == pre + [StartTag(WireName(k)), Text(raw)];
    StepStoresText(Scan(pre).value.(currentTag := Some(WireName(k))), k, raw);
  }

  /** The text right after a field's opening tag is what the field ends up
      holding, provided the tag is not reopened and no second text event
      follows while it is still open: for one field, the last opening wins. */
  lemma LastTextWins(pre: seq<XmlEvent>, k: Key, raw: string, post: seq<XmlEvent>)
    requires k != AppId
    requires forall i :: 0 <= i < |post| ==> post[i] != StartTag(WireName(k))
    requires post == [] || !post[0].Text?
    ensures var doc := pre + [StartTag(WireName(k)), Text(raw)] + post;
      XmlConfig(doc).Some? ==> Field(XmlConfig(doc).value, k) == XmlFieldValue(k, raw)
  {
    var withText := pre + [StartTag(WireName(k)), Text(raw)];
    var doc := withText + post;
    if Scan(doc).Some? {
      if Scan(pre).None? {
        assert doc[..|pre|] == pre;
        ScanFailurePersists(doc, |pre|);
      } else {
        ScanOpenThenText(pre, k, raw);
        var st := Scan(withText).value;
        assert Field(st.config, k) == XmlFieldValue(k, raw);
        if post == [] {
          assert doc == withText;
        } else {
          LastTextWinsTail(withText, k, post);
        }
      }
    }
  }

  /** The tail of `LastTextWins`: after the text, a first event that is not
      text closes or replaces the tag, and the rest never reopens it. */
  lemma LastTextWinsTail(withText: seq<XmlEvent>, k: Key, post: seq<XmlEvent>)
    requires k != AppId && post != [] && !post[0].Text?
    requires Scan(withText).Some?
    requires forall i :: 0 <= i < |post| ==> post[i] != StartTag(WireName(k))
    ensures Scan(withText + post).Some? ==>
      Field(Scan(withText + post).value.config, k) == Field(Scan(withText).value.config, k)
  {
    var first := withText + [post[0]];
    SplitFirst(withText, post);
    ScanSnoc(withText, post[0]);
    if Scan(first).None? {
      if Scan(withText + post).Some? {
        ScanFailurePersists(withText + post, |first|);
      }
    } else {
      StepFrame(Scan(withText).value, post[0]);
      RestAvoidsTag(post, k);
      FieldUntouched(first, post[1..], k);
    }
  }

  /** Events after a prefix, split at the first of them. */
  lemma SplitFirst(events: seq<XmlEvent>, post: seq<XmlEvent>)
    requires post != []
    ensures events + post == (events + [post[0]]) + post[1..]
    ensures events + [post[0]] == (events + post)[..|events| + 1]
  {
  }

  /** A tail of events that never opens a tag still does not once its first
      event is dropped. */
  lemma RestAvoidsTag(post: seq<XmlEvent>, k: Key)
    requires post != []
    requires forall i :: 0 <= i < |post| ==> post[i] != StartTag(WireName(k))
    ensures forall i :: 0 <= i < |post[1..]| ==> post[1..][i] != StartTag(WireName(k))
  {
    forall i | 0 <= i < |post[1..]| ensures post[1..][i] != StartTag(WireName(k)) {
      assert post[1..][i] == post[i + 1];
    }
  }

  // ---------------------------------------------------------------------------
  // Round trip: a document written from a record parses back to it
  // ---------------------------------------------------------------------------

  /** The text a server writes for a value. */
  function Render(v: FieldValue): string {
    match v
    case IntVal(n) => Strings.IntToString(n)
    case StrVal(s) => s
  }

  /** A value the Android parser can carry: a 32-bit integer, or a non-empty
      string with no surrounding whitespace. */
  predicate XmlRepresentable(v: FieldValue) {
    match v
    case IntVal(n) => Strings.Int32Min <= n <= Strings.Int32Max
    case StrVal(s) => s != "" && Strings.Trim(Android, s) == s
  }

  /** `<tag>text</tag>` as pull-parser events. */
  function Element(k: Key, text: string): seq<XmlEvent> {
    [StartTag(WireName(k)), Text(text), EndTag]
  }

  /** The twelve elements the Android parser reads, in its own order. */
  const XmlFields: seq<Key> := [DelayTime, BgImage, BgName, AppUse, AppVersion, UpdateTitle,
    UpdateDesc, AppUpdate, NotiUse, NotiTitle, NotiDesc, AppBtn]

  /** Every field but `app_id` has an element. */
  lemma XmlFieldsCoverAll(k: Key)
    ensures k in XmlFields <==> k != AppId
  {
    if k != AppId {
      assert k == XmlFields[match k
        case DelayTime => 0 case BgImage => 1 case BgName => 2 case AppUse => 3
        case AppVersion => 4 case UpdateTitle => 5 case UpdateDesc => 6 case AppUpdate => 7
        case NotiUse => 8 case NotiTitle => 9 case NotiDesc => 10 case _ => 11];
    }
  }

  /** One element per key, each holding the rendered field of `c`. */
  function Document(c: AppConfigData, keys: seq<Key>): seq<XmlEvent> {
    if keys == [] then []
    else Document(c, keys[..|keys| - 1]) + Element(keys[|keys| - 1], Render(Field(c, keys[|keys| - 1])))
  }

  /** Parsing the rendering of a representable value gives the value back. */
  lemma XmlFieldValueRender(k: Key, v: FieldValue)
    requires IsIntKey(k) <==> v.IntVal?
    requires XmlRepresentable(v)
    ensures XmlFieldValue(k, Render(v)) == v
  {
    if v.IntVal? {
      Strings.IntToStringTrimmed(Android, v.i);
      Strings.ParseIntToString(v.i, Strings.Int32Min, Strings.Int32Max);
    }
  }

  /** One element, read after any well-formed prefix: the field is stored and
      the tag is closed again. */
  lemma ScanElement(events: seq<XmlEvent>, k: Key, text: string)
    requires k != AppId && Scan(events).Some?
    ensures Scan(events + Element(k, text))
      == Some(ScanState(WithField(Scan(events).value.config, k, XmlFieldValue(k, text)), None))
  {
    var tagged := events + [StartTag(WireName(k)), Text(text)];
    ScanOpenThenText(events, k, text);
    ScanSnoc(tagged, EndTag);
    assert events + Element(k, text) == tagged + [EndTag];
  }

  /** The document of some keys sets exactly those fields. */
  lemma {:induction false} ScanDocument(c: AppConfigData, keys: seq<Key>)
    requires forall i :: 0 <= i < |keys| ==> keys[i] != AppId && XmlRepresentable(Field(c, keys[i]))
    ensures Scan(Document(c, keys)).Some?
    ensures Scan(Document(c, keys)).value.currentTag == None
    ensures forall k ::
      Field(Scan(Document(c, keys)).value.config, k) == if k in keys then Field(c, k) else DefaultValue(k)
    decreases |keys|
  {
    if keys == [] {
      forall k ensures Field(Default(), k) == DefaultValue(k) {
        DefaultFields(k);
      }
    } else {
      var front := keys[..|keys| - 1];
      var last := keys[|keys| - 1];
      ScanDocument(c, front);
      var before := Scan(Document(c, front)).value.config;
      var v := XmlFieldValue(last, Render(Field(c, last)));
      XmlFieldValueRender(last, Field(c, last));
      ScanElement(Document(c, front), last, Render(Field(c, last)));
      WithFieldFrame(before, last, v);
      forall k ensures Field(WithField(before, last, v), k) == if k in keys then Field(c, k) else DefaultValue(k) {
        assert k in keys <==> k in front || k == last;
      }
    }
  }

  /** Every element the document of a representable record writes holds a
      value the parser can carry. */
  lemma XmlFieldsRepresentable(c: AppConfigData)
    requires forall k :: k != AppId ==> XmlRepresentable(Field(c, k))
    ensures forall i :: 0 <= i < |XmlFields| ==> XmlFields[i] != AppId && XmlRepresentable(Field(c, XmlFields[i]))
  {
    forall i | 0 <= i < |XmlFields| ensures XmlFields[i] != AppId {
      XmlFieldsCoverAll(XmlFields[i]);
    }
  }

  /** The document of a representable record scans back to that record, with
      no tag left open. */
  lemma ScanRecordDocument(c: AppConfigData)
    requires forall k :: k != AppId ==> XmlRepresentable(Field(c, k))
    requires c.appId == Sentinel
    ensures Scan(Document(c, XmlFields)) == Some(ScanState(c, None))
  {
    XmlFieldsRepresentable(c);
    ScanDocument(c, XmlFields);
    FieldsOfFullDocument(c, Scan(Document(c, XmlFields)).value.config);
  }

  /** A record that agrees with `c` on every field with an element, and holds
      the default `app_id`, is `c` when `c` has no `app_id` either. */
  lemma FieldsOfFullDocument(c: AppConfigData, d: AppConfigData)
    requires c.appId == Sentinel
    requires forall k :: Field(d, k) == if k in XmlFields then Field(c, k) else DefaultValue(k)
    ensures d == c
  {
    forall k ensures Field(d, k) == Field(c, k) {
      XmlFieldsCoverAll(k);
    }
    FieldsDetermineRecord(d, c);
  }

  /** Every record the Android parser can carry (32-bit integers, non-empty
      trimmed strings, no `app_id`) survives being written out and read back. */
  lemma XmlRoundTrip(c: AppConfigData)
    requires forall k :: k != AppId ==> XmlRepresentable(Field(c, k))
    requires c.appId == Sentinel
    ensures XmlConfig(Document(c, XmlFields)) == Some(c)
  {
    ScanRecordDocument(c);
  }

  /** Whitespace around a number is ignored: a padded in-range number is read
      as that number. */
  lemma XmlReadsPaddedNumber(k: Key, n: int, before: string, after: string)
    requires IsIntKey(k) && Strings.Int32Min <= n <= Strings.Int32Max
    requires Strings.AllSpace(Android, before) && Strings.AllSpace(Android, after)
    ensures XmlFieldValue(k, before + Strings.IntToString(n) + after) == IntVal(n)
  {
    Strings.IntToStringTrimmed(Android, n);
    Strings.TrimPadded(Android, before, Strings.IntToString(n), after);
    XmlReadsTrimmedNumber(k, n, before + Strings.IntToString(n) + after);
  }

  /** Text that trims to an in-range number stores that number. */
  lemma XmlReadsTrimmedNumber(k: Key, n: int, raw: string)
    requires IsIntKey(k) && Strings.Int32Min <= n <= Strings.Int32Max
    requires Strings.Trim(Android, raw) == Strings.IntToString(n)
    ensures XmlFieldValue(k, raw) == IntVal(n)
  {
    Strings.ParseIntToString(n, Strings.Int32Min, Strings.Int32Max);
  }

  /** A number beyond 32 bits is unreadable to `toIntOrNull`, so the field
      falls back to its default (e.g. 2147483648 in `app_update` reads -99). */
  lemma XmlOverflowFallsBack(k: Key, n: int)
    requires IsIntKey(k) && (n < Strings.Int32Min || Strings.Int32Max < n)
    ensures XmlFieldValue(k, Strings.IntToString(n)) == DefaultValue(k)
  {
    Strings.IntToStringTrimmed(Android, n);
    Strings.ParseIntToString(n, Strings.Int32Min, Strings.Int32Max);
  }

  /** Blank text stores the sentinel in a string field, never an empty string,
      and the default in an integer field. */
  lemma XmlBlankIsAbsent(k: Key, raw: string)
    requires Strings.AllSpace(Android, raw)
    ensures XmlFieldValue(k, raw) == DefaultValue(k)
  {
    Strings.TrimAllSpace(Android, raw);
  }
}
