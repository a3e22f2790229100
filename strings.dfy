/** String helpers the two shells take from their standard libraries:
    whitespace trimming, decimal integer parsing (Kotlin `toIntOrNull`,
    Swift `Int(String)`) and the `|@|` line-break expansion
    (Kotlin `replace`, Swift `replacingOccurrences`). */
module Strings {
  import opened Common

  // ---------------------------------------------------------------------------
  // Whitespace and trimming
  // ---------------------------------------------------------------------------

  /** Kotlin's `Char.isWhitespace` (Java whitespace or space separator) on
      Android; Foundation's `whitespacesAndNewlines` set on iOS. The two sets
      agree except for U+001C..U+001F (Android only) and U+0085 (iOS only). */
  predicate IsSpace(p: Platform, c: char) {
    || ('\t' <= c <= '\r')
    || c == ' ' || c == '\U{A0}' || c == '\U{1680}'
    || ('\U{2000}' <= c <= '\U{200A}')
    || c == '\U{2028}' || c == '\U{2029}' || c == '\U{202F}' || c == '\U{205F}' || c == '\U{3000}'
    || (p == Android && '\U{1C}' <= c <= '\U{1F}')
    || (p == Ios && c == '\U{85}')
  }

  /** Drops leading whitespace: the result is no longer than `s` and does not
      start with whitespace (that it is the suffix of `s` after a run of
      whitespace is `TrimStartCut`). */
  function TrimStart(p: Platform, s: string): (r: string)
    ensures |r| <= |s|
    ensures r == [] || !IsSpace(p, r[0])
  {
    if s != [] && IsSpace(p, s[0]) then TrimStart(p, s[1..]) else s
  }

  /** Drops trailing whitespace: the result is no longer than `s` and does not
      end with whitespace (that it is the prefix of `s` before a run of
      whitespace is `TrimEndCut`). */
  function TrimEnd(p: Platform, s: string): (r: string)
    ensures |r| <= |s|
    ensures r == [] || !IsSpace(p, r[|r| - 1])
  {
    if s != [] && IsSpace(p, s[|s| - 1]) then TrimEnd(p, s[..|s| - 1]) else s
  }

  /** `TrimStart` keeps a suffix of `s`, and everything it drops is whitespace. */
  lemma {:induction false} TrimStartCut(p: Platform, s: string)
    ensures TrimStart(p, s) == s[|s| - |TrimStart(p, s)|..]
    ensures forall i :: 0 <= i < |s| - |TrimStart(p, s)| ==> IsSpace(p, s[i])
    decreases |s|
  {
    if s != [] && IsSpace(p, s[0]) {
      TrimStartCut(p, s[1..]);
      assert s[1..][|s| - 1 - |TrimStart(p, s)|..] == s[|s| - |TrimStart(p, s)|..];
      forall i | 0 <= i < |s| - |TrimStart(p, s)| ensures IsSpace(p, s[i]) {
        if i > 0 {
          assert s[i] == s[1..][i - 1];
        }
      }
    }
  }

  /** `TrimEnd` keeps a prefix of `s`, and everything it drops is whitespace. */
  lemma {:induction false} TrimEndCut(p: Platform, s: string)
    ensures TrimEnd(p, s) == s[..|TrimEnd(p, s)|]
    ensures forall i :: |TrimEnd(p, s)| <= i < |s| ==> IsSpace(p, s[i])
    decreases |s|
  {
    if s != [] && IsSpace(p, s[|s| - 1]) {
      var front := s[..|s| - 1];
      TrimEndCut(p, front);
      assert front[..|TrimEnd(p, s)|] == s[..|TrimEnd(p, s)|];
      forall i | |TrimEnd(p, s)| <= i < |s| ensures IsSpace(p, s[i]) {
        if i < |s| - 1 {
          assert s[i] == front[i];
        }
      }
    }
  }

  /** Kotlin `trim()` / Swift `trimmingCharacters(in: .whitespacesAndNewlines)`. */
  function Trim(p: Platform, s: string): string {
    TrimEnd(p, TrimStart(p, s))
  }

  /** How many whitespace characters `Trim` cuts from the front. */
  function LeadingCut(p: Platform, s: string): nat {
    |s| - |TrimStart(p, s)|
  }

  /** The trimmed text is the piece of the input that starts after the
      leading whitespace, and neither of its ends is whitespace. */
  lemma TrimIsSlice(p: Platform, s: string)
    ensures LeadingCut(p, s) + |Trim(p, s)| <= |s|
    ensures Trim(p, s) == s[LeadingCut(p, s)..LeadingCut(p, s) + |Trim(p, s)|]
    ensures var r := Trim(p, s); r == [] || (!IsSpace(p, r[0]) && !IsSpace(p, r[|r| - 1]))
  {
    var t := TrimStart(p, s);
    var r := TrimEnd(p, t);
    TrimStartCut(p, s);
    TrimEndCut(p, t);
    PrefixOfSuffix(s, |s| - |t|, |r|);
    if r != [] {
      assert r[0] == t[0];
    }
  }

  /** A prefix of a suffix is a slice. */
  lemma PrefixOfSuffix<T>(s: seq<T>, a: nat, n: nat)
    requires a + n <= |s|
    ensures s[a..][..n] == s[a..a + n]
  {
  }

  /** Only whitespace is cut from the front. */
  lemma TrimCutsLeadingSpace(p: Platform, s: string)
    ensures forall i :: 0 <= i < LeadingCut(p, s) ==> IsSpace(p, s[i])
  {
    TrimStartCut(p, s);
    assert |s| - |TrimStart(p, s)| == LeadingCut(p, s);
  }

  /** Only whitespace is cut from the back. */
  lemma TrimCutsTrailingSpace(p: Platform, s: string)
    ensures forall i :: LeadingCut(p, s) + |Trim(p, s)| <= i < |s| ==> IsSpace(p, s[i])
  {
    var t := TrimStart(p, s);
    var a := |s| - |t|;
    TrimStartCut(p, s);
    TrimEndCut(p, t);
    forall i | a + |TrimEnd(p, t)| <= i < |s| ensures IsSpace(p, s[i]) {
      assert s[i] == t[i - a];
    }
  }

  predicate AllSpace(p: Platform, s: string) {
    forall i :: 0 <= i < |s| ==> IsSpace(p, s[i])
  }

  /** Leading whitespace in front of a non-space start is cut exactly. */
  lemma {:induction false} TrimStartPadded(p: Platform, a: string, s: string)
    requires AllSpace(p, a)
    requires s == [] || !IsSpace(p, s[0])
    ensures TrimStart(p, a + s) == s
    decreases |a|
  {
    if a == [] {
      assert a + s == s;
    } else {
      assert (a + s)[0] == a[0];
      assert (a + s)[1..] == a[1..] + s;
      TrimStartPadded(p, a[1..], s);
    }
  }

  /** Trailing whitespace after a non-space end is cut exactly. */
  lemma {:induction false} TrimEndPadded(p: Platform, s: string, b: string)
    requires AllSpace(p, b)
    requires s == [] || !IsSpace(p, s[|s| - 1])
    ensures TrimEnd(p, s + b) == s
    decreases |b|
  {
    if b == [] {
      assert s + b == s;
    } else {
      var front := b[..|b| - 1];
      assert (s + b)[|s + b| - 1] == b[|b| - 1];
      assert (s + b)[..|s + b| - 1] == s + front;
      TrimEndPadded(p, s, front);
    }
  }

  /** Blank text trims to nothing. */
  lemma TrimAllSpace(p: Platform, s: string)
    requires AllSpace(p, s)
    ensures Trim(p, s) == []
  {
    assert s + [] == s;
    TrimStartPadded(p, s, []);
  }

  /** Trimming whitespace padding gives back the padded text. */
  lemma TrimPadded(p: Platform, a: string, s: string, b: string)
    requires AllSpace(p, a) && AllSpace(p, b)
    requires s != [] && !IsSpace(p, s[0]) && !IsSpace(p, s[|s| - 1])
    ensures Trim(p, a + s + b) == s
  {
    assert a + s + b == a + (s + b);
    assert (s + b)[0] == s[0];
    TrimStartPadded(p, a, s + b);
    TrimEndPadded(p, s, b);
  }

  /** A string already free of surrounding whitespace is left as it is. */
  lemma {:induction false} TrimUnchanged(p: Platform, s: string)
    requires s == [] || (!IsSpace(p, s[0]) && !IsSpace(p, s[|s| - 1]))
    ensures Trim(p, s) == s
  {
  }

  /** Trimming twice is trimming once, so both shells may trim the local
      version string again before comparing it. */
  lemma TrimIdempotent(p: Platform, s: string)
    ensures Trim(p, Trim(p, s)) == Trim(p, s)
  {
    TrimIsSlice(p, s);
    TrimUnchanged(p, Trim(p, s));
  }

  // ---------------------------------------------------------------------------
  // Decimal integers
  // ---------------------------------------------------------------------------

  const Int32Min := -0x8000_0000
  const Int32Max := 0x7FFF_FFFF
  const Int64Min := -0x8000_0000_0000_0000
  const Int64Max := 0x7FFF_FFFF_FFFF_FFFF

  predicate IsDigit(c: char) { '0' <= c <= '9' }

  predicate AllDigits(s: string) {
    forall i :: 0 <= i < |s| ==> IsDigit(s[i])
  }

  /** The value of a string of ASCII decimal digits, most significant first. */
  function DigitsValue(s: string): nat
    requires AllDigits(s)
  {
    if s == [] then 0 else DigitsValue(s[..|s| - 1]) * 10 + (s[|s| - 1] as int - '0' as int)
  }

  function InRange(v: int, lo: int, hi: int): Option<int> {
    if lo <= v <= hi then Some(v) else None
  }

  /** Kotlin `String.toIntOrNull()` (with `lo..hi` the 32-bit range) and Swift
      `Int(String)` (the 64-bit range): an optional `+` or `-`, then one or more
      decimal digits and nothing else; a value outside the range is rejected. */
  function ParseInteger(s: string, lo: int, hi: int): (r: Option<int>)
    ensures r.Some? ==> lo <= r.value <= hi
    ensures r.Some? ==> s != [] && (AllDigits(s) || ((s[0] == '-' || s[0] == '+') && |s| > 1 && AllDigits(s[1..])))
    ensures s != [] && AllDigits(s) ==> r == InRange(DigitsValue(s), lo, hi)
    ensures |s| > 1 && s[0] == '+' && AllDigits(s[1..]) ==> r == InRange(DigitsValue(s[1..]), lo, hi)
    ensures |s| > 1 && s[0] == '-' && AllDigits(s[1..]) ==> r == InRange(-(DigitsValue(s[1..]) as int), lo, hi)
  {
    if s == [] then None
    else if s[0] == '-' || s[0] == '+' then
      var body := s[1..];
      if body == [] || !AllDigits(body) then None
      else
        var magnitude: int := DigitsValue(body);
        InRange(if s[0] == '-' then -magnitude else magnitude, lo, hi)
    else if AllDigits(s) then InRange(DigitsValue(s), lo, hi)
    else None
  }

  function DigitChar(d: nat): (c: char)
    requires d < 10
    ensures IsDigit(c) && c as int - '0' as int == d
  {
    ('0' as int + d) as char
  }

  /** Decimal rendering of a natural number, without leading zeros. */
  function NatToString(n: nat): (s: string)
    ensures |s| > 0 && AllDigits(s)
  {
    if n < 10 then [DigitChar(n)] else NatToString(n / 10) + [DigitChar(n % 10)]
  }

  /** Decimal rendering of an integer, as the server (or `Int.toString`) writes it. */
  function IntToString(n: int): string {
    if n < 0 then "-" + NatToString(-n) else NatToString(n)
  }

  lemma {:induction false} NatToStringValue(n: nat)
    ensures DigitsValue(NatToString(n)) == n
  {
    if n >= 10 {
      var s := NatToString(n);
      NatToStringValue(n / 10);
      assert s[..|s| - 1] == NatToString(n / 10);
    }
  }

  /** Round trip: parsing the decimal rendering of an integer gives it back
      when it is in range, and nothing when it is not, on both platforms'
      ranges. */
  lemma ParseIntToString(n: int, lo: int, hi: int)
    ensures ParseInteger(IntToString(n), lo, hi) == InRange(n, lo, hi)
  {
    var s := IntToString(n);
    if n < 0 {
      var body := NatToString(-n);
      assert s[0] == '-' && s[1..] == body;
      NatToStringValue(-n);
      assert DigitsValue(s[1..]) == -n;
    } else {
      NatToStringValue(n);
      assert IsDigit(s[0]);
      assert DigitsValue(s) == n;
    }
  }

  /** `k` zero digits. */
  function Zeros(k: nat): (z: string)
    ensures |z| == k && AllDigits(z)
  {
    seq(k, _ => '0')
  }

  /** Leading zeros add nothing to a digit string's value. */
  lemma {:induction false} DigitsValueLeadingZeros(k: nat, s: string)
    requires AllDigits(s)
    ensures AllDigits(Zeros(k) + s) && DigitsValue(Zeros(k) + s) == DigitsValue(s)
    decreases |s|
  {
    var t := Zeros(k) + s;
    assert AllDigits(t) by {
      forall i | 0 <= i < |t| ensures IsDigit(t[i]) {
        if i >= k {
          assert t[i] == s[i - k];
        }
      }
    }
    if s == [] {
      assert t == Zeros(k);
      ZerosValue(k);
    } else {
      assert t[..|t| - 1] == Zeros(k) + s[..|s| - 1];
      DigitsValueLeadingZeros(k, s[..|s| - 1]);
    }
  }

  /** A run of zeros is worth nothing. */
  lemma {:induction false} ZerosValue(k: nat)
    ensures DigitsValue(Zeros(k)) == 0
    decreases k
  {
    if k > 0 {
      assert Zeros(k)[..k - 1] == Zeros(k - 1);
      ZerosValue(k - 1);
    }
  }

  /** Zeros in front of a rendered number still spell that number. */
  lemma ZerosThenNumber(n: nat, k: nat)
    ensures var digits := Zeros(k) + NatToString(n);
      digits != [] && AllDigits(digits) && DigitsValue(digits) == n
  {
    DigitsValueLeadingZeros(k, NatToString(n));
    NatToStringValue(n);
  }

  /** A sign in front of a digit string is read as that sign. */
  lemma ParseSigned(sign: char, digits: string, lo: int, hi: int)
    requires sign == '+' || sign == '-'
    requires digits != [] && AllDigits(digits)
    ensures ParseInteger([sign] + digits, lo, hi)
      == InRange(if sign == '-' then -(DigitsValue(digits) as int) else DigitsValue(digits), lo, hi)
  {
    assert ([sign] + digits)[1..] == digits;
  }

  /** Both readers take a number written with a `+` sign or with leading
      zeros (`"+5"`, `"007"`) at its value, in range or not at all. */
  lemma LeadingZerosAndPlus(n: nat, k: nat, lo: int, hi: int)
    ensures ParseInteger(Zeros(k) + NatToString(n), lo, hi) == InRange(n, lo, hi)
    ensures ParseInteger("+" + Zeros(k) + NatToString(n), lo, hi) == InRange(n, lo, hi)
    ensures ParseInteger("-" + Zeros(k) + NatToString(n), lo, hi) == InRange(-(n as int), lo, hi)
  {
    var digits := Zeros(k) + NatToString(n);
    ZerosThenNumber(n, k);
    assert "+" + Zeros(k) + NatToString(n) == ['+'] + digits;
    assert "-" + Zeros(k) + NatToString(n) == ['-'] + digits;
    ParseSigned('+', digits, lo, hi);
    ParseSigned('-', digits, lo, hi);
  }

  /** A rendered integer neither starts nor ends with whitespace, so trimming
      leaves it as it is, on either platform. */
  lemma IntToStringTrimmed(p: Platform, n: int)
    ensures var s := IntToString(n); s != [] && !IsSpace(p, s[0]) && !IsSpace(p, s[|s| - 1])
    ensures Trim(p, IntToString(n)) == IntToString(n)
  {
    var s := IntToString(n);
    assert IsDigit(s[|s| - 1]);
    assert s[0] == '-' || IsDigit(s[0]);
    TrimUnchanged(p, s);
  }

  // ---------------------------------------------------------------------------
  // The `|@|` line-break marker
  // ---------------------------------------------------------------------------

  /** `s` holds the three characters `|@|` starting at index `i`. */
  predicate MarkerAt(s: string, i: int) {
    0 <= i && i + 3 <= |s| && s[i] == '|' && s[i + 1] == '@' && s[i + 2] == '|'
  }

  predicate ContainsMarker(s: string) {
    exists i :: 0 <= i < |s| && MarkerAt(s, i)
  }

  /** Every `|@|` replaced by a newline, scanning left to right without
      overlap, as `replace("|@|", "\n")` and `replacingOccurrences` do. */
  function ExpandLineBreaks(s: string): string {
    if |s| < 3 then s
    else if MarkerAt(s, 0) then "\n" + ExpandLineBreaks(s[3..])
    else [s[0]] + ExpandLineBreaks(s[1..])
  }

  lemma ExpandFirstChar(s: string)
    requires s != []
    ensures var r := ExpandLineBreaks(s); r != [] && r[0] == if MarkerAt(s, 0) then '\n' else s[0]
  {
  }

  /** The expanded text never shows the marker. */
  lemma {:induction false} ExpandedHasNoMarker(s: string)
    ensures !ContainsMarker(ExpandLineBreaks(s))
  {
    var r := ExpandLineBreaks(s);
    if |s| < 3 {
      assert r == s;
    } else if MarkerAt(s, 0) {
      var rest := ExpandLineBreaks(s[3..]);
      ExpandedHasNoMarker(s[3..]);
      assert r == "\n" + rest;
      forall i | 0 <= i < |r| ensures !MarkerAt(r, i) {
        if i > 0 {
          assert MarkerAt(r, i) ==> MarkerAt(rest, i - 1);
        }
      }
    } else {
      var t := s[1..];
      var rest := ExpandLineBreaks(t);
      ExpandedHasNoMarker(t);
      assert r == [s[0]] + rest;
      forall i | 0 <= i < |r| ensures !MarkerAt(r, i) {
        if i > 0 {
          assert MarkerAt(r, i) ==> MarkerAt(rest, i - 1);
        } else if s[0] == '|' && |r| >= 3 {
          // `|@|` at the front of the result would need `@|` at the front of
          // the expanded tail, hence `|@|` at the front of the input
          ExpandFirstChar(t);
          if rest[0] == '@' {
            if |t| < 3 {
              assert rest == t;
            } else {
              assert rest == [t[0]] + ExpandLineBreaks(t[1..]);
              ExpandFirstChar(t[1..]);
            }
            assert rest[1] != '|';
          }
        }
      }
    }
  }

  /** Text without the marker is returned unchanged. */
  lemma {:induction false} ExpandWithoutMarker(s: string)
    requires !ContainsMarker(s)
    ensures ExpandLineBreaks(s) == s
  {
    if |s| >= 3 {
      assert !MarkerAt(s, 0);
      forall i | MarkerAt(s[1..], i) ensures false {
        assert MarkerAt(s, i + 1);
      }
      ExpandWithoutMarker(s[1..]);
    }
  }

  /** The two facts together: no marker survives, and marker-free text is kept. */
  lemma ExpandLineBreaksFacts(s: string)
    ensures !ContainsMarker(ExpandLineBreaks(s))
    ensures !ContainsMarker(s) ==> ExpandLineBreaks(s) == s
  {
    ExpandedHasNoMarker(s);
    if !ContainsMarker(s) {
      ExpandWithoutMarker(s);
    }
  }

  /** Each marker becomes exactly one newline: text split around one marker
      expands piecewise, when the part before it holds no `|` that could
      start a marker across the cut. */
  lemma {:induction false} ExpandAcrossMarker(a: string, b: string)
    requires forall i :: 0 <= i < |a| ==> a[i] != '|'
    ensures ExpandLineBreaks(a + "|@|" + b) == a + "\n" + ExpandLineBreaks(b)
  {
    var s := a + "|@|" + b;
    if a == [] {
      assert s == "|@|" + b && MarkerAt(s, 0) && s[3..] == b;
    } else {
      assert !MarkerAt(s, 0);
      assert s[1..] == a[1..] + "|@|" + b;
      ExpandAcrossMarker(a[1..], b);
    }
  }
}
