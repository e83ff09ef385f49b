/** JSON string literals (section 7 of RFC 8259): `JSON.stringify` on a string,
    and an independent decoder. */
module JsonString {
  import opened JsText
  import opened Options

  const QUOTE: Unit := 0x22
  const BACKSLASH: Unit := 0x5C
  const LETTER_U: Unit := 0x75

  // ---- Writing ----

  /** A lower-case hexadecimal digit. */
  function HexDigit(d: int): Unit
    requires 0 <= d < 16
  {
    if d < 10 then 0x30 + d else 0x61 + (d - 10)
  }

  function HexEscape(u: Unit): (t: Text)
    ensures |t| == 6
  {
    [BACKSLASH, LETTER_U,
     HexDigit(u / 0x1000), HexDigit(u / 0x100 % 16), HexDigit(u / 16 % 16), HexDigit(u % 16)]
  }

  /** One code unit that is not the first half of a surrogate pair. */
  function EscapeUnit(u: Unit): (t: Text)
    ensures 1 <= |t| <= 6
  {
    if u == QUOTE || u == BACKSLASH then [BACKSLASH, u]
    else if u == 0x08 then [BACKSLASH, 0x62]
    else if u == 0x09 then [BACKSLASH, 0x74]
    else if u == 0x0A then [BACKSLASH, 0x6E]
    else if u == 0x0C then [BACKSLASH, 0x66]
    else if u == 0x0D then [BACKSLASH, 0x72]
    else if u < 0x20 || IsHigh(u) || IsLow(u) then HexEscape(u)
    else [u]
  }

  function Escape(s: Text): Text
  {
    if s == [] then []
    else if StartsWithPair(s) then s[..2] + Escape(s[2..])
    else EscapeUnit(s[0]) + Escape(s[1..])
  }

  function Quote(s: Text): Text { [QUOTE] + Escape(s) + [QUOTE] }

  // ---- Reading ----

  function HexValue(u: Unit): Option<int>
  {
    if 0x30 <= u <= 0x39 then Some(u - 0x30)
    else if 0x61 <= u <= 0x66 then Some(u - 0x61 + 10)
    else if 0x41 <= u <= 0x46 then Some(u - 0x41 + 10)
    else None
  }

  function ParseHex4(t: Text): (r: Option<Unit>)
    requires |t| == 4
  {
    var a, b, c, d := HexValue(t[0]), HexValue(t[1]), HexValue(t[2]), HexValue(t[3]);
    if a.None? || b.None? || c.None? || d.None? then None
    else
      var n := a.value * 0x1000 + b.value * 0x100 + c.value * 16 + d.value;
      if 0 <= n < 0x1_0000 then Some(n) else None
  }

  /** The unit meant by the character after a backslash, `\u` aside. */
  function SimpleEscape(u: Unit): Option<Unit>
  {
    if u == QUOTE || u == BACKSLASH || u == 0x2F then Some(u)
    else if u == 0x62 then Some(0x08)
    else if u == 0x66 then Some(0x0C)
    else if u == 0x6E then Some(0x0A)
    else if u == 0x72 then Some(0x0D)
    else if u == 0x74 then Some(0x09)
    else None
  }

  /** What was read, together with the text that follows it. */
  type Read = Option<(Text, Text)>

  function Prepend(s: Text, r: Read): Read
  {
    if r.None? then None else Some((s + r.value.0, r.value.1))
  }

  /** Reads the characters after an opening quote up to and including the closing
      one; returns the decoded text and what follows. */
  function ParseChars(t: Text): (r: Read)
    ensures r.Some? ==> |r.value.1| < |t|
  {
    if t == [] then None
    else if t[0] == QUOTE then Some(([], t[1..]))
    else if t[0] != BACKSLASH then
      if t[0] < 0x20 then None else Prepend([t[0]], ParseChars(t[1..]))
    else if |t| < 2 then None
    else if t[1] != LETTER_U then
      var u :- SimpleEscape(t[1]);
      Prepend([u], ParseChars(t[2..]))
    else if |t| < 6 then None
    else
      var u :- ParseHex4(t[2..6]);
      Prepend([u], ParseChars(t[6..]))
  }

  predicate IsJsonSpace(u: Unit) { u == 0x20 || u == 0x09 || u == 0x0A || u == 0x0D }

  function SkipJsonSpace(t: Text): (r: Text)
    ensures |r| <= |t|
  {
    if t != [] && IsJsonSpace(t[0]) then SkipJsonSpace(t[1..]) else t
  }

  /** `JSON.parse` where a string is wanted: None when it throws or yields
      anything but a string. */
  function ParseJsonString(t: Text): Option<Text>
  {
    var t' := SkipJsonSpace(t);
    if t' == [] || t'[0] != QUOTE then None
    else
      var (s, rest) :- ParseChars(t'[1..]);
      if SkipJsonSpace(rest) == [] then Some(s) else None
  }

  /** Hexadecimal digits are accepted in both cases, and nothing else is. */
  lemma HexDigitsAre(k: nat, u: Unit)
    requires k < 16
    ensures HexValue(Ascii("0123456789abcdef")[k]) == Some(k) && HexValue(Ascii("0123456789ABCDEF")[k]) == Some(k)
    ensures HexValue(u).Some? <==> 0x30 <= u < 0x3A || 0x61 <= u < 0x67 || 0x41 <= u < 0x47
  {
  }

  /** The one-character escapes of JSON. */
  lemma SimpleEscapesAre(u: Unit)
    ensures SimpleEscape(Ascii("\"")[0]) == Some(0x22) && SimpleEscape(Ascii("\\")[0]) == Some(0x5C)
    ensures SimpleEscape(Ascii("/")[0]) == Some(0x2F) && SimpleEscape(Ascii("b")[0]) == Some(0x08)
    ensures SimpleEscape(Ascii("f")[0]) == Some(0x0C) && SimpleEscape(Ascii("n")[0]) == Some(0x0A)
    ensures SimpleEscape(Ascii("r")[0]) == Some(0x0D) && SimpleEscape(Ascii("t")[0]) == Some(0x09)
    ensures SimpleEscape(u).Some? <==> u in {0x22, 0x5C, 0x2F, 0x62, 0x66, 0x6E, 0x72, 0x74}
  {
  }

  /** A control character inside a string makes it no JSON. */
  lemma {:induction false} ControlsAreRejected(plain: Text, u: Unit, rest: Text)
    requires u < 0x20 && forall i :: 0 <= i < |plain| ==> plain[i] != 0x22 && plain[i] != 0x5C
    ensures ParseChars(plain + [u] + rest) == None
    decreases |plain|
  {
    var t := plain + [u] + rest;
    if plain == [] {
      assert t[0] == u;
    } else {
      assert t[0] == plain[0] && t[1..] == plain[1..] + [u] + rest;
      ControlsAreRejected(plain[1..], u, rest);
    }
  }

  // ---- The decoder undoes the writer ----

  lemma HexDigitValue(d: int)
    requires 0 <= d < 16
    ensures HexValue(HexDigit(d)) == Some(d)
  {
  }

  lemma HexPlaces(u: Unit)
    ensures u == u / 0x1000 * 0x1000 + u / 0x100 % 16 * 0x100 + u / 16 % 16 * 16 + u % 16
    ensures u / 0x1000 < 16
  {
    assert u / 0x100 == u / 0x1000 * 16 + u / 0x100 % 16;
    assert u / 16 == u / 0x100 * 16 + u / 16 % 16;
  }

  lemma HexRoundTrip(u: Unit)
    ensures ParseHex4(HexEscape(u)[2..6]) == Some(u)
  {
    HexPlaces(u);
    HexDigitValue(u / 0x1000);
    HexDigitValue(u / 0x100 % 16);
    HexDigitValue(u / 16 % 16);
    HexDigitValue(u % 16);
    var d0, d1, d2, d3 := u / 0x1000, u / 0x100 % 16, u / 16 % 16, u % 16;
    var t := HexEscape(u)[2..6];
    assert t[0] == HexDigit(d0) && t[1] == HexDigit(d1) && t[2] == HexDigit(d2) && t[3] == HexDigit(d3);
  }

  lemma ParseHexEscaped(u: Unit, tail: Text)
    ensures ParseChars(HexEscape(u) + tail) == Prepend([u], ParseChars(tail))
  {
    var e := HexEscape(u);
    var t := e + tail;
    assert t[2..6] == e[2..6] && t[6..] == tail;
    HexRoundTrip(u);
  }

  lemma ParseShortEscaped(u: Unit, c: Unit, tail: Text)
    requires c != LETTER_U && SimpleEscape(c) == Some(u)
    ensures ParseChars([BACKSLASH, c] + tail) == Prepend([u], ParseChars(tail))
  {
    var t := [BACKSLASH, c] + tail;
    assert t[2..] == tail;
  }

  lemma ParseRawUnit(u: Unit, tail: Text)
    requires u >= 0x20 && u != QUOTE && u != BACKSLASH
    ensures ParseChars([u] + tail) == Prepend([u], ParseChars(tail))
  {
    var t := [u] + tail;
    assert t[1..] == tail;
  }

  lemma ParseEscapedUnit(u: Unit, tail: Text)
    ensures ParseChars(EscapeUnit(u) + tail) == Prepend([u], ParseChars(tail))
  {
    var e := EscapeUnit(u);
    if |e| == 6 {
      ParseHexEscaped(u, tail);
    } else if |e| == 2 {
      ParseShortEscaped(u, e[1], tail);
      assert e == [BACKSLASH, e[1]];
    } else {
      ParseRawUnit(u, tail);
    }
  }

  lemma PrependTwice(a: Text, b: Text, r: Read)
    ensures Prepend(a, Prepend(b, r)) == Prepend(a + b, r)
  {
    if r.Some? {
      assert a + (b + r.value.0) == a + b + r.value.0;
    }
  }

  lemma ParseEscapedPair(hi: Unit, lo: Unit, tail: Text)
    requires IsHigh(hi) && IsLow(lo)
    ensures ParseChars([hi, lo] + tail) == Prepend([hi, lo], ParseChars(tail))
  {
    assert [hi, lo] + tail == [hi] + ([lo] + tail);
    ParseRawUnit(hi, [lo] + tail);
    ParseRawUnit(lo, tail);
    PrependTwice([hi], [lo], ParseChars(tail));
    assert [hi] + [lo] == [hi, lo];
  }

  lemma EscapedFirst(s: Text, end: Text)
    requires s != []
    ensures StartsWithPair(s) ==> Escape(s) + end == s[..2] + (Escape(s[2..]) + end)
    ensures !StartsWithPair(s) ==> Escape(s) + end == EscapeUnit(s[0]) + (Escape(s[1..]) + end)
  {
    if StartsWithPair(s) {
      ConcatAssociates(s[..2], Escape(s[2..]), end);
    } else {
      ConcatAssociates(EscapeUnit(s[0]), Escape(s[1..]), end);
    }
  }

  lemma ParseEscapedThroughPair(s: Text, end: Text, rest: Text)
    requires StartsWithPair(s)
    requires ParseChars(Escape(s[2..]) + end) == Some((s[2..], rest))
    ensures ParseChars(Escape(s) + end) == Some((s, rest))
  {
    EscapedFirst(s, end);
    assert s[..2] == [s[0], s[1]];
    ParseEscapedPair(s[0], s[1], Escape(s[2..]) + end);
    assert s[..2] + s[2..] == s;
  }

  lemma ParseEscapedThroughUnit(s: Text, end: Text, rest: Text)
    requires s != [] && !StartsWithPair(s)
    requires ParseChars(Escape(s[1..]) + end) == Some((s[1..], rest))
    ensures ParseChars(Escape(s) + end) == Some((s, rest))
  {
    EscapedFirst(s, end);
    ParseEscapedUnit(s[0], Escape(s[1..]) + end);
    assert [s[0]] + s[1..] == s;
  }

  lemma {:induction false} ParseEscaped(s: Text, rest: Text)
    ensures ParseChars(Escape(s) + ([QUOTE] + rest)) == Some((s, rest))
    decreases |s|
  {
    var end := [QUOTE] + rest;
    if s == [] {
      assert Escape(s) + end == end;
      assert end[1..] == rest;
    } else if StartsWithPair(s) {
      ParseEscaped(s[2..], rest);
      ParseEscapedThroughPair(s, end, rest);
    } else {
      ParseEscaped(s[1..], rest);
      ParseEscapedThroughUnit(s, end, rest);
    }
  }

  /** `JSON.parse(JSON.stringify(s)) === s` for every string, including those
      with unpaired surrogates. */
  lemma QuoteRoundTrip(s: Text)
    ensures ParseJsonString(Quote(s)) == Some(s)
  {
    var q := Quote(s);
    assert q[1..] == Escape(s) + ([QUOTE] + []);
    ParseEscaped(s, []);
  }

  /** What is written never holds an unpaired surrogate, so a UTF-8 file keeps it. */
  lemma {:induction false} EscapeIsWellFormed(s: Text)
    ensures WellFormed(Escape(s))
    decreases |s|
  {
    if s == [] {
    } else if StartsWithPair(s) {
      EscapeIsWellFormed(s[2..]);
      var e := Escape(s);
      assert e[0] == s[0] && e[1] == s[1] && e[2..] == Escape(s[2..]);
    } else {
      EscapeIsWellFormed(s[1..]);
      EscapeUnitIsWellFormed(s[0]);
      WellFormedConcat(EscapeUnit(s[0]), Escape(s[1..]));
    }
  }

  lemma {:induction false} PlainIsWellFormed(t: Text)
    requires forall i :: 0 <= i < |t| ==> t[i] < 0x80
    ensures WellFormed(t) && Utf8Length(t) == |t|
    decreases |t|
  {
    if t != [] {
      PlainIsWellFormed(t[1..]);
    }
  }

  /** A unit that a JSON string may hold as it is. */
  predicate MayStand(u: Unit) { u >= 0x20 && u != 0x22 && u != 0x5C && !IsHigh(u) && !IsLow(u) }

  /** Only what must be escaped is, in the short form if there is one, otherwise by
      `\u` and four lower-case digits. */
  lemma EscapeIsMinimal(u: Unit)
    ensures MayStand(u) <==> EscapeUnit(u) == [u]
    ensures var e := EscapeUnit(u);
      match u
      case 0x08 => e == Ascii("\\b")
      case 0x09 => e == Ascii("\\t")
      case 0x0A => e == Ascii("\\n")
      case 0x0C => e == Ascii("\\f")
      case 0x0D => e == Ascii("\\r")
      case 0x22 => e == Ascii("\\\"")
      case 0x5C => e == Ascii("\\\\")
      case _ => !MayStand(u) ==>
          |e| == 6 && e[..2] == Ascii("\\u") && forall k :: 2 <= k < 6 ==> 0x30 <= e[k] <= 0x39 || 0x61 <= e[k] <= 0x66
  {
    HexPlaces(u);
  }

  lemma {:induction false} PlainEscape(s: Text)
    requires WellFormed(s) && forall i :: 0 <= i < |s| ==> s[i] >= 0x20 && s[i] != QUOTE && s[i] != BACKSLASH
    ensures Escape(s) == s
    decreases |s|
  {
    if StartsWithPair(s) {
      PlainEscape(s[2..]);
      assert s[..2] + s[2..] == s;
    } else if s != [] {
      PlainEscape(s[1..]);
      assert EscapeUnit(s[0]) == [s[0]];
      assert [s[0]] + s[1..] == s;
    }
  }

  /** Text without anything to escape stands as it is, characters beyond U+FFFF
      included. */
  lemma PlainTextStands(s: Text)
    requires WellFormed(s) && forall i :: 0 <= i < |s| ==> s[i] >= 0x20 && s[i] != 0x22 && s[i] != 0x5C
    ensures Quote(s) == Ascii("\"") + s + Ascii("\"")
  {
    PlainEscape(s);
    assert Ascii("\"") == [QUOTE];
  }

  lemma EscapeUnitIsWellFormed(u: Unit)
    ensures WellFormed(EscapeUnit(u))
    ensures Utf8Length(EscapeUnit(u)) <= 6
  {
    var e := EscapeUnit(u);
    if |e| == 1 {
      assert e[1..] == [];
    } else {
      PlainIsWellFormed(e);
    }
  }

  /** Six bytes for each code unit always suffice. */
  lemma {:induction false} EscapeLength(s: Text)
    ensures Utf8Length(Escape(s)) <= 6 * |s|
    decreases |s|
  {
    if s == [] {
    } else if StartsWithPair(s) {
      EscapeLength(s[2..]);
      var e := Escape(s);
      assert e[0] == s[0] && e[1] == s[1] && e[2..] == Escape(s[2..]);
    } else {
      EscapeLength(s[1..]);
      EscapeUnitIsWellFormed(s[0]);
      var e := EscapeUnit(s[0]);
      assert !IsHigh(e[|e| - 1]);
      Utf8LengthConcat(e, Escape(s[1..]));
    }
  }
}
