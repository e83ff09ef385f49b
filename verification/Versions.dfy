/** Release versions: the grammar the scripts accept, their order as integers
    compare, and their precedence by section 11 of Semantic Versioning 2.0.0,
    defined independently over lists of identifiers. Print and parse are inverse,
    so that equal versions are equal texts. */
module Versions {
  import opened Decimal
  import opened JsText
  import opened Options

  datatype Channel = Alpha | Beta | Rc | Stable

  /** A parsed version; a stable one has prerelease number 0. */
  datatype Version = Version(major: nat, minor: nat, patch: nat, channel: Channel, number: nat) {
    predicate Proper() { channel.Stable? ==> number == 0 }
  }

  const DOT: Unit := 0x2E
  const DASH: Unit := 0x2D
  const ALPHA: Text := Ascii("alpha")
  const BETA: Text := Ascii("beta")
  const RC: Text := Ascii("rc")

  function ChannelName(c: Channel): Text
  {
    match c
    case Alpha => ALPHA
    case Beta => BETA
    case Rc => RC
    case Stable => []
  }

  // ---- The grammar ----

  /** `(0|[1-9]\d*)` at the start of `t`: the number and what follows. */
  function TakeNumber(t: Text): Option<(nat, Text)>
  {
    var k := DigitRun(t);
    if Canonical(t[..k]) then Some((NumberOf(t[..k]), t[k..])) else None
  }

  /** A literal character at the start of `t`: what follows. */
  function TakeUnit(t: Text, u: Unit): Option<Text>
  {
    if t != [] && t[0] == u then Some(t[1..]) else None
  }

  function TakeText(t: Text, p: Text): Option<Text>
  {
    if p <= t then Some(t[|p|..]) else None
  }

  /** `(beta|rc|alpha)\.` at the start of `t`. */
  function TakeChannel(t: Text): Option<(Channel, Text)>
  {
    if TakeText(t, BETA + [DOT]).Some? then Some((Beta, TakeText(t, BETA + [DOT]).value))
    else if TakeText(t, RC + [DOT]).Some? then Some((Rc, TakeText(t, RC + [DOT]).value))
    else if TakeText(t, ALPHA + [DOT]).Some? then Some((Alpha, TakeText(t, ALPHA + [DOT]).value))
    else None
  }

  /** What may follow `x.y.z`. */
  function ParseTail(t: Text): Option<(Channel, nat)>
  {
    if t == [] then Some((Stable, 0))
    else
      var rest :- TakeUnit(t, DASH);
      var channel :- TakeChannel(rest);
      var number :- TakeNumber(channel.1);
      if number.1 == [] then Some((channel.0, number.0)) else None
  }

  /** `parseReleaseVersion`; none when it throws. */
  function Parse(text: Text): Option<Version>
  {
    var major :- TakeNumber(text);
    var afterMajor :- TakeUnit(major.1, DOT);
    var minor :- TakeNumber(afterMajor);
    var afterMinor :- TakeUnit(minor.1, DOT);
    var patch :- TakeNumber(afterMinor);
    var tail :- ParseTail(patch.1);
    Some(Version(major.0, minor.0, patch.0, tail.0, tail.1))
  }

  function PrintTail(v: Version): Text
  {
    if v.channel.Stable? then [] else [DASH] + (ChannelName(v.channel) + [DOT] + Digits(v.number))
  }

  function Print(v: Version): Text
  {
    Digits(v.major) + ([DOT] + (Digits(v.minor) + ([DOT] + (Digits(v.patch) + PrintTail(v)))))
  }

  lemma TakePrinted(n: nat, rest: Text)
    requires EndsRun(rest)
    ensures TakeNumber(Digits(n) + rest) == Some((n, rest))
  {
    DigitRunIs(Digits(n), rest);
    DigitsAreCanonical(n);
    NumberOfDigits(n);
  }

  lemma TakenIsPrinted(t: Text)
    ensures TakeNumber(t).Some? ==> t == Digits(TakeNumber(t).value.0) + TakeNumber(t).value.1
  {
    var k := DigitRun(t);
    if Canonical(t[..k]) {
      DigitsOfNumber(t[..k]);
    }
  }

  lemma TakeChannelPrinted(c: Channel, rest: Text)
    requires !c.Stable?
    ensures TakeChannel(ChannelName(c) + [DOT] + rest) == Some((c, rest))
  {
    var t := ChannelName(c) + [DOT] + rest;
    assert t[|ChannelName(c)| + 1..] == rest;
    assert t[0] == ChannelName(c)[0];
    assert BETA[0] == 0x62 && RC[0] == 0x72 && ALPHA[0] == 0x61;
    if c.Rc? {
      assert !(BETA + [DOT] <= t);
    } else if c.Alpha? {
      assert !(BETA + [DOT] <= t) && !(RC + [DOT] <= t);
    }
  }

  lemma ChannelIsPrinted(t: Text)
    ensures TakeChannel(t).Some? ==>
      var c := TakeChannel(t).value; !c.0.Stable? && t == ChannelName(c.0) + [DOT] + c.1
  {
  }

  lemma TailRoundTrip(v: Version)
    requires v.Proper()
    ensures ParseTail(PrintTail(v)) == Some((v.channel, v.number)) && EndsRun(PrintTail(v))
  {
    hide TakeNumber, TakeChannel, ChannelName, Digits;
    if !v.channel.Stable? {
      var rest := ChannelName(v.channel) + [DOT] + Digits(v.number);
      assert PrintTail(v)[1..] == rest;
      TakeChannelPrinted(v.channel, Digits(v.number));
      TakePrinted(v.number, []);
      assert Digits(v.number) + [] == Digits(v.number);
    }
  }

  lemma TailIsPrinted(t: Text)
    ensures ParseTail(t).Some? ==>
      var c := ParseTail(t).value;
      (c.0.Stable? ==> c.1 == 0) && t == PrintTail(Version(0, 0, 0, c.0, c.1))
  {
    hide TakeNumber, TakeChannel, ChannelName, Digits;
    if t != [] && t[0] == DASH && TakeChannel(t[1..]).Some? {
      ChannelIsPrinted(t[1..]);
      TakenIsPrinted(TakeChannel(t[1..]).value.1);
      if ParseTail(t).Some? {
        var c := TakeChannel(t[1..]).value;
        var n := TakeNumber(c.1).value;
        assert c.1 == Digits(n.0) + [] == Digits(n.0);
        assert t == [t[0]] + t[1..];
      }
    }
  }

  lemma DotEndsRun(rest: Text)
    ensures EndsRun([DOT] + rest) && TakeUnit([DOT] + rest, DOT) == Some(rest)
  {
    assert ([DOT] + rest)[1..] == rest;
  }

  /** A printed version parses as itself. */
  lemma ParseOfPrint(v: Version)
    requires v.Proper()
    ensures Parse(Print(v)) == Some(v)
  {
    hide TakeNumber, ParseTail, PrintTail, Digits, TakeUnit, EndsRun;
    TailRoundTrip(v);
    TakePrinted(v.patch, PrintTail(v));
    var patch := Digits(v.patch) + PrintTail(v);
    DotEndsRun(patch);
    TakePrinted(v.minor, [DOT] + patch);
    var minor := Digits(v.minor) + ([DOT] + patch);
    DotEndsRun(minor);
    TakePrinted(v.major, [DOT] + minor);
  }

  lemma UnitIsTaken(t: Text, u: Unit)
    ensures TakeUnit(t, u).Some? ==> t == [u] + TakeUnit(t, u).value
  {
  }

  /** Every accepted text is the one print of its version: no two texts mean the
      same version. */
  lemma PrintOfParse(text: Text)
    ensures Parse(text).Some? ==> Print(Parse(text).value) == text && Parse(text).value.Proper()
  {
    hide TakeNumber, ParseTail, PrintTail, Digits, TakeUnit;
    if Parse(text).Some? {
      var v := Parse(text).value;
      TakenIsPrinted(text);
      var major := TakeNumber(text).value;
      UnitIsTaken(major.1, DOT);
      var afterMajor := TakeUnit(major.1, DOT).value;
      TakenIsPrinted(afterMajor);
      var minor := TakeNumber(afterMajor).value;
      UnitIsTaken(minor.1, DOT);
      var afterMinor := TakeUnit(minor.1, DOT).value;
      TakenIsPrinted(afterMinor);
      TailIsPrinted(TakeNumber(afterMinor).value.1);
      TailOnly(v);
    }
  }

  lemma TailOnly(v: Version)
    ensures PrintTail(Version(0, 0, 0, v.channel, v.number)) == PrintTail(v)
  {
  }

  // ---- The order ----

  function Rank(c: Channel): nat
  {
    match c
    case Alpha => 0
    case Beta => 1
    case Rc => 2
    case Stable => 3
  }

  function CompareNumbers(a: nat, b: nat): int { if a == b then 0 else if a < b then -1 else 1 }

  function CompareVersions(a: Version, b: Version): int
  {
    if a.major != b.major then if a.major < b.major then -1 else 1
    else if a.minor != b.minor then if a.minor < b.minor then -1 else 1
    else if a.patch != b.patch then if a.patch < b.patch then -1 else 1
    else if Rank(a.channel) != Rank(b.channel) then if Rank(a.channel) < Rank(b.channel) then -1 else 1
    else if a.channel.Stable? || a.number == b.number then 0
    else if a.number < b.number then -1 else 1
  }

  /** `compareReleaseVersions`; none when one of the texts is not accepted. */
  function Compare(left: Text, right: Text): Option<int>
  {
    var a :- Parse(left);
    var b :- Parse(right);
    Some(CompareVersions(a, b))
  }

  /** A strict total order: reversing negates, it is transitive, and only a text
      itself compares equal to it. */
  lemma OrderIsTotal(a: Text, b: Text, c: Text)
    requires Parse(a).Some? && Parse(b).Some? && Parse(c).Some?
    ensures Compare(a, b).value == -Compare(b, a).value && -1 <= Compare(a, b).value <= 1
    ensures Compare(a, b) == Some(0) <==> a == b
    ensures Compare(a, b) == Some(-1) && Compare(b, c) == Some(-1) ==> Compare(a, c) == Some(-1)
  {
    hide Parse, Print;
    PrintOfParse(a);
    PrintOfParse(b);
  }

  // ---- Section 11 of Semantic Versioning 2.0.0 ----

  /** A dot-separated prerelease identifier. */
  datatype Identifier = Numeric(n: nat) | Letters(t: Text)

  /** Lexical order by code units. */
  function CompareTexts(a: Text, b: Text): int
  {
    if a == [] then if b == [] then 0 else -1
    else if b == [] then 1
    else if a[0] != b[0] then if a[0] < b[0] then -1 else 1
    else CompareTexts(a[1..], b[1..])
  }

  /** Item 4: numeric identifiers by value and below all others, which go by text. */
  function CompareIdentifiers(a: Identifier, b: Identifier): int
  {
    match (a, b)
    case (Numeric(m), Numeric(n)) => CompareNumbers(m, n)
    case (Numeric(_), Letters(_)) => -1
    case (Letters(_), Numeric(_)) => 1
    case (Letters(s), Letters(t)) => CompareTexts(s, t)
  }

  /** Item 4: from left to right; a longer list wins over its own beginning. */
  function CompareLists(a: seq<Identifier>, b: seq<Identifier>): int
  {
    if a == [] then if b == [] then 0 else -1
    else if b == [] then 1
    else if CompareIdentifiers(a[0], b[0]) != 0 then CompareIdentifiers(a[0], b[0])
    else CompareLists(a[1..], b[1..])
  }

  function Prerelease(v: Version): seq<Identifier>
  {
    if v.channel.Stable? then [] else [Letters(ChannelName(v.channel)), Numeric(v.number)]
  }

  /** Items 2 and 3: major, minor and patch by value, then a version without a
      prerelease above those with one. */
  function Precedence(a: Version, b: Version): int
  {
    if CompareNumbers(a.major, b.major) != 0 then CompareNumbers(a.major, b.major)
    else if CompareNumbers(a.minor, b.minor) != 0 then CompareNumbers(a.minor, b.minor)
    else if CompareNumbers(a.patch, b.patch) != 0 then CompareNumbers(a.patch, b.patch)
    else if Prerelease(a) == [] then if Prerelease(b) == [] then 0 else 1
    else if Prerelease(b) == [] then -1
    else CompareLists(Prerelease(a), Prerelease(b))
  }

  lemma ChannelsByText(a: Channel, b: Channel)
    requires !a.Stable? && !b.Stable?
    ensures CompareTexts(ChannelName(a), ChannelName(b)) == CompareNumbers(Rank(a), Rank(b))
  {
    assert ALPHA[0] == 0x61 && BETA[0] == 0x62 && RC[0] == 0x72;
    if a == b {
      SameText(ChannelName(a));
    }
  }

  lemma {:induction false} SameText(t: Text)
    ensures CompareTexts(t, t) == 0
    decreases |t|
  {
    if t != [] {
      SameText(t[1..]);
    }
  }

  lemma ListsOfTwo(a: Identifier, b: Identifier, c: Identifier, d: Identifier)
    ensures CompareLists([a, b], [c, d])
         == if CompareIdentifiers(a, c) != 0 then CompareIdentifiers(a, c) else CompareIdentifiers(b, d)
  {
    assert [a, b][1..] == [b] && [c, d][1..] == [d];
    var x, y := [b][1..], [d][1..];
    assert x == [] && y == [];
    assert CompareLists([b], [d]) == CompareIdentifiers(b, d);
  }

  /** The program's order is the precedence of the standard. */
  lemma FollowsSemVer(left: Text, right: Text)
    requires Parse(left).Some? && Parse(right).Some?
    ensures Compare(left, right) == Some(Precedence(Parse(left).value, Parse(right).value))
  {
    hide Parse, ChannelName, CompareTexts, CompareLists;
    PrintOfParse(left);
    PrintOfParse(right);
    var a, b := Parse(left).value, Parse(right).value;
    if !a.channel.Stable? && !b.channel.Stable? {
      ChannelsByText(a.channel, b.channel);
      ListsOfTwo(Letters(ChannelName(a.channel)), Numeric(a.number), Letters(ChannelName(b.channel)), Numeric(b.number));
    }
  }
}
