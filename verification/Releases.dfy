/** The next version: the release planner, the bump script and the manifest
    filter, which must agree. The planner is the strictest of the three; wherever
    it names a version the bump script names the same, and no release goes back. */
module Releases {
  import opened Decimal
  import opened JsText
  import opened Options
  import opened Versions

  const PATCH: Text := Ascii("patch")
  const MINOR: Text := Ascii("minor")
  const MAJOR: Text := Ascii("major")
  const PROMOTE: Text := Ascii("promote")

  /** The release types with a name. */
  predicate IsNamed(kind: Text) { kind in {PATCH, MINOR, MAJOR, PROMOTE, BETA} }

  function Plain(major: nat, minor: nat, patch: nat): Version { Version(major, minor, patch, Stable, 0) }

  function Base(v: Version): Version { Plain(v.major, v.minor, v.patch) }

  // ---- The planner ----

  /** The planner's own pattern: stable versions and betas. */
  predicate IsExplicit(kind: Text)
  {
    Parse(kind).Some? && (Parse(kind).value.channel.Stable? || Parse(kind).value.channel.Beta?)
  }

  /** `current.slice(current.lastIndexOf(".") + 1)` */
  function AfterLastDot(t: Text): Text
  {
    if t == [] || t[|t| - 1] == DOT then [] else AfterLastDot(t[..|t| - 1]) + [t[|t| - 1]]
  }

  function LastNumber(t: Text): nat
  {
    if AllDigits(AfterLastDot(t)) then NumberOf(AfterLastDot(t)) else 0
  }

  lemma {:induction false} AfterDot(front: Text, rest: Text)
    requires forall i :: 0 <= i < |rest| ==> rest[i] != DOT
    ensures AfterLastDot(front + [DOT] + rest) == rest
    decreases |rest|
  {
    var t := front + [DOT] + rest;
    if rest != [] {
      assert t[..|t| - 1] == front + [DOT] + rest[..|rest| - 1];
      AfterDot(front, rest[..|rest| - 1]);
    }
  }

  /** The number behind the last dot of a prerelease is its prerelease number. */
  lemma LastNumberIs(current: Text)
    requires Parse(current).Some? && !Parse(current).value.channel.Stable?
    ensures LastNumber(current) == Parse(current).value.number
  {
    hide Parse, Digits, ChannelName;
    PrintOfParse(current);
    var v := Parse(current).value;
    var front := Digits(v.major) + ([DOT] + (Digits(v.minor) + ([DOT] + (Digits(v.patch) + ([DASH] + ChannelName(v.channel))))));
    NumberMovesOut(Digits(v.major), Digits(v.minor), Digits(v.patch), ChannelName(v.channel), Digits(v.number));
    AfterDot(front, Digits(v.number));
    NumberOfDigits(v.number);
  }

  lemma NumberMovesOut(a: Text, b: Text, c: Text, channel: Text, number: Text)
    ensures a + ([DOT] + (b + ([DOT] + (c + ([DASH] + (channel + [DOT] + number))))))
         == a + ([DOT] + (b + ([DOT] + (c + ([DASH] + channel))))) + [DOT] + number
  {
  }

  /** What the named types ask for, before the final check; `last` is the number
      behind the last dot. */
  function NamedTarget(v: Version, kind: Text, last: nat): Option<Version>
  {
    if kind == PATCH then Some(if v.channel.Stable? then Plain(v.major, v.minor, v.patch + 1) else Base(v))
    else if kind == MINOR then Some(Plain(v.major, v.minor + 1, 0))
    else if kind == MAJOR then Some(Plain(v.major + 1, 0, 0))
    else if kind == PROMOTE then if v.channel.Stable? then None else Some(Base(v))
    else if kind == BETA then
      Some(if v.channel.Beta? then v.(number := last + 1)
           else if v.channel.Stable? then Version(v.major, v.minor, v.patch + 1, Beta, 0)
           else Version(v.major, v.minor, v.patch, Beta, 0))
    else None
  }

  /** `computeReleaseTarget`; none when it throws. */
  function ReleaseTarget(current: Text, kind: Text): Option<Text>
  {
    var v :- Parse(current);
    var target :- if IsExplicit(kind) then Some(kind)
                  else
                    var named :- NamedTarget(v, kind, LastNumber(current));
                    Some(Print(named));
    if Compare(target, current) == Some(1) then Some(target) else None
  }

  lemma NamedIsNotExplicit(kind: Text)
    requires IsNamed(kind)
    ensures !IsExplicit(kind)
  {
    NamedIsNotParsed(kind);
  }

  lemma TypesDiffer()
    ensures PATCH != MINOR && PATCH != MAJOR && PATCH != PROMOTE && PATCH != BETA && MINOR != MAJOR
    ensures MINOR != PROMOTE && MINOR != BETA && MAJOR != PROMOTE && MAJOR != BETA && PROMOTE != BETA
  {
    assert PATCH[0] == 0x70 && MINOR[0] == 0x6D && MAJOR[0] == 0x6D && PROMOTE[0] == 0x70 && BETA[0] == 0x62;
    assert MINOR[1] == 0x69 && MAJOR[1] == 0x61 && PATCH[1] == 0x61 && PROMOTE[1] == 0x72;
  }

  lemma NamedTargetProper(v: Version, kind: Text, last: nat)
    requires v.Proper() && NamedTarget(v, kind, last).Some?
    ensures NamedTarget(v, kind, last).value.Proper()
    ensures Parse(Print(NamedTarget(v, kind, last).value)) == NamedTarget(v, kind, last)
  {
    hide Parse, Print;
    ParseOfPrint(NamedTarget(v, kind, last).value);
  }

  /** A named release of a valid version fails exactly when a stable version is to
      be promoted or a release candidate is to go back to beta. */
  lemma NamedReleaseFailsIff(current: Text, kind: Text)
    requires Parse(current).Some? && IsNamed(kind)
    ensures ReleaseTarget(current, kind).None? <==>
      (kind == PROMOTE && Parse(current).value.channel.Stable?) || (kind == BETA && Parse(current).value.channel.Rc?)
  {
    hide Parse, Print, IsExplicit, LastNumber;
    NamedIsNotExplicit(kind);
    TypesDiffer();
    PrintOfParse(current);
    var v, last := Parse(current).value, LastNumber(current);
    if !v.channel.Stable? {
      LastNumberIs(current);
    }
    if NamedTarget(v, kind, last).Some? {
      NamedTargetProper(v, kind, last);
    }
  }

  /** Whatever is released is strictly newer than what was there. */
  lemma ReleaseIsNewer(current: Text, kind: Text)
    ensures ReleaseTarget(current, kind).Some? ==>
      Parse(ReleaseTarget(current, kind).value).Some? && Compare(current, ReleaseTarget(current, kind).value) == Some(-1)
  {
    hide Parse, Print, IsExplicit, NamedTarget, CompareVersions;
    if ReleaseTarget(current, kind).Some? {
      var target := ReleaseTarget(current, kind).value;
      OrderIsTotal(target, current, current);
    }
  }

  /** A version given as such is taken if it is newer, and stable or a beta. */
  lemma GivenIsTaken(current: Text, kind: Text)
    requires Parse(kind).Some?
    ensures ReleaseTarget(current, kind)
         == if Parse(current).Some? && Compare(kind, current) == Some(1) && Parse(kind).value.channel in {Stable, Beta}
            then Some(kind) else None
  {
    hide Parse, CompareVersions, Print, LastNumber;
    if IsNamed(kind) {
      NamedIsNotParsed(kind);
    }
  }

  lemma NamedIsNotParsed(kind: Text)
    requires IsNamed(kind)
    ensures Parse(kind).None?
  {
    assert PATCH[0] == 0x70 && MINOR[0] == 0x6D && MAJOR[0] == 0x6D && PROMOTE[0] == 0x70 && BETA[0] == 0x62;
    assert DigitRun(kind) == 0;
    assert kind[..0] == [];
  }

  /** What a release type asks for, among all versions. */
  predicate Asked(v: Version, kind: string, w: Version)
  {
    match kind
    case "patch" | "promote" => w.channel.Stable? && CompareVersions(w, v) > 0
    case "minor" => w.channel.Stable? && (w.major > v.major || (w.major == v.major && w.minor > v.minor))
    case "major" => w.channel.Stable? && w.major > v.major
    case "beta" => w.channel.Beta? && CompareVersions(w, v) > 0
    case _ => false
  }

  /** A named release takes the nearest version that its type asks for. */
  lemma ReleaseIsNearest(current: Text, kind: string, w: Version)
    requires kind in {"patch", "minor", "major", "promote", "beta"} && ReleaseTarget(current, Ascii(kind)).Some?
    ensures var v, target := Parse(current).value, Parse(ReleaseTarget(current, Ascii(kind)).value);
      && target.Some? && Asked(v, kind, target.value)
      && (w.Proper() && Asked(v, kind, w) ==> CompareVersions(target.value, w) <= 0)
  {
    hide Parse, Print, IsExplicit, LastNumber;
    NamedIsNotExplicit(Ascii(kind));
    TypesDiffer();
    PrintOfParse(current);
    var v, last := Parse(current).value, LastNumber(current);
    if !v.channel.Stable? {
      LastNumberIs(current);
    }
    NamedTargetProper(v, Ascii(kind), last);
  }

  /** The versions of a series of releases; it ends early at a refused one. */
  function Releases(current: Text, types: seq<Text>): seq<Text>
    decreases |types|
  {
    if types == [] then []
    else
      match ReleaseTarget(current, types[0])
      case None => []
      case Some(target) => [target] + Releases(target, types[1..])
  }

  /** Each version of a series is what its type makes of the one before, and the series
      ends early only where that fails. */
  lemma {:induction false} SeriesFollows(current: Text, types: seq<Text>, i: nat)
    requires i <= |Releases(current, types)|
    ensures |Releases(current, types)| <= |types|
    ensures i < |Releases(current, types)| ==>
      ReleaseTarget(if i == 0 then current else Releases(current, types)[i - 1], types[i]) == Some(Releases(current, types)[i])
    ensures i == |Releases(current, types)| < |types| ==>
      ReleaseTarget(if i == 0 then current else Releases(current, types)[i - 1], types[i]) == None
    decreases |types|
  {
    hide ReleaseTarget;
    if types != [] && ReleaseTarget(current, types[0]).Some? {
      SeriesFollows(ReleaseTarget(current, types[0]).value, types[1..], if i == 0 then 0 else i - 1);
    }
  }

  /** No series of releases ever visits a version twice. */
  lemma {:induction false} ReleasesNeverRepeat(current: Text, types: seq<Text>, i: nat, j: nat)
    requires i < j < |Releases(current, types)|
    ensures Releases(current, types)[i] != Releases(current, types)[j] && Releases(current, types)[i] != current
    decreases |types|
  {
    hide ReleaseTarget, Parse;
    var target := ReleaseTarget(current, types[0]).value;
    ReleaseIsNewer(current, types[0]);
    AllNewer(target, types[1..], j - 1);
    OrderIsTotal(target, Releases(target, types[1..])[j - 1], target);
    OrderIsTotal(target, current, target);
    if i > 0 {
      ReleasesNeverRepeat(target, types[1..], i - 1, j - 1);
      AllNewer(target, types[1..], i - 1);
      OrderIsTotal(current, target, Releases(target, types[1..])[i - 1]);
      OrderIsTotal(current, Releases(target, types[1..])[i - 1], current);
    }
  }

  lemma {:induction false} AllNewer(current: Text, types: seq<Text>, i: nat)
    requires i < |Releases(current, types)|
    ensures Parse(current).Some? && Parse(Releases(current, types)[i]).Some?
    ensures Compare(current, Releases(current, types)[i]) == Some(-1)
    decreases |types|
  {
    hide ReleaseTarget, Parse, CompareVersions;
    var target := ReleaseTarget(current, types[0]).value;
    ReleaseIsNewer(current, types[0]);
    if i > 0 {
      AllNewer(target, types[1..], i - 1);
      OrderIsTotal(current, target, Releases(target, types[1..])[i - 1]);
    }
  }

  // ---- The bump script ----

  /** `(\d+)` at the start of `t`: leading zeros are accepted here. */
  function TakeDigits(t: Text): Option<(nat, Text)>
  {
    var k := DigitRun(t);
    if k == 0 then None else Some((NumberOf(t[..k]), t[k..]))
  }

  /** `[A-Za-z0-9-]`, and with a plus or a dot the alphabet of a prerelease. */
  predicate IsWordUnit(u: Unit) { IsDigit(u) || 0x41 <= u <= 0x5A || 0x61 <= u <= 0x7A || u == DASH }

  predicate IsPrereleaseUnit(u: Unit) { IsWordUnit(u) || u == DOT || u == 0x2B }

  /** `parseVersion` of the bump script: any prerelease text. */
  datatype Loose = Loose(major: nat, minor: nat, patch: nat, prerelease: Text)

  function ParseLoose(text: Text): Option<Loose>
  {
    var major :- TakeDigits(text);
    var afterMajor :- TakeUnit(major.1, DOT);
    var minor :- TakeDigits(afterMajor);
    var afterMinor :- TakeUnit(minor.1, DOT);
    var patch :- TakeDigits(afterMinor);
    if patch.1 == [] then Some(Loose(major.0, minor.0, patch.0, []))
    else
      var prerelease :- TakeUnit(patch.1, DASH);
      if prerelease != [] && forall i :: 0 <= i < |prerelease| ==> IsPrereleaseUnit(prerelease[i])
      then Some(Loose(major.0, minor.0, patch.0, prerelease)) else None
  }

  function PrintPlain(major: nat, minor: nat, patch: nat): Text
  {
    Digits(major) + ([DOT] + (Digits(minor) + ([DOT] + Digits(patch))))
  }

  function WordRun(t: Text): nat
    ensures WordRun(t) <= |t|
  {
    if t == [] || !IsWordUnit(t[0]) then 0 else 1 + WordRun(t[1..])
  }

  /** `/^([A-Za-z0-9-]+)\.(\d+)$/`: the word and the number. */
  function WordAndNumber(t: Text): Option<(Text, nat)>
  {
    var k := WordRun(t);
    if k == 0 || k == |t| || t[k] != DOT || k + 1 == |t| || !AllDigits(t[k + 1..]) then None
    else Some((t[..k], NumberOf(t[k + 1..])))
  }

  function WithPreid(v: Loose, patch: nat, preid: Text, number: nat): Text
  {
    PrintPlain(v.major, v.minor, patch) + ([DASH] + (preid + [DOT] + Digits(number)))
  }

  /** `bumpPrerelease` */
  function BumpPrerelease(v: Loose, preid: Text): Text
  {
    if v.prerelease == [] then WithPreid(v, v.patch + 1, preid, 0)
    else
      match WordAndNumber(v.prerelease)
      case Some((word, number)) => WithPreid(v, v.patch, preid, if word == preid then number + 1 else 0)
      case None => WithPreid(v, v.patch, preid, 0)
  }

  /** `computeNext`; none when it fails. */
  function NextVersion(current: Text, kind: Text): Option<Text>
  {
    if ParseLoose(kind).Some? then if kind == current then None else Some(kind)
    else
      var v :- ParseLoose(current);
      if kind == PATCH then Some(PrintPlain(v.major, v.minor, if v.prerelease != [] then v.patch else v.patch + 1))
      else if kind == MINOR then Some(PrintPlain(v.major, v.minor + 1, 0))
      else if kind == MAJOR then Some(PrintPlain(v.major + 1, 0, 0))
      else if kind == BETA then Some(BumpPrerelease(v, BETA))
      else if kind == PROMOTE && v.prerelease != [] then Some(PrintPlain(v.major, v.minor, v.patch))
      else None
  }

  // ---- They agree ----

  function PrereleaseText(v: Version): Text
  {
    if v.channel.Stable? then [] else ChannelName(v.channel) + [DOT] + Digits(v.number)
  }

  lemma TakeDigitsPrinted(n: nat, rest: Text)
    requires EndsRun(rest)
    ensures TakeDigits(Digits(n) + rest) == Some((n, rest))
  {
    DigitRunIs(Digits(n), rest);
    NumberOfDigits(n);
  }

  lemma ChannelIsWord(c: Channel)
    requires !c.Stable?
    ensures ChannelName(c) != [] && forall i :: 0 <= i < |ChannelName(c)| ==> IsWordUnit(ChannelName(c)[i])
  {
  }

  lemma PrereleaseIsAllowed(v: Version)
    requires !v.channel.Stable?
    ensures PrereleaseText(v) != [] && forall i :: 0 <= i < |PrereleaseText(v)| ==> IsPrereleaseUnit(PrereleaseText(v)[i])
  {
    hide ChannelName, Digits;
    ChannelIsWord(v.channel);
  }

  /** Both parsers see the same version in an accepted text. */
  lemma LooseIsParse(current: Text)
    requires Parse(current).Some?
    ensures var v := Parse(current).value;
      ParseLoose(current) == Some(Loose(v.major, v.minor, v.patch, PrereleaseText(v)))
  {
    hide Parse, TakeDigits, Digits, TakeUnit, ChannelName, EndsRun, PrereleaseText;
    PrintOfParse(current);
    var v := Parse(current).value;
    TailIsPrerelease(v);
    TakeDigitsPrinted(v.patch, PrintTail(v));
    var patch := Digits(v.patch) + PrintTail(v);
    DotEndsRun(patch);
    TakeDigitsPrinted(v.minor, [DOT] + patch);
    var minor := Digits(v.minor) + ([DOT] + patch);
    DotEndsRun(minor);
    TakeDigitsPrinted(v.major, [DOT] + minor);
    if !v.channel.Stable? {
      PrereleaseIsAllowed(v);
    }
  }

  lemma TailIsPrerelease(v: Version)
    ensures EndsRun(PrintTail(v))
    ensures v.channel.Stable? ==> PrintTail(v) == [] && PrereleaseText(v) == []
    ensures !v.channel.Stable? ==> PrintTail(v) != [] && TakeUnit(PrintTail(v), DASH) == Some(PrereleaseText(v))
  {
    hide ChannelName, Digits;
  }

  lemma {:induction false} WordRunIs(word: Text, rest: Text)
    requires forall i :: 0 <= i < |word| ==> IsWordUnit(word[i])
    requires rest != [] && !IsWordUnit(rest[0])
    ensures WordRun(word + rest) == |word|
    decreases |word|
  {
    if word == [] {
      assert word + rest == rest;
    } else {
      assert (word + rest)[1..] == word[1..] + rest;
      WordRunIs(word[1..], rest);
    }
  }

  lemma WordAndNumberIs(v: Version)
    requires !v.channel.Stable?
    ensures WordAndNumber(PrereleaseText(v)) == Some((ChannelName(v.channel), v.number))
  {
    hide ChannelName, Digits;
    ChannelIsWord(v.channel);
    var word, rest := ChannelName(v.channel), [DOT] + Digits(v.number);
    assert PrereleaseText(v) == word + rest;
    WordRunIs(word, rest);
    assert (word + rest)[|word| + 1..] == Digits(v.number);
    NumberOfDigits(v.number);
  }

  lemma PlainPrints(major: nat, minor: nat, patch: nat)
    ensures Print(Plain(major, minor, patch)) == PrintPlain(major, minor, patch)
  {
    hide Digits;
    assert Digits(patch) + [] == Digits(patch);
  }

  lemma BetaPrints(v: Loose, patch: nat, number: nat)
    ensures Print(Version(v.major, v.minor, patch, Beta, number)) == WithPreid(v, patch, BETA, number)
  {
    hide Digits;
  }

  lemma NamedIsNotLoose(kind: Text)
    requires IsNamed(kind)
    ensures ParseLoose(kind).None?
  {
    assert PATCH[0] == 0x70 && MINOR[0] == 0x6D && MAJOR[0] == 0x6D && PROMOTE[0] == 0x70 && BETA[0] == 0x62;
    assert DigitRun(kind) == 0;
  }

  lemma ChannelNamesDiffer(c: Channel)
    ensures ChannelName(c) == BETA <==> c.Beta?
  {
    assert BETA[0] == 0x62 && RC[0] == 0x72 && ALPHA[0] == 0x61;
  }

  lemma NextOfNamed(current: Text, kind: Text)
    requires Parse(current).Some? && IsNamed(kind)
    ensures var v := Parse(current).value;
      NextVersion(current, kind)
      == if NamedTarget(v, kind, LastNumber(current)).Some?
         then Some(Print(NamedTarget(v, kind, LastNumber(current)).value)) else None
  {
    hide Parse, Print, ChannelName, PrintPlain, WithPreid, LastNumber, ParseLoose, PrereleaseText, WordAndNumber;
    var v := Parse(current).value;
    NamedIsNotLoose(kind);
    TypesDiffer();
    LooseIsParse(current);
    var l := ParseLoose(current).value;
    PrereleasePresence(v);
    PlainPrints(v.major, v.minor, v.patch + 1);
    PlainPrints(v.major, v.minor, v.patch);
    PlainPrints(v.major, v.minor + 1, 0);
    PlainPrints(v.major + 1, 0, 0);
    ChannelNamesDiffer(v.channel);
    if !v.channel.Stable? {
      WordAndNumberIs(v);
      LastNumberIs(current);
      BetaPrints(l, v.patch, v.number + 1);
    }
    BetaPrints(l, v.patch, 0);
    BetaPrints(l, v.patch + 1, 0);
  }

  lemma PrereleasePresence(v: Version)
    ensures PrereleaseText(v) == [] <==> v.channel.Stable?
  {
  }

  /** Wherever the planner names a next version, the bump script writes the same. */
  lemma BumpAgreesWithPlan(current: Text, kind: Text)
    ensures ReleaseTarget(current, kind).Some? ==> NextVersion(current, kind) == ReleaseTarget(current, kind)
  {
    if ReleaseTarget(current, kind).Some? {
      if IsExplicit(kind) {
        hide Parse, ParseLoose, CompareVersions, NamedTarget;
        LooseIsParse(kind);
        OrderIsTotal(kind, current, current);
      } else {
        assert IsNamed(kind);
        hide Parse, Print, ParseLoose, NamedTarget, NextVersion, IsNamed;
        NextOfNamed(current, kind);
      }
    }
  }

  /** The other way round the bump script does more: from a release candidate it
      goes back to a beta, which the planner refuses as older. */
  lemma BumpGoesBackward(major: nat, minor: nat, patch: nat, number: nat)
    ensures var rc := Print(Version(major, minor, patch, Rc, number));
      var beta := Print(Version(major, minor, patch, Beta, 0));
      && NextVersion(rc, BETA) == Some(beta) && ReleaseTarget(rc, BETA).None? && Compare(beta, rc) == Some(-1)
  {
    hide Parse, Print, NextVersion, ReleaseTarget;
    var rc, beta := Version(major, minor, patch, Rc, number), Version(major, minor, patch, Beta, 0);
    ParseOfPrint(rc);
    ParseOfPrint(beta);
    TypesDiffer();
    NextOfNamed(Print(rc), BETA);
    NamedReleaseFailsIff(Print(rc), BETA);
  }

  // ---- The manifests that are shipped ----

  const JSON: Text := Ascii(".json")

  /** The parts of a manifest's name; `stage` is empty for a stable one. */
  datatype Manifest = Manifest(major: nat, minor: nat, patch: nat, stage: Text, number: nat)

  predicate IsLetter(u: Unit) { 0x61 <= u <= 0x7A }

  function LetterRun(t: Text): (k: nat)
    ensures k <= |t|
  {
    if t == [] || !IsLetter(t[0]) then 0 else 1 + LetterRun(t[1..])
  }

  /** `(?:-([a-z]+)\.(\d+))?\.json$` */
  function StageOf(t: Text): Option<(Text, nat)>
  {
    if t == JSON then Some(([], 0))
    else
      var rest :- TakeUnit(t, DASH);
      var k := LetterRun(rest);
      var afterDot :- TakeUnit(rest[k..], DOT);
      var number :- TakeDigits(afterDot);
      if k > 0 && number.1 == JSON then Some((rest[..k], number.0)) else None
  }

  /** The pattern of the copy script; none for a file it leaves alone. */
  function ParseManifest(name: Text): Option<Manifest>
  {
    var major :- TakeDigits(name);
    var afterMajor :- TakeUnit(major.1, DOT);
    var minor :- TakeDigits(afterMajor);
    var afterMinor :- TakeUnit(minor.1, DOT);
    var patch :- TakeDigits(afterMinor);
    var stage :- StageOf(patch.1);
    Some(Manifest(major.0, minor.0, patch.0, stage.0, stage.1))
  }

  predicate IsCurrent(m: Manifest)
  {
    || m.major > 0 || m.minor > 6 || (m.minor == 6 && m.patch > 0)
    || (m.minor == 6 && m.patch == 0 && (m.stage == [] || m.stage == RC || (m.stage == BETA && m.number >= 1)))
  }

  predicate IsShipped(name: Text)
  {
    ParseManifest(name).Some? && IsCurrent(ParseManifest(name).value)
  }

  function Shipped(names: seq<Text>): seq<Text>
  {
    if names == [] then []
    else Shipped(names[..|names| - 1]) + if IsShipped(names[|names| - 1]) then [names[|names| - 1]] else []
  }

  /** The copy loop. */
  method CopyManifests(names: seq<Text>) returns (copied: seq<Text>)
    ensures copied == Shipped(names)
  {
    hide IsShipped;
    copied := [];
    for i := 0 to |names|
      invariant copied == Shipped(names[..i])
    {
      assert names[..i + 1][..i] == names[..i];
      if IsShipped(names[i]) {
        copied := copied + [names[i]];
      }
    }
    assert names[..|names|] == names;
  }

  lemma {:induction false} LetterRunIs(word: Text, rest: Text)
    requires forall i :: 0 <= i < |word| ==> IsLetter(word[i])
    requires rest != [] && !IsLetter(rest[0])
    ensures LetterRun(word + rest) == |word|
    decreases |word|
  {
    if word == [] {
      assert word + rest == rest;
    } else {
      assert (word + rest)[1..] == word[1..] + rest;
      LetterRunIs(word[1..], rest);
    }
  }

  lemma ChannelIsLetters(c: Channel)
    requires !c.Stable?
    ensures ChannelName(c) != [] && forall i :: 0 <= i < |ChannelName(c)| ==> IsLetter(ChannelName(c)[i])
  {
  }

  lemma StageOfTail(v: Version)
    requires v.Proper()
    ensures StageOf(PrintTail(v) + JSON) == Some((ChannelName(v.channel), v.number)) && EndsRun(PrintTail(v) + JSON)
  {
    hide ChannelName, Digits, TakeDigits, LetterRun;
    if v.channel.Stable? {
      assert PrintTail(v) + JSON == JSON;
      assert ChannelName(v.channel) == [] by { StableHasNoName(); }
    } else {
      var word, rest := ChannelName(v.channel), [DOT] + (Digits(v.number) + JSON);
      var t := PrintTail(v) + JSON;
      assert t[0] == DASH;
      assert t[1..] == word + rest;
      ChannelIsLetters(v.channel);
      LetterRunIs(word, rest);
      assert (word + rest)[|word|..] == rest && (word + rest)[..|word|] == word;
      DotEndsRun(Digits(v.number) + JSON);
      TakeDigitsPrinted(v.number, JSON);
    }
  }

  lemma StableHasNoName()
    ensures ChannelName(Stable) == []
  {
  }

  lemma ManifestOf(text: Text)
    requires Parse(text).Some?
    ensures var v := Parse(text).value;
      ParseManifest(text + JSON) == Some(Manifest(v.major, v.minor, v.patch, ChannelName(v.channel), v.number))
  {
    hide Parse, TakeDigits, Digits, TakeUnit, ChannelName, EndsRun, StageOf, PrintTail;
    PrintOfParse(text);
    var v := Parse(text).value;
    StageOfTail(v);
    var tail := PrintTail(v) + JSON;
    TakeDigitsPrinted(v.patch, tail);
    var patch := Digits(v.patch) + tail;
    DotEndsRun(patch);
    TakeDigitsPrinted(v.minor, [DOT] + patch);
    var minor := Digits(v.minor) + ([DOT] + patch);
    DotEndsRun(minor);
    TakeDigitsPrinted(v.major, [DOT] + minor);
    TextAndJson(v);
  }

  lemma TextAndJson(v: Version)
    ensures Print(v) + JSON
         == Digits(v.major) + ([DOT] + (Digits(v.minor) + ([DOT] + (Digits(v.patch) + (PrintTail(v) + JSON)))))
  {
    hide Digits, PrintTail;
    var a, b, c, d := Digits(v.major), Digits(v.minor), Digits(v.patch), PrintTail(v);
    assert a + ([DOT] + (b + ([DOT] + (c + d)))) + JSON == a + ([DOT] + (b + ([DOT] + (c + (d + JSON)))));
  }

  const FIRST_SHIPPED := Version(0, 6, 0, Beta, 1)

  /** The shipped manifests are exactly those not older than 0.6.0-beta.1. */
  lemma ShipsFromFirst(text: Text)
    requires Parse(text).Some?
    ensures IsShipped(text + JSON)
       <==> Compare(text, Print(FIRST_SHIPPED)) == Some(0) || Compare(text, Print(FIRST_SHIPPED)) == Some(1)
  {
    hide Parse, Print, ParseManifest, ChannelName;
    ParseOfPrint(FIRST_SHIPPED);
    ManifestOf(text);
    var c := Parse(text).value.channel;
    ChannelNamesDiffer(c);
    OtherNamesDiffer(c);
  }

  lemma OtherNamesDiffer(c: Channel)
    ensures ChannelName(c) == RC <==> c.Rc?
    ensures ChannelName(c) == [] <==> c.Stable?
  {
    assert BETA[0] == 0x62 && RC[0] == 0x72 && ALPHA[0] == 0x61;
  }
}
