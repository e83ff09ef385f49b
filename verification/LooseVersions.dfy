/** The patterns of the bump script, which accepts more than release versions: what
    they match, and what becomes of such a version. */
module LooseVersions {
  import opened Decimal
  import opened JsText
  import opened Options
  import opened Versions
  import opened Releases

  /** One digit or more. */
  predicate IsNumber(t: Text) { t != [] && AllDigits(t) }

  /** A letter, a digit or a dash: `[A-Za-z0-9-]`. */
  predicate IsWordCharacter(u: Unit)
  {
    IsDigit(u) || Ascii("A")[0] <= u <= Ascii("Z")[0] || Ascii("a")[0] <= u <= Ascii("z")[0] || u == Ascii("-")[0]
  }

  /** `[A-Za-z0-9.+-]+` */
  predicate IsPrereleaseTail(t: Text)
  {
    t != [] && forall i :: 0 <= i < |t| ==> IsWordCharacter(t[i]) || t[i] == Ascii(".")[0] || t[i] == Ascii("+")[0]
  }

  /** `text` is `a.b.c` or `a.b.c-pre`. */
  predicate IsShape(text: Text, a: Text, b: Text, c: Text, pre: Text)
  {
    && IsNumber(a) && IsNumber(b) && IsNumber(c) && (pre == [] || IsPrereleaseTail(pre))
    && text == a + (Ascii(".") + (b + (Ascii(".") + (c + if pre == [] then [] else Ascii("-") + pre))))
  }

  lemma Signs()
    ensures Ascii(".") == [DOT] && Ascii("-") == [DASH] && Ascii("+")[0] == 0x2B
    ensures Ascii("A")[0] == 0x41 && Ascii("Z")[0] == 0x5A && Ascii("a")[0] == 0x61 && Ascii("z")[0] == 0x7A
  {
  }

  lemma WordCharacters(u: Unit)
    ensures IsWordUnit(u) <==> IsWordCharacter(u)
    ensures IsPrereleaseUnit(u) <==> IsWordCharacter(u) || u == Ascii(".")[0] || u == Ascii("+")[0]
  {
    Signs();
  }

  lemma NumberTaken(ds: Text, rest: Text)
    requires IsNumber(ds) && EndsRun(rest)
    ensures TakeDigits(ds + rest) == Some((NumberOf(ds), rest))
  {
    DigitRunIs(ds, rest);
  }

  lemma UnitTaken(u: Unit, rest: Text)
    ensures TakeUnit([u] + rest, u) == Some(rest)
  {
    assert ([u] + rest)[1..] == rest;
  }

  /** What has the shape is read: any digits, leading zeros included, and any tail. */
  lemma ShapeIsRead(text: Text, a: Text, b: Text, c: Text, pre: Text)
    requires IsShape(text, a, b, c, pre)
    ensures ParseLoose(text) == Some(Loose(NumberOf(a), NumberOf(b), NumberOf(c), pre))
  {
    hide TakeDigits, TakeUnit, IsNumber, IsPrereleaseUnit, IsWordCharacter;
    Signs();
    var tail := if pre == [] then [] else [DASH] + pre;
    SignsEndRun(tail, c + tail);
    SignsEndRun(tail, b + ([DOT] + (c + tail)));
    NumberTaken(c, tail);
    UnitTaken(DOT, c + tail);
    NumberTaken(b, [DOT] + (c + tail));
    UnitTaken(DOT, b + ([DOT] + (c + tail)));
    NumberTaken(a, [DOT] + (b + ([DOT] + (c + tail))));
    if pre != [] {
      UnitTaken(DASH, pre);
      forall i | 0 <= i < |pre|
        ensures IsPrereleaseUnit(pre[i])
      {
        WordCharacters(pre[i]);
      }
    }
  }

  lemma SignsEndRun(tail: Text, rest: Text)
    ensures EndsRun([DOT] + rest)
    ensures tail == [] || tail[0] == DASH ==> EndsRun(tail)
  {
  }

  lemma TailIsAllowed(pre: Text)
    requires pre != [] && forall i :: 0 <= i < |pre| ==> IsPrereleaseUnit(pre[i])
    ensures IsPrereleaseTail(pre)
  {
    hide IsPrereleaseUnit, IsWordCharacter;
    forall i | 0 <= i < |pre|
      ensures IsWordCharacter(pre[i]) || pre[i] == Ascii(".")[0] || pre[i] == Ascii("+")[0]
    {
      WordCharacters(pre[i]);
    }
  }

  /** And only that is. */
  lemma ReadHasShape(text: Text) returns (a: Text, b: Text, c: Text)
    requires ParseLoose(text).Some?
    ensures IsShape(text, a, b, c, ParseLoose(text).value.prerelease)
    ensures var v := ParseLoose(text).value; v.major == NumberOf(a) && v.minor == NumberOf(b) && v.patch == NumberOf(c)
  {
    hide IsPrereleaseUnit, IsPrereleaseTail, NumberOf, TakeDigits, TakeUnit;
    Signs();
    var rest;
    a, rest := TakenNumber(text);
    var afterMajor := TakenUnit(rest, DOT);
    b, rest := TakenNumber(afterMajor);
    var afterMinor := TakenUnit(rest, DOT);
    c, rest := TakenNumber(afterMinor);
    if rest != [] {
      var pre := TakenUnit(rest, DASH);
      TailIsAllowed(pre);
    }
  }

  lemma TakenNumber(t: Text) returns (ds: Text, rest: Text)
    requires TakeDigits(t).Some?
    ensures IsNumber(ds) && t == ds + rest && TakeDigits(t) == Some((NumberOf(ds), rest))
  {
    ds, rest := t[..DigitRun(t)], t[DigitRun(t)..];
  }

  lemma TakenUnit(t: Text, u: Unit) returns (rest: Text)
    requires TakeUnit(t, u).Some?
    ensures t == [u] + rest && TakeUnit(t, u) == Some(rest)
  {
    rest := t[1..];
  }

  // ---- The prerelease part ----

  /** A word, a dot and a number, as `bumpPrerelease` looks for them. */
  predicate IsTrack(pre: Text, word: Text, number: Text)
  {
    && word != [] && (forall i :: 0 <= i < |word| ==> IsWordCharacter(word[i])) && IsNumber(number)
    && pre == word + (Ascii(".") + number)
  }

  lemma TrackIsRead(pre: Text, word: Text, number: Text)
    requires IsTrack(pre, word, number)
    ensures WordAndNumber(pre) == Some((word, NumberOf(number)))
  {
    hide IsWordCharacter, NumberOf;
    Signs();
    forall i | 0 <= i < |word|
      ensures IsWordUnit(word[i])
    {
      WordCharacters(word[i]);
    }
    WordRunIs(word, [DOT] + number);
    assert pre[|word|..] == [DOT] + number && pre[|word| + 1..] == number && pre[..|word|] == word;
  }

  lemma ReadIsTrack(pre: Text)
    ensures WordAndNumber(pre).Some? ==> exists word, number :: IsTrack(pre, word, number)
  {
    hide IsWordCharacter, NumberOf;
    Signs();
    if WordAndNumber(pre).Some? {
      var k := WordRun(pre);
      var word, number := pre[..k], pre[k + 1..];
      forall i | 0 <= i < k
        ensures IsWordCharacter(word[i])
      {
        WordRunHolds(pre, i);
        WordCharacters(pre[i]);
      }
      assert pre == word + ([DOT] + number);
      assert IsTrack(pre, word, number);
    }
  }

  lemma {:induction false} WordRunHolds(t: Text, i: nat)
    requires i < WordRun(t)
    ensures IsWordUnit(t[i])
    decreases i
  {
    hide IsWordUnit;
    if i > 0 {
      WordRunHolds(t[1..], i - 1);
    }
  }

  lemma TrackIsSomething(pre: Text, word: Text, number: Text)
    requires IsTrack(pre, word, number)
    ensures pre != [] && AllDigits(number)
  {
  }

  /** The next beta: its number goes up on the beta track; from anything else the track
      starts at 0, on the next patch if the version was stable. */
  lemma BetaBumps(v: Loose, number: Text)
    ensures v.prerelease == [] ==> BumpPrerelease(v, BETA) == Print(Version(v.major, v.minor, v.patch + 1, Beta, 0))
    ensures IsTrack(v.prerelease, Ascii("beta"), number)
      ==> BumpPrerelease(v, BETA) == Print(Version(v.major, v.minor, v.patch, Beta, NumberOf(number) + 1))
    ensures v.prerelease != [] && (forall n :: !IsTrack(v.prerelease, Ascii("beta"), n))
      ==> BumpPrerelease(v, BETA) == Print(Version(v.major, v.minor, v.patch, Beta, 0))
  {
    hide WordAndNumber, WithPreid, Print, NumberOf, IsWordCharacter;
    BetaPrints(v, v.patch + 1, 0);
    BetaPrints(v, v.patch, 0);
    if IsTrack(v.prerelease, Ascii("beta"), number) {
      TrackIsRead(v.prerelease, Ascii("beta"), number);
      BetaPrints(v, v.patch, NumberOf(number) + 1);
      TrackIsSomething(v.prerelease, Ascii("beta"), number);
    }
    ReadIsTrack(v.prerelease);
    if WordAndNumber(v.prerelease).Some? {
      var word, n :| IsTrack(v.prerelease, word, n);
      TrackIsRead(v.prerelease, word, n);
    }
  }

  /** A version given as such is taken unless it is the current one. */
  lemma GivenIsBumpedTo(current: Text, kind: Text)
    requires ParseLoose(kind).Some?
    ensures NextVersion(current, kind).None? <==> kind == current
    ensures kind != current ==> NextVersion(current, kind) == Some(kind)
  {
    hide ParseLoose;
  }
}
