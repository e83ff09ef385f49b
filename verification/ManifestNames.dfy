/** The names of migration manifests: the pattern of the copy script and what of a
    directory it ships. */
module ManifestNames {
  import opened Decimal
  import opened JsText
  import opened Options
  import opened Versions
  import opened Releases
  import opened LooseVersions

  predicate IsStage(t: Text)
  {
    t != [] && forall i :: 0 <= i < |t| ==> Ascii("a")[0] <= t[i] <= Ascii("z")[0]
  }

  /** What follows `a.b.c` in a manifest's name. */
  function StageTail(stage: Text, number: Text): Text
  {
    if stage == [] then Ascii(".json") else Ascii("-") + (stage + (Ascii(".") + (number + Ascii(".json"))))
  }

  /** `name` is `a.b.c.json` or `a.b.c-stage.number.json`. */
  predicate IsManifestName(name: Text, a: Text, b: Text, c: Text, stage: Text, number: Text)
  {
    && IsNumber(a) && IsNumber(b) && IsNumber(c) && (if stage == [] then number == [] else IsStage(stage) && IsNumber(number))
    && name == a + (Ascii(".") + (b + (Ascii(".") + (c + StageTail(stage, number)))))
  }

  lemma JsonSign()
    ensures Ascii(".json") == JSON && JSON[0] == DOT && |JSON| == 5
  {
  }

  lemma Letters(u: Unit)
    ensures IsLetter(u) <==> Ascii("a")[0] <= u <= Ascii("z")[0]
  {
    Signs();
  }

  lemma StageIsRead(stage: Text, number: Text)
    requires if stage == [] then number == [] else IsStage(stage) && IsNumber(number)
    ensures StageOf(StageTail(stage, number)) == Some((stage, NumberOf(number))) && EndsRun(StageTail(stage, number))
  {
    hide TakeDigits, NumberOf;
    Signs();
    JsonSign();
    var t := StageTail(stage, number);
    if stage == [] {
      NothingIsZero();
    } else {
      var rest := [DOT] + (number + JSON);
      assert t == [DASH] + (stage + rest) && t[0] == DASH;
      UnitTaken(DASH, stage + rest);
      forall i | 0 <= i < |stage| ensures IsLetter(stage[i]) { Letters(stage[i]); }
      LetterRunIs(stage, rest);
      assert (stage + rest)[|stage|..] == rest && (stage + rest)[..|stage|] == stage;
      UnitTaken(DOT, number + JSON);
      NumberTaken(number, JSON);
    }
  }

  lemma NothingIsZero()
    ensures NumberOf([]) == 0
  {
  }

  /** A name of that shape is read as its parts. */
  lemma NameIsRead(name: Text, a: Text, b: Text, c: Text, stage: Text, number: Text)
    requires IsManifestName(name, a, b, c, stage, number)
    ensures ParseManifest(name) == Some(Manifest(NumberOf(a), NumberOf(b), NumberOf(c), stage, NumberOf(number)))
  {
    hide TakeDigits, TakeUnit, IsNumber, StageOf, StageTail, IsStage, NumberOf;
    Signs();
    StageIsRead(stage, number);
    var tail := StageTail(stage, number);
    SignsEndRun([], c + tail);
    SignsEndRun([], b + ([DOT] + (c + tail)));
    NumberTaken(c, tail);
    UnitTaken(DOT, c + tail);
    NumberTaken(b, [DOT] + (c + tail));
    UnitTaken(DOT, b + ([DOT] + (c + tail)));
    NumberTaken(a, [DOT] + (b + ([DOT] + (c + tail))));
  }

  lemma {:induction false} LetterRunHolds(t: Text, i: nat)
    requires i < LetterRun(t)
    ensures IsLetter(t[i])
    decreases i
  {
    hide IsLetter;
    if i > 0 {
      LetterRunHolds(t[1..], i - 1);
    }
  }

  lemma RunIsStage(rest: Text)
    requires LetterRun(rest) > 0
    ensures IsStage(rest[..LetterRun(rest)])
  {
    var k := LetterRun(rest);
    forall i | 0 <= i < k
      ensures Ascii("a")[0] <= rest[..k][i] <= Ascii("z")[0]
    {
      LetterRunHolds(rest, i);
      Letters(rest[i]);
    }
  }

  lemma ReadIsStage(t: Text) returns (stage: Text, number: Text)
    requires StageOf(t).Some?
    ensures if stage == [] then number == [] else IsStage(stage) && IsNumber(number)
    ensures t == StageTail(stage, number)
  {
    hide NumberOf, IsStage, TakeUnit, TakeDigits, IsNumber;
    Signs();
    JsonSign();
    if t == JSON {
      stage, number := [], [];
    } else {
      var rest := TakenUnit(t, DASH);
      var k := LetterRun(rest);
      stage := rest[..k];
      RunIsStage(rest);
      var afterDot := TakenUnit(rest[k..], DOT);
      var json;
      number, json := TakenNumber(afterDot);
      assert rest == stage + ([DOT] + (number + JSON));
    }
  }

  /** And nothing else is read. */
  lemma ReadIsName(name: Text) returns (a: Text, b: Text, c: Text, stage: Text, number: Text)
    requires ParseManifest(name).Some?
    ensures IsManifestName(name, a, b, c, stage, number)
  {
    hide NumberOf, StageOf, IsStage, StageTail;
    Signs();
    var rest;
    a, rest := TakenNumber(name);
    var afterMajor := TakenUnit(rest, DOT);
    b, rest := TakenNumber(afterMajor);
    var afterMinor := TakenUnit(rest, DOT);
    c, rest := TakenNumber(afterMinor);
    stage, number := ReadIsStage(rest);
  }

  lemma {:induction false} ShippedInOrder(a: seq<Text>, b: seq<Text>)
    ensures Shipped(a + b) == Shipped(a) + Shipped(b)
    decreases |b|
  {
    hide IsShipped;
    if b == [] {
      assert a + b == a;
    } else {
      var n := |b| - 1;
      assert (a + b)[..|a + b| - 1] == a + b[..n];
      ShippedInOrder(a, b[..n]);
    }
  }

  lemma {:induction false} ShippedCount(names: seq<Text>, name: Text)
    ensures multiset(Shipped(names))[name] == if IsShipped(name) then multiset(names)[name] else 0
    decreases |names|
  {
    hide IsShipped;
    if names != [] {
      var n := |names| - 1;
      ShippedCount(names[..n], name);
      assert names == names[..n] + [names[n]];
    }
  }

  /** Of a directory exactly the shipped names are copied, each as often as it is listed
      and in the order of the listing. */
  lemma ShippedAre(a: seq<Text>, b: seq<Text>, name: Text)
    ensures Shipped(a + b) == Shipped(a) + Shipped(b)
    ensures multiset(Shipped(a))[name] == if IsShipped(name) then multiset(a)[name] else 0
  {
    hide IsShipped, Shipped;
    ShippedInOrder(a, b);
    ShippedCount(a, name);
  }

  /** The manifest of a release is copied exactly when it is listed and its version is
      not older than 0.6.0-beta.1. */
  lemma ManifestIsCopied(names: seq<Text>, text: Text)
    requires Parse(text).Some?
    ensures text + Ascii(".json") in Shipped(names)
       <==> text + Ascii(".json") in names && Compare(text, Print(Version(0, 6, 0, Beta, 1))) in {Some(0), Some(1)}
  {
    hide Parse, Print, IsShipped, Shipped;
    JsonSign();
    ShipsFromFirst(text);
    ShippedAre(names, [], text + JSON);
    assert text + JSON in names <==> multiset(names)[text + JSON] > 0;
    assert text + JSON in Shipped(names) <==> multiset(Shipped(names))[text + JSON] > 0;
  }
}
