/** Decimal notation of natural numbers, as JavaScript's template literals print
    them and `Number` or `\d+` read them. */
module Decimal {
  import opened JsText

  const ZERO: Unit := 0x30

  predicate IsDigit(u: Unit) { 0x30 <= u <= 0x39 }

  predicate AllDigits(t: Text) { forall i :: 0 <= i < |t| ==> IsDigit(t[i]) }

  /** `(0|[1-9]\d*)`: digits without a leading zero. */
  predicate Canonical(t: Text) { t != [] && AllDigits(t) && (|t| > 1 ==> t[0] != ZERO) }

  function Digits(n: nat): (t: Text)
    ensures t != [] && AllDigits(t)
  {
    if n < 10 then [ZERO + n] else Digits(n / 10) + [ZERO + n % 10]
  }

  function NumberOf(t: Text): nat
    requires AllDigits(t)
  {
    if t == [] then 0 else NumberOf(t[..|t| - 1]) * 10 + (t[|t| - 1] - ZERO)
  }

  /** The length of the longest prefix of digits. */
  function DigitRun(t: Text): (k: nat)
    ensures k <= |t| && AllDigits(t[..k])
    ensures k < |t| ==> !IsDigit(t[k])
  {
    if t == [] || !IsDigit(t[0]) then 0
    else
      var k := 1 + DigitRun(t[1..]);
      assert forall i :: 0 <= i < k ==> t[..k][i] == if i == 0 then t[0] else t[1..][..k - 1][i - 1];
      k
  }

  /** No digit follows: where a run of digits may end. */
  predicate EndsRun(rest: Text) { rest == [] || !IsDigit(rest[0]) }

  lemma DigitRunIs(ds: Text, rest: Text)
    requires AllDigits(ds) && EndsRun(rest)
    ensures DigitRun(ds + rest) == |ds|
    ensures (ds + rest)[..|ds|] == ds && (ds + rest)[|ds|..] == rest
  {
    var t := ds + rest;
    var k := DigitRun(t);
    assert forall i :: 0 <= i < |ds| ==> t[i] == ds[i];
    assert rest != [] ==> t[|ds|] == rest[0];
    assert forall i :: 0 <= i < k ==> t[..k][i] == t[i];
  }

  lemma {:induction false} NumberOfDigits(n: nat)
    ensures NumberOf(Digits(n)) == n
  {
    var t := Digits(n);
    if n >= 10 {
      NumberOfDigits(n / 10);
      assert t[..|t| - 1] == Digits(n / 10);
    } else {
      assert t[..0] == [];
    }
  }

  lemma {:induction false} DigitsAreCanonical(n: nat)
    ensures Canonical(Digits(n))
    ensures n > 0 ==> Digits(n)[0] != ZERO
  {
    if n >= 10 {
      DigitsAreCanonical(n / 10);
      assert Digits(n)[0] == Digits(n / 10)[0];
    }
  }

  lemma {:induction false} NumberPositive(t: Text)
    requires Canonical(t)
    ensures t[0] != ZERO ==> NumberOf(t) > 0
  {
    if |t| > 1 {
      NumberPositive(t[..|t| - 1]);
    } else {
      assert t[..0] == [];
    }
  }

  lemma {:induction false} DigitsOfNumber(t: Text)
    requires Canonical(t)
    ensures Digits(NumberOf(t)) == t
  {
    var front := t[..|t| - 1];
    if |t| == 1 {
      assert front == [];
    } else {
      DigitsOfNumber(front);
      NumberPositive(front);
      assert t == front + [t[|t| - 1]];
    }
  }

}
