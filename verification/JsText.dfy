/** JavaScript strings as sequences of UTF-16 code units, with the parts of
    `String.prototype` and `Buffer` that the commands rely on. */
module JsText {

  type Unit = u: int | 0 <= u < 0x1_0000

  type Text = seq<Unit>

  /** The text of an ASCII literal (each character's low seven bits). */
  function Ascii(s: string): (t: Text)
    ensures |t| == |s|
    ensures forall i :: 0 <= i < |s| ==> t[i] == s[i] as int % 0x80
  {
    seq(|s|, i requires 0 <= i < |s| => s[i] as int % 0x80)
  }

  predicate IsHigh(u: Unit) { 0xD800 <= u < 0xDC00 }

  predicate IsLow(u: Unit) { 0xDC00 <= u < 0xE000 }

  /** `s` begins with the two halves of one character beyond U+FFFF. */
  predicate StartsWithPair(s: Text) { |s| > 1 && IsHigh(s[0]) && IsLow(s[1]) }

  lemma ConcatAssociates<T>(a: seq<T>, b: seq<T>, c: seq<T>)
    ensures a + b + c == a + (b + c)
  {
  }

  /** WhiteSpace or LineTerminator of ECMA-262: what `trim` and `\s` accept. */
  predicate IsSpaceCode(c: int) {
    || 0x09 <= c <= 0x0D || c == 0x20 || c == 0xA0 || c == 0x1680
    || 0x2000 <= c <= 0x200A || c == 0x2028 || c == 0x2029 || c == 0x202F
    || c == 0x205F || c == 0x3000 || c == 0xFEFF
  }

  predicate IsSpace(u: Unit) { IsSpaceCode(u) }

  /** The characters at which `^`, `$` and `.` of a regular expression stop. */
  predicate IsLineTerminator(u: Unit) { u == 0x0A || u == 0x0D || u == 0x2028 || u == 0x2029 }

  function TrimStart(s: Text): (t: Text)
    ensures |t| <= |s|
    ensures t != [] ==> !IsSpace(t[0])
    ensures forall i :: 0 <= i < |s| - |t| ==> IsSpace(s[i])
  {
    if s == [] || !IsSpace(s[0]) then s else TrimStart(s[1..])
  }

  lemma {:induction false} TrimStartIsSuffix(s: Text)
    ensures TrimStart(s) == s[|s| - |TrimStart(s)|..]
    decreases |s|
  {
    if s != [] && IsSpace(s[0]) {
      TrimStartIsSuffix(s[1..]);
    }
  }

  function TrimEnd(s: Text): (t: Text)
    ensures t <= s
    ensures t != [] ==> !IsSpace(t[|t| - 1])
    ensures forall i :: |t| <= i < |s| ==> IsSpace(s[i])
  {
    if s == [] || !IsSpace(s[|s| - 1]) then s else TrimEnd(s[..|s| - 1])
  }

  function Trim(s: Text): Text { TrimEnd(TrimStart(s)) }

  /** A text that `trim` leaves alone. */
  predicate Trimmed(s: Text) {
    s == [] || (!IsSpace(s[0]) && !IsSpace(s[|s| - 1]))
  }

  lemma TrimOfTrimmed(s: Text)
    ensures Trimmed(Trim(s))
    ensures Trim(s) == s <==> Trimmed(s)
    ensures Trim(Trim(s)) == Trim(s)
  {
    var a := TrimStart(s);
    var b := TrimEnd(a);
    if b != [] {
      assert b[0] == a[0];
    }
    if Trimmed(s) {
      assert TrimStart(s) == s;
      assert TrimEnd(s) == s;
    }
    if Trimmed(b) {
      assert TrimStart(b) == b;
      assert TrimEnd(b) == b;
    }
  }

  /** `Buffer.byteLength(s, "utf8")`; an unpaired surrogate is written as U+FFFD. */
  function Utf8Length(s: Text): nat
  {
    if s == [] then 0
    else if StartsWithPair(s) then 4 + Utf8Length(s[2..])
    else (if s[0] < 0x80 then 1 else if s[0] < 0x800 then 2 else 3) + Utf8Length(s[1..])
  }

  /** No unpaired surrogate: exactly the texts that survive a UTF-8 file. */
  predicate WellFormed(s: Text)
  {
    if s == [] then true
    else if IsHigh(s[0]) then |s| > 1 && IsLow(s[1]) && WellFormed(s[2..])
    else !IsLow(s[0]) && WellFormed(s[1..])
  }

  lemma {:induction false} Utf8LengthConcat(a: Text, b: Text)
    requires a == [] || !IsHigh(a[|a| - 1])
    ensures Utf8Length(a + b) == Utf8Length(a) + Utf8Length(b)
    decreases |a|
  {
    if a == [] {
      assert a + b == b;
    } else if StartsWithPair(a) {
      assert (a + b)[2..] == a[2..] + b;
      Utf8LengthConcat(a[2..], b);
    } else {
      assert (a + b)[1..] == a[1..] + b;
      Utf8LengthConcat(a[1..], b);
    }
  }

  lemma {:induction false} WellFormedConcat(a: Text, b: Text)
    requires WellFormed(a)
    ensures WellFormed(a + b) == WellFormed(b)
    decreases |a|
  {
    if a == [] {
      assert a + b == b;
    } else if IsHigh(a[0]) {
      assert (a + b)[2..] == a[2..] + b;
      WellFormedConcat(a[2..], b);
    } else {
      assert (a + b)[1..] == a[1..] + b;
      WellFormedConcat(a[1..], b);
    }
  }

  lemma {:induction false} Utf8LengthBound(s: Text)
    ensures Utf8Length(s) <= 3 * |s|
    decreases |s|
  {
    if s == [] {
    } else if StartsWithPair(s) {
      Utf8LengthBound(s[2..]);
    } else {
      Utf8LengthBound(s[1..]);
    }
  }
}
