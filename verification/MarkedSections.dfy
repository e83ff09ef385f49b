/** Sections of a text between automatic markers, rewritten in place: the
    workspace index of `pactile session`. */
module MarkedSections {
  import opened JsText
  import opened Lines
  import opened Options

  // ---- Searching ----

  predicate OccursAt(t: Text, p: Text, i: nat) { i + |p| <= |t| && t[i..i + |p|] == p }

  predicate Occurs(t: Text, p: Text) { exists i: nat :: i <= |t| && OccursAt(t, p, i) }

  /** `t.indexOf(p, from)` */
  function IndexOf(t: Text, p: Text, from: nat): (i: Option<nat>)
    ensures i.Some? ==> from <= i.value && OccursAt(t, p, i.value)
    ensures i.Some? ==> forall j :: from <= j < i.value ==> !OccursAt(t, p, j)
    ensures i.None? ==> forall j :: from <= j ==> !OccursAt(t, p, j)
    decreases |t| - from
  {
    if OccursAt(t, p, from) then Some(from)
    else if from + |p| >= |t| then None
    else IndexOf(t, p, from + 1)
  }

  lemma IndexOfIs(t: Text, p: Text, from: nat, i: nat)
    requires from <= i && OccursAt(t, p, i) && forall j :: from <= j < i ==> !OccursAt(t, p, j)
    ensures IndexOf(t, p, from) == Some(i)
  {
  }

  // ---- Markers ----

  const OPEN_HEAD: Text := Ascii("<!-- @@@auto:")
  const CLOSE_HEAD: Text := Ascii("<!-- @@@/auto:")
  const MARKER_TAIL: Text := Ascii(" -->")

  function Open(marker: Text): Text { OPEN_HEAD + marker + MARKER_TAIL }

  function Close(marker: Text): Text { CLOSE_HEAD + marker + MARKER_TAIL }

  /** Marker names are words. */
  predicate IsMarker(marker: Text) { marker != [] && IsLine(marker) }

  /** Where a section begins (behind its marker) and ends (before its marker). */
  datatype Span = Span(begin: nat, finish: nat)

  function SpanOf(content: Text, marker: Text): (s: Option<Span>)
  {
    var begin :- IndexOf(content, Open(marker), 0);
    var finish :- IndexOf(content, Close(marker), begin + |Open(marker)|);
    Some(Span(begin + |Open(marker)|, finish))
  }

  lemma SpanFits(content: Text, marker: Text)
    ensures var s := SpanOf(content, marker);
      s.Some? ==>
        && |Open(marker)| <= s.value.begin <= s.value.finish <= s.value.finish + |Close(marker)| <= |content|
        && OccursAt(content, Open(marker), s.value.begin - |Open(marker)|)
        && OccursAt(content, Close(marker), s.value.finish)
        && (forall j: nat :: j < s.value.begin - |Open(marker)| ==> !OccursAt(content, Open(marker), j))
        && (forall j :: s.value.begin <= j < s.value.finish ==> !OccursAt(content, Close(marker), j))
  {
    hide IndexOf, OccursAt;
    var begin := IndexOf(content, Open(marker), 0);
    if begin.Some? {
      OccursFits(content, Open(marker), begin.value);
      var finish := IndexOf(content, Close(marker), begin.value + |Open(marker)|);
      if finish.Some? {
        OccursFits(content, Close(marker), finish.value);
      }
    }
  }

  lemma OccursFits(t: Text, p: Text, i: nat)
    requires OccursAt(t, p, i)
    ensures i + |p| <= |t|
  {
  }

  /** The text between the markers. */
  function Section(content: Text, marker: Text): Option<Text>
  {
    SpanFits(content, marker);
    var s :- SpanOf(content, marker);
    Some(content[s.begin..s.finish])
  }

  /** What `replaceMarkedSection` puts between the markers for a body. */
  function Framed(body: Text): Text { LF + TrimEnd(body) + LF }

  /** `replaceMarkedSection`; none when a marker is missing. */
  function Replace(content: Text, marker: Text, body: Text): Option<Text>
  {
    SpanFits(content, marker);
    var s :- SpanOf(content, marker);
    Some(content[..s.begin] + Framed(body) + content[s.finish..])
  }

  // ---- Occurrences in a text with a new middle ----

  /** Nothing that is searched for spans lines. */
  predicate OneLine(p: Text) { p != [] && IsLine(p) }

  lemma MarkersAreOneLine(marker: Text)
    requires IsMarker(marker)
    ensures OneLine(Open(marker)) && OneLine(Close(marker))
  {
    PlainHasNoBreak();
  }

  lemma PlainHasNoBreak()
    ensures IsLine(OPEN_HEAD) && IsLine(CLOSE_HEAD) && IsLine(MARKER_TAIL)
  {
    hide IsLine;
    PlainLine("<!-- @@@auto:");
    PlainLine("<!-- @@@/auto:");
    PlainLine(" -->");
  }

  lemma NoBreakInside(t: Text, p: Text, i: nat, b: nat)
    requires OccursAt(t, p, i) && OneLine(p) && i <= b < i + |p|
    ensures t[b] != NEWLINE
  {
    assert t[i..i + |p|][b - i] == t[b];
  }

  /** `a`, then a body between line breaks, then `c`. */
  function Around(a: Text, body: Text, c: Text): Text { a + (LF + body + LF) + c }

  lemma AroundParts(a: Text, body: Text, c: Text)
    ensures var t, n := Around(a, body, c), |a|;
      && |t| == n + |body| + 2 + |c|
      && t[..n] == a && t[n] == NEWLINE && t[n + 1..n + 1 + |body|] == body
      && t[n + 1 + |body|] == NEWLINE && t[n + 2 + |body|..] == c
  {
  }

  lemma SliceOfSlice(t: Text, lo: nat, hi: nat, p: Text, i: nat)
    requires lo <= hi <= |t| && lo <= i && i + |p| <= hi
    ensures OccursAt(t, p, i) <==> OccursAt(t[lo..hi], p, i - lo)
  {
    var x, y := t[lo..hi][i - lo..i - lo + |p|], t[i..i + |p|];
    assert forall n :: 0 <= n < |p| ==> x[n] == y[n];
    assert x == y;
  }

  /** An occurrence lies before, in or behind the new body. */
  lemma WhereInAround(a: Text, body: Text, c: Text, p: Text, i: nat)
    requires OneLine(p)
    ensures var t, n, m := Around(a, body, c), |a|, |a| + 2 + |body|;
      OccursAt(t, p, i) <==>
        || (i < n && OccursAt(a, p, i))
        || (n < i < m && OccursAt(body, p, i - n - 1))
        || (m <= i && OccursAt(c, p, i - m))
  {
    hide OneLine;
    var t, n, m := Around(a, body, c), |a|, |a| + 2 + |body|;
    AroundParts(a, body, c);
    if OccursAt(t, p, i) {
      assert p != [] by { OneLineIsSomething(p); }
      if i <= n < i + |p| {
        NoBreakInside(t, p, i, n);
      } else if i <= m - 1 < i + |p| {
        NoBreakInside(t, p, i, m - 1);
      }
    }
    if i + |p| <= n {
      SliceOfSlice(t, 0, n, p, i);
    } else if n < i && i + |p| < m {
      SliceOfSlice(t, n + 1, m - 1, p, i);
    } else if m <= i && i + |p| <= |t| {
      SliceOfSlice(t, m, |t|, p, i);
    }
  }

  lemma OneLineIsSomething(p: Text)
    requires OneLine(p)
    ensures p != []
  {
  }

  // ---- Rewriting a section ----

  ghost predicate Without(body: Text, p: Text) { forall i: nat :: !OccursAt(body, p, i) }

  /** The body mentions neither marker of the section. */
  ghost predicate FreeOf(body: Text, marker: Text)
  {
    Without(TrimEnd(body), Open(marker)) && Without(TrimEnd(body), Close(marker))
  }

  lemma ReplaceIsAround(content: Text, marker: Text, body: Text)
    requires SpanOf(content, marker).Some?
    ensures var s := SpanOf(content, marker).value;
      && s.begin <= s.finish <= |content|
      && Replace(content, marker, body) == Some(Around(content[..s.begin], TrimEnd(body), content[s.finish..]))
  {
    SpanFits(content, marker);
  }

  /** The first occurrence in a text with a new middle. */
  lemma FirstBefore(a: Text, body: Text, c: Text, p: Text, from: nat, i: nat)
    requires OneLine(p) && IndexOf(a, p, from) == Some(i)
    ensures IndexOf(Around(a, body, c), p, from) == Some(i)
  {
    hide OneLine, OccursAt, Around, IndexOf;
    WhereInAround(a, body, c, p, i);
    OccursFitsStrictly(a, p, i);
    forall j | from <= j < i
      ensures !OccursAt(Around(a, body, c), p, j)
    {
      WhereInAround(a, body, c, p, j);
    }
    IndexOfIs(Around(a, body, c), p, from, i);
  }

  lemma OccursFitsStrictly(t: Text, p: Text, i: nat)
    requires OneLine(p) && OccursAt(t, p, i)
    ensures i < |t|
  {
  }

  lemma FirstBehind(a: Text, body: Text, c: Text, p: Text, from: nat, i: nat)
    requires OneLine(p) && Without(body, p) && IndexOf(c, p, 0) == Some(i)
    requires forall j :: from <= j < |a| ==> !OccursAt(a, p, j)
    requires from <= |a| + 2 + |body| + i
    ensures IndexOf(Around(a, body, c), p, from) == Some(|a| + 2 + |body| + i)
  {
    hide OneLine, OccursAt, Around, IndexOf;
    var m := |a| + 2 + |body|;
    WhereInAround(a, body, c, p, m + i);
    forall j | from <= j < m + i
      ensures !OccursAt(Around(a, body, c), p, j)
    {
      WhereInAround(a, body, c, p, j);
    }
    IndexOfIs(Around(a, body, c), p, from, m + i);
  }

  lemma OccursInPrefix(t: Text, n: nat, p: Text, i: nat)
    requires n <= |t|
    ensures OccursAt(t[..n], p, i) <==> OccursAt(t, p, i) && i + |p| <= n
  {
    if i + |p| <= n {
      SliceOfSlice(t, 0, n, p, i);
    }
  }

  lemma OccursInSuffix(t: Text, n: nat, p: Text, i: nat)
    requires n <= |t|
    ensures OccursAt(t[n..], p, i) <==> OccursAt(t, p, n + i)
  {
    if n + i + |p| <= |t| {
      SliceOfSlice(t, n, |t|, p, n + i);
      assert t[n..|t|] == t[n..];
    }
  }

  lemma FirstInPrefix(t: Text, n: nat, p: Text, from: nat, i: nat)
    requires n <= |t| && IndexOf(t, p, from) == Some(i) && i + |p| <= n
    ensures IndexOf(t[..n], p, from) == Some(i)
  {
    hide OccursAt, IndexOf;
    OccursInPrefix(t, n, p, i);
    forall j | from <= j < i
      ensures !OccursAt(t[..n], p, j)
    {
      OccursInPrefix(t, n, p, j);
    }
    IndexOfIs(t[..n], p, from, i);
  }

  lemma FirstInSuffix(t: Text, n: nat, p: Text, from: nat, i: nat)
    requires n <= |t| && from <= n <= i && IndexOf(t, p, from) == Some(i)
    ensures IndexOf(t[n..], p, 0) == Some(i - n)
  {
    hide OccursAt, IndexOf;
    OccursInSuffix(t, n, p, i - n);
    forall j | 0 <= j < i - n
      ensures !OccursAt(t[n..], p, j)
    {
      OccursInSuffix(t, n, p, j);
    }
    IndexOfIs(t[n..], p, 0, i - n);
  }

  /** A rewritten section is found at the same place and holds the new body. */
  lemma ReplaceThenFind(content: Text, marker: Text, body: Text)
    requires IsMarker(marker) && SpanOf(content, marker).Some? && Without(TrimEnd(body), Close(marker))
    ensures var s, t := SpanOf(content, marker).value, Replace(content, marker, body).value;
      && Replace(content, marker, body).Some?
      && SpanOf(t, marker) == Some(Span(s.begin, s.begin + 2 + |TrimEnd(body)|))
      && Section(t, marker) == Some(Framed(body))
  {
    hide OneLine, OccursAt, Around, IndexOf, TrimEnd, Without;
    MarkersAreOneLine(marker);
    SpanFits(content, marker);
    ReplaceIsAround(content, marker, body);
    var s := SpanOf(content, marker).value;
    var a, b, c := content[..s.begin], TrimEnd(body), content[s.finish..];
    var open, close := Open(marker), Close(marker);
    FirstInPrefix(content, s.begin, open, 0, s.begin - |open|);
    FirstBefore(a, b, c, open, 0, s.begin - |open|);
    FirstInSuffix(content, s.finish, close, s.begin, s.finish);
    FirstBehind(a, b, c, close, s.begin, 0);
    SectionOfAround(a, b, c);
  }

  lemma SectionOfAround(a: Text, b: Text, c: Text)
    ensures Around(a, b, c)[|a|..|a| + 2 + |b|] == LF + b + LF
    ensures Around(a, b, c)[..|a|] == a && Around(a, b, c)[|a| + 2 + |b|..] == c
  {
  }

  // ---- Other sections ----

  /** `m` ends before `n` begins. */
  predicate Precedes(content: Text, m: Text, n: Text)
  {
    var s, u := SpanOf(content, m), SpanOf(content, n);
    s.Some? && u.Some? && s.value.finish + |Close(m)| + |Open(n)| <= u.value.begin
  }

  predicate Disjoint(content: Text, m: Text, n: Text)
  {
    Precedes(content, m, n) || Precedes(content, n, m)
  }

  lemma FirstInTail(a: Text, body: Text, c: Text, p: Text, from: nat, i: nat)
    requires OneLine(p) && IndexOf(c, p, from) == Some(i)
    ensures var m := |a| + 2 + |body|; IndexOf(Around(a, body, c), p, m + from) == Some(m + i)
  {
    hide OneLine, OccursAt, Around, IndexOf;
    var m := |a| + 2 + |body|;
    WhereInAround(a, body, c, p, m + i);
    forall j | m + from <= j < m + i
      ensures !OccursAt(Around(a, body, c), p, j)
    {
      WhereInAround(a, body, c, p, j);
    }
    IndexOfIs(Around(a, body, c), p, m + from, m + i);
  }

  lemma FirstFromInSuffix(t: Text, n: nat, p: Text, from: nat, i: nat)
    requires n <= |t| && n <= from <= i && IndexOf(t, p, from) == Some(i)
    ensures IndexOf(t[n..], p, from - n) == Some(i - n)
  {
    hide OccursAt, IndexOf;
    OccursInSuffix(t, n, p, i - n);
    forall j | from - n <= j < i - n
      ensures !OccursAt(t[n..], p, j)
    {
      OccursInSuffix(t, n, p, j);
    }
    IndexOfIs(t[n..], p, from - n, i - n);
  }

  /** A section before the rewritten one stays where it is. */
  lemma EarlierStays(content: Text, m: Text, body: Text, n: Text)
    requires IsMarker(n) && Precedes(content, n, m)
    ensures SpanOf(Replace(content, m, body).value, n) == SpanOf(content, n)
  {
    hide OneLine, OccursAt, Around, IndexOf, TrimEnd;
    MarkersAreOneLine(n);
    SpanFits(content, n);
    SpanFits(content, m);
    ReplaceIsAround(content, m, body);
    var s, u := SpanOf(content, m).value, SpanOf(content, n).value;
    var a, c := content[..s.begin], content[s.finish..];
    var open, close := Open(n), Close(n);
    FirstInPrefix(content, s.begin, open, 0, u.begin - |open|);
    FirstBefore(a, TrimEnd(body), c, open, 0, u.begin - |open|);
    FirstInPrefix(content, s.begin, close, u.begin, u.finish);
    FirstBefore(a, TrimEnd(body), c, close, u.begin, u.finish);
  }

  /** A section behind the rewritten one moves by the difference in length. */
  lemma LaterMoves(content: Text, m: Text, body: Text, n: Text)
    requires IsMarker(n) && Precedes(content, m, n) && FreeOf(body, n)
    ensures var s, u := SpanOf(content, m).value, SpanOf(content, n).value;
      var shift := s.begin + 2 + |TrimEnd(body)| - s.finish;
      u.begin + shift >= 0 && u.finish + shift >= 0
      && SpanOf(Replace(content, m, body).value, n) == Some(Span(u.begin + shift, u.finish + shift))
  {
    hide OneLine, OccursAt, Around, IndexOf, TrimEnd, Without;
    MarkersAreOneLine(n);
    SpanFits(content, n);
    SpanFits(content, m);
    ReplaceIsAround(content, m, body);
    var s, u := SpanOf(content, m).value, SpanOf(content, n).value;
    var a, b, c := content[..s.begin], TrimEnd(body), content[s.finish..];
    var open, close := Open(n), Close(n);
    FirstInSuffix(content, s.finish, open, 0, u.begin - |open|);
    forall j | 0 <= j < |a|
      ensures !OccursAt(a, open, j)
    {
      OccursInPrefix(content, s.begin, open, j);
    }
    FirstBehind(a, b, c, open, 0, u.begin - |open| - s.finish);
    FirstFromInSuffix(content, s.finish, close, u.begin, u.finish);
    FirstInTail(a, b, c, close, u.begin - s.finish, u.finish - s.finish);
  }

  /** Rewriting one section leaves a disjoint one readable and unchanged. */
  lemma ReplaceKeepsOther(content: Text, m: Text, body: Text, n: Text)
    requires IsMarker(m) && IsMarker(n) && Disjoint(content, m, n)
    requires FreeOf(body, n) && Without(TrimEnd(body), Close(m))
    ensures var t := Replace(content, m, body).value;
      && Section(t, n) == Section(content, n)
      && (Precedes(content, m, n) ==> Precedes(t, m, n)) && (Precedes(content, n, m) ==> Precedes(t, n, m))
  {
    hide OneLine, OccursAt, IndexOf, TrimEnd, Without, FreeOf, Around;
    SpanFits(content, m);
    SpanFits(content, n);
    ReplaceThenFind(content, m, body);
    ReplaceIsAround(content, m, body);
    var s := SpanOf(content, m).value;
    SectionOfAround(content[..s.begin], TrimEnd(body), content[s.finish..]);
    if Precedes(content, n, m) {
      EarlierStays(content, m, body, n);
      SliceOfPrefix(content, Replace(content, m, body).value, s.begin, SpanOf(content, n).value);
    }
    if Precedes(content, m, n) {
      LaterMoves(content, m, body, n);
      SliceOfSuffix(content, s.finish, Replace(content, m, body).value, s.begin + 2 + |TrimEnd(body)|, SpanOf(content, n).value);
    }
  }

  lemma SliceOfPrefix(t: Text, u: Text, n: nat, s: Span)
    requires s.begin <= s.finish <= n && n <= |t| && n <= |u| && t[..n] == u[..n]
    ensures t[s.begin..s.finish] == u[s.begin..s.finish]
  {
    assert t[..n][s.begin..s.finish] == t[s.begin..s.finish];
    assert u[..n][s.begin..s.finish] == u[s.begin..s.finish];
  }

  lemma SliceOfSuffix(t: Text, n: nat, u: Text, m: nat, s: Span)
    requires n <= s.begin <= s.finish <= |t| && m <= |u| && t[n..] == u[m..]
    ensures t[s.begin..s.finish] == u[s.begin - n + m..s.finish - n + m]
  {
    assert t[n..][s.begin - n..s.finish - n] == t[s.begin..s.finish];
    assert u[m..][s.begin - n..s.finish - n] == u[s.begin - n + m..s.finish - n + m];
  }

  // ---- Laws ----

  /** The last rewriting of a section wins. */
  lemma ReplaceTwice(content: Text, m: Text, body: Text, body': Text)
    requires IsMarker(m) && SpanOf(content, m).Some? && Without(TrimEnd(body), Close(m))
    ensures Replace(Replace(content, m, body).value, m, body') == Replace(content, m, body')
  {
    hide OneLine, OccursAt, IndexOf, TrimEnd, Without, Around;
    SpanFits(content, m);
    ReplaceThenFind(content, m, body);
    ReplaceIsAround(content, m, body);
    ReplaceIsAround(content, m, body');
    var s := SpanOf(content, m).value;
    SectionOfAround(content[..s.begin], TrimEnd(body), content[s.finish..]);
    ReplaceIsAround(Replace(content, m, body).value, m, body');
  }

  /** Both sections rewritten, the first being the earlier one. */
  function TwoRewritten(content: Text, s: Span, b: Text, u: Span, d: Text): Text
    requires s.begin <= s.finish <= u.begin <= u.finish <= |content|
  {
    content[..s.begin] + (LF + b + LF) + content[s.finish..u.begin] + (LF + d + LF) + content[u.finish..]
  }

  lemma InOrder(content: Text, m: Text, body: Text, n: Text, body': Text)
    requires IsMarker(m) && IsMarker(n) && Precedes(content, m, n)
    requires FreeOf(body, n) && Without(TrimEnd(body), Close(m))
    ensures var s, u := SpanOf(content, m).value, SpanOf(content, n).value;
      && s.begin <= s.finish <= u.begin <= u.finish <= |content|
      && Replace(Replace(content, m, body).value, n, body')
         == Some(TwoRewritten(content, s, TrimEnd(body), u, TrimEnd(body')))
  {
    hide OneLine, OccursAt, IndexOf, TrimEnd, Without, FreeOf, Around;
    SpanFits(content, m);
    SpanFits(content, n);
    LaterMoves(content, m, body, n);
    ReplaceIsAround(content, m, body);
    var s, u := SpanOf(content, m).value, SpanOf(content, n).value;
    var t := Replace(content, m, body).value;
    ReplaceIsAround(t, n, body');
    SplitRest(content, s, TrimEnd(body), u, TrimEnd(body'));
  }

  lemma SplitRest(content: Text, s: Span, b: Text, u: Span, d: Text)
    requires s.begin <= s.finish <= u.begin <= u.finish <= |content|
    ensures var t := Around(content[..s.begin], b, content[s.finish..]);
      var shift := s.begin + 2 + |b| - s.finish;
      0 <= u.begin + shift <= u.finish + shift <= |t|
      && Around(t[..u.begin + shift], d, t[u.finish + shift..]) == TwoRewritten(content, s, b, u, d)
  {
    var c := content[s.finish..];
    var t := Around(content[..s.begin], b, c);
    var k := s.begin + 2 + |b|;
    SectionOfAround(content[..s.begin], b, c);
    assert c[..u.begin - s.finish] == content[s.finish..u.begin];
    assert t[..u.begin - s.finish + k] == content[..s.begin] + (LF + b + LF) + content[s.finish..u.begin];
    assert t[u.finish - s.finish + k..] == content[u.finish..];
  }

  lemma OutOfOrder(content: Text, m: Text, body: Text, n: Text, body': Text)
    requires IsMarker(m) && Precedes(content, m, n)
    ensures var s, u := SpanOf(content, m).value, SpanOf(content, n).value;
      && s.begin <= s.finish <= u.begin <= u.finish <= |content|
      && Replace(Replace(content, n, body').value, m, body)
         == Some(TwoRewritten(content, s, TrimEnd(body), u, TrimEnd(body')))
  {
    hide OneLine, OccursAt, IndexOf, TrimEnd, Around;
    SpanFits(content, m);
    SpanFits(content, n);
    EarlierStays(content, n, body', m);
    ReplaceIsAround(content, n, body');
    var s, u := SpanOf(content, m).value, SpanOf(content, n).value;
    ReplaceIsAround(Replace(content, n, body').value, m, body);
    SplitFront(content, s, TrimEnd(body), u, TrimEnd(body'));
  }

  lemma SplitFront(content: Text, s: Span, b: Text, u: Span, d: Text)
    requires s.begin <= s.finish <= u.begin <= u.finish <= |content|
    ensures var t := Around(content[..u.begin], d, content[u.finish..]);
      s.finish <= |t| && Around(t[..s.begin], b, t[s.finish..]) == TwoRewritten(content, s, b, u, d)
  {
    var t := Around(content[..u.begin], d, content[u.finish..]);
    assert t[..s.begin] == content[..s.begin];
    assert t[s.finish..] == content[s.finish..u.begin] + (LF + d + LF) + content[u.finish..];
  }

  /** Rewritings of disjoint sections commute. */
  lemma ReplaceCommutes(content: Text, m: Text, body: Text, n: Text, body': Text)
    requires IsMarker(m) && IsMarker(n) && Disjoint(content, m, n)
    requires FreeOf(body, m) && FreeOf(body, n) && FreeOf(body', m) && FreeOf(body', n)
    ensures Replace(Replace(content, m, body).value, n, body') == Replace(Replace(content, n, body').value, m, body)
  {
    hide OneLine, OccursAt, IndexOf, TrimEnd, Without, SpanOf, TwoRewritten, Replace;
    if Precedes(content, m, n) {
      InOrder(content, m, body, n, body');
      OutOfOrder(content, m, body, n, body');
    } else {
      InOrder(content, n, body', m, body);
      OutOfOrder(content, n, body', m, body);
    }
  }
}
