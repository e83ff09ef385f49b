/** `pactile session add` as a whole: one journal and three sections of the index.
    The index is read for the total and the rows of the history, everything is
    computed before anything is written, and the three nested replacements leave
    the text outside the sections alone. */
module Sessions {
  import opened Decimal
  import opened Journal
  import opened JsText
  import opened Lines
  import opened MarkedSections
  import opened Options

  const STATUS: Text := Ascii("current-status")
  const DOCUMENTS: Text := Ascii("active-documents")
  const HISTORY: Text := Ascii("session-history")

  const ANGLE: Unit := 0x3C
  const PIPE: Unit := 0x7C
  const SPACE: Unit := 0x20

  // ---- What is read from the index ----

  const TOTAL_KEY: Text := Ascii("**Total Sessions**:")

  /** `\s*(\d+)` at the start of `t`. */
  function NumberAfter(t: Text): Option<nat>
  {
    var rest := TrimStart(t);
    var k := DigitRun(rest);
    if k == 0 then None else Some(NumberOf(rest[..k]))
  }

  /** `/\*\*Total Sessions\*\*:\s*(\d+)/` at position `i`. */
  function TotalAt(t: Text, i: nat): Option<nat>
  {
    if !OccursAt(t, TOTAL_KEY, i) then None
    else NumberAfter(t[i + |TOTAL_KEY|..])
  }

  /** The first match at or behind `from`; zero without one. */
  function TotalFrom(t: Text, from: nat): nat
    decreases |t| - from
  {
    if from >= |t| then 0 else TotalAt(t, from).GetOr(TotalFrom(t, from + 1))
  }

  function Total(index: Text): nat { TotalFrom(index, 0) }

  /** `/^\|\s*\d+\s*\|/` */
  predicate IsRow(line: Text)
  {
    line != [] && line[0] == PIPE &&
    var rest := TrimStart(line[1..]);
    var k := DigitRun(rest);
    k > 0 && var tail := TrimStart(rest[k..]); tail != [] && tail[0] == PIPE
  }

  function RowsIn(lines: seq<Text>): (rows: seq<Text>)
  {
    if lines == [] then [] else (if IsRow(lines[0]) then [lines[0]] else []) + RowsIn(lines[1..])
  }

  /** The rows of the session history. */
  function Rows(index: Text): seq<Text> { RowsIn(SplitLines(Section(index, HISTORY).GetOr([]))) }

  // ---- What is written to it ----

  const STATUS_FILE: Text := Ascii("- **Active File**: `")
  const STATUS_TOTAL: Text := Ascii("`\n- ")
  const STATUS_DATE: Text := Ascii("\n- **Last Active**: ")

  function StatusBody(name: Text, number: nat, today: Text): Text
  {
    STATUS_FILE + name + STATUS_TOTAL + (TOTAL_KEY + [SPACE] + Digits(number)) + STATUS_DATE + today
  }

  const DOCUMENTS_HEAD: seq<Text> := [Ascii("| File | Lines | Status |"), Ascii("|------|-------|--------|")]

  function DocumentLine(f: File, active: Text): Text
  {
    Ascii("| `") + f.name + Ascii("` | ~") + Digits(LineCount(f.text))
    + Ascii(if f.name == active then " | Active |" else " | Archived |")
  }

  function DocumentLines(files: seq<File>, active: Text): seq<Text>
  {
    if files == [] then [] else [DocumentLine(files[0], active)] + DocumentLines(files[1..], active)
  }

  /** The table lists the journals as they will be after this session. */
  function DocumentsBody(files: seq<File>, active: Text): Text
  {
    Join(DOCUMENTS_HEAD + DocumentLines(files, active), LF)
  }

  const HISTORY_HEAD: seq<Text> :=
    [Ascii("| # | Date | Title | Commits | Branch |"), Ascii("|---|------|-------|---------|--------|")]

  const ROW_BREAK: Text := Ascii(" | ")

  function Row(number: nat, s: Session, commits: Text): Text
  {
    [PIPE, SPACE] + Digits(number) + ROW_BREAK
    + (s.today + ROW_BREAK + s.title + ROW_BREAK + commits + Ascii(" | `")
       + (if s.branch == [] then Ascii("-") else s.branch) + Ascii("` |"))
  }

  function HistoryBody(row: Text, rows: seq<Text>): Text { Join(HISTORY_HEAD + ([row] + rows), LF) }

  // ---- One session ----

  /** The developer's part of `.pactile/workspace`. */
  datatype Workspace = Workspace(index: Text, files: seq<File>)

  /** What one call brings along; `commits` is as shown in the table, `slot` where
      a new journal appears in the directory listing. */
  datatype Call = Call(developer: Text, session: Session, commits: Text, maxLines: nat, slot: nat)

  /** `addSession`; none when it throws, in which case nothing is written. */
  function AddSession(ws: Workspace, c: Call): Option<Workspace>
  {
    if ws.files == [] then None
    else
      var number := Total(ws.index) + 1;
      var w :- Choose(ws.files, c.developer, Entry(number, c.session), c.maxLines, c.session.today);
      var stored := Store(ws.files, w, c.slot);
      var status :- Replace(ws.index, STATUS, StatusBody(w.name, number, c.session.today));
      var documents :- Replace(status, DOCUMENTS, DocumentsBody(Sorted(stored), w.name));
      var index :- Replace(documents, HISTORY, HistoryBody(Row(number, c.session, c.commits), Rows(ws.index)));
      Some(Workspace(index, stored))
  }

  /** The developer's directory, changed by the command. */
  class DeveloperDirectory {
    var index: Text
    var files: seq<File>

    constructor (ws: Workspace)
      ensures Snapshot() == ws
    {
      index, files := ws.index, ws.files;
    }

    function Snapshot(): Workspace
      reads this
    {
      Workspace(index, files)
    }

    /** `addSession`: everything is computed, and can fail, before the two writes. */
    method Add(c: Call) returns (ok: bool)
      modifies this
      ensures ok == AddSession(old(Snapshot()), c).Some?
      ensures Snapshot() == AddSession(old(Snapshot()), c).GetOr(old(Snapshot()))
    {
      hide Choose, Replace, Rows, TotalFrom, Sorted, Store, StatusBody, DocumentsBody, HistoryBody, Entry, Row;
      if files == [] {
        return false;
      }
      var number := Total(index) + 1;
      var chosen := Choose(files, c.developer, Entry(number, c.session), c.maxLines, c.session.today);
      if chosen.None? {
        return false;
      }
      var w := chosen.value;
      var stored := Store(files, w, c.slot);
      var rows := Rows(index);
      var updated := Replace(index, STATUS, StatusBody(w.name, number, c.session.today));
      if updated.None? {
        return false;
      }
      updated := Replace(updated.value, DOCUMENTS, DocumentsBody(Sorted(stored), w.name));
      if updated.None? {
        return false;
      }
      updated := Replace(updated.value, HISTORY, HistoryBody(Row(number, c.session, c.commits), rows));
      if updated.None? {
        return false;
      }
      files := stored;
      index := updated.value;
      ok := true;
    }
  }

  // ---- Indexes that can be rewritten ----

  predicate IsRegular(index: Text)
  {
    && Disjoint(index, STATUS, DOCUMENTS) && Disjoint(index, STATUS, HISTORY) && Disjoint(index, DOCUMENTS, HISTORY)
  }

  /** No marker of any section occurs in `t`. */
  ghost predicate MarkerFree(t: Text)
  {
    && Without(t, Open(STATUS)) && Without(t, Close(STATUS))
    && Without(t, Open(DOCUMENTS)) && Without(t, Close(DOCUMENTS))
    && Without(t, Open(HISTORY)) && Without(t, Close(HISTORY))
  }

  lemma OccursInStart(t: Text, n: nat, p: Text)
    requires n <= |t| && Without(t, p)
    ensures Without(t[..n], p)
  {
    forall i: nat
      ensures !OccursAt(t[..n], p, i)
    {
      OccursInPrefix(t, n, p, i);
    }
  }

  lemma MarkerFreeTrims(t: Text)
    requires MarkerFree(t)
    ensures FreeOf(t, STATUS) && FreeOf(t, DOCUMENTS) && FreeOf(t, HISTORY)
  {
    hide Without, OccursAt;
    var n := |TrimEnd(t)|;
    assert t[..n] == TrimEnd(t);
    OccursInStart(t, n, Open(STATUS));
    OccursInStart(t, n, Close(STATUS));
    OccursInStart(t, n, Open(DOCUMENTS));
    OccursInStart(t, n, Close(DOCUMENTS));
    OccursInStart(t, n, Open(HISTORY));
    OccursInStart(t, n, Close(HISTORY));
  }

  lemma MarkersAreMarkers()
    ensures IsMarker(STATUS) && IsMarker(DOCUMENTS) && IsMarker(HISTORY)
  {
    hide IsLine;
    PlainLine("current-status");
    PlainLine("active-documents");
    PlainLine("session-history");
  }

  /** The three nested replacements. */
  function Rewrite(index: Text, status: Text, documents: Text, history: Text): Option<Text>
  {
    var a :- Replace(index, STATUS, status);
    var b :- Replace(a, DOCUMENTS, documents);
    Replace(b, HISTORY, history)
  }

  lemma DisjointFound(index: Text, m: Text, n: Text)
    requires Disjoint(index, m, n)
    ensures SpanOf(index, m).Some? && SpanOf(index, n).Some?
  {
  }

  /** One replacement: its section holds the body, the two others are as before,
      and the index can be rewritten again. */
  lemma OneOfThree(index: Text, m: Text, body: Text, n: Text, o: Text)
    requires IsMarker(m) && IsMarker(n) && IsMarker(o)
    requires Disjoint(index, m, n) && Disjoint(index, m, o) && Disjoint(index, n, o)
    requires FreeOf(body, m) && FreeOf(body, n) && FreeOf(body, o)
    ensures Replace(index, m, body).Some?
    ensures var t := Replace(index, m, body).value;
      && Section(t, m) == Some(Framed(body)) && Section(t, n) == Section(index, n) && Section(t, o) == Section(index, o)
      && Disjoint(t, m, n) && Disjoint(t, m, o) && Disjoint(t, n, o)
      && (Precedes(index, m, n) ==> Precedes(t, m, n)) && (Precedes(index, m, o) ==> Precedes(t, m, o))
  {
    hide SpanOf, Section, Replace, Precedes, Without, IsMarker;
    DisjointFound(index, m, n);
    ReplaceThenFind(index, m, body);
    ReplaceKeepsOther(index, m, body, n);
    ReplaceKeepsOther(index, m, body, o);
    if Precedes(index, n, o) {
      OthersStayDisjoint(index, m, body, n, o);
    } else {
      OthersStayDisjoint(index, m, body, o, n);
    }
  }

  lemma OthersStayDisjoint(index: Text, m: Text, body: Text, n: Text, o: Text)
    requires IsMarker(m) && IsMarker(n) && IsMarker(o)
    requires Disjoint(index, m, n) && Disjoint(index, m, o) && Precedes(index, n, o)
    requires FreeOf(body, m) && FreeOf(body, n) && FreeOf(body, o)
    ensures Precedes(Replace(index, m, body).value, n, o)
  {
    hide TrimEnd, Without, OccursAt, IndexOf, FreeOf, Replace;
    SpanFits(index, m);
    SpanFits(index, n);
    SpanFits(index, o);
    if Precedes(index, m, n) {
      LaterMoves(index, m, body, n);
      PrecedesBoth(index, m, n, o);
      LaterMoves(index, m, body, o);
    } else if Precedes(index, m, o) {
      EarlierStays(index, m, body, n);
      LaterMoves(index, m, body, o);
    } else {
      EarlierStays(index, m, body, n);
      EarlierStays(index, m, body, o);
    }
  }

  lemma PrecedesBoth(index: Text, m: Text, n: Text, o: Text)
    requires Precedes(index, m, n) && Precedes(index, n, o)
    ensures Precedes(index, m, o)
  {
    SpanFits(index, n);
  }

  /** Writing the history again after a rewriting. */
  lemma HistoryAgain(index: Text, a: Text, b: Text, c: Text, c': Text)
    requires IsRegular(index) && MarkerFree(a) && MarkerFree(b) && MarkerFree(c)
    ensures Rewrite(index, a, b, c).Some?
    ensures Replace(Rewrite(index, a, b, c).value, HISTORY, c') == Rewrite(index, a, b, c')
  {
    hide Replace, Disjoint, Precedes, MarkerFree, FreeOf, IsMarker, Section;
    TwoOfThree(index, a, b);
    MarkersAreMarkers();
    MarkerFreeTrims(c);
    var d := Replace(Replace(index, STATUS, a).value, DOCUMENTS, b).value;
    OneOfThree(d, HISTORY, c, STATUS, DOCUMENTS);
    ReplacedTwice(d, HISTORY, c, c');
  }

  /** The state between the second and the third replacement. */
  lemma TwoOfThree(index: Text, a: Text, b: Text)
    requires IsRegular(index) && MarkerFree(a) && MarkerFree(b)
    ensures Replace(index, STATUS, a).Some? && Replace(Replace(index, STATUS, a).value, DOCUMENTS, b).Some?
    ensures var s := Replace(index, STATUS, a).value;
      var d := Replace(s, DOCUMENTS, b).value;
      && Disjoint(s, DOCUMENTS, STATUS) && Disjoint(s, DOCUMENTS, HISTORY) && Disjoint(s, STATUS, HISTORY)
      && Disjoint(d, HISTORY, STATUS) && Disjoint(d, HISTORY, DOCUMENTS) && Disjoint(d, STATUS, DOCUMENTS)
      && Section(d, STATUS) == Some(Framed(a)) && Section(d, DOCUMENTS) == Some(Framed(b))
  {
    hide Replace, Disjoint, Precedes, MarkerFree, FreeOf, IsMarker, Section, Framed;
    MarkersAreMarkers();
    MarkerFreeTrims(a);
    MarkerFreeTrims(b);
    OneOfThree(index, STATUS, a, DOCUMENTS, HISTORY);
    var s := Replace(index, STATUS, a).value;
    DisjointBothWays(s, STATUS, DOCUMENTS);
    OneOfThree(s, DOCUMENTS, b, STATUS, HISTORY);
    var d := Replace(s, DOCUMENTS, b).value;
    DisjointBothWays(d, STATUS, HISTORY);
    DisjointBothWays(d, DOCUMENTS, HISTORY);
    DisjointBothWays(d, STATUS, DOCUMENTS);
  }

  lemma DocumentsAgain(index: Text, a: Text, b: Text, c: Text, b': Text)
    requires IsRegular(index) && MarkerFree(a) && MarkerFree(b) && MarkerFree(c) && MarkerFree(b')
    requires Rewrite(index, a, b, c).Some?
    ensures Replace(Rewrite(index, a, b, c).value, DOCUMENTS, b') == Rewrite(index, a, b', c)
  {
    hide Replace, Disjoint, Precedes, MarkerFree, FreeOf, IsMarker, Section;
    TwoOfThree(index, a, b);
    MarkersAreMarkers();
    MarkerFreeTrims(b);
    MarkerFreeTrims(c);
    MarkerFreeTrims(b');
    var s := Replace(index, STATUS, a).value;
    ReplaceCommutes(Replace(s, DOCUMENTS, b).value, HISTORY, c, DOCUMENTS, b');
    ReplacedTwice(s, DOCUMENTS, b, b');
    OneOfThree(s, DOCUMENTS, b', STATUS, HISTORY);
  }

  lemma StatusAgain(index: Text, a: Text, b: Text, c: Text, a': Text)
    requires IsRegular(index) && MarkerFree(a) && MarkerFree(b) && MarkerFree(c) && MarkerFree(a')
    requires Rewrite(index, a, b, c).Some?
    ensures Replace(Rewrite(index, a, b, c).value, STATUS, a') == Rewrite(index, a', b, c)
  {
    hide Replace, Disjoint, Precedes, MarkerFree, FreeOf, IsMarker, Section;
    TwoOfThree(index, a, b);
    TwoOfThree(index, a', b);
    MarkersAreMarkers();
    MarkerFreeTrims(a);
    MarkerFreeTrims(b);
    MarkerFreeTrims(c);
    MarkerFreeTrims(a');
    var s := Replace(index, STATUS, a).value;
    ReplaceCommutes(Replace(s, DOCUMENTS, b).value, HISTORY, c, STATUS, a');
    ReplaceCommutes(s, DOCUMENTS, b, STATUS, a');
    ReplacedTwice(index, STATUS, a, a');
  }

  /** Earlier contents leave no trace: whatever is written into the sections first,
      writing them again gives the same as writing them at once. */
  lemma RewriteForgets(index: Text, a: Text, b: Text, c: Text, a': Text, b': Text, c': Text)
    requires IsRegular(index) && MarkerFree(a) && MarkerFree(b) && MarkerFree(c)
    requires MarkerFree(a') && MarkerFree(b') && MarkerFree(c')
    ensures Rewrite(index, a, b, c).Some?
    ensures Rewrite(Rewrite(index, a, b, c).value, a', b', c') == Rewrite(index, a', b', c')
  {
    hide Replace, Disjoint, Precedes, MarkerFree, IsMarker;
    HistoryAgain(index, a, b, c, c');
    StatusAgain(index, a, b, c, a');
    HistoryAgain(index, a', b, c, c');
    DocumentsAgain(index, a', b, c, b');
    HistoryAgain(index, a', b', c, c');
  }

  // ---- The text outside the sections ----

  /** Replacing three sections one after the other. */
  function Chain(index: Text, m: Text, a: Text, n: Text, b: Text, o: Text, c: Text): Option<Text>
  {
    var s :- Replace(index, m, a);
    var t :- Replace(s, n, b);
    Replace(t, o, c)
  }

  /** Three sections apart from each other, and bodies without any of their markers. */
  ghost predicate Separate(index: Text, m: Text, a: Text, n: Text, b: Text, o: Text, c: Text)
  {
    && IsMarker(m) && IsMarker(n) && IsMarker(o)
    && Disjoint(index, m, n) && Disjoint(index, m, o) && Disjoint(index, n, o)
    && (forall x, y :: x in {m, n, o} && y in {a, b, c} ==> FreeOf(y, x))
  }

  lemma SwapFirst(index: Text, m: Text, a: Text, n: Text, b: Text, o: Text, c: Text)
    requires Separate(index, m, a, n, b, o, c)
    ensures Chain(index, m, a, n, b, o, c) == Chain(index, n, b, m, a, o, c)
  {
    hide Replace, Disjoint, FreeOf, IsMarker;
    DisjointBothWays(index, n, m);
    OneOfThree(index, m, a, n, o);
    OneOfThree(index, n, b, m, o);
    ReplaceCommutes(index, m, a, n, b);
    var s, t := Replace(index, m, a).value, Replace(index, n, b).value;
    assert Replace(s, n, b) == Replace(t, m, a);
  }

  lemma SwapLast(index: Text, m: Text, a: Text, n: Text, b: Text, o: Text, c: Text)
    requires Separate(index, m, a, n, b, o, c)
    ensures Chain(index, m, a, n, b, o, c) == Chain(index, m, a, o, c, n, b)
  {
    hide Replace, Disjoint, FreeOf, IsMarker;
    OneOfThree(index, m, a, n, o);
    var s := Replace(index, m, a).value;
    DisjointBothWays(s, m, n);
    DisjointBothWays(s, m, o);
    DisjointBothWays(s, n, o);
    OneOfThree(s, n, b, m, o);
    OneOfThree(s, o, c, m, n);
    ReplaceCommutes(s, n, b, o, c);
  }

  /** `first`, `second` and `third` in the order in which they stand. */
  ghost predicate InOrder(index: Text, first: Text, second: Text, third: Text)
  {
    && (first, second, third) in {(STATUS, DOCUMENTS, HISTORY), (STATUS, HISTORY, DOCUMENTS), (DOCUMENTS, STATUS, HISTORY),
                                  (DOCUMENTS, HISTORY, STATUS), (HISTORY, STATUS, DOCUMENTS), (HISTORY, DOCUMENTS, STATUS)}
    && Precedes(index, first, second) && Precedes(index, second, third)
  }

  function BodyOf(m: Text, status: Text, documents: Text, history: Text): Text
  {
    if m == STATUS then status else if m == DOCUMENTS then documents else history
  }

  /** The text before, between and behind three sections, around three new bodies. */
  function Pieces(index: Text, s: Span, t: Span, u: Span, a: Text, b: Text, c: Text): Text
    requires s.begin <= s.finish <= t.begin <= t.finish <= u.begin <= u.finish <= |index|
  {
    index[..s.begin] + Framed(a) + index[s.finish..t.begin] + Framed(b) + index[t.finish..u.begin] + Framed(c)
    + index[u.finish..]
  }

  lemma SpansInOrder(index: Text, first: Text, second: Text, third: Text)
    requires Precedes(index, first, second) && Precedes(index, second, third)
    ensures var s, t, u := SpanOf(index, first), SpanOf(index, second), SpanOf(index, third);
      && s.Some? && t.Some? && u.Some?
      && s.value.begin <= s.value.finish <= t.value.begin <= t.value.finish <= u.value.begin <= u.value.finish <= |index|
  {
    hide SpanOf;
    SpanFits(index, first);
    SpanFits(index, second);
    SpanFits(index, third);
  }

  lemma OneReplaced(text: Text, m: Text, body: Text)
    requires SpanOf(text, m).Some?
    ensures var s := SpanOf(text, m).value;
      s.begin <= s.finish <= |text| && Replace(text, m, body) == Some(text[..s.begin] + Framed(body) + text[s.finish..])
  {
    hide SpanOf, Framed;
    SpanFits(text, m);
  }

  /** Replacing the sections from the last one to the first leaves the text outside
      them as it was. */
  lemma BackToFront(index: Text, first: Text, a: Text, second: Text, b: Text, third: Text, c: Text)
    requires IsMarker(first) && IsMarker(second) && IsMarker(third)
    requires Precedes(index, first, second) && Precedes(index, second, third)
    ensures var s, t, u := SpanOf(index, first), SpanOf(index, second), SpanOf(index, third);
      && s.Some? && t.Some? && u.Some?
      && s.value.begin <= s.value.finish <= t.value.begin <= t.value.finish <= u.value.begin <= u.value.finish <= |index|
      && Chain(index, third, c, second, b, first, a) == Some(Pieces(index, s.value, t.value, u.value, a, b, c))
  {
    hide SpanOf, Replace, Framed, IsMarker;
    SpansInOrder(index, first, second, third);
    PrecedesBoth(index, first, second, third);
    var s, t, u := SpanOf(index, first).value, SpanOf(index, second).value, SpanOf(index, third).value;
    OneReplaced(index, third, c);
    EarlierStays(index, third, c, second);
    EarlierStays(index, third, c, first);
    var x := Replace(index, third, c).value;
    OneReplaced(x, second, b);
    EarlierStays(x, second, b, first);
    var y := Replace(x, second, b).value;
    OneReplaced(y, first, a);
    PiecesRegroup(index, s, t, u, Framed(a), Framed(b), Framed(c), x, y);
  }

  lemma PiecesRegroup(index: Text, s: Span, t: Span, u: Span, a: Text, b: Text, c: Text, x: Text, y: Text)
    requires s.begin <= s.finish <= t.begin <= t.finish <= u.begin <= u.finish <= |index|
    requires x == index[..u.begin] + c + index[u.finish..]
    requires y == x[..t.begin] + b + x[t.finish..]
    ensures y[..s.begin] + a + y[s.finish..]
         == index[..s.begin] + a + index[s.finish..t.begin] + b + index[t.finish..u.begin] + c + index[u.finish..]
  {
    var tail := c + index[u.finish..];
    assert x == index[..t.begin] + (index[t.begin..u.begin] + tail);
    assert x[..t.begin] == index[..t.begin] && x[t.finish..] == index[t.finish..u.begin] + tail;
    assert y[..s.begin] == index[..s.begin];
    assert y[s.finish..] == index[s.finish..t.begin] + (b + (index[t.finish..u.begin] + tail));
  }

  /** The order in which the sections are replaced does not matter. */
  lemma AnyOrder(index: Text, m: Text, a: Text, n: Text, b: Text, o: Text, c: Text)
    requires Separate(index, m, a, n, b, o, c)
    ensures Chain(index, m, a, n, b, o, c) == Chain(index, n, b, m, a, o, c) == Chain(index, m, a, o, c, n, b)
         == Chain(index, n, b, o, c, m, a) == Chain(index, o, c, m, a, n, b) == Chain(index, o, c, n, b, m, a)
  {
    hide Separate, Chain;
    SeparateEitherWay(index, m, a, n, b, o, c);
    SeparateEitherWay(index, m, a, o, c, n, b);
    SwapFirst(index, m, a, n, b, o, c);
    SwapLast(index, m, a, n, b, o, c);
    SwapLast(index, n, b, m, a, o, c);
    SwapFirst(index, m, a, o, c, n, b);
    SwapLast(index, o, c, m, a, n, b);
  }

  lemma SeparateEitherWay(index: Text, m: Text, a: Text, n: Text, b: Text, o: Text, c: Text)
    requires Separate(index, m, a, n, b, o, c)
    ensures Separate(index, n, b, m, a, o, c) && Separate(index, m, a, o, c, n, b)
  {
    hide Precedes, FreeOf, IsMarker;
  }

  lemma SectionsAreSeparate(index: Text, a: Text, b: Text, c: Text)
    requires IsRegular(index) && MarkerFree(a) && MarkerFree(b) && MarkerFree(c)
    ensures Separate(index, STATUS, a, DOCUMENTS, b, HISTORY, c)
  {
    hide Disjoint, MarkerFree, FreeOf, IsMarker, STATUS, DOCUMENTS, HISTORY;
    MarkersAreMarkers();
    MarkerFreeTrims(a);
    MarkerFreeTrims(b);
    MarkerFreeTrims(c);
  }

  lemma RegularInOrder(index: Text, first: Text, second: Text, third: Text)
    requires InOrder(index, first, second, third)
    ensures IsRegular(index) && IsMarker(first) && IsMarker(second) && IsMarker(third)
  {
    hide Precedes, IsMarker, STATUS, DOCUMENTS, HISTORY;
    MarkersAreMarkers();
    PrecedesBoth(index, first, second, third);
  }

  /** The three nested replacements do exactly what they should: the text outside
      the sections is the original text, in whatever order the sections stand. */
  lemma RewriteIsPieces(index: Text, first: Text, second: Text, third: Text, a: Text, b: Text, c: Text)
    requires InOrder(index, first, second, third) && MarkerFree(a) && MarkerFree(b) && MarkerFree(c)
    ensures var s, t, u := SpanOf(index, first), SpanOf(index, second), SpanOf(index, third);
      && s.Some? && t.Some? && u.Some?
      && s.value.begin <= s.value.finish <= t.value.begin <= t.value.finish <= u.value.begin <= u.value.finish <= |index|
      && Rewrite(index, a, b, c)
         == Some(Pieces(index, s.value, t.value, u.value, BodyOf(first, a, b, c), BodyOf(second, a, b, c), BodyOf(third, a, b, c)))
  {
    hide SpanOf, Replace, Precedes, MarkerFree, IsMarker, Separate, Pieces, IsRegular;
    RegularInOrder(index, first, second, third);
    SectionsAreSeparate(index, a, b, c);
    AnyOrder(index, STATUS, a, DOCUMENTS, b, HISTORY, c);
    BackToFront(index, first, BodyOf(first, a, b, c), second, BodyOf(second, a, b, c), third, BodyOf(third, a, b, c));
    NamesDiffer();
    assert Rewrite(index, a, b, c) == Chain(index, STATUS, a, DOCUMENTS, b, HISTORY, c);
  }

  /** Sections that are apart stand in some order. */
  lemma RegularHasOrder(index: Text) returns (first: Text, second: Text, third: Text)
    requires IsRegular(index)
    ensures InOrder(index, first, second, third)
  {
    hide Precedes, STATUS, DOCUMENTS, HISTORY;
    if Precedes(index, STATUS, DOCUMENTS) {
      if Precedes(index, DOCUMENTS, HISTORY) {
        return STATUS, DOCUMENTS, HISTORY;
      } else if Precedes(index, STATUS, HISTORY) {
        return STATUS, HISTORY, DOCUMENTS;
      }
      return HISTORY, STATUS, DOCUMENTS;
    } else if Precedes(index, STATUS, HISTORY) {
      return DOCUMENTS, STATUS, HISTORY;
    } else if Precedes(index, DOCUMENTS, HISTORY) {
      return DOCUMENTS, HISTORY, STATUS;
    }
    return HISTORY, DOCUMENTS, STATUS;
  }

  lemma NamesDiffer()
    ensures STATUS != DOCUMENTS && STATUS != HISTORY && DOCUMENTS != HISTORY
  {
    assert STATUS[0] == 0x63 && DOCUMENTS[0] == 0x61 && HISTORY[0] == 0x73;
  }

  lemma DisjointBothWays(index: Text, m: Text, n: Text)
    ensures Disjoint(index, m, n) == Disjoint(index, n, m)
  {
  }

  lemma ReplacedTwice(index: Text, m: Text, body: Text, body': Text)
    requires IsMarker(m) && Replace(index, m, body).Some? && FreeOf(body, m)
    ensures Replace(Replace(index, m, body).value, m, body') == Replace(index, m, body')
  {
    hide TrimEnd, Without, IsMarker;
    ReplaceTwice(index, m, body, body');
  }

  /** After a rewriting each section reads back as exactly its new body, framed by
      line breaks, and the index can be rewritten again. */
  lemma RewriteReadsBack(index: Text, a: Text, b: Text, c: Text)
    requires IsRegular(index) && MarkerFree(a) && MarkerFree(b) && MarkerFree(c)
    ensures Rewrite(index, a, b, c).Some?
    ensures var t := Rewrite(index, a, b, c).value;
      && Section(t, STATUS) == Some(Framed(a)) && Section(t, DOCUMENTS) == Some(Framed(b))
      && Section(t, HISTORY) == Some(Framed(c)) && IsRegular(t)
  {
    hide Replace, Disjoint, Precedes, MarkerFree, FreeOf, IsMarker, Section, Framed;
    MarkersAreMarkers();
    MarkerFreeTrims(c);
    TwoOfThree(index, a, b);
    var d := Replace(Replace(index, STATUS, a).value, DOCUMENTS, b).value;
    OneOfThree(d, HISTORY, c, STATUS, DOCUMENTS);
    var t := Replace(d, HISTORY, c).value;
    DisjointBothWays(t, STATUS, HISTORY);
    DisjointBothWays(t, DOCUMENTS, HISTORY);
  }
}
