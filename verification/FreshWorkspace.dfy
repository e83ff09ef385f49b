/** The workspace `initializeDeveloper` writes is one from which sessions add up.
    Text in which a marker cannot begin is passed over by every search; the index
    is such text around three sections, so each of them is found where it was
    put, the total reads as zero and there are no rows. From there the results
    about runs of sessions hold without any further assumption on the index. */
module FreshWorkspace {
  import opened Decimal
  import opened Journal
  import opened JsText
  import opened Lines
  import opened MarkedSections
  import opened Options
  import opened Sessions
  import opened SessionRuns

  const STAR: Unit := 0x2A

  const HEAD_START: Text := Ascii("# Workspace Index - ")
  const HEAD_MIDDLE: Text := Ascii("\n\n> Journal tracking ")
  const HEAD_REST: Text := Ascii("for AI development ")
  const HEAD_END: Text := Ascii("sessions.\n\n---\n\n## Current Status\n\n")
  const DOCUMENTS_GAP: Text := Ascii("\n\n---\n\n## Active Documents\n\n")
  const FRESH_LINE: Text := Ascii("| `journal-1.md` | ~0 | Active |")
  const HISTORY_GAP: Text := Ascii("\n\n---\n\n## Session History\n\n")
  const NOTES: Text := Ascii("\n\n---\n\n## Notes\n\n- Sessions are appended to journal files\n- New journal file created when current exceeds 2000 lines\n- Use `pactile session add` to record sessions\n")
  const NO_DATE: Text := Ascii("-")

  function Head(developer: Text): Text { HEAD_START + developer + (HEAD_MIDDLE + HEAD_REST) + HEAD_END }

  /** A section as it stands in the index. */
  function Marked(m: Text, body: Text): Text { Open(m) + body + Close(m) }

  function FreshStatus(): Text { LF + StatusBody(JournalName(1), 0, NO_DATE) + LF }

  function FreshDocuments(): Text { LF + DOCUMENTS_HEAD[0] + LF + DOCUMENTS_HEAD[1] + LF + FRESH_LINE + LF }

  function FreshHistory(): Text { LF + Join(HISTORY_HEAD, LF) + LF }

  /** The index up to the second, and up to the third section. */
  function ToDocuments(developer: Text): Text { Head(developer) + Marked(STATUS, FreshStatus()) + DOCUMENTS_GAP }

  function ToHistory(developer: Text): Text
  {
    ToDocuments(developer) + Marked(DOCUMENTS, FreshDocuments()) + HISTORY_GAP
  }

  /** `index.md` as `initializeDeveloper` writes it. */
  function FreshIndex(developer: Text): Text { ToHistory(developer) + Marked(HISTORY, FreshHistory()) + NOTES }

  function FreshWorkspace(developer: Text, today: Text): Workspace
  {
    Workspace(FreshIndex(developer), [File(JournalName(1), FirstJournal(developer, today))])
  }

  // ---- Searching past text without the marker ----

  /** `p` cannot begin in `a`, whatever follows. */
  ghost predicate Clean(a: Text, p: Text) { forall j :: 0 <= j < |a| ==> Clash(a, p, j) }

  ghost predicate Clash(a: Text, p: Text, j: nat) { exists k: nat :: Differs(a, p, j, k) }

  predicate Differs(a: Text, p: Text, j: nat, k: nat) { k < |p| && j + k < |a| && a[j + k] != p[k] }

  lemma OccursUnit(t: Text, p: Text, i: nat, k: nat)
    requires OccursAt(t, p, i) && k < |p|
    ensures t[i + k] == p[k]
  {
    assert t[i..i + |p|][k] == t[i + k];
  }

  lemma ClashIsNoOccurrence(a: Text, rest: Text, p: Text, j: nat)
    requires Clash(a, p, j)
    ensures !OccursAt(a + rest, p, j)
  {
    hide OccursAt;
    var k: nat :| Differs(a, p, j, k);
    assert (a + rest)[j + k] == a[j + k];
    if OccursAt(a + rest, p, j) {
      OccursUnit(a + rest, p, j, k);
    }
  }

  lemma CleanConcat(a: Text, b: Text, p: Text)
    requires Clean(a, p) && Clean(b, p)
    ensures Clean(a + b, p)
  {
    forall j | 0 <= j < |a + b|
      ensures Clash(a + b, p, j)
    {
      if j < |a| {
        assert Clash(a, p, j);
        var k: nat :| Differs(a, p, j, k);
        assert Differs(a + b, p, j, k);
      } else {
        var i := j - |a|;
        assert Clash(b, p, i);
        var k: nat :| Differs(b, p, i, k);
        assert Differs(a + b, p, j, k);
      }
    }
  }

  lemma CleanText(a: Text, p: Text)
    requires p != [] && HasNo(a, p[0])
    ensures Clean(a, p)
  {
    forall j | 0 <= j < |a|
      ensures Clash(a, p, j)
    {
      assert Differs(a, p, j, 0);
    }
  }

  /** Another marker, differing from `p` in its unit `k`. */
  lemma CleanMarker(m: Text, p: Text, k: nat)
    requires Differs(m, p, 0, k) && HasNo(m[1..], p[0])
    ensures Clean(m, p)
  {
    forall j | 0 <= j < |m|
      ensures Clash(m, p, j)
    {
      if j > 0 {
        assert m[j] == m[1..][j - 1];
        assert Differs(m, p, j, 0);
      }
    }
  }

  /** What is looked for is found behind clean text. */
  lemma FoundBehind(front: Text, p: Text, rest: Text)
    requires Clean(front, p)
    ensures IndexOf(front + (p + rest), p, 0) == Some(|front|)
  {
    hide OccursAt, IndexOf;
    var t := front + (p + rest);
    forall j | 0 <= j < |front|
      ensures !OccursAt(t, p, j)
    {
      ClashIsNoOccurrence(front, p + rest, p, j);
    }
    OccursThere(front, p, rest);
    IndexOfIs(t, p, 0, |front|);
  }

  lemma OccursThere(front: Text, p: Text, rest: Text)
    ensures OccursAt(front + (p + rest), p, |front|)
  {
  }

  /** The same when the search begins behind `before`. */
  lemma FoundFurther(before: Text, front: Text, p: Text, rest: Text)
    requires Clean(front, p)
    ensures IndexOf(before + (front + (p + rest)), p, |before|) == Some(|before| + |front|)
  {
    hide OccursAt, IndexOf;
    var t := before + (front + (p + rest));
    forall j | |before| <= j < |before| + |front|
      ensures !OccursAt(t, p, j)
    {
      ClashIsNoOccurrence(front, p + rest, p, j - |before|);
      assert t[|before|..] == front + (p + rest);
      OccursInSuffix(t, |before|, p, j - |before|);
    }
    OccursThere(before + front, p, rest);
    assert t == (before + front) + (p + rest);
    IndexOfIs(t, p, |before|, |before| + |front|);
  }

  /** Where a section is found. */
  lemma SectionFound(front: Text, m: Text, body: Text, rest: Text)
    requires Clean(front, Open(m)) && Clean(body, Close(m))
    ensures var t, b := front + Marked(m, body) + rest, |front| + |Open(m)|;
      && SpanOf(t, m) == Some(Span(b, b + |body|)) && Section(t, m) == Some(body)
  {
    hide IndexOf, Clean, Open, Close;
    var t := front + Marked(m, body) + rest;
    assert t == front + (Open(m) + (body + (Close(m) + rest)));
    FoundBehind(front, Open(m), body + (Close(m) + rest));
    assert t == (front + Open(m)) + (body + (Close(m) + rest));
    FoundFurther(front + Open(m), body, Close(m), rest);
    SliceBetween(front + Open(m), body, Close(m) + rest);
  }

  lemma SliceBetween(a: Text, b: Text, c: Text)
    ensures (a + (b + c))[|a|..|a| + |b|] == b
  {
  }

  // ---- The markers and the text between them ----

  lemma HeadsOfMarkers()
    ensures |OPEN_HEAD| == 13 && |CLOSE_HEAD| == 14 && OPEN_HEAD[0] == ANGLE && CLOSE_HEAD[0] == ANGLE
    ensures OPEN_HEAD[8] == 0x61 && CLOSE_HEAD[8] == 0x2F
    ensures |STATUS| > 0 && |DOCUMENTS| > 0 && |HISTORY| > 0
    ensures STATUS[0] == 0x63 && DOCUMENTS[0] == 0x61 && HISTORY[0] == 0x73
  {
  }

  lemma TailsHaveNoAngle()
    ensures HasNo(OPEN_HEAD[1..], ANGLE) && HasNo(CLOSE_HEAD[1..], ANGLE) && HasNo(MARKER_TAIL, ANGLE)
  {
    PlainHasNo("!-- @@@auto:", '<');
    PlainHasNo("!-- @@@/auto:", '<');
    PlainHasNo(" -->", '<');
    assert OPEN_HEAD[1..] == Ascii("!-- @@@auto:");
    assert CLOSE_HEAD[1..] == Ascii("!-- @@@/auto:");
  }

  lemma NamesHaveNoAngle()
    ensures HasNo(STATUS, ANGLE) && HasNo(DOCUMENTS, ANGLE) && HasNo(HISTORY, ANGLE)
  {
    PlainHasNo("current-status", '<');
    PlainHasNo("active-documents", '<');
    PlainHasNo("session-history", '<');
  }

  predicate IsSection(m: Text) { m == STATUS || m == DOCUMENTS || m == HISTORY }

  /** Where two markers differ, and that each has only its first angle bracket. */
  lemma MarkerShape(m: Text)
    requires IsSection(m)
    ensures HasNo(Open(m)[1..], ANGLE) && HasNo(Close(m)[1..], ANGLE)
    ensures m != [] && |Open(m)| > 13 && |Close(m)| > 14 && Open(m)[0] == ANGLE && Close(m)[0] == ANGLE
    ensures Open(m)[8] == 0x61 && Close(m)[8] == 0x2F && Open(m)[13] == m[0]
  {
    hide HasNo;
    HeadsOfMarkers();
    TailsHaveNoAngle();
    NamesHaveNoAngle();
    assert Open(m)[1..] == OPEN_HEAD[1..] + m + MARKER_TAIL;
    assert Close(m)[1..] == CLOSE_HEAD[1..] + m + MARKER_TAIL;
    HasNoConcat(OPEN_HEAD[1..], m, ANGLE);
    HasNoConcat(OPEN_HEAD[1..] + m, MARKER_TAIL, ANGLE);
    HasNoConcat(CLOSE_HEAD[1..], m, ANGLE);
    HasNoConcat(CLOSE_HEAD[1..] + m, MARKER_TAIL, ANGLE);
  }

  lemma PlainIsClean(a: Text, m: Text)
    requires IsSection(m) && HasNo(a, ANGLE)
    ensures Clean(a, Open(m)) && Clean(a, Close(m))
  {
    hide Open, Close, Clean, HasNo, IsSection;
    MarkerShape(m);
    CleanText(a, Open(m));
    CleanText(a, Close(m));
  }

  /** A section does not hide the beginning of another one. */
  lemma MarkedIsClean(m: Text, body: Text, n: Text)
    requires IsSection(m) && IsSection(n) && HasNo(body, ANGLE)
    requires m != [] && n != [] && m[0] != n[0]
    ensures Clean(Marked(m, body), Open(n))
  {
    hide Open, Close, Clean, HasNo, IsSection;
    MarkerShape(m);
    MarkerShape(n);
    CleanMarker(Open(m), Open(n), 13);
    PlainIsClean(body, n);
    CleanMarker(Close(m), Open(n), 8);
    CleanConcat(Open(m), body, Open(n));
    CleanConcat(Open(m) + body, Close(m), Open(n));
  }

  lemma GapsHaveNoAngle()
    ensures HasNo(DOCUMENTS_GAP, ANGLE) && HasNo(HISTORY_GAP, ANGLE)
  {
    PlainHasNo("\n\n---\n\n## Active Documents\n\n", '<');
    PlainHasNo("\n\n---\n\n## Session History\n\n", '<');
  }

  predicate Unmarked(a: Text) { HasNo(a, ANGLE) && HasNo(a, STAR) }

  lemma StartIsUnmarked()
    ensures Unmarked(HEAD_START)
  {
    hide HasNo;
    PlainHasNo("# Workspace Index - ", '<');
    PlainHasNo("# Workspace Index - ", '*');
  }

  lemma MiddleIsUnmarked()
    ensures Unmarked(HEAD_MIDDLE)
  {
    hide HasNo;
    PlainHasNo("\n\n> Journal tracking ", '<');
    PlainHasNo("\n\n> Journal tracking ", '*');
  }

  lemma RestIsUnmarked()
    ensures Unmarked(HEAD_REST)
  {
    hide HasNo;
    PlainHasNo("for AI development ", '<');
    PlainHasNo("for AI development ", '*');
  }

  lemma EndIsUnmarked()
    ensures Unmarked(HEAD_END)
  {
    hide HasNo;
    PlainHasNo("sessions.\n\n---\n\n## Current Status\n\n", '<');
    PlainHasNo("sessions.\n\n---\n\n## Current Status\n\n", '*');
  }

  lemma HeadHasNo(developer: Text, u: Unit)
    requires HasNo(developer, u) && (u == ANGLE || u == STAR)
    ensures HasNo(Head(developer), u)
  {
    hide HasNo;
    StartIsUnmarked();
    MiddleIsUnmarked();
    RestIsUnmarked();
    EndIsUnmarked();
    HasNoConcat(HEAD_MIDDLE, HEAD_REST, u);
    FourHaveNo(HEAD_START, developer, HEAD_MIDDLE + HEAD_REST, HEAD_END, u);
  }

  lemma FourHaveNo(a: Text, b: Text, c: Text, d: Text, u: Unit)
    requires HasNo(a, u) && HasNo(b, u) && HasNo(c, u) && HasNo(d, u)
    ensures HasNo(a + b + c + d, u)
  {
    HasNoConcat(a, b, u);
    HasNoConcat(a + b, c, u);
    HasNoConcat(a + b + c, d, u);
  }

  lemma StatusHasNoAngle()
    ensures HasNo(FreshStatus(), ANGLE)
  {
    hide HasNo, Digits, JournalNumber, JournalName;
    StatusPartsHaveNoAngle();
    NameNumber(1);
    NameIsPlain(JournalName(1));
    PlainHasNo("-", '<');
    SpaceAndBreakHaveNoAngle();
    HasNoConcat(TOTAL_KEY, [SPACE], ANGLE);
    HasNoConcat(TOTAL_KEY + [SPACE], Digits(0), ANGLE);
    FourHaveNo(STATUS_FILE, JournalName(1), STATUS_TOTAL, TOTAL_KEY + [SPACE] + Digits(0), ANGLE);
    var front := STATUS_FILE + JournalName(1) + STATUS_TOTAL + (TOTAL_KEY + [SPACE] + Digits(0));
    HasNoConcat(front, STATUS_DATE, ANGLE);
    HasNoConcat(front + STATUS_DATE, NO_DATE, ANGLE);
    HasNoConcat(LF, front + STATUS_DATE + NO_DATE, ANGLE);
    HasNoConcat(LF + (front + STATUS_DATE + NO_DATE), LF, ANGLE);
  }

  lemma SpaceAndBreakHaveNoAngle()
    ensures HasNo([SPACE], ANGLE) && HasNo(LF, ANGLE) && HasNo([], ANGLE)
  {
  }

  lemma FreshLineHasNoAngle()
    ensures HasNo(FRESH_LINE, ANGLE)
  {
    PlainHasNo("| `journal-1.md` | ~0 | Active |", '<');
  }

  lemma DocumentsHeadHasNoAngle()
    ensures HasNo(DOCUMENTS_HEAD[0], ANGLE) && HasNo(DOCUMENTS_HEAD[1], ANGLE)
  {
    hide HasNo;
    PlainHasNo("| File | Lines | Status |", '<');
    PlainHasNo("|------|-------|--------|", '<');
  }

  lemma DocumentsHaveNoAngle()
    ensures HasNo(FreshDocuments(), ANGLE)
  {
    hide HasNo;
    DocumentsHeadHasNoAngle();
    FreshLineHasNoAngle();
    SpaceAndBreakHaveNoAngle();
    FourHaveNo(LF, DOCUMENTS_HEAD[0], LF, DOCUMENTS_HEAD[1], ANGLE);
    FourHaveNo(LF + DOCUMENTS_HEAD[0] + LF + DOCUMENTS_HEAD[1], LF, FRESH_LINE, LF, ANGLE);
  }

  lemma FirstHeadHasNoAngle()
    ensures HasNo(HISTORY_HEAD[0], ANGLE)
  {
    PlainHasNo("| # | Date | Title | Commits | Branch |", '<');
  }

  lemma SecondHeadHasNoAngle()
    ensures HasNo(HISTORY_HEAD[1], ANGLE)
  {
    PlainHasNo("|---|------|-------|---------|--------|", '<');
  }

  lemma HistoryHasNoAngle()
    ensures HasNo(FreshHistory(), ANGLE)
  {
    hide HasNo;
    FirstHeadHasNoAngle();
    SecondHeadHasNoAngle();
    SpaceAndBreakHaveNoAngle();
    JoinOfTwo(HISTORY_HEAD[0], HISTORY_HEAD[1]);
    HasNoConcat(HISTORY_HEAD[0], LF, ANGLE);
    HasNoConcat(HISTORY_HEAD[0] + LF, HISTORY_HEAD[1], ANGLE);
    FourHaveNo(LF, HISTORY_HEAD[0] + LF + HISTORY_HEAD[1], LF, [], ANGLE);
    assert LF + (HISTORY_HEAD[0] + LF + HISTORY_HEAD[1]) + LF + [] == FreshHistory();
  }

  lemma JoinOfTwo(a: Text, b: Text)
    ensures Join([a, b], LF) == a + LF + b
  {
    assert [a, b][1..] == [b];
  }

  // ---- The sections of the fresh index ----

  lemma SectionNames()
    ensures IsSection(STATUS) && IsSection(DOCUMENTS) && IsSection(HISTORY)
    ensures STATUS != [] && DOCUMENTS != [] && HISTORY != []
    ensures STATUS[0] != DOCUMENTS[0] && STATUS[0] != HISTORY[0] && DOCUMENTS[0] != HISTORY[0]
  {
    HeadsOfMarkers();
  }

  lemma BeforeDocuments(developer: Text, m: Text)
    requires HasNo(developer, ANGLE) && (m == DOCUMENTS || m == HISTORY)
    ensures Clean(ToDocuments(developer), Open(m))
  {
    hide HasNo, Clean, Head, FreshStatus, Marked, IsSection, Open, Close;
    SectionNames();
    HeadHasNo(developer, ANGLE);
    StatusHasNoAngle();
    GapsHaveNoAngle();
    PlainIsClean(Head(developer), m);
    MarkedIsClean(STATUS, FreshStatus(), m);
    PlainIsClean(DOCUMENTS_GAP, m);
    CleanConcat(Head(developer), Marked(STATUS, FreshStatus()), Open(m));
    CleanConcat(Head(developer) + Marked(STATUS, FreshStatus()), DOCUMENTS_GAP, Open(m));
  }

  lemma BeforeHistory(developer: Text)
    requires HasNo(developer, ANGLE)
    ensures Clean(ToHistory(developer), Open(HISTORY))
  {
    hide HasNo, Clean, ToDocuments, FreshDocuments, Marked, IsSection, Open, Close;
    SectionNames();
    BeforeDocuments(developer, HISTORY);
    DocumentsHaveNoAngle();
    GapsHaveNoAngle();
    MarkedIsClean(DOCUMENTS, FreshDocuments(), HISTORY);
    PlainIsClean(HISTORY_GAP, HISTORY);
    CleanConcat(ToDocuments(developer), Marked(DOCUMENTS, FreshDocuments()), Open(HISTORY));
    CleanConcat(ToDocuments(developer) + Marked(DOCUMENTS, FreshDocuments()), HISTORY_GAP, Open(HISTORY));
  }

  /** Where a section of length `n` lies behind `before` units. */
  function Place(before: nat, m: Text, n: nat): Option<Span>
  {
    Some(Span(before + |Open(m)|, before + |Open(m)| + n))
  }

  lemma StatusPlace(developer: Text)
    requires HasNo(developer, ANGLE)
    ensures SpanOf(FreshIndex(developer), STATUS) == Place(|Head(developer)|, STATUS, |FreshStatus()|)
  {
    hide HasNo, Clean, Head, FreshStatus, FreshDocuments, FreshHistory, Marked, IsSection, Open, Close, SpanOf;
    SectionNames();
    HeadHasNo(developer, ANGLE);
    StatusHasNoAngle();
    PlainIsClean(Head(developer), STATUS);
    PlainIsClean(FreshStatus(), STATUS);
    var rest := DOCUMENTS_GAP + Marked(DOCUMENTS, FreshDocuments()) + HISTORY_GAP + Marked(HISTORY, FreshHistory()) + NOTES;
    RegroupSix(Head(developer) + Marked(STATUS, FreshStatus()), DOCUMENTS_GAP, Marked(DOCUMENTS, FreshDocuments()),
               HISTORY_GAP, Marked(HISTORY, FreshHistory()), NOTES);
    SectionFound(Head(developer), STATUS, FreshStatus(), rest);
  }

  lemma RegroupSix(a: Text, b: Text, c: Text, d: Text, e: Text, f: Text)
    ensures a + b + c + d + e + f == a + (b + c + d + e + f)
  {
  }

  lemma DocumentsPlace(developer: Text)
    requires HasNo(developer, ANGLE)
    ensures SpanOf(FreshIndex(developer), DOCUMENTS) == Place(|ToDocuments(developer)|, DOCUMENTS, |FreshDocuments()|)
  {
    hide HasNo, Clean, ToDocuments, FreshDocuments, FreshHistory, Marked, IsSection, Open, Close, SpanOf;
    SectionNames();
    BeforeDocuments(developer, DOCUMENTS);
    DocumentsHaveNoAngle();
    PlainIsClean(FreshDocuments(), DOCUMENTS);
    var front := ToDocuments(developer) + Marked(DOCUMENTS, FreshDocuments());
    ConcatAssociates(front, HISTORY_GAP, Marked(HISTORY, FreshHistory()));
    ConcatAssociates(front, HISTORY_GAP + Marked(HISTORY, FreshHistory()), NOTES);
    SectionFound(ToDocuments(developer), DOCUMENTS, FreshDocuments(), HISTORY_GAP + Marked(HISTORY, FreshHistory()) + NOTES);
  }

  lemma HistoryPlace(developer: Text)
    requires HasNo(developer, ANGLE)
    ensures SpanOf(FreshIndex(developer), HISTORY) == Place(|ToHistory(developer)|, HISTORY, |FreshHistory()|)
    ensures Section(FreshIndex(developer), HISTORY) == Some(FreshHistory())
  {
    hide HasNo, Clean, ToHistory, FreshHistory, Marked, IsSection, Open, Close, SpanOf, Section;
    SectionNames();
    BeforeHistory(developer);
    HistoryHasNoAngle();
    PlainIsClean(FreshHistory(), HISTORY);
    SectionFound(ToHistory(developer), HISTORY, FreshHistory(), NOTES);
  }

  lemma FreshIsRegular(developer: Text)
    requires HasNo(developer, ANGLE)
    ensures IsRegular(FreshIndex(developer)) && StatusFirst(FreshIndex(developer))
  {
    hide HasNo, Open, Close, SpanOf, Head, FreshStatus, FreshDocuments, FreshHistory, FreshIndex;
    StatusPlace(developer);
    DocumentsPlace(developer);
    HistoryPlace(developer);
  }

  // ---- The total and the rows of the fresh index ----

  lemma NoStarNoTotal(t: Text, i: nat)
    requires i < |t| && t[i] != STAR
    ensures TotalAt(t, i).None?
  {
    hide OccursAt, NumberAfter;
    if OccursAt(t, TOTAL_KEY, i) {
      OccursUnit(t, TOTAL_KEY, i, 0);
    }
  }

  lemma OpenPartsHaveNoStar()
    ensures HasNo(OPEN_HEAD, STAR) && HasNo(STATUS, STAR) && HasNo(MARKER_TAIL, STAR)
  {
    PlainHasNo("<!-- @@@auto:", '*');
    PlainHasNo("current-status", '*');
    PlainHasNo(" -->", '*');
  }

  lemma FrontHasNoStar(developer: Text)
    requires HasNo(developer, STAR)
    ensures HasNo(Head(developer) + Open(STATUS), STAR)
  {
    hide HasNo, Head;
    HeadHasNo(developer, STAR);
    OpenPartsHaveNoStar();
    HasNoConcat(OPEN_HEAD, STATUS, STAR);
    HasNoConcat(OPEN_HEAD + STATUS, MARKER_TAIL, STAR);
    HasNoConcat(Head(developer), Open(STATUS), STAR);
  }

  lemma NoTotalInFront(front: Text, rest: Text, i: nat)
    requires HasNo(front, STAR) && i < |front|
    ensures TotalAt(front + rest, i).None?
  {
    assert (front + rest)[i] == front[i];
    NoStarNoTotal(front + rest, i);
  }

  /** The fresh index as a text whose status section was just written. */
  function AfterTotal(): Text
  {
    STATUS_DATE + NO_DATE + LF
    + (Close(STATUS) + DOCUMENTS_GAP + Marked(DOCUMENTS, FreshDocuments()) + HISTORY_GAP + Marked(HISTORY, FreshHistory()) + NOTES)
  }

  lemma FreshIsStatusText(developer: Text)
    ensures FreshIndex(developer) == StatusText(Head(developer) + Open(STATUS), JournalName(1), 0, AfterTotal())
  {
    hide Head, Open, Close, FreshDocuments, FreshHistory, JournalName, Digits;
    var tail := Close(STATUS) + DOCUMENTS_GAP + Marked(DOCUMENTS, FreshDocuments()) + HISTORY_GAP + Marked(HISTORY, FreshHistory()) + NOTES;
    RegroupEight(Head(developer), Open(STATUS), FreshStatus(), Close(STATUS), DOCUMENTS_GAP,
                 Marked(DOCUMENTS, FreshDocuments()), HISTORY_GAP, Marked(HISTORY, FreshHistory()), NOTES);
    Regroup(Head(developer) + Open(STATUS), LF, STATUS_FILE + JournalName(1) + STATUS_TOTAL, TOTAL_KEY + [SPACE] + Digits(0),
            STATUS_DATE, NO_DATE, tail);
  }

  lemma RegroupEight(a: Text, b: Text, c: Text, d: Text, e: Text, f: Text, g: Text, h: Text, i: Text)
    ensures a + (b + c + d) + e + f + g + h + i == (a + b) + c + (d + e + f + g + h + i)
  {
  }

  lemma FreshTotal(developer: Text)
    requires HasNo(developer, ANGLE) && HasNo(developer, STAR)
    ensures Total(FreshIndex(developer)) == 0 && NoEarlierTotal(FreshIndex(developer))
  {
    hide HasNo, Head, Open, Close, FreshDocuments, FreshStatus, FreshHistory, FreshIndex, SpanOf, TotalAt, TotalFrom,
      JournalName, JournalNumber, Digits;
    var index, front := FreshIndex(developer), Head(developer) + Open(STATUS);
    FreshIsStatusText(developer);
    StatusPlace(developer);
    FrontHasNoStar(developer);
    NameNumber(1);
    NameIsPlain(JournalName(1));
    DateBreaks();
    var rest := LF + (STATUS_FILE + JournalName(1) + STATUS_TOTAL) + (TOTAL_KEY + [SPACE] + Digits(0)) + AfterTotal();
    assert index == front + rest;
    forall i | 0 <= i < |front|
      ensures TotalAt(index, i).None?
    {
      NoTotalInFront(front, rest, i);
    }
    TotalOfStatus(front, JournalName(1), 0, AfterTotal());
  }

  lemma SecondHeadEnds()
    ensures TrimEnd(HISTORY_HEAD[1]) == HISTORY_HEAD[1] && HISTORY_HEAD[1] != []
  {
    EndsVisibly(HISTORY_HEAD[1]);
  }

  lemma HistoryIsFramed()
    ensures FreshHistory() == Framed(Join(HISTORY_HEAD, LF))
  {
    hide TrimEnd, Join;
    SecondHeadEnds();
    TrimEndOfJoin(HISTORY_HEAD);
    assert HISTORY_HEAD[..1] + [HISTORY_HEAD[1]] == HISTORY_HEAD;
  }

  lemma FreshRows(developer: Text)
    requires HasNo(developer, ANGLE)
    ensures Rows(FreshIndex(developer)) == []
  {
    hide HasNo, TrimEnd, Join, Section, SplitLines, RowsIn, FreshIndex, FreshHistory, Framed;
    HistoryPlace(developer);
    HistoryIsFramed();
    HeadIsLines();
    SecondHeadEnds();
    FramedLines(HISTORY_HEAD);
    SimilarRows(SplitLines(FreshHistory()), [[]] + HISTORY_HEAD + [[]]);
    RowsInFrame([]);
    assert HISTORY_HEAD + [] == HISTORY_HEAD;
  }

  // ---- The result ----

  /** What a developer's first `init` leaves is ready for sessions: no total, no rows. */
  lemma FreshIsReady(developer: Text, today: Text)
    requires HasNo(developer, ANGLE) && HasNo(developer, STAR)
    ensures IsReady(FreshWorkspace(developer, today))
    ensures Total(FreshIndex(developer)) == 0 && Rows(FreshIndex(developer)) == []
  {
    hide HasNo, FreshIndex, IsRegular, StatusFirst, NoEarlierTotal, Rows, TotalFrom, MarkerFree, JournalNumber, JournalName;
    FreshIsRegular(developer);
    FreshTotal(developer);
    FreshRows(developer);
    NameNumber(1);
  }

  /** A new developer's index after any sessions: the total is their number and the
      history consists of exactly their rows, newest first. */
  lemma FromTheFirstSession(developer: Text, today: Text, calls: seq<Call>)
    requires HasNo(developer, ANGLE) && HasNo(developer, STAR)
    requires forall i :: 0 <= i < |calls| ==> IsGood(calls[i])
    ensures AddSessions(FreshWorkspace(developer, today), calls).Some?
    ensures var index := AddSessions(FreshWorkspace(developer, today), calls).value.index;
      Total(index) == |calls| && TrimAll(Rows(index)) == NewRows(0, calls)
  {
    hide HasNo, FreshIndex, IsReady, IsGood, Rows, TotalFrom, NewRows, AddSessions;
    FreshIsReady(developer, today);
    SessionsAddUp(FreshWorkspace(developer, today), calls);
    assert TrimAll([]) == [];
  }
}
