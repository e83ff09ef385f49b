/** What a reader of the workspace finds after `pactile session add`: the status, the
    table of journals, the table of sessions and the entry itself, part by part. */
module SessionTables {
  import opened Decimal
  import opened Journal
  import opened JsText
  import opened Lines
  import opened MarkedSections
  import opened Options
  import opened Sessions
  import opened SessionRuns

  // ---- Rows and their cells ----

  function Spaced(cell: Text): Text { Ascii(" ") + cell + Ascii(" ") }

  function Quoted(cell: Text): Text { Ascii("`") + cell + Ascii("`") }

  /** `| a | b | c |` */
  function TableRow(cells: seq<Text>): Text
  {
    if cells == [] then Ascii("|") else Ascii("|") + Spaced(cells[0]) + TableRow(cells[1..])
  }

  lemma Characters()
    ensures Ascii(" ") == [SPACE] && Ascii("|") == [PIPE] && Ascii(" | ") == [SPACE, PIPE, SPACE]
    ensures Ascii(" | `") == [SPACE, PIPE, SPACE, 0x60] && Ascii("` |") == [0x60, SPACE, PIPE] && Ascii("`") == [0x60]
  {
  }

  lemma MoreCells(a: Text, cells: seq<Text>)
    ensures TableRow([a] + cells) == [PIPE, SPACE] + a + [SPACE] + TableRow(cells)
  {
    Characters();
    assert ([a] + cells)[1..] == cells;
  }

  lemma TwoCells(a: Text, b: Text)
    ensures TableRow([a, b]) == [PIPE, SPACE] + a + [SPACE, PIPE, SPACE] + b + [SPACE, PIPE]
  {
    hide TableRow;
    NoCells();
    MoreCells(a, [b]);
    MoreCells(b, []);
    assert [a] + [b] == [a, b] && [b] + [] == [b];
  }

  lemma NoCells()
    ensures TableRow([]) == [PIPE]
  {
    Characters();
  }

  /** The columns of the history: number, date, title, commits, branch. */
  lemma RowCells(number: nat, s: Session, commits: Text)
    ensures Row(number, s, commits)
         == TableRow([Digits(number), s.today, s.title, commits, Quoted(if s.branch == [] then Ascii("-") else s.branch)])
  {
    hide TableRow, Digits, Quoted;
    var branch := if s.branch == [] then Ascii("-") else s.branch;
    var quoted := Quoted(branch);
    TwoCells(commits, quoted);
    MoreCells(s.title, [commits, quoted]);
    MoreCells(s.today, [s.title, commits, quoted]);
    MoreCells(Digits(number), [s.today, s.title, commits, quoted]);
    assert [s.title] + [commits, quoted] == [s.title, commits, quoted];
    assert [s.today] + [s.title, commits, quoted] == [s.today, s.title, commits, quoted];
    assert [Digits(number)] + [s.today, s.title, commits, quoted] == [Digits(number), s.today, s.title, commits, quoted];
    RegroupRow(Digits(number), s.today, s.title, commits, branch);
  }

  lemma RegroupRow(digits: Text, today: Text, title: Text, commits: Text, branch: Text)
    ensures [PIPE, SPACE] + digits + ROW_BREAK + (today + ROW_BREAK + title + ROW_BREAK + commits + Ascii(" | `") + branch + Ascii("` |"))
         == [PIPE, SPACE] + digits + [SPACE]
            + ([PIPE, SPACE] + today + [SPACE]
               + ([PIPE, SPACE] + title + [SPACE] + ([PIPE, SPACE] + commits + [SPACE, PIPE, SPACE] + Quoted(branch) + [SPACE, PIPE])))
  {
    Characters();
    RegroupCells([PIPE, SPACE] + digits, [SPACE], [PIPE, SPACE], today, title, commits, branch, [0x60]);
  }

  lemma RegroupCells(a: Text, s: Text, p: Text, today: Text, title: Text, commits: Text, branch: Text, q: Text)
    ensures a + (s + p) + (today + (s + p) + title + (s + p) + commits + (s + p + q) + branch + (q + [SPACE, PIPE]))
         == a + s + (p + today + s + (p + title + s + (p + commits + (s + p) + (q + branch + q) + [SPACE, PIPE])))
  {
  }

  /** The row of a journal: name, length, status. */
  function JournalRow(f: File, isActive: bool): Text
  {
    TableRow([Quoted(f.name), Ascii("~") + Digits(LineCount(f.text)), Ascii(if isActive then "Active" else "Archived")])
  }

  lemma DocumentCells(f: File, active: Text)
    ensures DocumentLine(f, active) == JournalRow(f, f.name == active)
  {
    hide TableRow, Digits, LineCount, Quoted;
    var name, count, status := Quoted(f.name), Ascii("~") + Digits(LineCount(f.text)),
                               Ascii(if f.name == active then "Active" else "Archived");
    TwoCells(count, status);
    MoreCells(name, [count, status]);
    assert [name] + [count, status] == [name, count, status];
    DocumentCharacters();
    RegroupDocument(f.name, Digits(LineCount(f.text)), status);
  }

  lemma RegroupDocument(name: Text, digits: Text, status: Text)
    ensures Ascii("| `") + name + Ascii("` | ~") + digits + ([SPACE, PIPE, SPACE] + status + [SPACE, PIPE])
         == [PIPE, SPACE] + Quoted(name) + [SPACE] + ([PIPE, SPACE] + (Ascii("~") + digits) + [SPACE, PIPE, SPACE] + status + [SPACE, PIPE])
  {
    Characters();
    DocumentCharacters();
  }

  lemma DocumentCharacters()
    ensures Ascii("| `") == [PIPE, SPACE, 0x60] && Ascii("` | ~") == [0x60, SPACE, PIPE, SPACE] + Ascii("~")
    ensures Ascii(" | Active |") == [SPACE, PIPE, SPACE] + Ascii("Active") + [SPACE, PIPE]
    ensures Ascii(" | Archived |") == [SPACE, PIPE, SPACE] + Ascii("Archived") + [SPACE, PIPE]
  {
  }

  // ---- The three sections ----

  /** The status: the journal in use, the number of sessions, the day. */
  function StatusLines(journal: Text, total: nat, today: Text): seq<Text>
  {
    [Ascii("- **Active File**: ") + Quoted(journal), Ascii("- **Total Sessions**: ") + Digits(total),
     Ascii("- **Last Active**: ") + today]
  }

  lemma StatusAsLines(journal: Text, total: nat, today: Text)
    ensures StatusBody(journal, total, today) == Join(StatusLines(journal, total, today), LF)
  {
    hide Digits, Join;
    ActiveCharacters();
    TotalCharacters();
    TotalLine();
    DateLine();
    var lines := StatusLines(journal, total, today);
    JoinThree(lines[0], lines[1], lines[2]);
    RegroupStatus(Ascii("- **Active File**: "), Ascii("`"), journal, LF, Ascii("- "), TOTAL_KEY + [SPACE], Digits(total),
                  Ascii("- **Last Active**: "), today);
  }

  lemma ActiveCharacters()
    ensures STATUS_FILE == Ascii("- **Active File**: ") + Ascii("`")
  {
  }

  lemma TotalCharacters()
    ensures STATUS_TOTAL == Ascii("`") + LF + Ascii("- ")
  {
  }

  lemma TotalLine()
    ensures Ascii("- **Total Sessions**: ") == Ascii("- ") + (TOTAL_KEY + [SPACE])
  {
  }

  lemma DateLine()
    ensures STATUS_DATE == LF + Ascii("- **Last Active**: ")
  {
  }

  lemma RegroupStatus(file: Text, q: Text, journal: Text, lf: Text, dash: Text, key: Text, total: Text, date: Text, today: Text)
    ensures (file + q) + journal + (q + lf + dash) + (key + total) + (lf + date) + today
         == (file + (q + journal + q)) + lf + ((dash + key) + total + lf + (date + today))
  {
  }

  lemma JoinMore(part: Text, parts: seq<Text>, nl: Text)
    requires parts != []
    ensures Join([part] + parts, nl) == part + nl + Join(parts, nl)
  {
    assert ([part] + parts)[1..] == parts;
  }

  lemma JoinThree(a: Text, b: Text, c: Text)
    ensures Join([a, b, c], LF) == a + LF + (b + LF + c)
  {
    JoinMore(a, [b, c], LF);
    JoinMore(b, [c], LF);
    assert [a] + [b, c] == [a, b, c] && [b] + [c] == [b, c];
  }

  /** One row for each journal, in numeric order; the last one, and no other, is active. */
  function JournalRows(journals: seq<File>): (r: seq<Text>)
    ensures |r| == |journals|
    ensures forall i :: 0 <= i < |journals| ==> r[i] == JournalRow(journals[i], i == |journals| - 1)
  {
    seq(|journals|, i requires 0 <= i < |journals| => JournalRow(journals[i], i == |journals| - 1))
  }

  lemma {:induction false} DocumentLineAt(files: seq<File>, active: Text, i: nat)
    requires i < |files|
    ensures |DocumentLines(files, active)| == |files| && DocumentLines(files, active)[i] == DocumentLine(files[i], active)
    decreases |files|
  {
    hide DocumentLine;
    if |files| > 1 {
      DocumentLineAt(files[1..], active, if i == 0 then 0 else i - 1);
    }
  }

  lemma OnlyLastIsActive(journals: seq<File>)
    requires journals != [] && DistinctNames(journals)
    ensures DocumentLines(journals, journals[|journals| - 1].name) == JournalRows(journals)
  {
    hide DocumentLines, DocumentLine, JournalRow;
    var n := |journals| - 1;
    var active := journals[n].name;
    DocumentLineAt(journals, active, n);
    forall i | 0 <= i < |journals|
      ensures DocumentLines(journals, active)[i] == JournalRows(journals)[i]
    {
      DocumentLineAt(journals, active, i);
      DocumentCells(journals[i], active);
      assert i < n ==> journals[i].name != journals[n].name;
    }
  }

  /** After one session the index says of the journals what is true of them: the
      status and the one active row name the newest, which ends with the entry; every
      journal has its row, in order, with its length; and the row of the session
      stands on top of the history. */
  lemma SessionShows(ws: Workspace, c: Call)
    requires IsReady(ws) && IsGood(c)
    ensures AddSession(ws, c).Some?
    ensures var ws', number := AddSession(ws, c).value, Total(ws.index) + 1;
      var journals, s := Sorted(ws'.files), c.session;
      && ws'.files != []
      && EndsWith(Newest(ws'.files).text, Entry(number, s))
      && Section(ws'.index, STATUS) == Some(Framed(Join(StatusLines(Newest(ws'.files).name, number, s.today), LF)))
      && Section(ws'.index, DOCUMENTS)
         == Some(Framed(Join([Ascii("| File | Lines | Status |"), Ascii("|------|-------|--------|")] + JournalRows(journals), LF)))
      && Section(ws'.index, HISTORY)
         == Some(Framed(Join(
              [Ascii("| # | Date | Title | Commits | Branch |"), Ascii("|---|------|-------|---------|--------|"),
               TableRow([Digits(number), s.today, s.title, c.commits,
                         Quoted(if s.branch == [] then Ascii("-") else s.branch)])] + Rows(ws.index), LF)))
  {
    hide Choose, Store, StatusBody, Row, Rows, Entry, TotalFrom, Sorted, Rewrite, Join, JournalRows, TableRow, Framed,
      IsRegular, StatusFirst, NoEarlierTotal, AreJournals, DistinctNames, MarkerFree, HasNo, JournalNumber, IsGood,
      AddSession, StatusLines, Section, Newest, DocumentLines, EndsWith, Digits, IsDate;
    var number := Total(ws.index) + 1;
    var entry, row := Entry(number, c.session), Row(number, c.session, c.commits);
    ChooseSome(ws.files, c.developer, entry, c.maxLines, c.session.today);
    var w := Choose(ws.files, c.developer, entry, c.maxLines, c.session.today).value;
    AddSessionWrites(ws, c, w);
    StoreKeepsJournals(ws.files, c.developer, entry, c.maxLines, c.session.today, c.slot, w);
    var stored := Store(ws.files, w, c.slot);
    SortedAreJournals(stored);
    NameIsPlain(w.name);
    DocumentsAreFree(Sorted(stored), w.name);
    GoodRow(c, number);
    StatusIsFree(w.name, number, c.session.today);
    HistoryIsFree(row, Rows(ws.index));
    RewriteReadsBack(ws.index, StatusBody(w.name, number, c.session.today), DocumentsBody(Sorted(stored), w.name),
                     HistoryBody(row, Rows(ws.index)));
    StoredNewest(ws.files, c.developer, entry, c.maxLines, c.session.today, c.slot, w);
    NamesStayDistinct(stored);
    SortedEnd(stored);
    OnlyLastIsActive(Sorted(stored));
    StatusAsLines(w.name, number, c.session.today);
    RowCells(number, c.session, c.commits);
    assert HISTORY_HEAD + ([row] + Rows(ws.index)) == HISTORY_HEAD + [row] + Rows(ws.index);
    assert HISTORY_HEAD + [row] == [HISTORY_HEAD[0], HISTORY_HEAD[1], row];
  }

  lemma GoodRow(c: Call, number: nat)
    requires IsGood(c)
    ensures MarkerFree(Row(number, c.session, c.commits)) && IsDate(c.session.today)
  {
    hide MarkerFree, Row, IsLine;
    assert IsLine(Row(number, c.session, c.commits));
  }

  predicate EndsWith(text: Text, entry: Text) { |entry| <= |text| && text[|text| - |entry|..] == entry }

  /** The journal that was written is the newest, and the entry stands at its end. */
  lemma StoredNewest(files: seq<File>, developer: Text, entry: Text, maxLines: nat, today: Text, slot: nat, w: Written)
    requires files != [] && DistinctNames(files) && Choose(files, developer, entry, maxLines, today) == Some(w)
    ensures Store(files, w, slot) != [] && Newest(Store(files, w, slot)) == File(w.name, w.text) && EndsWith(w.text, entry)
  {
    hide Header, LineCount, Sorted, DistinctNames, OverwriteAll, Number;
    if w.rotated {
      RotatedComesLast(files, w, slot, developer, entry, maxLines, today);
      NewestIs(Store(files, w, slot), Sorted(files), File(w.name, w.text));
    } else {
      AppendedText(files, w);
      NewestIs(Store(files, w, slot), Sorted(files)[..|files| - 1], File(w.name, w.text));
    }
  }

  lemma SortedEnd(files: seq<File>)
    requires files != []
    ensures Sorted(files) != [] && Sorted(files)[|Sorted(files)| - 1] == Newest(files)
  {
    hide Sorted;
  }

  // ---- The entry ----

  lemma {:induction false} JoinLast(parts: seq<Text>, part: Text, nl: Text)
    requires parts != []
    ensures Join(parts + [part], nl) == Join(parts, nl) + nl + part
    decreases |parts|
  {
    if |parts| == 1 {
      JoinMore(parts[0], [part], nl);
      assert parts == [parts[0]];
    } else {
      var rest := parts[1..];
      JoinLast(rest, part, nl);
      assert parts + [part] == [parts[0]] + (rest + [part]) && parts == [parts[0]] + rest;
      JoinMore(parts[0], rest + [part], nl);
      JoinMore(parts[0], rest, nl);
    }
  }

  /** The facts about a session: date, task and, where known, package and branch. */
  function FactLines(s: Session): seq<Text>
  {
    [Ascii("**Date**: ") + s.today, Ascii("**Task**: ") + s.title]
    + (if s.pkg == [] then [] else [Ascii("**Package**: ") + s.pkg])
    + (if s.branch == [] then [] else [Ascii("**Branch**: ") + Quoted(s.branch)])
  }

  lemma FactsText(s: Session)
    ensures Join(FactLines(s), LF)
         == Ascii("**Date**: ") + s.today + Ascii("\n**Task**: ") + s.title
            + (if s.pkg == [] then [] else Ascii("\n**Package**: ") + s.pkg)
            + (if s.branch == [] then [] else Ascii("\n**Branch**: `") + s.branch + Ascii("`"))
  {
    FactCharacters();
    FactsJoined(s);
    RegroupLine(Ascii("**Date**: ") + s.today, LF, Ascii("**Task**: "), s.title);
    var two := Ascii("**Date**: ") + s.today + Ascii("\n**Task**: ") + s.title;
    RegroupLine(two, LF, Ascii("**Package**: "), s.pkg);
    var three := if s.pkg == [] then two else two + LF + (Ascii("**Package**: ") + s.pkg);
    RegroupQuoted(three, LF, Ascii("**Branch**: "), s.branch);
    ConcatAssociates(two, Ascii("\n**Package**: "), s.pkg);
    AppendNothing(two);
    AppendNothing(three);
  }

  lemma AppendNothing(a: Text)
    ensures a + [] == a
  {
  }

  lemma RegroupLine(a: Text, lf: Text, key: Text, value: Text)
    ensures a + lf + (key + value) == a + (lf + key) + value
  {
  }

  lemma RegroupQuoted(a: Text, lf: Text, key: Text, value: Text)
    ensures a + lf + (key + Quoted(value)) == a + (lf + (key + Ascii("`")) + value + Ascii("`"))
  {
  }

  lemma FactsJoined(s: Session)
    ensures var two := Ascii("**Date**: ") + s.today + LF + (Ascii("**Task**: ") + s.title);
      var three := if s.pkg == [] then two else two + LF + (Ascii("**Package**: ") + s.pkg);
      Join(FactLines(s), LF) == if s.branch == [] then three else three + LF + (Ascii("**Branch**: ") + Quoted(s.branch))
  {
    hide Join, Quoted;
    var date, task := Ascii("**Date**: ") + s.today, Ascii("**Task**: ") + s.title;
    var pkg, branch := Ascii("**Package**: ") + s.pkg, Ascii("**Branch**: ") + Quoted(s.branch);
    JoinOne(date);
    JoinLast([date], task, LF);
    assert [date] + [task] == [date, task];
    var two := [date, task];
    var three := if s.pkg == [] then two else two + [pkg];
    JoinLast(two, pkg, LF);
    JoinLast(three, branch, LF);
    assert FactLines(s) == if s.branch == [] then three else three + [branch];
  }

  lemma JoinOne(part: Text)
    ensures Join([part], LF) == part
  {
  }

  lemma FactCharacters()
    ensures Ascii("\n**Task**: ") == LF + Ascii("**Task**: ") && Ascii("\n**Package**: ") == LF + Ascii("**Package**: ")
    ensures Ascii("\n**Branch**: `") == LF + (Ascii("**Branch**: ") + Ascii("`"))
  {
  }

  const GAP: Text := [NEWLINE, NEWLINE]

  /** The paragraphs of an entry: every text stands under its own heading. */
  function Paragraphs(number: nat, s: Session): seq<Text>
  {
    [[], Ascii("## Session ") + Digits(number) + Ascii(": ") + s.title, Join(FactLines(s), LF)]
    + [Ascii("### Summary"), s.summary] + [Ascii("### Main Changes"), s.details] + [Ascii("### Git Commits"), s.commits]
  }

  lemma JoinTwoMore(parts: seq<Text>, heading: Text, text: Text)
    requires parts != []
    ensures Join(parts + [heading, text], GAP) == Join(parts, GAP) + GAP + heading + GAP + text
  {
    JoinLast(parts, heading, GAP);
    JoinLast(parts + [heading], text, GAP);
    assert parts + [heading] + [text] == parts + [heading, text];
  }

  lemma TitleCharacters()
    ensures Ascii("\n\n## Session ") == GAP + Ascii("## Session ")
  {
  }

  lemma DateCharacters()
    ensures Ascii("\n\n**Date**: ") == GAP + Ascii("**Date**: ")
  {
  }

  lemma SummaryCharacters()
    ensures Ascii("\n\n### Summary\n\n") == GAP + Ascii("### Summary") + GAP
  {
  }

  lemma ChangesCharacters()
    ensures Ascii("\n\n### Main Changes\n\n") == GAP + Ascii("### Main Changes") + GAP
  {
  }

  lemma CommitsCharacters()
    ensures Ascii("\n\n### Git Commits\n\n") == GAP + Ascii("### Git Commits") + GAP
  {
  }

  lemma ParagraphsJoined(number: nat, s: Session)
    ensures Join(Paragraphs(number, s), GAP)
         == GAP + (Ascii("## Session ") + Digits(number) + Ascii(": ") + s.title) + GAP + Join(FactLines(s), LF)
            + GAP + Ascii("### Summary") + GAP + s.summary + GAP + Ascii("### Main Changes") + GAP + s.details
            + GAP + Ascii("### Git Commits") + GAP + s.commits
  {
    hide Join, FactLines, Digits;
    var title, facts := Ascii("## Session ") + Digits(number) + Ascii(": ") + s.title, Join(FactLines(s), LF);
    JoinOpening(title, facts);
    var a := [[], title, facts];
    var b := a + [Ascii("### Summary"), s.summary];
    var c := b + [Ascii("### Main Changes"), s.details];
    JoinTwoMore(a, Ascii("### Summary"), s.summary);
    JoinTwoMore(b, Ascii("### Main Changes"), s.details);
    JoinTwoMore(c, Ascii("### Git Commits"), s.commits);
  }

  /** The entry is these paragraphs and the fixed checklist behind them. */
  lemma EntryShows(number: nat, s: Session)
    ensures Entry(number, s)
         == Join(Paragraphs(number, s), GAP)
            + Ascii("\n\n### Testing\n\n- [OK] (Add test results)\n\n### Status\n\n[OK] **Completed**\n\n### Next Steps\n\n- None - task complete")
            + LF
  {
    hide Join, FactLines, Digits, Ascii;
    ParagraphsJoined(number, s);
    TitleCharacters();
    DateCharacters();
    SummaryCharacters();
    ChangesCharacters();
    CommitsCharacters();
    var title := Ascii("## Session ") + Digits(number) + Ascii(": ") + s.title;
    RegroupTitle(GAP, Ascii("## Session "), Digits(number), Ascii(": "), s.title);
    FactsText(s);
    var pkg := if s.pkg == [] then [] else Ascii("\n**Package**: ") + s.pkg;
    var branch := if s.branch == [] then [] else Ascii("\n**Branch**: `") + s.branch + Ascii("`");
    RegroupFacts(GAP + title, GAP, Ascii("**Date**: "), s.today, Ascii("\n**Task**: "), s.title, pkg, branch);
    var opening := GAP + title + GAP + Join(FactLines(s), LF);
    RegroupSection(opening, GAP, Ascii("### Summary"), s.summary);
    var withSummary := opening + GAP + Ascii("### Summary") + GAP + s.summary;
    RegroupSection(withSummary, GAP, Ascii("### Main Changes"), s.details);
    RegroupSection(withSummary + GAP + Ascii("### Main Changes") + GAP + s.details, GAP, Ascii("### Git Commits"), s.commits);
  }

  lemma RegroupTitle(gap: Text, key: Text, digits: Text, colon: Text, title: Text)
    ensures gap + (key + digits + colon + title) == (gap + key) + digits + colon + title
  {
  }

  lemma RegroupFacts(a: Text, gap: Text, key: Text, today: Text, task: Text, title: Text, pkg: Text, branch: Text)
    ensures a + gap + (key + today + task + title + pkg + branch) == a + (gap + key) + today + task + title + pkg + branch
  {
  }

  lemma RegroupSection(a: Text, gap: Text, heading: Text, text: Text)
    ensures a + gap + heading + gap + text == a + (gap + heading + gap) + text
  {
  }

  lemma JoinOpening(title: Text, facts: Text)
    ensures Join([[], title, facts], GAP) == GAP + title + GAP + facts
  {
    JoinMore(title, [facts], GAP);
    JoinMore([], [title, facts], GAP);
    assert [title] + [facts] == [title, facts];
    var none: Text := [];
    assert [none] + [title, facts] == [none, title, facts];
    assert [] + GAP == GAP;
  }

  /** A rotated journal says whose it is, which part, what it continues and since when. */
  function HeaderLines(developer: Text, part: nat, last: Text, maxLines: nat, today: Text): seq<Text>
  {
    [Ascii("# Journal - ") + developer + Ascii(" (Part ") + Digits(part) + Ascii(")"), [],
     Ascii("> Continuation from ") + Quoted(last) + Ascii(" (archived at ~") + Digits(maxLines) + Ascii(" lines)"),
     Ascii("> Started: ") + today, [], Ascii("---"), [], []]
  }

  lemma HeaderShows(developer: Text, part: nat, last: Text, maxLines: nat, today: Text)
    ensures Header(developer, part, last, maxLines, today) == Join(HeaderLines(developer, part, last, maxLines, today), LF)
  {
    hide Join, Digits, Ascii;
    var lines := HeaderLines(developer, part, last, maxLines, today);
    HeaderJoined(lines[0], lines[2], lines[3], lines[5]);
    ContinuationCharacters();
    ArchivedCharacters();
    StartedCharacters();
    RuleCharacters();
    RegroupHeader(LF, Ascii("# Journal - ") + developer + Ascii(" (Part ") + Digits(part), Ascii(")"),
                  Ascii("> Continuation from "), Ascii("`"), last, Ascii(" (archived at ~"), Digits(maxLines),
                  Ascii(" lines)"), Ascii("> Started: "), today, Ascii("---"));
  }

  lemma HeaderJoined(title: Text, continued: Text, started: Text, rule: Text)
    ensures Join([title, [], continued, started, [], rule, [], []], LF)
         == title + LF + (LF + (continued + LF + (started + LF + (LF + (rule + LF + LF)))))
  {
    hide Join;
    var none: Text := [];
    JoinMore(none, [none], LF);
    JoinOne(none);
    JoinMore(rule, [none, none], LF);
    JoinMore(none, [rule, none, none], LF);
    JoinMore(started, [none, rule, none, none], LF);
    JoinMore(continued, [started, none, rule, none, none], LF);
    JoinMore(none, [continued, started, none, rule, none, none], LF);
    JoinMore(title, [none, continued, started, none, rule, none, none], LF);
    assert [none] + [none] == [none, none] && [rule] + [none, none] == [rule, none, none];
    assert [none] + [rule, none, none] == [none, rule, none, none];
    assert [started] + [none, rule, none, none] == [started, none, rule, none, none];
    assert [continued] + [started, none, rule, none, none] == [continued, started, none, rule, none, none];
    assert [none] + [continued, started, none, rule, none, none] == [none, continued, started, none, rule, none, none];
    assert [title] + [none, continued, started, none, rule, none, none]
        == [title, none, continued, started, none, rule, none, none];
    assert none + LF + none == LF;
    assert none + LF == LF;
  }

  lemma ContinuationCharacters()
    ensures Ascii(")\n\n> Continuation from `") == Ascii(")") + LF + LF + Ascii("> Continuation from ") + Ascii("`")
  {
  }

  lemma ArchivedCharacters()
    ensures Ascii("` (archived at ~") == Ascii("`") + Ascii(" (archived at ~")
  {
  }

  lemma StartedCharacters()
    ensures Ascii(" lines)\n> Started: ") == Ascii(" lines)") + LF + Ascii("> Started: ")
  {
  }

  lemma RuleCharacters()
    ensures Ascii("\n\n---\n\n") == LF + LF + Ascii("---") + LF + LF
  {
  }

  lemma RegroupHeader(lf: Text, title: Text, close: Text, from: Text, q: Text, last: Text, archived: Text, count: Text,
                      lines: Text, since: Text, today: Text, rule: Text)
    ensures title + (close + lf + lf + from + q) + last + (q + archived) + count + (lines + lf + since) + today
            + (lf + lf + rule + lf + lf)
         == (title + close) + lf + (lf + ((from + (q + last + q) + archived + count + lines) + lf
            + ((since + today) + lf + (lf + (rule + lf + lf)))))
  {
  }

  // ---- Names and numbers ----

  /** The journals are the files `journal-<digits>.md`, leading zeros included, and new
      ones are named without. */
  lemma JournalNames(name: Text, n: nat)
    ensures JournalName(n) == Ascii("journal-") + Digits(n) + Ascii(".md") && JournalNumber(JournalName(n)) == Some(n)
    ensures JournalNumber(name).Some?
       <==> exists digits :: digits != [] && AllDigits(digits) && name == Ascii("journal-") + digits + Ascii(".md")
  {
    hide Digits;
    NameNumber(n);
    if JournalNumber(name).Some? {
      var digits := name[|PREFIX|..|name| - |SUFFIX|];
      assert name == Ascii("journal-") + digits + Ascii(".md");
    }
    if digits :| digits != [] && AllDigits(digits) && name == Ascii("journal-") + digits + Ascii(".md") {
      assert name[|PREFIX|..|name| - |SUFFIX|] == digits;
    }
  }

  /** The total is looked for behind its key: the first place at which, after white
      space only, a number follows. */
  lemma TotalAtIff(t: Text, i: nat)
    ensures TotalAt(t, i).Some?
       <==> && OccursAt(t, Ascii("**Total Sessions**:"), i)
            && exists j :: i + |TOTAL_KEY| <= j < |t| && IsDigit(t[j]) && forall k :: i + |TOTAL_KEY| <= k < j ==> IsSpace(t[k])
  {
    if OccursAt(t, TOTAL_KEY, i) {
      var rest := t[i + |TOTAL_KEY|..];
      NumberFollowsIff(rest);
      if j :| 0 <= j < |rest| && IsDigit(rest[j]) && forall k :: 0 <= k < j ==> IsSpace(rest[k]) {
        assert t[i + |TOTAL_KEY| + j] == rest[j];
        assert forall k :: i + |TOTAL_KEY| <= k < i + |TOTAL_KEY| + j ==> t[k] == rest[k - i - |TOTAL_KEY|];
      }
      if j :| i + |TOTAL_KEY| <= j < |t| && IsDigit(t[j]) && forall k :: i + |TOTAL_KEY| <= k < j ==> IsSpace(t[k]) {
        assert rest[j - i - |TOTAL_KEY|] == t[j];
        assert forall k :: 0 <= k < j - i - |TOTAL_KEY| ==> rest[k] == t[k + i + |TOTAL_KEY|];
      }
    }
  }

  lemma {:induction false} NumberFollowsIff(rest: Text)
    ensures NumberAfter(rest).Some?
       <==> exists j :: 0 <= j < |rest| && IsDigit(rest[j]) && forall k :: 0 <= k < j ==> IsSpace(rest[k])
    decreases |rest|
  {
    hide IsSpaceCode;
    if rest != [] {
      var tail := rest[1..];
      if IsDigit(rest[0]) {
        DigitIsNoSpace(rest[0]);
      }
      NumberFollowsIff(tail);
      if IsSpace(rest[0]) {
        assert NumberAfter(rest) == NumberAfter(tail);
        if j :| 0 <= j < |tail| && IsDigit(tail[j]) && forall k :: 0 <= k < j ==> IsSpace(tail[k]) {
          assert rest[j + 1] == tail[j] && forall k :: 0 < k < j + 1 ==> rest[k] == tail[k - 1];
        }
        if j :| 0 <= j < |rest| && IsDigit(rest[j]) && forall k :: 0 <= k < j ==> IsSpace(rest[k]) {
          assert tail[j - 1] == rest[j] && forall k :: 0 <= k < j - 1 ==> tail[k] == rest[k + 1];
        }
      } else {
        assert TrimStart(rest) == rest;
        assert DigitRun(rest) > 0 <==> IsDigit(rest[0]);
      }
    }
  }
}
