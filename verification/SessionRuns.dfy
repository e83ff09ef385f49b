/** The workspace index over any number of sessions: the rows of the history
    survive the round through the file, the total read back is the one written,
    and both add up from session to session. A workspace is ready for the next
    session when its sections stand apart, the status comes first and nothing
    before it looks like a total; every session leaves it ready again. */
module SessionRuns {
  import opened Decimal
  import opened Journal
  import opened JsText
  import opened Lines
  import opened MarkedSections
  import opened Options
  import opened Sessions

  // ---- Rows survive the round through the file ----

  function TrimAll(lines: seq<Text>): seq<Text>
  {
    if lines == [] then [] else [TrimEnd(lines[0])] + TrimAll(lines[1..])
  }

  lemma DigitRunAppend(t: Text, u: Unit)
    requires !IsDigit(u)
    ensures DigitRun(t + [u]) == DigitRun(t)
    decreases |t|
  {
    if t != [] && IsDigit(t[0]) {
      assert (t + [u])[1..] == t[1..] + [u];
      DigitRunAppend(t[1..], u);
    }
  }

  lemma SpaceIsNoDigit(u: Unit)
    requires IsSpace(u)
    ensures !IsDigit(u) && u != PIPE && TrimStart([u]) == []
  {
    assert [u][1..] == [];
  }

  /** What must follow the bar that opens a row. */
  predicate IsRowBody(rest: Text)
  {
    var k := DigitRun(rest);
    k > 0 && var tail := TrimStart(rest[k..]); tail != [] && tail[0] == PIPE
  }

  lemma RowBodyAppend(rest: Text, u: Unit)
    requires IsSpace(u)
    ensures IsRowBody(rest + [u]) == IsRowBody(rest)
  {
    hide TrimStart, IsSpaceCode;
    var k := DigitRun(rest);
    SpaceIsNoDigit(u);
    DigitRunAppend(rest, u);
    assert (rest + [u])[k..] == rest[k..] + [u];
    TrimStartAppend(rest[k..], u);
  }

  lemma RowAppendSpace(line: Text, u: Unit)
    requires IsSpace(u)
    ensures IsRow(line + [u]) == IsRow(line)
  {
    hide TrimStart, DigitRun, IsSpaceCode;
    SpaceIsNoDigit(u);
    if line != [] {
      assert (line + [u])[1..] == line[1..] + [u];
      TrimStartAppend(line[1..], u);
      RowBodyAppend(TrimStart(line[1..]), u);
      RowIsBody(line);
      RowIsBody(line + [u]);
    }
  }

  lemma RowIsBody(line: Text)
    ensures IsRow(line) <==> line != [] && line[0] == PIPE && IsRowBody(TrimStart(line[1..]))
  {
  }

  lemma {:induction false} RowByItsText(line: Text)
    ensures IsRow(TrimEnd(line)) == IsRow(line)
    decreases |line|
  {
    hide IsRow;
    if line != [] && IsSpace(line[|line| - 1]) {
      var front, u := line[..|line| - 1], line[|line| - 1];
      assert line == front + [u];
      RowAppendSpace(front, u);
      RowByItsText(front);
    }
  }

  lemma {:induction false} SimilarRows(a: seq<Text>, b: seq<Text>)
    requires Similar(a, b)
    ensures TrimAll(RowsIn(a)) == TrimAll(RowsIn(b))
    decreases |a|
  {
    hide IsRow, TrimEnd;
    if a != [] {
      RowByItsText(a[0]);
      RowByItsText(b[0]);
      SimilarRows(a[1..], b[1..]);
      TrimAllHead(a[0], RowsIn(a[1..]));
      TrimAllHead(b[0], RowsIn(b[1..]));
      assert [] + RowsIn(a[1..]) == RowsIn(a[1..]) && [] + RowsIn(b[1..]) == RowsIn(b[1..]);
    }
  }

  lemma TrimAllHead(line: Text, rest: seq<Text>)
    ensures TrimAll([line] + rest) == [TrimEnd(line)] + TrimAll(rest)
  {
    assert ([line] + rest)[1..] == rest;
  }

  lemma {:induction false} RowsInRows(rows: seq<Text>)
    requires forall row :: row in rows ==> IsRow(row)
    ensures RowsIn(rows) == rows
    decreases |rows|
  {
    hide IsRow;
    if rows != [] {
      RowsInRows(rows[1..]);
    }
  }

  lemma {:induction false} RowsInConcat(a: seq<Text>, b: seq<Text>)
    ensures RowsIn(a + b) == RowsIn(a) + RowsIn(b)
    decreases |a|
  {
    hide IsRow;
    if a == [] {
      assert a + b == b;
    } else {
      assert (a + b)[1..] == a[1..] + b;
      RowsInConcat(a[1..], b);
    }
  }

  lemma {:induction false} RowsAreRows(lines: seq<Text>)
    ensures forall row :: row in RowsIn(lines) ==> row in lines && IsRow(row)
    decreases |lines|
  {
    hide IsRow;
    if lines != [] {
      RowsAreRows(lines[1..]);
    }
  }

  /** White space at the end of a text only concerns its last line. */
  lemma {:induction false} TrimEndOfJoin(lines: seq<Text>)
    requires lines != [] && TrimEnd(lines[|lines| - 1]) != []
    ensures TrimEnd(Join(lines, LF)) == Join(lines[..|lines| - 1] + [TrimEnd(lines[|lines| - 1])], LF)
    ensures TrimEnd(Join(lines, LF)) != []
    decreases |lines|
  {
    hide TrimEnd;
    var n := |lines| - 1;
    var last := TrimEnd(lines[n]);
    if n == 0 {
      assert lines[..n] + [last] == [last];
    } else {
      var rest := lines[1..];
      TrimEndOfJoin(rest);
      assert rest[..n - 1] + [TrimEnd(rest[n - 1])] == (lines[..n] + [last])[1..];
      TrimEndOfConcat(lines[0] + LF, Join(rest, LF));
    }
  }

  lemma JoinFramed(lines: seq<Text>)
    requires lines != []
    ensures LF + Join(lines, LF) + LF == Join([[]] + lines + [[]], LF)
  {
    var first: Text := [];
    assert ([first] + lines)[1..] == lines;
    assert Join([first] + lines, LF) == first + LF + Join(lines, LF);
    assert first + LF == LF;
    JoinBlank([first] + lines, LF);
  }

  /** The lines of a framed body, as far as they can be told apart. */
  lemma FramedLines(lines: seq<Text>)
    requires AreLines(lines) && lines != [] && TrimEnd(lines[|lines| - 1]) != []
    ensures Similar(SplitLines(Framed(Join(lines, LF))), [[]] + lines + [[]])
  {
    hide TrimEnd, Split, SplitLines, Join, Similar, AreLines;
    var n := |lines| - 1;
    var trimmed := lines[..n] + [TrimEnd(lines[n])];
    TrimEndOfJoin(lines);
    JoinFramed(trimmed);
    SimilarFrame(lines);
    SplitOfJoin([[]] + trimmed + [[]], LF);
    SplitsAreSimilar(Framed(Join(lines, LF)));
    SimilarTrans(SplitLines(Framed(Join(lines, LF))), Split(Framed(Join(lines, LF))), [[]] + trimmed + [[]]);
    SimilarTrans(SplitLines(Framed(Join(lines, LF))), [[]] + trimmed + [[]], [[]] + lines + [[]]);
  }

  lemma SimilarFrame(lines: seq<Text>)
    requires AreLines(lines) && lines != []
    ensures var trimmed := lines[..|lines| - 1] + [TrimEnd(lines[|lines| - 1])];
      AreLines([[]] + trimmed + [[]]) && Similar([[]] + trimmed + [[]], [[]] + lines + [[]])
  {
    hide TrimEnd, IsLine, Similar, AreLines;
    TrimmedLast(lines);
    BlankIsLine();
    FrameAreLines(lines[..|lines| - 1] + [TrimEnd(lines[|lines| - 1])]);
    FrameSimilar(lines[..|lines| - 1] + [TrimEnd(lines[|lines| - 1])], lines);
  }

  lemma TrimmedLast(lines: seq<Text>)
    requires AreLines(lines) && lines != []
    ensures var trimmed := lines[..|lines| - 1] + [TrimEnd(lines[|lines| - 1])];
      AreLines(trimmed) && Similar(trimmed, lines)
  {
    hide TrimEnd, IsLine;
    var last := lines[|lines| - 1];
    assert last in lines;
    TrimKeepsLine(last);
    TrimOfTrimEnd(last);
  }

  lemma FrameAreLines(lines: seq<Text>)
    requires AreLines(lines) && IsLine([])
    ensures AreLines([[]] + lines + [[]])
  {
    hide IsLine;
  }

  lemma FrameSimilar(a: seq<Text>, b: seq<Text>)
    requires Similar(a, b)
    ensures Similar([[]] + a + [[]], [[]] + b + [[]])
  {
    hide TrimEnd;
  }

  lemma BlankIsLine()
    ensures IsLine([])
  {
  }

  lemma TrimKeepsLine(line: Text)
    requires IsLine(line)
    ensures IsLine(TrimEnd(line))
  {
  }

  lemma SimilarTrans(a: seq<Text>, b: seq<Text>, c: seq<Text>)
    requires Similar(a, b) && Similar(b, c)
    ensures Similar(a, c)
  {
    hide TrimEnd;
  }

  lemma FirstHeadIsLine()
    ensures IsLine(HISTORY_HEAD[0])
  {
    hide IsLine;
    PlainLine("| # | Date | Title | Commits | Branch |");
  }

  lemma SecondHeadIsLine()
    ensures IsLine(HISTORY_HEAD[1])
  {
    hide IsLine;
    PlainLine("|---|------|-------|---------|--------|");
  }

  lemma HeadIsLines()
    ensures AreLines(HISTORY_HEAD)
  {
    hide IsLine;
    FirstHeadIsLine();
    SecondHeadIsLine();
    assert HISTORY_HEAD == [HISTORY_HEAD[0], HISTORY_HEAD[1]];
  }

  lemma RowsInOne(line: Text)
    requires !IsRow(line)
    ensures RowsIn([line]) == []
  {
    hide IsRow;
    var tail: seq<Text> := [line][1..];
    assert tail == [];
  }

  lemma FirstHeadIsNoRow()
    ensures !IsRow(HISTORY_HEAD[0])
  {
    HashIsNoRow(HISTORY_HEAD[0]);
  }

  lemma SecondHeadIsNoRow()
    ensures !IsRow(HISTORY_HEAD[1])
  {
    DashIsNoRow(HISTORY_HEAD[1]);
  }

  lemma HeadIsNoRow()
    ensures RowsIn(HISTORY_HEAD) == [] && RowsIn([[]]) == []
  {
    hide IsRow, RowsIn;
    FirstHeadIsNoRow();
    SecondHeadIsNoRow();
    NoLineNoRow();
    RowsInOne(HISTORY_HEAD[0]);
    RowsInOne(HISTORY_HEAD[1]);
    RowsInOne([]);
    assert HISTORY_HEAD == [HISTORY_HEAD[0]] + [HISTORY_HEAD[1]];
    RowsInConcat([HISTORY_HEAD[0]], [HISTORY_HEAD[1]]);
  }

  lemma NoLineNoRow()
    ensures !IsRow([])
  {
  }

  lemma HashIsNoRow(line: Text)
    requires |line| > 2 && line[1] == SPACE && line[2] == 0x23
    ensures !IsRow(line)
  {
    var rest := line[1..];
    assert rest[1..][0] == line[2];
    assert TrimStart(rest[1..]) == rest[1..];
    assert TrimStart(rest) == rest[1..];
  }

  lemma DashIsNoRow(line: Text)
    requires |line| > 1 && line[1] == 0x2D
    ensures !IsRow(line)
  {
    assert line[1..][0] == line[1];
    assert TrimStart(line[1..]) == line[1..];
  }

  lemma RowsInFrame(rows: seq<Text>)
    requires forall row :: row in rows ==> IsRow(row)
    ensures RowsIn([[]] + (HISTORY_HEAD + rows) + [[]]) == rows
  {
    hide IsRow, RowsIn;
    HeadIsNoRow();
    RowsInRows(rows);
    RowsInConcat([[]] + (HISTORY_HEAD + rows), [[]]);
    RowsInConcat([[]], HISTORY_HEAD + rows);
    RowsInConcat(HISTORY_HEAD, rows);
  }

  lemma RowIsSomething(row: Text)
    requires IsRow(row)
    ensures TrimEnd(row) != []
  {
    RowByItsText(row);
    NoLineNoRow();
  }

  /** The history reads back as the new row above the old ones, up to white space
      at the ends of rows. */
  lemma HistoryReadsBack(row: Text, rows: seq<Text>)
    requires IsRow(row) && IsLine(row)
    requires AreLines(rows) && forall r :: r in rows ==> IsRow(r)
    ensures TrimAll(RowsIn(SplitLines(Framed(HistoryBody(row, rows))))) == [TrimEnd(row)] + TrimAll(rows)
  {
    hide IsRow, TrimEnd, SplitLines, Join, IsLine, Framed;
    var lines := HISTORY_HEAD + ([row] + rows);
    HeadIsLines();
    assert AreLines(lines);
    RowIsSomething(([row] + rows)[|rows|]);
    FramedLines(lines);
    SimilarRows(SplitLines(Framed(Join(lines, LF))), [[]] + lines + [[]]);
    RowsInFrame([row] + rows);
    TrimAllHead(row, rows);
  }

  // ---- The total ----

  /** No total is mentioned before the status section. */
  ghost predicate NoEarlierTotal(index: Text)
  {
    SpanOf(index, STATUS).Some? ==> forall i: nat :: i < SpanOf(index, STATUS).value.begin ==> TotalAt(index, i).None?
  }

  lemma {:induction false} TotalFromIs(t: Text, from: nat, i: nat)
    requires from <= i < |t| && TotalAt(t, i).Some? && forall j :: from <= j < i ==> TotalAt(t, j).None?
    ensures TotalFrom(t, from) == TotalAt(t, i).value
    decreases i - from
  {
    hide TotalAt;
    if from < i {
      TotalFromIs(t, from + 1, i);
    }
  }

  /** Where the key occurs in `a + x`, `a` ending with a character outside it. */
  lemma KeyWithin(a: Text, x: Text, i: nat)
    requires a != [] && a[|a| - 1] == 0x3E && i < |a|
    ensures OccursAt(a + x, TOTAL_KEY, i) ==> i + |TOTAL_KEY| < |a|
  {
    var t, k := a + x, |a| - 1 - i;
    if OccursAt(t, TOTAL_KEY, i) && k < |TOTAL_KEY| {
      assert t[i..i + |TOTAL_KEY|][k] == t[|a| - 1];
      KeyHasNoAngle(k);
    }
  }

  lemma KeyHasNoAngle(k: nat)
    requires k < |TOTAL_KEY|
    ensures TOTAL_KEY[k] != 0x3E
  {
    PlainHasNo("**Total Sessions**:", '>');
  }

  lemma {:induction false} TrimStartOfConcat(a: Text, x: Text)
    requires TrimStart(a) != []
    ensures TrimStart(a + x) == TrimStart(a) + x
    decreases |a|
  {
    hide IsSpaceCode;
    assert (a + x)[0] == a[0];
    if IsSpace(a[0]) {
      assert (a + x)[1..] == a[1..] + x;
      TrimStartOfConcat(a[1..], x);
    }
  }

  lemma {:induction false} DigitRunOfConcat(a: Text, x: Text)
    requires a != [] && !IsDigit(a[|a| - 1])
    ensures DigitRun(a + x) == DigitRun(a) && DigitRun(a) < |a|
    decreases |a|
  {
    if IsDigit(a[0]) {
      assert (a + x)[1..] == a[1..] + x;
      DigitRunOfConcat(a[1..], x);
    }
  }

  lemma {:induction false} TrimStartKeepsEnd(a: Text)
    requires a != [] && !IsSpace(a[|a| - 1])
    ensures TrimStart(a) != [] && TrimStart(a)[|TrimStart(a)| - 1] == a[|a| - 1]
    decreases |a|
  {
    if IsSpace(a[0]) {
      TrimStartKeepsEnd(a[1..]);
    }
  }

  /** A total is read without looking behind the marker that follows it. */
  lemma TotalWithin(a: Text, x: Text, y: Text, i: nat)
    requires a != [] && a[|a| - 1] == 0x3E && i < |a|
    ensures TotalAt(a + x, i) == TotalAt(a + y, i)
  {
    hide NumberAfter, OccursAt;
    KeyWithin(a, x, i);
    KeyWithin(a, y, i);
    OccursInPrefix(a + x, |a|, TOTAL_KEY, i);
    OccursInPrefix(a + y, |a|, TOTAL_KEY, i);
    assert (a + x)[..|a|] == a && (a + y)[..|a|] == a;
    if OccursAt(a + x, TOTAL_KEY, i) {
      var rest := a[i + |TOTAL_KEY|..];
      assert (a + x)[i + |TOTAL_KEY|..] == rest + x && (a + y)[i + |TOTAL_KEY|..] == rest + y;
      NumberWithin(rest, x);
      NumberWithin(rest, y);
    }
  }

  /** A number is read without looking behind a character that ends it. */
  lemma NumberWithin(rest: Text, x: Text)
    requires rest != [] && rest[|rest| - 1] == 0x3E
    ensures NumberAfter(rest + x) == NumberAfter(rest)
  {
    hide TrimStart, DigitRun;
    TrimStartKeepsEnd(rest);
    TrimStartOfConcat(rest, x);
    var body := TrimStart(rest);
    DigitRunOfConcat(body, x);
    assert (body + x)[..DigitRun(body)] == body[..DigitRun(body)];
  }

  predicate HasNo(t: Text, u: Unit) { forall i :: 0 <= i < |t| ==> t[i] != u }

  const LETTER_T: Unit := 0x54

  lemma StatusPartsHaveNoT()
    ensures HasNo(STATUS_FILE, LETTER_T) && HasNo(STATUS_TOTAL, LETTER_T)
    ensures |TOTAL_KEY| == 19 && TOTAL_KEY[2] == LETTER_T
  {
    PlainHasNo("- **Active File**: `", 'T');
    PlainHasNo("`\n- ", 'T');
  }

  lemma PlainHasNo(s: string, c: char)
    requires c !in s && (c as int) < 0x80 && forall d :: d in s ==> (d as int) < 0x80
    ensures HasNo(Ascii(s), c as int)
  {
    forall i | 0 <= i < |s|
      ensures Ascii(s)[i] != c as int
    {
      assert s[i] in s;
    }
  }

  lemma KeyNeedsT(t: Text, i: nat)
    requires OccursAt(t, TOTAL_KEY, i)
    ensures i + 2 < |t| && t[i + 2] == LETTER_T
  {
    StatusPartsHaveNoT();
    assert t[i..i + |TOTAL_KEY|][2] == t[i + 2];
  }

  /** The number that follows the key. */
  lemma TotalAtNumber(front: Text, number: nat, rest: Text)
    requires rest != [] && !IsDigit(rest[0])
    ensures TotalAt(front + (TOTAL_KEY + [SPACE] + Digits(number)) + rest, |front|) == Some(number)
  {
    hide Digits;
    var t := front + (TOTAL_KEY + [SPACE] + Digits(number)) + rest;
    assert t[|front|..|front| + |TOTAL_KEY|] == TOTAL_KEY;
    var tail := [SPACE] + (Digits(number) + rest);
    assert t[|front| + |TOTAL_KEY|..] == tail;
    assert tail[1..] == Digits(number) + rest;
    NumberOfDigits(number);
    DigitRunIs(Digits(number), rest);
    DigitIsNoSpace(Digits(number)[0]);
    assert TrimStart(Digits(number) + rest) == Digits(number) + rest;
    assert TrimStart(tail) == Digits(number) + rest;
  }

  lemma DigitIsNoSpace(u: Unit)
    requires IsDigit(u)
    ensures !IsSpace(u)
  {
  }

  /** A text in which the status section has just been written behind `a`. */
  function StatusText(a: Text, name: Text, number: nat, rest: Text): Text
  {
    a + (LF + (STATUS_FILE + name + STATUS_TOTAL) + (TOTAL_KEY + [SPACE] + Digits(number)) + rest)
  }

  lemma NoTotalBefore(a: Text, name: Text, number: nat, rest: Text, i: nat)
    requires HasNo(name, LETTER_T) && |a| <= i < |a| + |LF + (STATUS_FILE + name + STATUS_TOTAL)|
    ensures TotalAt(StatusText(a, name, number, rest), i).None?
  {
    hide Digits, HasNo, OccursAt, TotalAt;
    var t := StatusText(a, name, number, rest);
    MiddleHasNoT(name);
    NoKeyInMiddle(a, LF + (STATUS_FILE + name + STATUS_TOTAL), TOTAL_KEY + [SPACE] + Digits(number), rest, i);
    NoKeyNoTotal(t, i);
  }

  lemma NoKeyNoTotal(t: Text, i: nat)
    requires i + 2 < |t| && t[i + 2] != LETTER_T
    ensures TotalAt(t, i).None?
  {
    hide OccursAt;
    if OccursAt(t, TOTAL_KEY, i) {
      KeyNeedsT(t, i);
    }
  }

  /** The first total in a text whose status section was just written. */
  lemma TotalOfStatus(a: Text, name: Text, number: nat, rest: Text)
    requires HasNo(name, LETTER_T) && rest != [] && !IsDigit(rest[0])
    requires forall i :: 0 <= i < |a| ==> TotalAt(StatusText(a, name, number, rest), i).None?
    ensures Total(StatusText(a, name, number, rest)) == number
  {
    hide Digits, HasNo, OccursAt, TotalAt;
    var middle := LF + (STATUS_FILE + name + STATUS_TOTAL);
    var t := StatusText(a, name, number, rest);
    var front := a + middle;
    assert t == front + (TOTAL_KEY + [SPACE] + Digits(number)) + rest;
    TotalAtNumber(front, number, rest);
    forall i | |a| <= i < |front|
      ensures TotalAt(t, i).None?
    {
      NoTotalBefore(a, name, number, rest, i);
    }
    TotalFromIs(t, 0, |front|);
  }

  lemma MiddleHasNoT(name: Text)
    requires HasNo(name, LETTER_T)
    ensures HasNo(LF + (STATUS_FILE + name + STATUS_TOTAL), LETTER_T)
  {
    StatusPartsHaveNoT();
  }

  lemma NoKeyInMiddle(a: Text, middle: Text, key: Text, rest: Text, i: nat)
    requires HasNo(middle, LETTER_T) && |key| > 2 && key[0] != LETTER_T && key[1] != LETTER_T
    requires |a| <= i < |a| + |middle|
    ensures var t := a + (middle + key + rest); i + 2 < |t| && t[i + 2] != LETTER_T
  {
    var t := a + (middle + key + rest);
    var k := i + 2 - |a|;
    if k < |middle| {
      assert t[i + 2] == middle[k];
    } else {
      assert t[i + 2] == key[k - |middle|];
    }
  }

  /** The layout `initializeDeveloper` writes: the status comes first. */
  predicate StatusFirst(index: Text)
  {
    Precedes(index, STATUS, DOCUMENTS) && Precedes(index, STATUS, HISTORY)
  }

  /** Digits and dashes, as `localDate` gives them. */
  predicate IsDate(today: Text)
  {
    today != [] && forall i :: 0 <= i < |today| ==> IsDigit(today[i]) || today[i] == 0x2D
  }

  lemma KeptBefore(t: Text, m: Text, body: Text, n: nat)
    requires SpanOf(t, m).Some? && n <= SpanOf(t, m).value.begin
    ensures n <= |t| && Replace(t, m, body).Some? && n <= |Replace(t, m, body).value|
    ensures Replace(t, m, body).value[..n] == t[..n]
  {
    hide SpanOf, Framed;
    SpanFits(t, m);
    ReplaceIsAround(t, m, body);
  }

  lemma StatusBodyIsTrimmed(name: Text, number: nat, today: Text)
    requires IsDate(today)
    ensures TrimEnd(StatusBody(name, number, today)) == StatusBody(name, number, today)
  {
    hide Digits;
    var last := today[|today| - 1];
    assert !IsSpace(last);
    var body := StatusBody(name, number, today);
    assert body[|body| - 1] == last;
  }

  /** The index between the first and the second replacement. */
  lemma StatusWritten(index: Text, name: Text, number: nat, today: Text)
    requires SpanOf(index, STATUS).Some? && IsDate(today)
    ensures var s := SpanOf(index, STATUS).value;
      && s.begin <= s.finish <= |index|
      && Replace(index, STATUS, StatusBody(name, number, today))
         == Some(StatusText(index[..s.begin], name, number, STATUS_DATE + today + LF + index[s.finish..]))
  {
    hide SpanOf, Digits, TrimEnd, Framed, Replace;
    var s, body := SpanOf(index, STATUS).value, StatusBody(name, number, today);
    SpanFits(index, STATUS);
    StatusBodyIsTrimmed(name, number, today);
    ReplaceIsAround(index, STATUS, body);
    Regroup(index[..s.begin], LF, STATUS_FILE + name + STATUS_TOTAL, TOTAL_KEY + [SPACE] + Digits(number),
            STATUS_DATE, today, index[s.finish..]);
  }

  lemma Regroup(a: Text, lf: Text, front: Text, key: Text, date: Text, today: Text, c: Text)
    ensures a + (lf + (front + key + date + today) + lf) + c == a + (lf + front + key + (date + today + lf + c))
  {
    assert lf + (front + key + date + today) + lf + c == lf + front + key + (date + today + lf + c);
    ConcatAssociates(a, lf + (front + key + date + today) + lf, c);
  }

  lemma MarkerEnds(index: Text, m: Text)
    requires SpanOf(index, m).Some?
    ensures var b := SpanOf(index, m).value.begin; 0 < b <= |index| && index[b - 1] == 0x3E
  {
    hide SpanOf;
    SpanFits(index, m);
    var b, open := SpanOf(index, m).value.begin, Open(m);
    TailEnds(m);
    assert index[b - |open|..b][|open| - 1] == index[b - 1];
  }

  lemma TailEnds(m: Text)
    ensures Open(m) != [] && Open(m)[|Open(m)| - 1] == 0x3E && Open(m)[0] == ANGLE && Close(m) != [] && Close(m)[0] == ANGLE
    ensures Close(m)[|Close(m)| - 1] == 0x3E
  {
  }

  /** A text that agrees with a freshly written status up to its total. */
  lemma TotalOfPrefix(t: Text, a: Text, name: Text, number: nat, n: nat)
    requires HasNo(name, LETTER_T)
    requires n == |a + (LF + (STATUS_FILE + name + STATUS_TOTAL) + (TOTAL_KEY + [SPACE] + Digits(number)))| < |t|
    requires t[..n] == a + (LF + (STATUS_FILE + name + STATUS_TOTAL) + (TOTAL_KEY + [SPACE] + Digits(number)))
    requires !IsDigit(t[n]) && forall i :: 0 <= i < |a| ==> TotalAt(t, i).None?
    ensures Total(t) == number
  {
    hide Digits, HasNo, TotalAt;
    assert t == t[..n] + t[n..];
    assert t == StatusText(a, name, number, t[n..]);
    TotalOfStatus(a, name, number, t[n..]);
  }

  /** The span of the status and everything up to its end survive the rewriting of
      a later section. */
  lemma LaterRewriteKeepsStatus(t: Text, m: Text, body: Text)
    requires IsMarker(STATUS) && Precedes(t, STATUS, m)
    ensures Replace(t, m, body).Some?
    ensures var n, r := SpanOf(t, STATUS).value.finish, Replace(t, m, body).value;
      && SpanOf(r, STATUS) == SpanOf(t, STATUS)
      && SpanOf(t, STATUS).value.begin <= n <= |t| && n <= |r| && r[..n] == t[..n]
  {
    hide SpanOf, Replace;
    SpanFits(t, STATUS);
    SpanFits(t, m);
    EarlierStays(t, m, body, STATUS);
    KeptBefore(t, m, body, SpanOf(t, STATUS).value.finish);
  }

  /** After all three replacements the text is the freshly written status up to
      the end of its section. */
  lemma StatusAfterAll(index: Text, status: Text, b: Text, c: Text)
    requires IsRegular(index) && StatusFirst(index) && MarkerFree(status) && MarkerFree(b) && MarkerFree(c)
    ensures Rewrite(index, status, b, c).Some? && Replace(index, STATUS, status).Some?
    ensures var s, t, u := Replace(index, STATUS, status).value, Rewrite(index, status, b, c).value, SpanOf(index, STATUS).value;
      var n := u.begin + 2 + |TrimEnd(status)|;
      && n <= |s| && n <= |t| && t[..n] == s[..n]
      && SpanOf(t, STATUS) == Some(Span(u.begin, n)) && StatusFirst(t)
  {
    hide SpanOf, Replace, Disjoint, Precedes, MarkerFree, FreeOf, TrimEnd, IsMarker, Section, Framed;
    MarkersAreMarkers();
    MarkerFreeTrims(status);
    MarkerFreeTrims(b);
    MarkerFreeTrims(c);
    StatusFirstFound(index);
    TwoOfThree(index, status, b);
    OneOfThree(index, STATUS, status, DOCUMENTS, HISTORY);
    StatusSpan(index, status);
    var s := Replace(index, STATUS, status).value;
    LaterRewriteKeepsStatus(s, DOCUMENTS, b);
    DocumentsKeepOrder(s, b);
    var d := Replace(s, DOCUMENTS, b).value;
    LaterRewriteKeepsStatus(d, HISTORY, c);
    HistoryKeepsOrder(d, c);
  }

  lemma StatusSpan(index: Text, status: Text)
    requires IsMarker(STATUS) && SpanOf(index, STATUS).Some? && FreeOf(status, STATUS)
    ensures Replace(index, STATUS, status).Some?
    ensures var u := SpanOf(index, STATUS).value;
      SpanOf(Replace(index, STATUS, status).value, STATUS) == Some(Span(u.begin, u.begin + 2 + |TrimEnd(status)|))
  {
    hide SpanOf, Replace, Without, TrimEnd, Section, Framed;
    ReplaceThenFind(index, STATUS, status);
  }

  lemma DocumentsKeepOrder(s: Text, b: Text)
    requires IsMarker(STATUS) && IsMarker(DOCUMENTS) && IsMarker(HISTORY)
    requires StatusFirst(s) && Disjoint(s, DOCUMENTS, HISTORY) && Disjoint(s, DOCUMENTS, STATUS)
    requires FreeOf(b, STATUS) && FreeOf(b, DOCUMENTS) && FreeOf(b, HISTORY)
    ensures Replace(s, DOCUMENTS, b).Some? && StatusFirst(Replace(s, DOCUMENTS, b).value)
  {
    hide SpanOf, Replace, TrimEnd, Section, Framed, Without;
    ReplaceKeepsOther(s, DOCUMENTS, b, STATUS);
    OthersStayDisjoint(s, DOCUMENTS, b, STATUS, HISTORY);
    ReplaceThenFind(s, DOCUMENTS, b);
  }

  lemma HistoryKeepsOrder(d: Text, c: Text)
    requires IsMarker(STATUS) && IsMarker(DOCUMENTS) && IsMarker(HISTORY)
    requires StatusFirst(d) && Disjoint(d, HISTORY, DOCUMENTS) && Disjoint(d, HISTORY, STATUS)
    requires FreeOf(c, STATUS) && FreeOf(c, DOCUMENTS) && FreeOf(c, HISTORY)
    ensures Replace(d, HISTORY, c).Some? && StatusFirst(Replace(d, HISTORY, c).value)
  {
    hide SpanOf, Replace, TrimEnd, Section, Framed, Without;
    ReplaceKeepsOther(d, HISTORY, c, STATUS);
    OthersStayDisjoint(d, HISTORY, c, STATUS, DOCUMENTS);
    ReplaceThenFind(d, HISTORY, c);
  }

  /** The new total counts exactly when nothing before the status section looks
      like a total; otherwise that text is read, before and after. */
  lemma TotalIsWritten(index: Text, name: Text, today: Text, b: Text, c: Text)
    requires var status := StatusBody(name, Total(index) + 1, today);
      IsRegular(index) && StatusFirst(index) && MarkerFree(status) && MarkerFree(b) && MarkerFree(c)
    requires IsDate(today) && HasNo(name, LETTER_T)
    ensures var t := Rewrite(index, StatusBody(name, Total(index) + 1, today), b, c);
      && t.Some? && StatusFirst(t.value)
      && (NoEarlierTotal(index) <==> Total(t.value) == Total(index) + 1)
      && (NoEarlierTotal(index) ==> NoEarlierTotal(t.value))
  {
    hide SpanOf, Replace, Disjoint, Precedes, MarkerFree, TrimEnd, Section, Framed, TotalAt, Digits, HasNo, IsDate, TotalFrom, StatusText, StatusBody;
    var number := Total(index) + 1;
    var status := StatusBody(name, number, today);
    StatusAfterAll(index, status, b, c);
    StatusFirstFound(index);
    var t, u := Rewrite(index, status, b, c).value, SpanOf(index, STATUS).value;
    MarkerEnds(index, STATUS);
    var a := index[..u.begin];
    StatusWritten(index, name, number, today);
    StatusPrefix(t, index, u, name, number, today);
    forall i: nat | i < u.begin
      ensures TotalAt(t, i) == TotalAt(index, i)
    {
      assert index == a + index[u.begin..] && t == a + t[u.begin..];
      TotalWithin(a, index[u.begin..], t[u.begin..], i);
    }
    if NoEarlierTotal(index) {
      TotalOfPrefix(t, a, name, number, StatusLength(a, name, number));
    } else {
      var i: nat :| i < u.begin && TotalAt(index, i).Some?;
      SameTotal(index, t, u.begin, i);
    }
  }

  lemma StatusFirstFound(index: Text)
    requires StatusFirst(index)
    ensures SpanOf(index, STATUS).Some?
  {
  }

  function StatusLength(a: Text, name: Text, number: nat): nat
  {
    |a + (LF + (STATUS_FILE + name + STATUS_TOTAL) + (TOTAL_KEY + [SPACE] + Digits(number)))|
  }

  lemma StatusPrefix(t: Text, index: Text, u: Span, name: Text, number: nat, today: Text)
    requires IsDate(today) && u.begin <= u.finish <= |index|
    requires var s := StatusText(index[..u.begin], name, number, STATUS_DATE + today + LF + index[u.finish..]);
      var n := u.begin + 2 + |TrimEnd(StatusBody(name, number, today))|;
      n <= |s| && n <= |t| && t[..n] == s[..n]
    ensures var a, n := index[..u.begin], StatusLength(index[..u.begin], name, number);
      && u.begin <= n < |t| && t[..u.begin] == a
      && t[..n] == a + (LF + (STATUS_FILE + name + STATUS_TOTAL) + (TOTAL_KEY + [SPACE] + Digits(number)))
      && !IsDigit(t[n])
  {
    hide Digits, TrimEnd, IsDigit;
    StatusBodyIsTrimmed(name, number, today);
    DateBreaks();
    var a := index[..u.begin];
    var front := a + (LF + (STATUS_FILE + name + STATUS_TOTAL) + (TOTAL_KEY + [SPACE] + Digits(number)));
    var rest := STATUS_DATE + today + LF + index[u.finish..];
    var s := StatusText(a, name, number, rest);
    assert s == front + rest;
    PrefixOfPrefix(t, s, u.begin + 2 + |StatusBody(name, number, today)|, |front|);
    assert t[|front|] == rest[0];
    PrefixOfPrefix(t, s, u.begin + 2 + |StatusBody(name, number, today)|, u.begin);
  }

  lemma DateBreaks()
    ensures |STATUS_DATE| > 0 && !IsDigit(STATUS_DATE[0])
  {
  }

  lemma PrefixOfPrefix(t: Text, s: Text, n: nat, k: nat)
    requires k <= n <= |t| && n <= |s| && t[..n] == s[..n]
    ensures t[..k] == s[..k] && (k < n ==> t[k] == s[k])
  {
    assert t[..n][..k] == t[..k] && s[..n][..k] == s[..k];
    assert k < n ==> t[..n][k] == t[k] && s[..n][k] == s[k];
  }

  /** An earlier total is read in both texts. */
  lemma {:induction false} SameTotalFrom(t: Text, s: Text, n: nat, i: nat, from: nat)
    requires from <= i < n <= |t| && n <= |s| && TotalAt(t, i).Some?
    requires forall j: nat :: j < n ==> TotalAt(s, j) == TotalAt(t, j)
    ensures TotalFrom(s, from) == TotalFrom(t, from)
    decreases i - from
  {
    hide TotalAt;
    if TotalAt(t, from).None? {
      SameTotalFrom(t, s, n, i, from + 1);
    }
  }

  lemma SameTotal(t: Text, s: Text, n: nat, i: nat)
    requires i < n <= |t| && n <= |s| && TotalAt(t, i).Some?
    requires forall j: nat :: j < n ==> TotalAt(s, j) == TotalAt(t, j)
    ensures Total(s) == Total(t)
  {
    hide TotalAt;
    SameTotalFrom(t, s, n, i, 0);
  }

  // ---- Bodies without markers ----

  lemma NoAngleNoMarker(t: Text)
    requires HasNo(t, ANGLE)
    ensures MarkerFree(t)
  {
    NoAngleWithout(t, STATUS);
    NoAngleWithout(t, DOCUMENTS);
    NoAngleWithout(t, HISTORY);
  }

  lemma NoAngleWithout(t: Text, m: Text)
    requires HasNo(t, ANGLE)
    ensures Without(t, Open(m)) && Without(t, Close(m))
  {
    hide Open, Close;
    TailEnds(m);
    FirstMissing(t, Open(m));
    FirstMissing(t, Close(m));
  }

  lemma FirstMissing(t: Text, p: Text)
    requires p != [] && HasNo(t, p[0])
    ensures Without(t, p)
  {
    forall i: nat
      ensures !OccursAt(t, p, i)
    {
    }
  }

  lemma AppendWithout(a: Text, c: Text, p: Text)
    requires OneLine(p) && Without(a, p) && Without(c, p)
    ensures Without(a + LF + c, p)
  {
    hide OneLine;
    var t := a + LF + c;
    forall i: nat
      ensures !OccursAt(t, p, i)
    {
      assert t[..|a|] == a && t[|a| + 1..] == c && t[|a|] == NEWLINE;
      if i + |p| <= |a| {
        OccursInPrefix(t, |a|, p, i);
      } else if i > |a| {
        OccursInSuffix(t, |a| + 1, p, i - |a| - 1);
      } else if OccursAt(t, p, i) {
        NoBreakInside(t, p, i, |a|);
      }
    }
  }

  lemma {:induction false} JoinWithout(lines: seq<Text>, p: Text)
    requires OneLine(p) && forall line :: line in lines ==> Without(line, p)
    ensures Without(Join(lines, LF), p)
    decreases |lines|
  {
    hide OneLine, Without;
    if lines == [] {
      NothingWithout(p);
    } else if |lines| > 1 {
      JoinWithout(lines[1..], p);
      AppendWithout(lines[0], Join(lines[1..], LF), p);
    }
  }

  lemma NothingWithout(p: Text)
    requires OneLine(p)
    ensures Without([], p)
  {
  }

  lemma JoinMarkerFree(lines: seq<Text>)
    requires forall line :: line in lines ==> MarkerFree(line)
    ensures MarkerFree(Join(lines, LF))
  {
    hide Without, OneLine, IsMarker;
    MarkersAreMarkers();
    MarkersAreOneLine(STATUS);
    MarkersAreOneLine(DOCUMENTS);
    MarkersAreOneLine(HISTORY);
    JoinWithout(lines, Open(STATUS));
    JoinWithout(lines, Close(STATUS));
    JoinWithout(lines, Open(DOCUMENTS));
    JoinWithout(lines, Close(DOCUMENTS));
    JoinWithout(lines, Open(HISTORY));
    JoinWithout(lines, Close(HISTORY));
  }

  /** A marker ends with a visible character: trimming cannot hide it. */
  lemma WithoutTrimmed(t: Text, p: Text)
    requires p != [] && !IsSpace(p[|p| - 1]) && Without(TrimEnd(t), p)
    ensures Without(t, p)
  {
    var n := |TrimEnd(t)|;
    forall i: nat
      ensures !OccursAt(t, p, i)
    {
      assert OccursAt(t, p, i) ==> t[i..i + |p|][|p| - 1] == t[i + |p| - 1];
      OccursInPrefix(t, n, p, i);
      assert t[..n] == TrimEnd(t);
    }
  }

  lemma MarkerFreeTrimmed(t: Text)
    requires MarkerFree(TrimEnd(t))
    ensures MarkerFree(t)
  {
    hide Without, Open, Close, TrimEnd, IsSpaceCode;
    TailEnds(STATUS);
    TailEnds(DOCUMENTS);
    TailEnds(HISTORY);
    AngleIsNoSpace();
    WithoutTrimmed(t, Open(STATUS));
    WithoutTrimmed(t, Close(STATUS));
    WithoutTrimmed(t, Open(DOCUMENTS));
    WithoutTrimmed(t, Close(DOCUMENTS));
    WithoutTrimmed(t, Open(HISTORY));
    WithoutTrimmed(t, Close(HISTORY));
  }

  lemma AngleIsNoSpace()
    ensures !IsSpace(0x3E)
  {
  }

  lemma HasNoConcat(a: Text, b: Text, u: Unit)
    ensures HasNo(a + b, u) <==> HasNo(a, u) && HasNo(b, u)
  {
    if HasNo(a + b, u) {
      assert forall i :: 0 <= i < |a| ==> a[i] == (a + b)[i];
      assert forall i :: 0 <= i < |b| ==> b[i] == (a + b)[|a| + i];
    }
  }

  lemma NameIsPlain(name: Text)
    requires JournalNumber(name).Some?
    ensures HasNo(name, ANGLE) && HasNo(name, LETTER_T)
  {
    PlainHasNo("journal-", '<');
    PlainHasNo(".md", '<');
    PlainHasNo("journal-", 'T');
    PlainHasNo(".md", 'T');
    var digits := name[|PREFIX|..|name| - |SUFFIX|];
    assert name == PREFIX + digits + SUFFIX;
  }

  lemma StatusPartsHaveNoAngle()
    ensures HasNo(STATUS_FILE, ANGLE) && HasNo(STATUS_TOTAL, ANGLE) && HasNo(TOTAL_KEY, ANGLE) && HasNo(STATUS_DATE, ANGLE)
  {
    PlainHasNo("- **Active File**: `", '<');
    PlainHasNo("`\n- ", '<');
    PlainHasNo("**Total Sessions**:", '<');
    PlainHasNo("\n- **Last Active**: ", '<');
  }

  lemma StatusIsFree(name: Text, number: nat, today: Text)
    requires HasNo(name, ANGLE) && IsDate(today)
    ensures MarkerFree(StatusBody(name, number, today))
  {
    hide MarkerFree, Digits;
    StatusPartsHaveNoAngle();
    var key := TOTAL_KEY + [SPACE] + Digits(number);
    assert HasNo(key, ANGLE);
    assert HasNo(StatusBody(name, number, today), ANGLE);
    NoAngleNoMarker(StatusBody(name, number, today));
  }

  lemma DocumentLineIsFree(f: File, active: Text)
    requires JournalNumber(f.name).Some?
    ensures MarkerFree(DocumentLine(f, active))
  {
    hide MarkerFree, Digits, JournalNumber, LineCount;
    NameIsPlain(f.name);
    PlainHasNo("| `", '<');
    PlainHasNo("` | ~", '<');
    PlainHasNo(" | Active |", '<');
    PlainHasNo(" | Archived |", '<');
    assert HasNo(DocumentLine(f, active), ANGLE);
    NoAngleNoMarker(DocumentLine(f, active));
  }

  lemma {:induction false} DocumentLinesAreFree(files: seq<File>, active: Text)
    requires AreJournals(files)
    ensures forall line :: line in DocumentLines(files, active) ==> MarkerFree(line)
    decreases |files|
  {
    hide MarkerFree, DocumentLine;
    if files != [] {
      assert files[0] in files && forall f :: f in files[1..] ==> f in files;
      DocumentLineIsFree(files[0], active);
      DocumentLinesAreFree(files[1..], active);
    }
  }

  lemma DocumentsHeadIsFree()
    ensures MarkerFree(DOCUMENTS_HEAD[0]) && MarkerFree(DOCUMENTS_HEAD[1])
  {
    hide MarkerFree;
    PlainHasNo("| File | Lines | Status |", '<');
    PlainHasNo("|------|-------|--------|", '<');
    NoAngleNoMarker(DOCUMENTS_HEAD[0]);
    NoAngleNoMarker(DOCUMENTS_HEAD[1]);
  }

  lemma FirstHeadIsFree()
    ensures MarkerFree(HISTORY_HEAD[0])
  {
    hide MarkerFree;
    PlainHasNo("| # | Date | Title | Commits | Branch |", '<');
    NoAngleNoMarker(HISTORY_HEAD[0]);
  }

  lemma SecondHeadIsFree()
    ensures MarkerFree(HISTORY_HEAD[1])
  {
    hide MarkerFree;
    PlainHasNo("|---|------|-------|---------|--------|", '<');
    NoAngleNoMarker(HISTORY_HEAD[1]);
  }

  lemma DocumentsAreFree(files: seq<File>, active: Text)
    requires AreJournals(files)
    ensures MarkerFree(DocumentsBody(files, active))
  {
    hide MarkerFree, DocumentLine, DocumentLines;
    DocumentsHeadIsFree();
    DocumentLinesAreFree(files, active);
    JoinMarkerFree(DOCUMENTS_HEAD + DocumentLines(files, active));
  }

  lemma HistoryIsFree(row: Text, rows: seq<Text>)
    requires MarkerFree(row) && forall r :: r in rows ==> MarkerFree(r)
    ensures MarkerFree(HistoryBody(row, rows))
  {
    hide MarkerFree;
    FirstHeadIsFree();
    SecondHeadIsFree();
    JoinMarkerFree(HISTORY_HEAD + ([row] + rows));
  }

  // ---- Rows ----

  lemma RowIsRow(number: nat, s: Session, commits: Text)
    ensures IsRow(Row(number, s, commits)) && TrimEnd(Row(number, s, commits)) == Row(number, s, commits)
  {
    hide Digits, IsRow, IsRowBody, TrimStart, TrimEnd, IsSpaceCode;
    var rest := s.today + ROW_BREAK + s.title + ROW_BREAK + commits + Ascii(" | `")
                + (if s.branch == [] then Ascii("-") else s.branch) + Ascii("` |");
    RowEnds(s, commits);
    RowSplits(Digits(number), rest);
    RowHeadIsRow(Digits(number), ROW_BREAK + rest);
    RowIsBody(Row(number, s, commits));
    EndsVisibly(Row(number, s, commits));
  }

  lemma RowEnds(s: Session, commits: Text)
    ensures var rest := s.today + ROW_BREAK + s.title + ROW_BREAK + commits + Ascii(" | `")
                        + (if s.branch == [] then Ascii("-") else s.branch) + Ascii("` |");
      rest[|rest| - 1] == PIPE
  {
    var last := Ascii("` |");
    assert last[2] == PIPE;
  }

  lemma RowSplits(digits: Text, rest: Text)
    requires rest != []
    ensures var row := [PIPE, SPACE] + digits + ROW_BREAK + rest;
      row[0] == PIPE && row[1..] == [SPACE] + (digits + (ROW_BREAK + rest)) && row[|row| - 1] == rest[|rest| - 1]
  {
  }

  lemma EndsVisibly(row: Text)
    requires row != [] && row[|row| - 1] == PIPE
    ensures TrimEnd(row) == row
  {
  }

  lemma RowHeadIsRow(digits: Text, tail: Text)
    requires digits != [] && AllDigits(digits) && |tail| > 1 && tail[0] == SPACE && tail[1] == PIPE
    ensures IsRowBody(TrimStart([SPACE] + (digits + tail)))
  {
    var t := [SPACE] + (digits + tail);
    assert t[1..] == digits + tail;
    DigitIsNoSpace(digits[0]);
    assert TrimStart(digits + tail) == digits + tail;
    assert TrimStart(t) == digits + tail;
    DigitRunIs(digits, tail);
    assert tail[1..][0] == PIPE;
    assert TrimStart(tail[1..]) == tail[1..];
    assert TrimStart(tail) == tail[1..];
  }

  // ---- The directory ----

  lemma StoreKeepsJournals(files: seq<File>, developer: Text, entry: Text, maxLines: nat, today: Text, slot: nat, w: Written)
    requires AreJournals(files) && DistinctNames(files) && files != []
    requires Choose(files, developer, entry, maxLines, today) == Some(w)
    ensures var stored := Store(files, w, slot);
      stored != [] && AreJournals(stored) && DistinctNames(stored) && JournalNumber(w.name).Some?
  {
    hide JournalNumber, LineCount, Header, Sorted, JournalName;
    if w.rotated {
      NameNumber(Number(Newest(files)) + 1);
      forall f | f in files
        ensures f.name != w.name
      {
        RotatedNameIsFresh(files, developer, entry, maxLines, today, f);
      }
      var i := if slot <= |files| then slot else |files|;
      InsertedAnywhere(files[..i], File(w.name, w.text), files[i..]);
      assert files == files[..i] + files[i..];
    } else {
      NewestIsOne(files);
      OverwriteKeepsNames(files, w);
    }
  }

  lemma NewestIsOne(files: seq<File>)
    requires files != []
    ensures Newest(files) in files
  {
    hide Sorted;
    SortedHasAll(files);
    assert Newest(files) in multiset(Sorted(files));
  }

  lemma OverwriteKeepsNames(files: seq<File>, w: Written)
    requires AreJournals(files) && DistinctNames(files)
    ensures AreJournals(OverwriteAll(files, w)) && DistinctNames(OverwriteAll(files, w))
  {
    hide JournalNumber;
    var r := OverwriteAll(files, w);
    assert forall i :: 0 <= i < |files| ==> r[i].name == files[i].name && files[i] in files;
  }

  lemma InsertedAnywhere(a: seq<File>, f: File, b: seq<File>)
    requires DistinctNames(a + b) && AreJournals(a + b) && JournalNumber(f.name).Some?
    requires forall g :: g in a + b ==> g.name != f.name
    ensures DistinctNames(a + [f] + b) && AreJournals(a + [f] + b)
  {
    hide JournalNumber;
    var s, t, n := a + b, a + [f] + b, |a|;
    forall i, j | 0 <= i < j < |t|
      ensures t[i].name != t[j].name
    {
      assert i != n ==> t[i] == s[if i < n then i else i - 1];
      assert j != n ==> t[j] == s[if j < n then j else j - 1];
    }
    forall g | g in t
      ensures JournalNumber(g.name).Some?
    {
      assert g == f || g in s;
    }
  }

  lemma SortedAreJournals(files: seq<File>)
    requires AreJournals(files)
    ensures AreJournals(Sorted(files))
  {
    hide JournalNumber, Sorted;
    SortedHasAll(files);
    forall f | f in Sorted(files)
      ensures f in files
    {
      assert f in multiset(files);
    }
  }

  // ---- A run of sessions ----

  /** A workspace as `initializeDeveloper` and earlier sessions leave it. */
  ghost predicate IsReady(ws: Workspace)
  {
    && IsRegular(ws.index) && StatusFirst(ws.index) && NoEarlierTotal(ws.index)
    && ws.files != [] && AreJournals(ws.files) && DistinctNames(ws.files)
    && forall row :: row in Rows(ws.index) ==> MarkerFree(row)
  }

  /** The texts of a call make a row of the table: no line break, no marker. */
  ghost predicate IsGood(c: Call)
  {
    IsDate(c.session.today)
    && forall n: nat :: IsLine(Row(n, c.session, c.commits)) && MarkerFree(Row(n, c.session, c.commits))
  }

  lemma RowsOfIndex(index: Text)
    ensures AreLines(Rows(index)) && forall row :: row in Rows(index) ==> IsRow(row)
  {
    hide SplitLines, Section, IsRow, IsLine;
    var section := Section(index, HISTORY).GetOr([]);
    SplitLinesAreLines(section);
    RowsAreRows(SplitLines(section));
  }

  /** What one call writes into the index. */
  lemma AddSessionWrites(ws: Workspace, c: Call, w: Written)
    requires ws.files != []
    requires Choose(ws.files, c.developer, Entry(Total(ws.index) + 1, c.session), c.maxLines, c.session.today) == Some(w)
    ensures var number, stored := Total(ws.index) + 1, Store(ws.files, w, c.slot);
      var index := Rewrite(ws.index, StatusBody(w.name, number, c.session.today), DocumentsBody(Sorted(stored), w.name),
                           HistoryBody(Row(number, c.session, c.commits), Rows(ws.index)));
      AddSession(ws, c) == if index.Some? then Some(Workspace(index.value, stored)) else None
  {
    hide Replace, Choose, Store, StatusBody, DocumentsBody, HistoryBody, Row, Rows, Entry, TotalFrom;
  }

  /** The index after one session. */
  lemma IndexStep(index: Text, name: Text, documents: Text, c: Call)
    requires IsRegular(index) && StatusFirst(index) && NoEarlierTotal(index) && IsGood(c)
    requires (forall row :: row in Rows(index) ==> MarkerFree(row)) && MarkerFree(documents)
    requires HasNo(name, ANGLE) && HasNo(name, LETTER_T)
    ensures var number := Total(index) + 1;
      var row := Row(number, c.session, c.commits);
      var t := Rewrite(index, StatusBody(name, number, c.session.today), documents, HistoryBody(row, Rows(index)));
      && t.Some? && IsRegular(t.value) && StatusFirst(t.value) && NoEarlierTotal(t.value) && Total(t.value) == number
      && TrimAll(Rows(t.value)) == [row] + TrimAll(Rows(index))
      && forall r :: r in Rows(t.value) ==> MarkerFree(r)
  {
    hide StatusBody, HistoryBody, Row, Rows, TotalFrom, Rewrite, IsRegular, StatusFirst, NoEarlierTotal, MarkerFree,
      IsRow, IsLine, IsDate, HasNo, TrimEnd;
    var number := Total(index) + 1;
    var row := Row(number, c.session, c.commits);
    RowIsRow(number, c.session, c.commits);
    assert IsLine(row) && MarkerFree(row);
    RowsOfIndex(index);
    var status, history := StatusBody(name, number, c.session.today), HistoryBody(row, Rows(index));
    StatusIsFree(name, number, c.session.today);
    HistoryIsFree(row, Rows(index));
    RewriteReadsBack(index, status, documents, history);
    TotalIsWritten(index, name, c.session.today, documents, history);
    HistoryReadsBack(row, Rows(index));
    var t := Rewrite(index, status, documents, history).value;
    RowsOfSection(t, history);
    RowsStayFree(Rows(t), row, Rows(index));
  }

  /** One session: the total goes up by one, the new row stands above all old ones,
      the index stays as it must be and no journal text is lost. */
  lemma SessionStep(ws: Workspace, c: Call)
    requires IsReady(ws) && IsGood(c)
    ensures AddSession(ws, c).Some?
    ensures var ws', number := AddSession(ws, c).value, Total(ws.index) + 1;
      && IsReady(ws') && Total(ws'.index) == number
      && TrimAll(Rows(ws'.index)) == [Row(number, c.session, c.commits)] + TrimAll(Rows(ws.index))
      && AllText(Sorted(ws.files)) <= AllText(Sorted(ws'.files))
  {
    hide Choose, Store, StatusBody, DocumentsBody, HistoryBody, Row, Rows, Entry, TotalFrom, AllText, Sorted, Rewrite,
      IsRegular, StatusFirst, NoEarlierTotal, AreJournals, DistinctNames, MarkerFree, IsGood, HasNo, JournalNumber,
      TrimAll, AddSession;
    var entry := Entry(Total(ws.index) + 1, c.session);
    ChooseSome(ws.files, c.developer, entry, c.maxLines, c.session.today);
    var w := Choose(ws.files, c.developer, entry, c.maxLines, c.session.today).value;
    AddSessionWrites(ws, c, w);
    StoreKeepsJournals(ws.files, c.developer, entry, c.maxLines, c.session.today, c.slot, w);
    var stored := Store(ws.files, w, c.slot);
    SortedAreJournals(stored);
    NameIsPlain(w.name);
    DocumentsAreFree(Sorted(stored), w.name);
    IndexStep(ws.index, w.name, DocumentsBody(Sorted(stored), w.name), c);
    NothingIsLost(ws.files, c.developer, entry, c.maxLines, c.session.today, c.slot, w);
  }

  lemma ChooseSome(files: seq<File>, developer: Text, entry: Text, maxLines: nat, today: Text)
    requires files != []
    ensures Choose(files, developer, entry, maxLines, today).Some?
  {
    hide LineCount, Header, Newest;
  }

  lemma RowsOfSection(index: Text, body: Text)
    requires Section(index, HISTORY) == Some(Framed(body))
    ensures Rows(index) == RowsIn(SplitLines(Framed(body)))
  {
    hide Section, RowsIn, SplitLines;
  }

  lemma RowsStayFree(rows: seq<Text>, row: Text, earlier: seq<Text>)
    requires TrimAll(rows) == [TrimEnd(row)] + TrimAll(earlier) && MarkerFree(row)
    requires forall r :: r in earlier ==> MarkerFree(r)
    ensures forall r :: r in rows ==> MarkerFree(r)
  {
    hide MarkerFree, TrimEnd;
    forall r | r in rows
      ensures MarkerFree(r)
    {
      TrimAllHas(rows, r);
      TrimAllFrom([row] + earlier, TrimEnd(r));
      TrimAllHead(row, earlier);
      var o :| o in [row] + earlier && TrimEnd(o) == TrimEnd(r);
      FreeTrims(o);
      MarkerFreeTrimmed(r);
    }
  }

  lemma {:induction false} TrimAllHas(rows: seq<Text>, r: Text)
    requires r in rows
    ensures TrimEnd(r) in TrimAll(rows)
    decreases |rows|
  {
    hide TrimEnd;
    if rows[0] != r {
      TrimAllHas(rows[1..], r);
    }
  }

  lemma {:induction false} TrimAllFrom(rows: seq<Text>, t: Text)
    requires t in TrimAll(rows)
    ensures exists o :: o in rows && TrimEnd(o) == t
    decreases |rows|
  {
    hide TrimEnd;
    if TrimEnd(rows[0]) == t {
      assert rows[0] in rows;
    } else {
      TrimAllFrom(rows[1..], t);
      var o :| o in rows[1..] && TrimEnd(o) == t;
      assert o in rows;
    }
  }

  lemma FreeTrims(t: Text)
    requires MarkerFree(t)
    ensures MarkerFree(TrimEnd(t))
  {
    hide MarkerFree;
    MarkerFreeTrims(t);
    TrimsFree(t);
  }

  lemma TrimsFree(t: Text)
    requires FreeOf(t, STATUS) && FreeOf(t, DOCUMENTS) && FreeOf(t, HISTORY)
    ensures MarkerFree(TrimEnd(t))
  {
    hide Without, TrimEnd;
  }

  function AddSessions(ws: Workspace, calls: seq<Call>): Option<Workspace>
    decreases |calls|
  {
    if calls == [] then Some(ws)
    else
      var next :- AddSession(ws, calls[0]);
      AddSessions(next, calls[1..])
  }

  /** The rows of a run of sessions, the newest first. */
  function NewRows(total: nat, calls: seq<Call>): seq<Text>
    decreases |calls|
  {
    if calls == [] then []
    else NewRows(total + 1, calls[1..]) + [Row(total + 1, calls[0].session, calls[0].commits)]
  }

  /** After any number of sessions the total has grown by exactly that number, the
      history shows exactly their rows, newest first, above all old ones, and the
      journals still hold all they held before. */
  lemma {:induction false} SessionsAddUp(ws: Workspace, calls: seq<Call>)
    requires IsReady(ws) && forall i :: 0 <= i < |calls| ==> IsGood(calls[i])
    ensures AddSessions(ws, calls).Some?
    ensures var ws' := AddSessions(ws, calls).value;
      && IsReady(ws') && Total(ws'.index) == Total(ws.index) + |calls|
      && TrimAll(Rows(ws'.index)) == NewRows(Total(ws.index), calls) + TrimAll(Rows(ws.index))
      && AllText(Sorted(ws.files)) <= AllText(Sorted(ws'.files))
    decreases |calls|
  {
    hide IsReady, IsGood, AddSession, Row, Rows, TrimAll, AllText, Sorted, TotalFrom;
    if calls == [] {
      assert [] + TrimAll(Rows(ws.index)) == TrimAll(Rows(ws.index));
    } else {
      SessionStep(ws, calls[0]);
      var next := AddSession(ws, calls[0]).value;
      SessionsAddUp(next, calls[1..]);
      ConcatAssociates(NewRows(Total(next.index), calls[1..]),
                       [Row(Total(next.index), calls[0].session, calls[0].commits)], TrimAll(Rows(ws.index)));
      PrefixTrans(AllText(Sorted(ws.files)), AllText(Sorted(next.files)), AllText(Sorted(AddSessions(ws, calls).value.files)));
    }
  }

  lemma PrefixTrans(a: Text, b: Text, c: Text)
    requires a <= b <= c
    ensures a <= c
  {
  }
}
