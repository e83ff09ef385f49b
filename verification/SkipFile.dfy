/** `removeUpdateSkipPathsFromConfig` as a program, and the file text around the
    lines it works on. */
module SkipFile {
  import opened JsText
  import opened Lines
  import opened Options
  import opened SkipConfig
  import opened SkipEditor

  // ---- The program ----

  lemma DroppedOne(p: Text, drop: set<Text>)
    ensures Dropped([p], drop) == (if p in drop then [p] else [])
    ensures Without([p], drop) == (if p in drop then [] else [p])
  {
    assert [p] == [p] + [];
  }

  lemma NothingDropped(drop: set<Text>)
    ensures Dropped([], drop) == [] && Without([], drop) == []
  {
  }

  /** What one more line means for all that the first loop keeps track of. */
  lemma ScanStep(lines: seq<Text>, i: nat, drop: set<Text>)
    requires i < |lines|
    ensures var before, now, mode, line := lines[..i], lines[..i + 1], ModeAfter(lines[..i], Outside), lines[i];
      && ModeAfter(now, Outside) == Next(mode, line)
      && KeepItems(now, drop, Outside) == KeepItems(before, drop, Outside) + [!IsDropped(mode, line, drop)]
      && LastUpdate(now) == (if IsUpdate(line) then i else LastUpdate(before))
      && LastSkip(now) == (if Recognises(mode, line) then i else LastSkip(before))
      && Without(Read(now, Outside), drop)
         == Without(Read(before, Outside), drop)
            + (if Collects(mode, line) && !IsDropped(mode, line, drop) then [ItemOf(line).value] else [])
      && Dropped(Read(now, Outside), drop)
         == Dropped(Read(before, Outside), drop) + (if IsDropped(mode, line, drop) then [ItemOf(line).value] else [])
  {
    hide Next, IsUpdate, IsSkip, ItemOf, Recognises, Without, Dropped, ModeAfter;
    var before, mode, line := lines[..i], ModeAfter(lines[..i], Outside), lines[i];
    assert lines[..i + 1] == before + [line];
    assert lines[..i + 1][..i] == before;
    ReadConcat(before, [line], Outside);
    OneLine(line, mode);
    ModeOfPrefix(lines, i);
    KeepItemsConcat(before, [line], drop, Outside);
    assert KeepItems([line], drop, mode) == [!IsDropped(mode, line, drop)] + KeepItems([line][1..], drop, Next(mode, line));
    LastSkipOfPrefix(lines, i);
    WithoutConcat(Read(before, Outside), Entry(mode, line), drop);
    DroppedConcat(Read(before, Outside), Entry(mode, line), drop);
    NothingDropped(drop);
    if Collects(mode, line) {
      DroppedOne(ItemOf(line).value, drop);
    }
  }

  /** The first loop: marks items in `keep` and remembers the headers. */
  method MarkItems(lines: seq<Text>, drop: set<Text>, keep: array<bool>)
      returns (updateLine: int, skipLine: int, remaining: seq<Text>, removed: seq<Text>)
    requires keep.Length == |lines| && forall i :: 0 <= i < |lines| ==> keep[i]
    modifies keep
    ensures keep[..] == KeepItems(lines, drop, Outside)
    ensures updateLine == LastUpdate(lines) && skipLine == LastSkip(lines)
    ensures remaining == Without(Read(lines, Outside), drop) && removed == Dropped(Read(lines, Outside), drop)
  {
    hide IsUpdate, IsSkip, IsQuiet, ItemOf, Without, Dropped, Read, KeepItems, LastUpdate, LastSkip, ModeAfter, StartsWithSpace;
    var inUpdate, inSkip := false, false;
    updateLine, skipLine, remaining, removed := -1, -1, [], [];
    EmptyScan(lines, drop);
    for i := 0 to |lines|
      invariant inSkip ==> inUpdate
      invariant ModeOf(inUpdate, inSkip) == ModeAfter(lines[..i], Outside)
      invariant keep[..i] == KeepItems(lines[..i], drop, Outside)
      invariant forall k :: i <= k < |lines| ==> keep[k]
      invariant updateLine == LastUpdate(lines[..i]) && skipLine == LastSkip(lines[..i])
      invariant remaining == Without(Read(lines[..i], Outside), drop)
      invariant removed == Dropped(Read(lines[..i], Outside), drop)
    {
      var line := lines[i];
      ScanStep(lines, i, drop);
      LineKinds(line);
      assert keep[..i + 1] == keep[..i] + [keep[i]];
      if IsUpdate(line) {
        inUpdate, inSkip, updateLine := true, false, i;
        continue;
      }
      if inUpdate && IsSkip(line) {
        inSkip, skipLine := true, i;
        continue;
      }
      if inSkip {
        var item := ItemOf(line);
        if item.Some? {
          if item.value in drop {
            keep[i] := false;
            removed := removed + [item.value];
            assert keep[..i + 1] == keep[..i] + [false];
          } else {
            remaining := remaining + [item.value];
          }
          continue;
        }
        if !IsQuiet(line) {
          inSkip, inUpdate := false, false;
        }
      }
      if inUpdate && !IsQuiet(line) && !StartsWithSpace(line) {
        inUpdate, inSkip := false, false;
      }
    }
    assert lines[..|lines|] == lines && keep[..|lines|] == keep[..];
  }

  lemma EmptyScan(lines: seq<Text>, drop: set<Text>)
    ensures ModeAfter(lines[..0], Outside) == Outside && KeepItems(lines[..0], drop, Outside) == []
    ensures LastUpdate(lines[..0]) == -1 && LastSkip(lines[..0]) == -1
    ensures Without(Read(lines[..0], Outside), drop) == [] && Dropped(Read(lines[..0], Outside), drop) == []
  {
  }

  /** The second loop: is there another key behind the `update:` line? */
  method FindOtherKey(lines: seq<Text>, keep: array<bool>, start: nat) returns (found: bool)
    requires keep.Length == |lines| && start <= |lines|
    ensures found == HasOtherKey(lines[start..], keep[start..])
  {
    hide IsUpdate, IsSkip;
    for i := start to |lines|
      invariant HasOtherKey(lines[start..], keep[start..]) == HasOtherKey(lines[i..], keep[i..])
    {
      assert lines[i..][1..] == lines[i + 1..] && keep[i..][1..] == keep[i + 1..];
      if !keep[i] || IsQuiet(lines[i]) {
        continue;
      }
      NotQuietIsSomething(lines[i]);
      if lines[i][0] != SPACE && lines[i][0] != TAB {
        return false;
      }
      if !IsSkip(lines[i]) {
        return true;
      }
    }
    return false;
  }

  lemma {:induction false} KeptConcat(a: seq<Text>, b: seq<Text>, ka: seq<bool>, kb: seq<bool>)
    requires |ka| == |a| && |kb| == |b|
    ensures Kept(a + b, ka + kb) == Kept(a, ka) + Kept(b, kb)
    decreases |a|
  {
    if a == [] {
      assert a + b == b && ka + kb == kb;
    } else {
      assert (a + b)[1..] == a[1..] + b && (ka + kb)[1..] == ka[1..] + kb;
      KeptConcat(a[1..], b, ka[1..], kb);
    }
  }

  method FilterLines(lines: seq<Text>, keep: array<bool>) returns (kept: seq<Text>)
    requires keep.Length == |lines|
    ensures kept == Kept(lines, keep[..])
  {
    kept := [];
    for i := 0 to |lines|
      invariant kept == Kept(lines[..i], keep[..i])
    {
      assert lines[..i + 1] == lines[..i] + [lines[i]] && keep[..i + 1] == keep[..i] + [keep[i]];
      KeptConcat(lines[..i], [lines[i]], keep[..i], [keep[i]]);
      KeptOne(lines[i], keep[i]);
      if keep[i] {
        kept := kept + [lines[i]];
      }
    }
    assert lines[..|lines|] == lines && keep[..|lines|] == keep[..];
  }

  lemma KeptOne(line: Text, k: bool)
    ensures Kept([line], [k]) == if k then [line] else []
  {
    assert [line] + [] == [line];
  }

  /** The editor on the lines of the file. */
  method RemoveUpdateSkipPaths(lines: seq<Text>, drop: set<Text>) returns (kept: seq<Text>, removed: seq<Text>)
    ensures removed == Dropped(Read(lines, Outside), drop)
    ensures kept == Edited(lines, drop)
  {
    hide KeepItems, Read, Without, Dropped, HasOtherKey, Kept, LastUpdate, LastSkip;
    var keep := new bool[|lines|](_ => true);
    var updateLine, skipLine, remaining;
    updateLine, skipLine, remaining, removed := MarkItems(lines, drop, keep);
    if removed == [] {
      KeepAllReadsAll(lines);
      return lines, removed;
    }
    if remaining == [] && skipLine >= 0 {
      keep[skipLine] := false;
    }
    assert keep[..] == KeepWithoutHeader(lines, drop);
    ghost var marked := keep[..];
    if updateLine >= 0 && remaining == [] {
      var hasOtherKey := FindOtherKey(lines, keep, updateLine + 1);
      assert keep[updateLine + 1..] == marked[updateLine + 1..];
      if !hasOtherKey {
        keep[updateLine] := false;
        assert keep[..] == marked[updateLine := false];
      }
    }
    assert keep[..] == Keeps(lines, drop);
    kept := FilterLines(lines, keep);
  }

  // ---- The text of the file ----

  predicate UsesCrLf(text: Text) { exists i :: 0 <= i < |text| - 1 && text[i] == RETURN && text[i + 1] == NEWLINE }

  predicate EndsLine(text: Text) { text != [] && text[|text| - 1] == NEWLINE }

  /** The skip list of a file. */
  function ReadFile(text: Text): seq<Text> { Read(Split(text), Outside) }

  /** The file after `removeUpdateSkipPathsFromConfig`. */
  function EditFile(text: Text, drop: set<Text>): Text
  {
    var lines := SplitLines(text);
    if Dropped(Read(lines, Outside), drop) == [] then text
    else
      var nl := if UsesCrLf(text) then CRLF else LF;
      var content := Join(Edited(lines, drop), nl);
      if EndsLine(text) && !EndsLine(content) then content + nl else content
  }

  // ---- Line ends do not matter to the reader ----

  /** A line is read by what is left of it without white space at its end. */
  lemma LineByItsText(mode: Mode, line: Text)
    ensures Next(mode, line) == Next(mode, TrimEnd(line)) && Entry(mode, line) == Entry(mode, TrimEnd(line))
  {
    var t := TrimEnd(line);
    TrimOfTrimEnd(line);
    hide Trim, TrimEnd, TrimStart, StripQuotes, IsLineTerminator;
    if t == [] {
      BlankIsQuiet(line);
      BlankIsQuiet(t);
    } else {
      assert t[0] == line[0] by { TrimEndHead(line); }
      assert ItemOf(line) == ItemOf(t);
    }
  }

  lemma TrimEndHead(line: Text)
    requires TrimEnd(line) != []
    ensures line != [] && TrimEnd(line)[0] == line[0]
  {
  }

  lemma BlankIsQuiet(line: Text)
    requires TrimEnd(line) == []
    ensures IsQuiet(line) && !IsUpdate(line) && !IsSkip(line) && !IsItem(line)
  {
    hide ItemOf;
    assert UPDATE_KEY != [];
    LineKinds(line);
  }

  lemma {:induction false} SimilarReads(a: seq<Text>, b: seq<Text>, mode: Mode)
    requires Similar(a, b)
    ensures Read(a, mode) == Read(b, mode)
    decreases |a|
  {
    hide Next, Entry, TrimEnd;
    if a != [] {
      LineByItsText(mode, a[0]);
      LineByItsText(mode, b[0]);
      SimilarReads(a[1..], b[1..], Next(mode, a[0]));
    }
  }

  lemma SplitLinesRead(text: Text)
    ensures Read(SplitLines(text), Outside) == ReadFile(text)
  {
    hide Read;
    SplitsAreSimilar(text);
    SimilarReads(SplitLines(text), Split(text), Outside);
  }

  // ---- Joining lines ----

  /** Blank lines at the end add nothing. */
  lemma BlankEnd(lines: seq<Text>, mode: Mode)
    ensures Read(lines + [[]], mode) == Read(lines, mode)
  {
    hide Next, Entry;
    ReadConcat(lines, [[]], mode);
    var m := ModeAfter(lines, mode);
    OneLine([], m);
    BlankAddsNothing(m);
  }

  lemma BlankAddsNothing(mode: Mode)
    ensures Entry(mode, []) == []
  {
    BlankIsQuiet([]);
  }

  lemma JoinReads(lines: seq<Text>, nl: Text)
    requires AreLines(lines) && (nl == LF || nl == CRLF)
    ensures ReadFile(Join(lines, nl)) == Read(lines, Outside)
    ensures ReadFile(Join(lines, nl) + nl) == Read(lines, Outside)
  {
    hide Next, Entry, TrimEnd;
    if lines == [] {
      var one: seq<Text> := [[]];
      var two: seq<Text> := [[], []];
      BlankEnd(lines, Outside);
      BlankEnd(one, Outside);
      assert lines + [[]] == one && one + [[]] == two;
      JoinBlank(one, nl);
      SplitOfJoin(two, nl);
      SimilarReads(Split(Join(two, nl)), two, Outside);
    } else {
      SplitOfJoin(lines, nl);
      SimilarReads(Split(Join(lines, nl)), lines, Outside);
      JoinBlank(lines, nl);
      SplitOfJoin(lines + [[]], nl);
      SimilarReads(Split(Join(lines + [[]], nl)), lines + [[]], Outside);
      BlankEnd(lines, Outside);
    }
  }

  lemma {:induction false} KeptAreLines(lines: seq<Text>, keep: seq<bool>)
    requires |keep| == |lines| && AreLines(lines)
    ensures AreLines(Kept(lines, keep))
    decreases |lines|
  {
    if lines != [] {
      assert forall line :: line in lines[1..] ==> line in lines;
      KeptAreLines(lines[1..], keep[1..]);
    }
  }

  /** The editor commutes with the reader on whole files, whichever way their
      lines end. */
  lemma FileEditCommutes(text: Text, drop: set<Text>)
    requires WellIndented(SplitLines(text))
    ensures var paths := ReadFile(text);
      ReadFile(EditFile(text, drop)) == Without(paths, drop)
      <==> Without(paths, drop) != [] || Dropped(paths, drop) == [] || !Exposes(SplitLines(text))
  {
    hide Read, Without, Dropped, Exposes, WellIndented, Keeps, Kept, SplitLines, ReadFile, Join, AreLines;
    var lines := SplitLines(text);
    SplitLinesRead(text);
    EditCommutes(lines, drop);
    WithoutMembers(ReadFile(text), drop);
    SplitLinesAreLines(text);
    KeptAreLines(lines, Keeps(lines, drop));
    JoinReads(Edited(lines, drop), LF);
    JoinReads(Edited(lines, drop), CRLF);
  }

  // ---- A list as people write it ----

  /** An entry with the quotes around it, if any. */
  datatype Item = Item(entry: Text, quotes: Text)

  function ItemLine(item: Item): Text { Ascii("    - ") + (item.quotes + item.entry + item.quotes) }

  /** An entry that needs no quotes, or stands in a pair of them. */
  predicate IsPlain(item: Item)
  {
    var e := item.entry;
    && e != [] && (forall i :: 0 <= i < |e| ==> !IsLineTerminator(e[i]))
    && (item.quotes in {Ascii("\""), Ascii("'")}
        || (item.quotes == [] && !IsSpace(e[0]) && !IsSpace(e[|e| - 1]) && !IsQuote(e[0]) && !IsQuote(e[|e| - 1])))
  }

  function ItemLines(items: seq<Item>): seq<Text>
  {
    if items == [] then [] else [ItemLine(items[0])] + ItemLines(items[1..])
  }

  function Entries(items: seq<Item>): seq<Text>
  {
    if items == [] then [] else [items[0].entry] + Entries(items[1..])
  }

  lemma {:induction false} TrimStartOf(spaces: Text, body: Text)
    requires (forall i :: 0 <= i < |spaces| ==> spaces[i] == SPACE) && body != [] && !IsSpace(body[0])
    ensures TrimStart(spaces + body) == body
    decreases |spaces|
  {
    if spaces == [] {
      assert spaces + body == body;
    } else {
      assert (spaces + body)[1..] == spaces[1..] + body;
      TrimStartOf(spaces[1..], body);
    }
  }

  lemma MarginCharacters()
    ensures Ascii("    - ") == [SPACE, SPACE, SPACE, SPACE] + [DASH, SPACE]
    ensures Ascii("\"") == [0x22] && Ascii("'") == [0x27]
    ensures Ascii("update:") == UPDATE_KEY && Ascii("  skip:") == [SPACE, SPACE] + SKIP_KEY
  {
  }

  lemma ItemBody(item: Item)
    requires IsPlain(item)
    ensures var t := item.quotes + item.entry + item.quotes;
      && t != [] && !IsSpace(t[0]) && !IsSpace(t[|t| - 1]) && StripQuotes(t) == item.entry
      && forall i :: 0 <= i < |t| ==> !IsLineTerminator(t[i])
  {
    MarginCharacters();
    var t := item.quotes + item.entry + item.quotes;
    if item.quotes == [] {
      assert t == item.entry;
    } else {
      assert |item.quotes| == 1 && IsQuote(item.quotes[0]);
      assert t[0] == item.quotes[0] && t[|t| - 1] == item.quotes[0];
      assert t[1..][..|t| - 2] == item.entry;
    }
  }

  lemma ItemIsRead(item: Item)
    requires IsPlain(item)
    ensures ItemOf(ItemLine(item)) == Some(item.entry) && IsIndented(ItemLine(item))
  {
    hide StripQuotes, IsPlain;
    MarginCharacters();
    ItemBody(item);
    var t := item.quotes + item.entry + item.quotes;
    var margin: Text := [SPACE, SPACE, SPACE, SPACE];
    var body := [DASH, SPACE] + t;
    assert ItemLine(item) == margin + body;
    TrimStartOf(margin, body);
    assert body[|body| - 1] == t[|t| - 1];
    assert TrimEnd(body) == body;
    assert body[1..] == [SPACE] + t;
    TrimStartOf([SPACE], t);
  }

  lemma {:induction false} ItemsAreRead(items: seq<Item>)
    requires forall item :: item in items ==> IsPlain(item)
    ensures Read(ItemLines(items), InSkip) == Entries(items)
    decreases |items|
  {
    hide ItemOf, IsPlain, ItemLine;
    if items != [] {
      assert items[0] in items && forall item :: item in items[1..] ==> item in items;
      ItemIsRead(items[0]);
      LineKinds(ItemLine(items[0]));
      ItemsAreRead(items[1..]);
      assert ItemLines(items)[1..] == ItemLines(items[1..]);
    }
  }

  lemma HeadersAreRead()
    ensures IsUpdate(Ascii("update:")) && IsSkip(Ascii("  skip:")) && !IsUpdate(Ascii("  skip:"))
  {
    MarginCharacters();
    TrimStartOf([SPACE, SPACE], SKIP_KEY);
    assert TrimEnd(UPDATE_KEY) == UPDATE_KEY && TrimEnd(SKIP_KEY) == SKIP_KEY;
    LineKinds(Ascii("  skip:"));
  }

  /** An entry with a line or paragraph separator in it is none: the list ends there. */
  lemma SeparatorEndsList(item: Item, i: nat)
    requires |item.entry| > 2 && 0 < i < |item.entry| - 1 && IsLineTerminator(item.entry[i]) && item.quotes == []
    requires !IsSpace(item.entry[0]) && !IsSpace(item.entry[|item.entry| - 1])
    ensures ItemOf(ItemLine(item)) == None
  {
    hide StripQuotes;
    MarginCharacters();
    var margin: Text := [SPACE, SPACE, SPACE, SPACE];
    var body := [DASH, SPACE] + item.entry;
    assert item.quotes + item.entry + item.quotes == item.entry;
    assert ItemLine(item) == margin + body;
    TrimStartOf(margin, body);
    assert TrimEnd(body) == body;
    assert body[1..] == [SPACE] + item.entry;
    TrimStartOf([SPACE], item.entry);
  }

  /** A list as people write it is read as its entries, in order, without quotes. */
  lemma WrittenListReads(items: seq<Item>)
    requires forall item :: item in items ==> IsPlain(item)
    ensures Read([Ascii("update:"), Ascii("  skip:")] + ItemLines(items), Outside) == Entries(items)
  {
    hide IsUpdate, IsSkip, IsQuiet, ItemOf, IsPlain, ItemLines;
    HeadersAreRead();
    ItemsAreRead(items);
    var head := [Ascii("update:"), Ascii("  skip:")];
    ReadConcat(head, ItemLines(items), Outside);
    assert head[1..] == [Ascii("  skip:")];
    OneLine(Ascii("  skip:"), InUpdate);
    UpdateIsNoItem(Ascii("update:"));
    LineKinds(Ascii("  skip:"));
  }

  /** A comment at the margin changes nothing, wherever it stands. */
  lemma CommentIsSkipped(a: seq<Text>, text: Text, b: seq<Text>)
    ensures Read(a + [Ascii("#") + text] + b, Outside) == Read(a + b, Outside)
  {
    hide Next, Entry, Read, ModeAfter;
    var m, comment := ModeAfter(a, Outside), Ascii("#") + text;
    CommentIsQuiet(m, text);
    ReadConcat(a, b, Outside);
    ReadConcat(a + [comment], b, Outside);
    ReadConcat(a, [comment], Outside);
    OneLine(comment, m);
  }

  lemma CommentIsQuiet(mode: Mode, text: Text)
    ensures Next(mode, Ascii("#") + text) == mode && Entry(mode, Ascii("#") + text) == []
  {
    hide ItemOf, TrimEnd, Trim;
    var line := Ascii("#") + text;
    assert line[0] == 0x23;
    LineKinds(line);
  }

  // ---- Line ends and all other lines stay ----

  predicate EndsWithReturn(line: Text) { line != [] && line[|line| - 1] == RETURN }

  /** No line but the last ends with a carriage return. */
  predicate NoReturns(lines: seq<Text>) { forall i :: 0 <= i < |lines| - 1 ==> !EndsWithReturn(lines[i]) }

  /** The lines between `\n`s when `lines` are joined by `nl`. */
  function Ended(lines: seq<Text>, nl: Text): (r: seq<Text>)
    requires nl == LF || nl == CRLF
    ensures |r| == |lines| && (lines != [] ==> r[|r| - 1] == lines[|lines| - 1])
    ensures forall i :: 0 <= i < |lines| - 1 ==> r[i] == if nl == CRLF then lines[i] + [RETURN] else lines[i]
  {
    if |lines| <= 1 then lines
    else [if nl == CRLF then lines[0] + [RETURN] else lines[0]] + Ended(lines[1..], nl)
  }

  lemma {:induction false} SplitJoinExact(lines: seq<Text>, nl: Text)
    requires AreLines(lines) && lines != [] && (nl == LF || nl == CRLF)
    ensures Split(Join(lines, nl)) == Ended(lines, nl)
    decreases |lines|
  {
    hide Split;
    if |lines| == 1 {
      SplitFirst(lines[0], []);
    } else {
      var rest := Join(lines[1..], nl);
      assert forall line :: line in lines[1..] ==> line in lines;
      SplitJoinExact(lines[1..], nl);
      var first := if nl == LF then lines[0] else lines[0] + [RETURN];
      assert lines[0] + nl + rest == first + (LF + rest);
      assert IsLine(lines[0]);
      SplitFirst(first, rest);
    }
  }

  lemma SplitLinesOfJoin(lines: seq<Text>, nl: Text)
    requires AreLines(lines) && lines != [] && (nl == CRLF || (nl == LF && NoReturns(lines)))
    ensures SplitLines(Join(lines, nl)) == lines
    ensures forall i :: 0 <= i < |lines| - 1 ==> (EndsWithReturn(Split(Join(lines, nl))[i]) <==> nl == CRLF)
    ensures |Split(Join(lines, nl))| == |lines|
  {
    hide Split, Join, Ended, DropReturn, EndsWithReturn;
    SplitJoinExact(lines, nl);
    var n, ended := |lines| - 1, Ended(lines, nl);
    forall i | 0 <= i < n
      ensures DropReturn(ended[i]) == lines[i] && (EndsWithReturn(ended[i]) <==> nl == CRLF)
    {
      ReturnDropped(lines[i]);
    }
    assert SplitLines(Join(lines, nl)) == lines;
  }

  lemma ReturnDropped(line: Text)
    ensures DropReturn(line + [RETURN]) == line && EndsWithReturn(line + [RETURN])
    ensures !EndsWithReturn(line) ==> DropReturn(line) == line
  {
    assert (line + [RETURN])[..|line|] == line;
  }

  /** A text uses `\r\n` exactly when one of its lines ends with it. */
  lemma {:induction false} UsesCrLfIff(text: Text)
    ensures UsesCrLf(text) <==> !NoReturns(Split(text))
    decreases |text|
  {
    if text != [] {
      var rest, lines := Split(text[1..]), Split(text);
      UsesCrLfIff(text[1..]);
      CrLfHead(text);
      FirstIsEmpty(text[1..]);
      if text[0] == NEWLINE {
        assert forall i :: 0 < i < |lines| ==> lines[i] == rest[i - 1];
        assert forall i :: 0 <= i < |rest| ==> rest[i] == lines[i + 1];
      } else {
        assert EndsWithReturn(lines[0]) <==> EndsWithReturn(rest[0]) || (rest[0] == [] && text[0] == RETURN);
        assert forall i :: 0 < i < |lines| ==> lines[i] == rest[i];
      }
    }
  }

  lemma CrLfHead(text: Text)
    requires text != []
    ensures UsesCrLf(text) <==> UsesCrLf(text[1..]) || (|text| > 1 && text[0] == RETURN && text[1] == NEWLINE)
  {
    var rest := text[1..];
    if i :| 0 <= i < |rest| - 1 && rest[i] == RETURN && rest[i + 1] == NEWLINE {
      assert text[i + 1] == RETURN && text[i + 2] == NEWLINE;
    }
    if i :| 0 <= i < |text| - 1 && text[i] == RETURN && text[i + 1] == NEWLINE {
      assert i > 0 ==> rest[i - 1] == RETURN && rest[i] == NEWLINE;
    }
  }

  lemma FirstIsEmpty(text: Text)
    ensures Split(text)[0] == [] && |Split(text)| > 1 <==> text != [] && text[0] == NEWLINE
    ensures text == [] ==> Split(text) == [[]]
  {
  }

  /** A text that ends a line has a blank last line, and only such a text. */
  lemma {:induction false} LastIsBlank(text: Text)
    ensures Split(text)[|Split(text)| - 1] == [] <==> text == [] || EndsLine(text)
    ensures |Split(text)| == 1 && text != [] ==> !EndsLine(text)
    decreases |text|
  {
    if text != [] {
      LastIsBlank(text[1..]);
      assert |text| > 1 ==> text[1..][|text| - 2] == text[|text| - 1];
    }
  }

  lemma {:induction false} KeptNoReturns(lines: seq<Text>, keep: seq<bool>)
    requires |keep| == |lines| && NoReturns(lines)
    ensures NoReturns(Kept(lines, keep)) && |Kept(lines, keep)| <= |lines|
    decreases |lines|
  {
    hide EndsWithReturn;
    if lines != [] {
      var rest := Kept(lines[1..], keep[1..]);
      assert forall i :: 0 <= i < |lines[1..]| ==> lines[1..][i] == lines[i + 1];
      KeptNoReturns(lines[1..], keep[1..]);
      if keep[0] {
        assert forall i :: 0 < i < |Kept(lines, keep)| ==> Kept(lines, keep)[i] == rest[i - 1];
      }
    }
  }

  lemma {:induction false} KeptLast(lines: seq<Text>, keep: seq<bool>)
    requires |keep| == |lines| > 0 && keep[|keep| - 1]
    ensures Kept(lines, keep) != [] && Kept(lines, keep)[|Kept(lines, keep)| - 1] == lines[|lines| - 1]
    decreases |lines|
  {
    if |lines| > 1 {
      KeptLast(lines[1..], keep[1..]);
    }
  }

  /** A blank line never goes. */
  lemma BlankLineStays(lines: seq<Text>, drop: set<Text>, i: nat)
    requires i < |lines| && lines[i] == []
    ensures Keeps(lines, drop)[i]
  {
    hide Read, Without, Dropped, HasOtherKey, KeepItems, ModeAfter, LastSkip, LastUpdate;
    BlankIsQuiet([]);
    if !Keeps(lines, drop)[i] {
      OnlyEntriesGo(lines, drop, i);
      LastSkipIsLast(lines);
    }
  }

  lemma DropReturns(text: Text)
    ensures !UsesCrLf(text) ==> SplitLines(text) == Split(text)
    ensures |SplitLines(text)| == |Split(text)|
    ensures SplitLines(text)[|Split(text)| - 1] == Split(text)[|Split(text)| - 1]
  {
    hide Split;
    UsesCrLfIff(text);
  }

  /** The lines of the edited text: those that were kept; a text that ended a line
      still does, even when nothing else is left of it. */
  function LinesLeft(text: Text, drop: set<Text>): seq<Text>
  {
    var kept := Edited(SplitLines(text), drop);
    if kept == [] then [[]] else if kept == [[]] && EndsLine(text) then [[], []] else kept
  }

  /** The edit in terms of the text: its lines are the kept lines of the file, each
      ends as lines of that file do, and a line end at its end stays. */
  lemma EditKeepsText(text: Text, drop: set<Text>)
    ensures var result := EditFile(text, drop);
      && (Dropped(ReadFile(text), drop) == [] ==> result == text)
      && (Dropped(ReadFile(text), drop) != [] ==>
            && SplitLines(result) == LinesLeft(text, drop)
            && |Split(result)| == |LinesLeft(text, drop)|
            && (forall i :: 0 <= i < |Split(result)| - 1 ==> (EndsWithReturn(Split(result)[i]) <==> UsesCrLf(text))))
      && (EndsLine(text) ==> EndsLine(result))
  {
    hide Read, Dropped, Keeps, Kept, Split, SplitLines, Join, AreLines, UsesCrLf, EndsWithReturn, NoReturns;
    SplitLinesRead(text);
    var lines := SplitLines(text);
    if Dropped(ReadFile(text), drop) != [] {
      var nl, kept := if UsesCrLf(text) then CRLF else LF, Edited(lines, drop);
      SplitLinesAreLines(text);
      KeptAreLines(lines, Keeps(lines, drop));
      UsesCrLfIff(text);
      DropReturns(text);
      if !UsesCrLf(text) {
        KeptNoReturns(lines, Keeps(lines, drop));
      }
      LastIsBlank(text);
      if EndsLine(text) {
        BlankLineStays(lines, drop, |lines| - 1);
        KeptLast(lines, Keeps(lines, drop));
      }
      JoinedText(text, kept, nl);
    }
  }

  lemma JoinedText(text: Text, kept: seq<Text>, nl: Text)
    requires AreLines(kept) && (nl == CRLF || (nl == LF && NoReturns(kept)))
    requires EndsLine(text) ==> kept != [] && kept[|kept| - 1] == []
    ensures var content := Join(kept, nl);
      var result := if EndsLine(text) && !EndsLine(content) then content + nl else content;
      var left := if kept == [] then [[]] else if kept == [[]] && EndsLine(text) then [[], []] else kept;
      && SplitLines(result) == left && |Split(result)| == |left|
      && (forall i :: 0 <= i < |Split(result)| - 1 ==> (EndsWithReturn(Split(result)[i]) <==> nl == CRLF))
      && (EndsLine(text) ==> EndsLine(result))
  {
    hide Split, SplitLines, Join;
    var content := Join(kept, nl);
    var blank, two: seq<Text> := [[]], [[], []];
    if kept == [] {
      JoinOfNone(nl);
      SplitLinesOfJoin(blank, nl);
    } else {
      SplitLinesOfJoin(kept, nl);
      LastIsBlank(content);
      SplitJoinExact(kept, nl);
      if kept == [[]] && EndsLine(text) {
        JoinOfNone(nl);
        JoinBlank(blank, nl);
        assert blank + [[]] == two;
        SplitLinesOfJoin(two, nl);
        LastIsBlank(content + nl);
      } else if EndsLine(text) {
        JoinIsSomething(kept, nl);
      }
    }
  }

  lemma JoinOfNone(nl: Text)
    ensures Join([], nl) == [] && Join([[]], nl) == []
  {
  }

  lemma JoinIsSomething(lines: seq<Text>, nl: Text)
    requires |lines| > 1 && nl != []
    ensures Join(lines, nl) != []
  {
  }

  /** A file without carriage returns gets none. */
  lemma NoReturnAppears(text: Text, drop: set<Text>)
    requires RETURN !in text
    ensures RETURN !in EditFile(text, drop)
  {
    hide Read, Dropped, Keeps, Kept, Split, Join;
    if Dropped(Read(SplitLines(text), Outside), drop) != [] {
      DropReturns(text);
      SplitHolds(text);
      KeptHolds(Split(text), Keeps(Split(text), drop));
      JoinHolds(Edited(Split(text), drop));
    }
  }

  lemma {:induction false} SplitHolds(text: Text)
    requires RETURN !in text
    ensures forall line :: line in Split(text) ==> RETURN !in line
    decreases |text|
  {
    if text != [] {
      SplitHolds(text[1..]);
    }
  }

  lemma {:induction false} KeptHolds(lines: seq<Text>, keep: seq<bool>)
    requires |keep| == |lines|
    ensures forall line :: line in Kept(lines, keep) ==> line in lines
    decreases |lines|
  {
    if lines != [] {
      KeptHolds(lines[1..], keep[1..]);
    }
  }

  lemma {:induction false} JoinHolds(lines: seq<Text>)
    requires forall line :: line in lines ==> RETURN !in line
    ensures RETURN !in Join(lines, LF)
    decreases |lines|
  {
    if |lines| > 1 {
      JoinHolds(lines[1..]);
    }
  }
}
