/** The journal files of `pactile session add`: which one is written, when a new
    one is begun, how long they get, and why none of their text is ever lost,
    whatever order the directory listing gives them in. */
module Journal {
  import opened Decimal
  import opened JsText
  import opened Lines
  import opened Options

  // ---- Counting lines ----

  /** `text.replace(/\r\n/g, "\n")` */
  function Normalised(text: Text): Text
  {
    if |text| >= 2 && text[0] == RETURN && text[1] == NEWLINE then [NEWLINE] + Normalised(text[2..])
    else if text == [] then []
    else [text[0]] + Normalised(text[1..])
  }

  function Newlines(text: Text): nat
  {
    if text == [] then 0 else (if text[0] == NEWLINE then 1 else 0) + Newlines(text[1..])
  }

  /** `lineCount`: splitting at newlines gives one piece more than there are newlines. */
  function LineCount(text: Text): nat
  {
    if text == [] then 0 else Newlines(TrimEnd(Normalised(text))) + 1
  }

  /** Newlines behind the last character that is not white space. */
  function Trailing(text: Text): nat { Newlines(text[|TrimEnd(text)|..]) }

  predicate IsBlank(text: Text) { TrimEnd(text) == [] }

  lemma {:induction false} NewlinesConcat(a: Text, b: Text)
    ensures Newlines(a + b) == Newlines(a) + Newlines(b)
    decreases |a|
  {
    if a == [] {
      assert a + b == b;
    } else {
      assert (a + b)[1..] == a[1..] + b;
      NewlinesConcat(a[1..], b);
    }
  }

  lemma TrimEndOfConcat(a: Text, b: Text)
    ensures TrimEnd(a + b) == if TrimEnd(b) == [] then TrimEnd(a) else a + TrimEnd(b)
    decreases |b|
  {
    if b == [] {
      assert a + b == a;
    } else if IsSpace(b[|b| - 1]) {
      assert (a + b)[..|a + b| - 1] == a + b[..|b| - 1];
      TrimEndOfConcat(a, b[..|b| - 1]);
    } else {
      assert (a + b)[|a + b| - 1] == b[|b| - 1];
    }
  }

  /** Two texts with equally many lines, as far as `lineCount` can tell. */
  predicate CountAlike(a: Text, b: Text)
  {
    Newlines(TrimEnd(a)) == Newlines(TrimEnd(b)) && IsBlank(a) == IsBlank(b)
  }

  lemma CountAlikeAfter(x: Text, y: Text, a: Text, b: Text)
    requires CountAlike(a, b) && CountAlike(x, y) && Newlines(x) == Newlines(y)
    ensures CountAlike(x + a, y + b)
  {
    hide TrimEnd, Newlines;
    TrimEndOfConcat(x, a);
    TrimEndOfConcat(y, b);
    NewlinesConcat(x, TrimEnd(a));
    NewlinesConcat(y, TrimEnd(b));
    assert TrimEnd(a) != [] ==> x + TrimEnd(a) != [];
  }

  /** Windows line ends do not change what is counted. */
  lemma {:induction false} NormalisedCounts(text: Text)
    ensures CountAlike(Normalised(text), text)
    decreases |text|
  {
    hide CountAlike;
    if |text| >= 2 && text[0] == RETURN && text[1] == NEWLINE {
      NormalisedCounts(text[2..]);
      BlankEnds();
      assert CountAlike([NEWLINE], [RETURN, NEWLINE]) by { BreaksCountAlike(); }
      CountAlikeAfter([NEWLINE], [RETURN, NEWLINE], Normalised(text[2..]), text[2..]);
      assert text == [RETURN, NEWLINE] + text[2..];
    } else if text != [] {
      NormalisedCounts(text[1..]);
      AlikeItself([text[0]]);
      CountAlikeAfter([text[0]], [text[0]], Normalised(text[1..]), text[1..]);
      assert text == [text[0]] + text[1..];
    } else {
      AlikeItself([]);
    }
  }

  lemma AlikeItself(a: Text)
    ensures CountAlike(a, a)
  {
  }

  lemma BreaksCountAlike()
    ensures CountAlike([NEWLINE], [RETURN, NEWLINE])
  {
    hide TrimEnd, Newlines;
    BlankEnds();
  }

  lemma BlankEnds()
    ensures TrimEnd([RETURN, NEWLINE]) == [] && TrimEnd([NEWLINE]) == []
    ensures Newlines([RETURN, NEWLINE]) == 1 && Newlines([NEWLINE]) == 1
  {
    var r: Text, n: Text, rn: Text := [RETURN], [NEWLINE], [RETURN, NEWLINE];
    assert rn[..1] == r && r[..0] == [] && n[..0] == [];
    assert rn[1..] == n && n[1..] == [];
    assert Newlines(n) == 1 && Newlines(rn) == 1;
  }

  /** The counting law: appending to a text that ends with k newlines adds the
      lines of the addition and k - 1 more. */
  lemma LineCountOfAppend(current: Text, entry: Text)
    requires current != [] && !IsBlank(entry)
    ensures LineCount(current + entry) == LineCount(current) + LineCount(entry) + Trailing(current) - 1
    ensures Trailing(current + entry) == Trailing(entry)
  {
    hide TrimEnd, Newlines, Normalised, LineCount, Trailing;
    LineCountIs(current);
    LineCountIs(entry);
    LineCountIs(current + entry);
    TrimEndOfConcat(current, entry);
    NewlinesConcat(current, TrimEnd(entry));
    NewlinesSplit(current);
    TrailingOfAppend(current, entry);
  }

  lemma NewlinesSplit(text: Text)
    ensures Newlines(text) == Newlines(TrimEnd(text)) + Trailing(text)
  {
    hide TrimEnd, Newlines;
    var body := TrimEnd(text);
    assert text == body + text[|body|..];
    NewlinesConcat(body, text[|body|..]);
  }

  lemma TrailingOfAppend(current: Text, entry: Text)
    requires !IsBlank(entry)
    ensures Trailing(current + entry) == Trailing(entry)
  {
    hide TrimEnd, Newlines;
    TrimEndOfConcat(current, entry);
    SuffixOfConcat(current, entry, |TrimEnd(entry)|);
  }

  lemma SuffixOfConcat(a: Text, b: Text, n: nat)
    requires n <= |b|
    ensures (a + b)[|a| + n..] == b[n..] && |a + b[..n]| == |a| + n
  {
  }

  lemma LineCountIs(text: Text)
    ensures LineCount(text) == if text == [] then 0 else Newlines(TrimEnd(text)) + 1
    ensures IsBlank([])
  {
    NormalisedCounts(text);
  }

  // ---- One session ----

  datatype File = File(name: Text, text: Text)

  const PREFIX: Text := Ascii("journal-")
  const SUFFIX: Text := Ascii(".md")

  /** `/^journal-(\d+)\.md$/`, the number read by `Number`. */
  function JournalNumber(name: Text): Option<nat>
  {
    if |name| <= |PREFIX| + |SUFFIX| || !(PREFIX <= name) || name[|name| - |SUFFIX|..] != SUFFIX then None
    else
      var digits := name[|PREFIX|..|name| - |SUFFIX|];
      if AllDigits(digits) then Some(NumberOf(digits)) else None
  }

  function JournalName(n: nat): Text { PREFIX + Digits(n) + SUFFIX }

  lemma NameNumber(n: nat)
    ensures JournalNumber(JournalName(n)) == Some(n)
  {
    var name := JournalName(n);
    assert name[|PREFIX|..|name| - |SUFFIX|] == Digits(n);
    NumberOfDigits(n);
  }

  /** Every listed file is a journal. */
  predicate AreJournals(files: seq<File>)
  {
    forall f :: f in files ==> JournalNumber(f.name).Some?
  }

  function Number(f: File): nat
  {
    JournalNumber(f.name).GetOr(0)
  }

  function Insert(sorted: seq<File>, f: File): (r: seq<File>)
    ensures |r| == |sorted| + 1
  {
    if sorted == [] then [f]
    else
      var last := sorted[|sorted| - 1];
      if Number(f) < Number(last) then Insert(sorted[..|sorted| - 1], f) + [last] else sorted + [f]
  }

  /** The journals of a directory listing in numeric order (a stable sort). */
  function Sorted(files: seq<File>): (r: seq<File>)
    ensures |r| == |files|
  {
    if files == [] then [] else Insert(Sorted(files[..|files| - 1]), files[|files| - 1])
  }

  /** The journal with the highest number. */
  function Newest(files: seq<File>): File
    requires files != []
  {
    Sorted(files)[|files| - 1]
  }

  lemma {:induction false} InsertAdds(s: seq<File>, f: File)
    ensures multiset(Insert(s, f)) == multiset(s) + multiset{f}
    decreases |s|
  {
    if s != [] {
      assert s == s[..|s| - 1] + [s[|s| - 1]];
      if Number(f) < Number(s[|s| - 1]) {
        InsertAdds(s[..|s| - 1], f);
      }
    }
  }

  lemma {:induction false} SortedHasAll(files: seq<File>)
    ensures multiset(Sorted(files)) == multiset(files)
    decreases |files|
  {
    if files != [] {
      var front := files[..|files| - 1];
      assert files == front + [files[|files| - 1]];
      SortedHasAll(front);
      InsertAdds(Sorted(front), files[|files| - 1]);
    }
  }

  predicate Ascending(s: seq<File>) { forall i, j :: 0 <= i < j < |s| ==> Number(s[i]) <= Number(s[j]) }

  lemma AscendingAppend(s: seq<File>, last: File)
    requires Ascending(s) && forall g :: g in s ==> Number(g) <= Number(last)
    ensures Ascending(s + [last])
  {
    hide Number;
  }

  lemma InsertMembers(s: seq<File>, f: File, g: File)
    requires g in Insert(s, f)
    ensures g in s || g == f
  {
    hide Insert;
    InsertAdds(s, f);
    assert g in multiset(Insert(s, f));
  }

  lemma {:induction false} InsertAscends(s: seq<File>, f: File)
    requires Ascending(s)
    ensures Ascending(Insert(s, f))
    decreases |s|
  {
    hide Number;
    if s != [] {
      var front, last := s[..|s| - 1], s[|s| - 1];
      if Number(f) < Number(last) {
        InsertAscends(front, f);
        forall g | g in Insert(front, f)
          ensures Number(g) <= Number(last)
        {
          InsertMembers(front, f, g);
        }
        AscendingAppend(Insert(front, f), last);
      } else {
        forall g | g in s
          ensures Number(g) <= Number(f)
        {
          assert Number(g) <= Number(last);
        }
        AscendingAppend(s, f);
      }
    }
  }

  lemma {:induction false} SortedAscends(files: seq<File>)
    ensures Ascending(Sorted(files))
    decreases |files|
  {
    if files != [] {
      SortedAscends(files[..|files| - 1]);
      InsertAscends(Sorted(files[..|files| - 1]), files[|files| - 1]);
    }
  }

  /** Inserting `f` and then a file of higher number, or the other way round. */
  lemma InsertBeforeHighest(s: seq<File>, f: File, top: File)
    requires Number(f) < Number(top)
    ensures Insert(s + [top], f) == Insert(s, f) + [top]
  {
    assert (s + [top])[..|s|] == s;
  }

  lemma HighestAppended(files: seq<File>, top: File)
    requires forall f :: f in files ==> Number(f) < Number(top)
    ensures Sorted(files + [top]) == Sorted(files) + [top]
  {
    hide Number;
    assert (files + [top])[..|files|] == files;
    var s := Sorted(files);
    SortedHasAll(files);
    if s != [] {
      assert s[|s| - 1] in multiset(files);
    }
  }

  /** A file with a higher number than all others comes last, wherever the
      directory listing puts it. */
  lemma {:induction false} HighestComesLast(before: seq<File>, top: File, after: seq<File>)
    requires forall f :: f in before || f in after ==> Number(f) < Number(top)
    ensures Sorted(before + [top] + after) == Sorted(before + after) + [top]
    decreases |after|
  {
    if after == [] {
      assert before + [top] + after == before + [top] && before + after == before;
      HighestAppended(before, top);
    } else {
      hide Insert, Number, Sorted;
      var n := |after| - 1;
      var rest, last := after[..n], after[n];
      assert before + [top] + after == before + [top] + rest + [last];
      assert before + after == before + rest + [last];
      assert last in after && forall f :: f in rest ==> f in after;
      HighestComesLast(before, top, rest);
      SortedAppend(before + [top] + rest, last);
      SortedAppend(before + rest, last);
      InsertBeforeHighest(Sorted(before + rest), last, top);
    }
  }

  lemma SortedAppend(files: seq<File>, f: File)
    ensures Sorted(files + [f]) == Insert(Sorted(files), f)
  {
    hide Insert;
    assert (files + [f])[..|files|] == files;
  }

  // ---- What a session writes ----

  /** The texts a session is recorded with; empty `pkg` and `branch` are absent. */
  datatype Session = Session(
    title: Text, today: Text, pkg: Text, branch: Text, summary: Text, details: Text, commits: Text)

  const ENTRY_END: Text := Ascii("\n\n### Testing\n\n- [OK] (Add test results)\n\n### Status\n\n[OK] **Completed**\n\n### Next Steps\n\n- None - task complete")

  function EntryHead(number: nat, s: Session): Text
  {
    Ascii("\n\n## Session ") + Digits(number) + Ascii(": ") + s.title
    + Ascii("\n\n**Date**: ") + s.today + Ascii("\n**Task**: ") + s.title
    + (if s.pkg == [] then [] else Ascii("\n**Package**: ") + s.pkg)
    + (if s.branch == [] then [] else Ascii("\n**Branch**: `") + s.branch + Ascii("`"))
    + Ascii("\n\n### Summary\n\n") + s.summary + Ascii("\n\n### Main Changes\n\n") + s.details
    + Ascii("\n\n### Git Commits\n\n") + s.commits
  }

  function Entry(number: nat, s: Session): Text { EntryHead(number, s) + ENTRY_END + [NEWLINE] }

  lemma EntryIsProper(number: nat, s: Session)
    ensures !IsBlank(Entry(number, s)) && Trailing(Entry(number, s)) == 1
  {
    var body := EntryHead(number, s) + ENTRY_END;
    EndsWithBreak(body);
  }

  lemma EndsWithBreak(body: Text)
    requires body != [] && !IsSpace(body[|body| - 1])
    ensures TrimEnd(body + [NEWLINE]) == body && Trailing(body + [NEWLINE]) == 1
  {
    BlankEnds();
    TrimEndOfConcat(body, [NEWLINE]);
    assert TrimEnd(body) == body;
    assert (body + [NEWLINE])[|body|..] == [NEWLINE];
  }

  datatype Written = Written(name: Text, text: Text, rotated: bool)

  function Header(developer: Text, part: nat, last: Text, maxLines: nat, today: Text): Text
  {
    Ascii("# Journal - ") + developer + Ascii(" (Part ") + Digits(part) + Ascii(")\n\n> Continuation from `") + last
    + Ascii("` (archived at ~") + Digits(maxLines) + Ascii(" lines)\n> Started: ") + today + Ascii("\n\n---\n\n")
  }

  /** Which journal is written and with what; none without a journal. */
  function Choose(files: seq<File>, developer: Text, entry: Text, maxLines: nat, today: Text): Option<Written>
  {
    if files == [] then None
    else
      var last := Newest(files);
      if LineCount(last.text) + LineCount(entry) > maxLines then
        var part := Number(last) + 1;
        Some(Written(JournalName(part), Header(developer, part, last.name, maxLines, today) + entry, true))
      else Some(Written(last.name, last.text + entry, false))
  }

  function Overwrite(f: File, w: Written): File
  {
    if f.name == w.name then File(w.name, w.text) else f
  }

  function OverwriteAll(files: seq<File>, w: Written): (r: seq<File>)
    ensures |r| == |files| && forall i :: 0 <= i < |files| ==> r[i] == Overwrite(files[i], w)
  {
    seq(|files|, i requires 0 <= i < |files| => Overwrite(files[i], w))
  }

  /** The directory afterwards; a new file appears somewhere in its listing. */
  function Store(files: seq<File>, w: Written, slot: nat): seq<File>
  {
    var i := if slot <= |files| then slot else |files|;
    if w.rotated then files[..i] + [File(w.name, w.text)] + files[i..] else OverwriteAll(files, w)
  }

  predicate DistinctNames(files: seq<File>)
  {
    forall i, j :: 0 <= i < j < |files| ==> files[i].name != files[j].name
  }

  /** Nothing has a higher number than the last journal in order. */
  lemma LastIsHighest(files: seq<File>, f: File)
    requires f in files
    ensures Number(f) <= Number(Newest(files))
  {
    SortedHasAll(files);
    SortedAscends(files);
    assert f in multiset(Sorted(files));
    var i :| 0 <= i < |Sorted(files)| && Sorted(files)[i] == f;
  }

  /** A rotation never lands on an existing journal. */
  lemma RotatedNameIsFresh(files: seq<File>, developer: Text, entry: Text, maxLines: nat, today: Text, f: File)
    requires AreJournals(files) && f in files
    requires var w := Choose(files, developer, entry, maxLines, today); w.Some? && w.value.rotated
    ensures f.name != Choose(files, developer, entry, maxLines, today).value.name
  {
    LastIsHighest(files, f);
    NameNumber(Number(Newest(files)) + 1);
  }

  // ---- Nothing is lost ----

  function AllText(files: seq<File>): Text
  {
    if files == [] then [] else AllText(files[..|files| - 1]) + files[|files| - 1].text
  }

  lemma {:induction false} InsertOverwrites(s: seq<File>, f: File, w: Written)
    ensures Insert(OverwriteAll(s, w), Overwrite(f, w)) == OverwriteAll(Insert(s, f), w)
    decreases |s|
  {
    var t := OverwriteAll(s, w);
    if s != [] && Number(f) < Number(s[|s| - 1]) {
      assert t[..|s| - 1] == OverwriteAll(s[..|s| - 1], w);
      InsertOverwrites(s[..|s| - 1], f, w);
    }
  }

  lemma {:induction false} SortedOverwrites(files: seq<File>, w: Written)
    ensures Sorted(OverwriteAll(files, w)) == OverwriteAll(Sorted(files), w)
    decreases |files|
  {
    hide Insert, Overwrite;
    if files != [] {
      var n := |files| - 1;
      assert OverwriteAll(files, w)[..n] == OverwriteAll(files[..n], w);
      SortedOverwrites(files[..n], w);
      InsertOverwrites(Sorted(files[..n]), files[n], w);
    }
  }

  lemma {:induction false} NamesStayDistinct(files: seq<File>)
    requires DistinctNames(files)
    ensures DistinctNames(Sorted(files))
    decreases |files|
  {
    if files != [] {
      var n := |files| - 1;
      NamesStayDistinct(files[..n]);
      SortedHasAll(files[..n]);
      forall f | f in Sorted(files[..n])
        ensures f.name != files[n].name
      {
        assert f in multiset(files[..n]);
      }
      InsertDistinct(Sorted(files[..n]), files[n]);
    }
  }

  lemma {:induction false} InsertDistinct(s: seq<File>, f: File)
    requires DistinctNames(s) && forall g :: g in s ==> g.name != f.name
    ensures DistinctNames(Insert(s, f))
    decreases |s|
  {
    if s != [] && Number(f) < Number(s[|s| - 1]) {
      var front, last := s[..|s| - 1], s[|s| - 1];
      InsertDistinct(front, f);
      InsertAdds(front, f);
      forall g | g in Insert(front, f)
        ensures g.name != last.name
      {
        assert g in multiset(front) + multiset{f};
        assert g in front || g == f;
      }
    }
  }

  lemma AllTextAppend(files: seq<File>, f: File)
    ensures AllText(files + [f]) == AllText(files) + f.text
  {
    assert (files + [f])[..|files|] == files;
  }

  lemma SortedSplits(files: seq<File>)
    requires files != []
    ensures Sorted(files) == Sorted(files)[..|files| - 1] + [Newest(files)]
  {
    SplitLast(Sorted(files));
  }

  lemma SplitLast<T>(s: seq<T>)
    requires s != []
    ensures s == s[..|s| - 1] + [s[|s| - 1]]
  {
  }

  /** An appended entry goes to the end of the newest journal and nowhere else. */
  lemma AppendedText(files: seq<File>, w: Written)
    requires DistinctNames(files) && files != [] && w.name == Newest(files).name
    ensures Sorted(OverwriteAll(files, w)) == Sorted(files)[..|files| - 1] + [File(w.name, w.text)]
  {
    hide Sorted, DistinctNames, OverwriteAll;
    SortedOverwrites(files, w);
    NamesStayDistinct(files);
  }

  function NewHeader(files: seq<File>, w: Written, developer: Text, maxLines: nat, today: Text): Text
    requires files != []
  {
    if w.rotated then Header(developer, Number(Newest(files)) + 1, Newest(files).name, maxLines, today) else []
  }

  /** The journals in numeric order hold all they held before, and then what was
      written now: the entry, behind a header of its own after a rotation. */
  lemma NothingIsLost(files: seq<File>, developer: Text, entry: Text, maxLines: nat, today: Text, slot: nat, w: Written)
    requires DistinctNames(files) && files != []
    requires Choose(files, developer, entry, maxLines, today) == Some(w)
    ensures AllText(Sorted(Store(files, w, slot)))
         == AllText(Sorted(files)) + NewHeader(files, w, developer, maxLines, today) + entry
  {
    hide Number, Header, LineCount, Sorted, AllText, Newest, DistinctNames, OverwriteAll;
    var s, n, last := Sorted(files), |files| - 1, Newest(files);
    if w.rotated {
      RotatedComesLast(files, w, slot, developer, entry, maxLines, today);
      AllTextAppend(s, File(w.name, w.text));
      ConcatAssociates(AllText(s), NewHeader(files, w, developer, maxLines, today), entry);
    } else {
      AppendedText(files, w);
      SortedSplits(files);
      AllTextAppend(s[..n], last);
      AllTextAppend(s[..n], File(w.name, w.text));
      ConcatAssociates(AllText(s[..n]), last.text, entry);
      assert AllText(s) + [] == AllText(s);
    }
  }

  lemma RotatedComesLast(files: seq<File>, w: Written, slot: nat, developer: Text, entry: Text, maxLines: nat, today: Text)
    requires files != [] && Choose(files, developer, entry, maxLines, today) == Some(w) && w.rotated
    ensures Sorted(Store(files, w, slot)) == Sorted(files) + [File(w.name, w.text)]
  {
    hide Header, LineCount, Insert, Sorted, JournalNumber, JournalName, Newest;
    var top := File(w.name, w.text);
    NameNumber(Number(Newest(files)) + 1);
    var i := if slot <= |files| then slot else |files|;
    assert files == files[..i] + files[i..];
    forall f | f in files[..i] || f in files[i..]
      ensures Number(f) < Number(top)
    {
      LastIsHighest(files, f);
    }
    HighestComesLast(files[..i], top, files[i..]);
  }

  // ---- The bound ----

  /** A journal that is appended to stays within the bound exactly when its
      trailing newlines leave room. */
  lemma BoundHoldsIff(files: seq<File>, developer: Text, number: nat, s: Session, maxLines: nat)
    requires files != [] && Newest(files).text != []
    requires !Choose(files, developer, Entry(number, s), maxLines, s.today).value.rotated
    ensures var text := Newest(files).text;
      LineCount(Choose(files, developer, Entry(number, s), maxLines, s.today).value.text) <= maxLines
      <==> LineCount(text) + LineCount(Entry(number, s)) + Trailing(text) <= maxLines + 1
  {
    hide Entry, LineCount, Trailing, Header, Newest;
    EntryIsProper(number, s);
    LineCountOfAppend(Newest(files).text, Entry(number, s));
  }

  /** The newest journal ends as every session leaves it. */
  predicate IsSettled(files: seq<File>)
  {
    files != [] && Newest(files).text != [] && Trailing(Newest(files).text) == 1
  }

  /** Every session leaves the newest journal with one newline at its end, and
      from then on no appended journal exceeds the bound. */
  lemma EverySessionSettles(files: seq<File>, developer: Text, number: nat, s: Session, maxLines: nat, slot: nat)
    requires AreJournals(files) && DistinctNames(files) && files != []
    ensures var w := Choose(files, developer, Entry(number, s), maxLines, s.today).value;
      && IsSettled(Store(files, w, slot))
      && (IsSettled(files) && !w.rotated ==> LineCount(w.text) <= maxLines)
  {
    hide Entry, LineCount, Header, Number, Sorted, Newest, Trailing, DistinctNames, OverwriteAll;
    var entry, last := Entry(number, s), Newest(files);
    EntryIsProper(number, s);
    var w := Choose(files, developer, entry, maxLines, s.today).value;
    AppendIsProper(last.text, entry);
    if w.rotated {
      AppendIsProper(Header(developer, Number(last) + 1, last.name, maxLines, s.today), entry);
      RotatedComesLast(files, w, slot, developer, entry, maxLines, s.today);
      NewestIs(Store(files, w, slot), Sorted(files), File(w.name, w.text));
    } else {
      AppendedText(files, w);
      NewestIs(Store(files, w, slot), Sorted(files)[..|files| - 1], File(w.name, w.text));
      if IsSettled(files) {
        LineCountOfAppend(last.text, entry);
      }
    }
  }

  lemma NewestIs(files: seq<File>, front: seq<File>, last: File)
    requires Sorted(files) == front + [last]
    ensures files != [] && Newest(files) == last
  {
    hide Sorted;
  }

  lemma AppendIsProper(text: Text, entry: Text)
    requires !IsBlank(entry) && Trailing(entry) == 1
    ensures text + entry != [] && Trailing(text + entry) == 1
  {
    if text == [] {
      assert text + entry == entry;
    } else {
      LineCountOfAppend(text, entry);
    }
  }

  /** What `initializeDeveloper` puts into the first journal. */
  function FirstJournal(developer: Text, today: Text): Text
  {
    Ascii("# Journal - ") + developer + Ascii(" (Part 1)\n\n> AI development session journal\n> Started: ") + today
    + Ascii("\n\n---") + [NEWLINE] + [NEWLINE]
  }

  /** A fresh journal ends with two newlines: its first session may exceed the
      bound by one line without a rotation. */
  lemma FirstSessionMayOverflow(developer: Text, number: nat, s: Session, maxLines: nat)
    requires LineCount(FirstJournal(developer, s.today)) + LineCount(Entry(number, s)) == maxLines
    ensures var files := [File(JournalName(1), FirstJournal(developer, s.today))];
      var w := Choose(files, developer, Entry(number, s), maxLines, s.today);
      w.Some? && !w.value.rotated && LineCount(w.value.text) == maxLines + 1
  {
    hide Entry, LineCount, FirstJournal, Header, Number;
    var f := File(JournalName(1), FirstJournal(developer, s.today));
    SortedOne(f);
    FirstJournalTrails(developer, s.today);
    EntryIsProper(number, s);
    LineCountOfAppend(f.text, Entry(number, s));
  }

  lemma SortedOne(f: File)
    ensures Sorted([f]) == [f]
  {
    assert [f][..0] == [];
  }

  lemma FirstJournalTrails(developer: Text, today: Text)
    ensures FirstJournal(developer, today) != [] && Trailing(FirstJournal(developer, today)) == 2
  {
    var body := Ascii("# Journal - ") + developer + Ascii(" (Part 1)\n\n> AI development session journal\n> Started: ")
      + today + Ascii("\n\n---");
    DashEnds();
    assert body[|body| - 1] == 0x2D;
    BlankEnds();
    var two: Text := [NEWLINE, NEWLINE];
    assert two == [NEWLINE] + [NEWLINE];
    TrimEndOfConcat([NEWLINE], [NEWLINE]);
    NewlinesConcat([NEWLINE], [NEWLINE]);
    TrimEndOfConcat(body, two);
    assert TrimEnd(body) == body;
    assert FirstJournal(developer, today) == body + two;
    assert (body + two)[|body|..] == two;
  }

  lemma DashEnds()
    ensures var d := Ascii("\n\n---"); |d| == 5 && d[4] == 0x2D
  {
  }
}
