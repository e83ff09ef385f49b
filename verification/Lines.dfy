/** Texts as lists of lines. */
module Lines {
  import opened JsText

  const NEWLINE: Unit := 0x0A
  const RETURN: Unit := 0x0D
  const LF: Text := [NEWLINE]
  const CRLF: Text := [RETURN, NEWLINE]

  /** `text.split("\n")` */
  function Split(text: Text): (lines: seq<Text>)
    ensures lines != []
  {
    if text == [] then [[]]
    else
      var rest := Split(text[1..]);
      if text[0] == NEWLINE then [[]] + rest else [[text[0]] + rest[0]] + rest[1..]
  }

  function DropReturn(line: Text): Text
  {
    if line != [] && line[|line| - 1] == RETURN then line[..|line| - 1] else line
  }

  /** `text.split(/\r?\n/)` */
  function SplitLines(text: Text): seq<Text>
  {
    var lines := Split(text);
    var n := |lines| - 1;
    seq(n, i requires 0 <= i < n => DropReturn(lines[i])) + [lines[n]]
  }

  function Join(lines: seq<Text>, nl: Text): Text
  {
    if lines == [] then [] else if |lines| == 1 then lines[0] else lines[0] + nl + Join(lines[1..], nl)
  }

  predicate IsLine(line: Text) { forall i :: 0 <= i < |line| ==> line[i] != NEWLINE }

  predicate AreLines(lines: seq<Text>) { forall line :: line in lines ==> IsLine(line) }

  lemma PlainLine(s: string)
    requires '\n' !in s && forall c :: c in s ==> (c as int) < 0x80
    ensures IsLine(Ascii(s))
  {
    forall i | 0 <= i < |s|
      ensures Ascii(s)[i] != NEWLINE
    {
      assert s[i] in s;
    }
  }

  lemma {:induction false} SplitGivesLines(text: Text)
    ensures AreLines(Split(text))
    decreases |text|
  {
    if text != [] {
      SplitGivesLines(text[1..]);
      var rest := Split(text[1..]);
      assert rest[0] in rest;
      assert forall line :: line in rest[1..] ==> line in rest;
    }
  }

  lemma {:induction false} SplitFirst(line: Text, rest: Text)
    requires IsLine(line)
    ensures Split(line + (LF + rest)) == [line] + Split(rest)
    ensures Split(line) == [line]
    decreases |line|
  {
    if line == [] {
      assert line + (LF + rest) == LF + rest;
      assert (LF + rest)[1..] == rest;
    } else {
      assert (line + (LF + rest))[1..] == line[1..] + (LF + rest);
      SplitFirst(line[1..], rest);
      assert [line[0]] + line[1..] == line;
    }
  }

  lemma {:induction false} JoinBlank(lines: seq<Text>, nl: Text)
    requires lines != []
    ensures Join(lines + [[]], nl) == Join(lines, nl) + nl
    decreases |lines|
  {
    if |lines| == 1 {
      assert (lines + [[]])[1..] == [[]];
    } else {
      assert (lines + [[]])[1..] == lines[1..] + [[]];
      JoinBlank(lines[1..], nl);
      var rest := Join(lines[1..], nl);
      assert lines[0] + nl + (rest + nl) == lines[0] + nl + rest + nl;
    }
  }

  lemma SplitLinesAreLines(text: Text)
    ensures AreLines(SplitLines(text))
  {
    SplitGivesLines(text);
    var lines := Split(text);
    forall i | 0 <= i < |lines|
      ensures IsLine(SplitLines(text)[i])
    {
      assert lines[i] in lines;
    }
  }

  // ---- White space at the end of a line ----

  lemma {:induction false} TrimStartAppend(s: Text, u: Unit)
    ensures TrimStart(s + [u]) == if TrimStart(s) == [] then TrimStart([u]) else TrimStart(s) + [u]
    decreases |s|
  {
    if s == [] {
      assert s + [u] == [u];
    } else {
      assert (s + [u])[1..] == s[1..] + [u];
      TrimStartAppend(s[1..], u);
    }
  }

  lemma {:induction false} TrimOfTrimEnd(s: Text)
    ensures Trim(TrimEnd(s)) == Trim(s) && TrimEnd(TrimEnd(s)) == TrimEnd(s)
    decreases |s|
  {
    hide Trim, TrimStart;
    if s != [] && IsSpace(s[|s| - 1]) {
      var front, u := s[..|s| - 1], s[|s| - 1];
      assert s == front + [u];
      TrimDropsSpace(front, u);
      TrimOfTrimEnd(front);
    }
  }

  lemma TrimDropsSpace(s: Text, u: Unit)
    requires IsSpace(u)
    ensures Trim(s + [u]) == Trim(s)
  {
    TrimStartAppend(s, u);
    var a := TrimStart(s);
    assert (a + [u])[..|a|] == a;
    assert [u][1..] == [];
    assert TrimStart([u]) == [];
    assert a == [] || TrimEnd(a + [u]) == TrimEnd(a);
  }

  /** The same lines up to white space at their ends. */
  predicate Similar(a: seq<Text>, b: seq<Text>)
  {
    |a| == |b| && forall i :: 0 <= i < |a| ==> TrimEnd(a[i]) == TrimEnd(b[i])
  }

  lemma ReturnIsSpace(line: Text)
    ensures TrimEnd(line + [RETURN]) == TrimEnd(line)
    ensures TrimEnd(DropReturn(line)) == TrimEnd(line)
  {
    assert (line + [RETURN])[..|line|] == line;
  }

  lemma {:induction false} SplitOfJoin(lines: seq<Text>, nl: Text)
    requires AreLines(lines) && lines != [] && (nl == LF || nl == CRLF)
    ensures Similar(Split(Join(lines, nl)), lines)
    decreases |lines|
  {
    hide TrimEnd, Split;
    if |lines| == 1 {
      SplitFirst(lines[0], []);
    } else {
      var rest := Join(lines[1..], nl);
      assert forall line :: line in lines[1..] ==> line in lines;
      SplitOfJoin(lines[1..], nl);
      var first := if nl == LF then lines[0] else lines[0] + [RETURN];
      assert lines[0] + nl + rest == first + (LF + rest);
      assert IsLine(lines[0]);
      SplitFirst(first, rest);
      ReturnIsSpace(lines[0]);
      SimilarCons(first, Split(rest), lines);
    }
  }

  lemma SimilarCons(first: Text, rest: seq<Text>, lines: seq<Text>)
    requires lines != [] && TrimEnd(first) == TrimEnd(lines[0]) && Similar(rest, lines[1..])
    ensures Similar([first] + rest, lines)
  {
    hide TrimEnd;
    forall i | 0 <= i < |lines|
      ensures TrimEnd(([first] + rest)[i]) == TrimEnd(lines[i])
    {
      assert i > 0 ==> lines[i] == lines[1..][i - 1];
    }
  }

  /** Both ways of splitting a text agree up to white space. */
  lemma SplitsAreSimilar(text: Text)
    ensures Similar(SplitLines(text), Split(text))
  {
    hide TrimEnd, Split;
    var lines := Split(text);
    forall i | 0 <= i < |lines|
      ensures TrimEnd(SplitLines(text)[i]) == TrimEnd(lines[i])
    {
      ReturnIsSpace(lines[i]);
    }
  }
}
