/** The marker and the identity file seen from outside: which names they carry, and
    which texts are accepted. */
module MarkerFormat {
  import opened JsText
  import opened JsString = JsonString
  import opened Options
  import opened InitMarker

  const FIRST_LINE: Text := Ascii("Task creation was interrupted; retry pactile init.") + [0x0A]

  /** The names a marker for `task` can carry. */
  predicate IsCarried(name: Text, task: TaskName, slug: Text -> Text)
  {
    && Trim(name) == name && 0 < |name| <= 256 && name !in {Ascii("."), Ascii("..")}
    && (forall i :: 0 <= i < |name| ==> name[i] >= 0x20 && name[i] != 0x7F)
    && task == Join(slug(name))
  }

  lemma CarriedIff(name: Text, task: TaskName, slug: Text -> Text)
    ensures NameFits(name, task, slug) <==> IsCarried(name, task, slug)
  {
    if |name| <= 256 {
      ByteLimitRedundant(name);
    }
  }

  /** What is written for a developer, and what is read from it: the name, if the
      marker can carry it, and otherwise that somebody was interrupted. */
  lemma WhoIsRecorded(task: TaskName, developer: Text, slug: Text -> Text)
    ensures var name, content := Trim(developer), MarkerContent(task, developer, slug);
      if IsCarried(name, task, slug)
      then content == FIRST_LINE + Ascii("joiner:v1:") + Quote(name) + [0x0A] && ReadMarker(task, content, slug) == Some(Named(name))
      else content == FIRST_LINE && ReadMarker(task, content, slug) == Some(Anonymous)
  {
    hide NameFits, Quote, Trim;
    CarriedIff(Trim(developer), task, slug);
    MarkerRoundTrip(task, developer, slug);
    TrimOfNothing();
  }

  lemma TrimOfNothing()
    ensures Trim([]) == []
  {
  }

  /** The reader accepts these texts and no others. */
  lemma TheseAreRead(task: TaskName, content: Text, slug: Text -> Text, name: Text)
    ensures ReadMarker(task, content, slug) == Some(Anonymous) <==> content == FIRST_LINE
    ensures ReadMarker(task, content, slug) == Some(Named(name))
       <==> && Utf8Length(content) <= 2048 && IsCarried(name, task, slug)
            && exists json :: content == FIRST_LINE + Ascii("joiner:v1:") + json + [0x0A] && ParseJsonString(json) == Some(name)
  {
    hide NameFits, ParseJsonString, Utf8Length;
    PrefixIsPlain();
    CarriedIff(name, task, slug);
    if ReadMarker(task, content, slug) == Some(Named(name)) {
      var json := content[|JOINER_PREFIX|..|content| - 1];
      assert content == JOINER_PREFIX + json + [NEWLINE];
    }
    if json :| content == FIRST_LINE + Ascii("joiner:v1:") + json + [0x0A] && ParseJsonString(json) == Some(name) {
      assert content[|JOINER_PREFIX|..|content| - 1] == json && JOINER_PREFIX <= content;
      assert |content| > |MARKER_TEXT|;
    }
  }

  /** The names that make a directory below the workspace, and so an identity. */
  lemma SegmentIff(name: Text)
    ensures IsSegment(name)
       <==> && name != [] && Trim(name) == name && name !in {Ascii("."), Ascii("..")}
            && forall i :: 0 <= i < |name| ==> name[i] !in {Ascii("/")[0], Ascii("\\")[0], 0x0D, 0x0A}
  {
    assert Ascii("/")[0] == 0x2F && Ascii("\\")[0] == 0x5C;
  }

  /** No line of `before` is a line `name=`; it is empty or ends a line. */
  predicate NamesNobody(before: Text)
  {
    if before == [] then true
    else
      var line := FirstLine(before);
      |line| < |before| && !(Ascii("name=") <= line) && NamesNobody(before[|line| + 1..])
  }

  lemma FirstLineOf(line: Text, rest: Text)
    requires forall i :: 0 <= i < |line| ==> !IsLineTerminator(line[i])
    requires rest == [] || IsLineTerminator(rest[0])
    ensures FirstLine(line + rest) == line
  {
    var first := FirstLine(line + rest);
    assert forall i :: 0 <= i < |first| ==> first[i] == (line + rest)[i];
    assert rest != [] ==> (line + rest)[|line|] == rest[0];
    assert first == (line + rest)[..|first|] && line == (line + rest)[..|line|];
  }

  /** What a file names whose first line is `line`. */
  function NamedBy(line: Text, others: Option<Text>): Option<Text>
  {
    if Ascii("name=") <= line then
      var name := Trim(line[|Ascii("name=")|..]);
      if name == [] then None else Some(name)
    else others
  }

  lemma ReadLine(content: Text)
    ensures var line := FirstLine(content);
      ReadDeveloper(content)
      == NamedBy(line, if |line| == |content| then None else ReadDeveloper(content[|line| + 1..]))
  {
    hide Trim, FirstLine;
  }

  /** Reading a text that begins with a line. */
  lemma ReadFirst(line: Text, rest: Text)
    requires forall i :: 0 <= i < |line| ==> !IsLineTerminator(line[i])
    requires rest == [] || IsLineTerminator(rest[0])
    ensures ReadDeveloper(line + rest) == NamedBy(line, if rest == [] then None else ReadDeveloper(rest[1..]))
  {
    hide ReadDeveloper, IsLineTerminator, FirstLine, NamedBy;
    FirstLineOf(line, rest);
    ReadLine(line + rest);
    if rest != [] {
      assert (line + rest)[|line| + 1..] == rest[1..];
    }
  }

  lemma KeyThenValue(value: Text, rest: Text)
    requires forall i :: 0 <= i < |value| ==> !IsLineTerminator(value[i])
    requires rest == [] || IsLineTerminator(rest[0])
    ensures ReadDeveloper(NAME_KEY + value + rest) == if Trim(value) == [] then None else Some(Trim(value))
  {
    hide Trim, ReadDeveloper;
    KeyHasNoBreak();
    var line := NAME_KEY + value;
    assert line[|NAME_KEY|..] == value && NAME_KEY <= line;
    ReadFirst(line, rest);
  }

  lemma PassedOver(line: Text, after: Text)
    requires after != [] && IsLineTerminator(after[0]) && !(Ascii("name=") <= line)
    requires forall i :: 0 <= i < |line| ==> !IsLineTerminator(line[i])
    ensures ReadDeveloper(line + after) == ReadDeveloper(after[1..])
  {
    hide ReadDeveloper, Trim, IsLineTerminator, Ascii;
    ReadFirst(line, after);
  }

  lemma SplitAt(before: Text, n: nat, tail: Text)
    requires n < |before|
    ensures var after := before[n..] + tail;
      before + tail == before[..n] + after && after[0] == before[n] && after[1..] == before[n + 1..] + tail
  {
  }

  lemma NobodyHead(before: Text)
    requires before != [] && NamesNobody(before)
    ensures var line := FirstLine(before);
      && |line| < |before| && line == before[..|line|] && !(Ascii("name=") <= line)
      && IsLineTerminator(before[|line|]) && NamesNobody(before[|line| + 1..])
      && forall i :: 0 <= i < |line| ==> !IsLineTerminator(line[i])
  {
    hide IsLineTerminator, Ascii;
  }

  /** A line that is no identity is passed over. */
  lemma StepOver(before: Text, tail: Text)
    requires before != [] && NamesNobody(before)
    ensures var line := FirstLine(before);
      && |line| < |before| && NamesNobody(before[|line| + 1..])
      && ReadDeveloper(before + tail) == ReadDeveloper(before[|line| + 1..] + tail)
  {
    hide ReadDeveloper, Trim, IsLineTerminator, Ascii, FirstLine, NamesNobody;
    NobodyHead(before);
    var line := FirstLine(before);
    SplitAt(before, |line|, tail);
    PassedOver(line, before[|line|..] + tail);
  }

  /** The identity is what stands behind the first `name=` at the start of a line, up to
      the end of that line, without white space around it. */
  lemma {:induction false} IdentityIsRead(before: Text, value: Text, rest: Text)
    requires NamesNobody(before) && forall i :: 0 <= i < |value| ==> !IsLineTerminator(value[i])
    requires rest == [] || IsLineTerminator(rest[0])
    ensures ReadDeveloper(before + (Ascii("name=") + value + rest))
         == if Trim(value) == [] then None else Some(Trim(value))
    decreases |before|
  {
    hide Trim, ReadDeveloper, Ascii, IsLineTerminator, FirstLine;
    var tail := Ascii("name=") + value + rest;
    if before == [] {
      assert before + tail == tail;
      KeyThenValue(value, rest);
    } else {
      StepOver(before, tail);
      IdentityIsRead(before[|FirstLine(before)| + 1..], value, rest);
    }
  }

  lemma KeyHasNoBreak()
    ensures forall i :: 0 <= i < |Ascii("name=")| ==> !IsLineTerminator(Ascii("name=")[i])
  {
  }

  /** A file without such a line names nobody. */
  lemma {:induction false} NobodyIsRead(before: Text)
    requires NamesNobody(before)
    ensures ReadDeveloper(before) == None
    decreases |before|
  {
    if before != [] {
      NobodyIsRead(before[|FirstLine(before)| + 1..]);
    }
  }
}
