/** The two small files by which `pactile init` remembers who is joining: the
    `.pending-<task>` marker and the `.developer` identity. */
module InitMarker {
  import opened JsText
  import opened JsString = JsonString
  import opened Options

  /** A directory name below `.pactile/tasks`. `Join(s)` is `00-join-<s>`. */
  datatype TaskName = Bootstrap | Join(slug: Text) | Other(name: Text)

  /** `slugifyDeveloperName`: left abstract but for one fact, that surrounding
      white space does not matter to it. */
  ghost predicate IsSlugger(slug: Text -> Text)
  {
    forall name :: slug(Trim(name)) == slug(name)
  }

  // ---- Names ----

  const DOT: Text := Ascii(".")
  const DOT_DOT: Text := Ascii("..")
  const MAX_NAME_LENGTH := 256
  const MAX_MARKER_BYTES := 2048

  predicate HasControl(value: Text)
  {
    exists i :: 0 <= i < |value| && (value[i] < 0x20 || value[i] == 0x7F)
  }

  /** `normalizeInitJoinerDeveloperName(value, task) !== null` */
  predicate NameFits(value: Text, task: TaskName, slug: Text -> Text)
  {
    && value != []
    && |value| <= MAX_NAME_LENGTH
    && Trim(value) == value
    && value != DOT && value != DOT_DOT
    && !HasControl(value)
    && Utf8Length(value) <= MAX_NAME_LENGTH * 4
    && task == Join(slug(value))
  }

  // ---- The marker file ----

  const MARKER_LINE: Text := Ascii("Task creation was interrupted; retry pactile init.")
  const NEWLINE: Unit := 0x0A
  const MARKER_TEXT: Text := MARKER_LINE + [NEWLINE]
  const JOINER_TAG: Text := Ascii("joiner:v1:")
  const JOINER_PREFIX: Text := MARKER_TEXT + JOINER_TAG

  /** What a valid marker records: nobody in particular, or one developer. */
  datatype Marker = Anonymous | Named(name: Text)

  /** `initTaskMarkerContent`; an empty `developer` is an absent one. */
  function MarkerContent(task: TaskName, developer: Text, slug: Text -> Text): Text
  {
    if developer != [] && NameFits(Trim(developer), task, slug)
    then JOINER_PREFIX + Quote(Trim(developer)) + [NEWLINE]
    else MARKER_TEXT
  }

  /** `readInitTaskMarker` on the content of an existing regular file. */
  function ReadMarker(task: TaskName, content: Text, slug: Text -> Text): Option<Marker>
  {
    if Utf8Length(content) > MAX_MARKER_BYTES then None
    else if content == MARKER_TEXT then Some(Anonymous)
    else if !(JOINER_PREFIX <= content) || content[|content| - 1] != NEWLINE then None
    else
      assert content[|JOINER_PREFIX| - 1] == JOINER_PREFIX[|JOINER_PREFIX| - 1] != NEWLINE;
      var name :- ParseJsonString(content[|JOINER_PREFIX|..|content| - 1]);
      if NameFits(name, task, slug) then Some(Named(name)) else None
  }

  lemma PrefixIsPlain()
    ensures |JOINER_PREFIX| == 61
    ensures WellFormed(JOINER_PREFIX) && Utf8Length(JOINER_PREFIX) == 61
    ensures JOINER_PREFIX[60] < 0x80
    ensures WellFormed(MARKER_TEXT) && Utf8Length(MARKER_TEXT) == 51
  {
    PlainIsWellFormed(JOINER_PREFIX);
    PlainIsWellFormed(MARKER_TEXT);
  }

  /** The size of a marker stays well below what the reader accepts. */
  lemma MarkerIsSmall(name: Text)
    requires |name| <= MAX_NAME_LENGTH
    ensures Utf8Length(JOINER_PREFIX + Quote(name) + [NEWLINE]) <= 61 + 2 + 1 + 6 * MAX_NAME_LENGTH == 1600
  {
    var close := [QUOTE, NEWLINE];
    PrefixIsPlain();
    EscapeLength(name);
    EscapeIsWellFormed(name);
    assert Utf8Length(close) == 2 by {
      assert close[1..] == [NEWLINE];
      assert [NEWLINE][1..] == [];
    }
    EndsBelowSurrogates(Escape(name));
    Utf8LengthConcat(Escape(name), close);
    var open := [QUOTE];
    assert open[1..] == [];
    Utf8LengthConcat(open, Escape(name) + close);
    Utf8LengthConcat(JOINER_PREFIX, open + (Escape(name) + close));
    assert JOINER_PREFIX + Quote(name) + [NEWLINE] == JOINER_PREFIX + (open + (Escape(name) + close));
  }

  lemma {:induction false} EndsBelowSurrogates(t: Text)
    requires WellFormed(t)
    ensures t == [] || !IsHigh(t[|t| - 1])
    decreases |t|
  {
    if t != [] {
      if IsHigh(t[0]) {
        EndsBelowSurrogates(t[2..]);
      } else {
        EndsBelowSurrogates(t[1..]);
      }
    }
  }

  lemma NamedMarkerReads(task: TaskName, name: Text, slug: Text -> Text)
    requires NameFits(name, task, slug)
    ensures ReadMarker(task, JOINER_PREFIX + Quote(name) + [NEWLINE], slug) == Some(Named(name))
  {
    var content := JOINER_PREFIX + Quote(name) + [NEWLINE];
    MarkerIsSmall(name);
    PrefixIsPlain();
    QuoteRoundTrip(name);
    assert |content| > |MARKER_TEXT|;
    assert JOINER_PREFIX <= content;
    assert content[|JOINER_PREFIX|..|content| - 1] == Quote(name);
  }

  /** Marker round trip: whatever name init was given, the reader accepts the
      marker written for it and recovers exactly that name, or no name when the
      marker format cannot carry it. The file survives UTF-8. */
  lemma MarkerRoundTrip(task: TaskName, developer: Text, slug: Text -> Text)
    ensures ReadMarker(task, MarkerContent(task, developer, slug), slug)
         == Some(if developer != [] && NameFits(Trim(developer), task, slug)
                 then Named(Trim(developer)) else Anonymous)
    ensures WellFormed(MarkerContent(task, developer, slug))
  {
    PrefixIsPlain();
    if developer != [] && NameFits(Trim(developer), task, slug) {
      NamedMarkerReads(task, Trim(developer), slug);
      MarkerIsWellFormed(Trim(developer));
    }
  }

  lemma MarkerIsWellFormed(name: Text)
    ensures WellFormed(JOINER_PREFIX + Quote(name) + [NEWLINE])
  {
    PrefixIsPlain();
    EscapeIsWellFormed(name);
    PlainIsWellFormed([QUOTE, NEWLINE]);
    PlainIsWellFormed([QUOTE]);
    WellFormedConcat(Escape(name), [QUOTE, NEWLINE]);
    WellFormedConcat([QUOTE], Escape(name) + [QUOTE, NEWLINE]);
    WellFormedConcat(JOINER_PREFIX, [QUOTE] + (Escape(name) + [QUOTE, NEWLINE]));
    assert JOINER_PREFIX + Quote(name) + [NEWLINE]
        == JOINER_PREFIX + ([QUOTE] + (Escape(name) + [QUOTE, NEWLINE]));
  }

  /** The byte limit on names is implied by the limit on their length. */
  lemma ByteLimitRedundant(value: Text)
    requires |value| <= MAX_NAME_LENGTH
    ensures Utf8Length(value) <= MAX_NAME_LENGTH * 4
  {
    Utf8LengthBound(value);
  }

  // ---- The identity file ----

  const NAME_KEY: Text := Ascii("name=")

  /** What `initializeDeveloper` accepts: a trimmed single path segment. */
  predicate IsSegment(developer: Text)
  {
    && developer != [] && Trim(developer) == developer
    && developer != DOT && developer != DOT_DOT
    && forall i :: 0 <= i < |developer| ==> developer[i] !in {0x2F, 0x5C, 0x0D, 0x0A}
  }

  /** The content `initializeDeveloper` writes; `stamp` is its second line. */
  function IdentityText(developer: Text, stamp: Text): Text
  {
    NAME_KEY + developer + [NEWLINE] + stamp
  }

  /** Up to the first line terminator. */
  function FirstLine(t: Text): (line: Text)
    ensures line <= t
    ensures forall i :: 0 <= i < |line| ==> !IsLineTerminator(line[i])
    ensures |line| < |t| ==> IsLineTerminator(t[|line|])
  {
    if t == [] || IsLineTerminator(t[0]) then [] else [t[0]] + FirstLine(t[1..])
  }

  /** `readDeveloper` on an existing file: the first line that starts with
      `name=`, trimmed, if it names anybody. */
  function ReadDeveloper(content: Text): Option<Text>
  {
    var line := FirstLine(content);
    if NAME_KEY <= line then
      var name := Trim(line[|NAME_KEY|..]);
      if name == [] then None else Some(name)
    else if |line| == |content| then None
    else ReadDeveloper(content[|line| + 1..])
  }

  lemma {:induction false} ReadDeveloperIsTrimmed(content: Text)
    ensures ReadDeveloper(content).Some? ==>
      ReadDeveloper(content).value != [] && Trim(ReadDeveloper(content).value) == ReadDeveloper(content).value
    decreases |content|
  {
    var line := FirstLine(content);
    if NAME_KEY <= line {
      TrimOfTrimmed(line[|NAME_KEY|..]);
    } else if |line| < |content| {
      ReadDeveloperIsTrimmed(content[|line| + 1..]);
    }
  }

  /** No line terminator other than those `initializeDeveloper` rejects. */
  predicate ReadsBack(developer: Text)
  {
    forall i :: 0 <= i < |developer| ==> developer[i] != 0x2028 && developer[i] != 0x2029
  }

  lemma FirstLineUnique(t: Text, line: Text)
    requires line <= t
    requires forall i :: 0 <= i < |line| ==> !IsLineTerminator(line[i])
    requires |line| < |t| && IsLineTerminator(t[|line|])
    ensures FirstLine(t) == line
  {
    var first := FirstLine(t);
    assert forall i :: 0 <= i < |first| ==> first[i] == t[i];
    assert forall i :: 0 <= i < |line| ==> line[i] == t[i];
    assert first == t[..|first|] && line == t[..|line|];
  }

  /** An identity that was just written reads back as the same name exactly when
      the name holds no U+2028 or U+2029. */
  lemma IdentityRoundTrip(developer: Text, stamp: Text)
    requires IsSegment(developer)
    ensures ReadDeveloper(IdentityText(developer, stamp)).Some?
    ensures ReadDeveloper(IdentityText(developer, stamp)) == Some(developer) <==> ReadsBack(developer)
  {
    var head := FirstLine(developer);
    IdentityFirstLine(developer, stamp);
    assert (NAME_KEY + head)[|NAME_KEY|..] == head;
    TrimOfLine(developer);
  }

  lemma TrimOfLine(developer: Text)
    requires IsSegment(developer)
    ensures Trim(FirstLine(developer)) != []
    ensures Trim(FirstLine(developer)) == developer <==> ReadsBack(developer)
  {
    var head := FirstLine(developer);
    IdentityFirstLine(developer, []);
    TrimOfTrimmed(developer);
    assert head[0] == developer[0];
    assert TrimStart(head) == head;
    WholeLineIff(developer);
    assert |head| == |developer| ==> head == developer;
  }

  lemma WholeLineIff(developer: Text)
    requires IsSegment(developer)
    ensures |FirstLine(developer)| == |developer| <==> ReadsBack(developer)
  {
    var head := FirstLine(developer);
    assert forall i :: 0 <= i < |head| ==> head[i] == developer[i];
  }

  lemma IdentityFirstLine(developer: Text, stamp: Text)
    requires IsSegment(developer)
    ensures FirstLine(IdentityText(developer, stamp)) == NAME_KEY + FirstLine(developer)
    ensures FirstLine(developer) != []
  {
    var content := IdentityText(developer, stamp);
    var line := NAME_KEY + FirstLine(developer);
    TrimOfTrimmed(developer);
    assert !IsSpace(developer[0]);
    assert content[|NAME_KEY|..] == developer + [NEWLINE] + stamp;
    assert line <= content;
    FirstLineUnique(content, line);
  }
}
