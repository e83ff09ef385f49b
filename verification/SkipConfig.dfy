/** The `update.skip` list of `config.yaml`: the line scanner that reads it and
    the one that edits it. */
module SkipConfig {
  import opened JsText
  import opened Options

  // ---- What a line looks like, white space at its end removed ----

  const SPACE: Unit := 0x20
  const TAB: Unit := 0x09
  const DASH: Unit := 0x2D
  const HASH: Unit := 0x23
  const UPDATE_KEY: Text := Ascii("update:")
  const SKIP_KEY: Text := Ascii("skip:")

  /** `/^update:\s*$/` */
  predicate IsUpdate(line: Text) { TrimEnd(line) == UPDATE_KEY }

  predicate IsIndented(line: Text) { line != [] && IsSpace(line[0]) }

  /** `/^\s+skip:\s*$/` */
  predicate IsSkip(line: Text) { IsIndented(line) && Trim(line) == SKIP_KEY }

  /** Neither one nor the other scanner looks at blank lines and comments. */
  predicate IsQuiet(line: Text) { TrimEnd(line) == [] || line[0] == HASH }

  predicate StartsWithSpace(line: Text) { line != [] && line[0] == SPACE }

  predicate IsQuote(u: Unit) { u == 0x22 || u == 0x27 }

  /** `replace(/^['"]|['"]$/g, "")` */
  function StripQuotes(t: Text): Text
  {
    var a := if t != [] && IsQuote(t[0]) then t[1..] else t;
    if a != [] && IsQuote(a[|a| - 1]) then a[..|a| - 1] else a
  }

  /** `/^\s+-\s+(.+)$/`, the entry unquoted. */
  function ItemOf(line: Text): Option<Text>
  {
    var body := Trim(line);
    if !IsIndented(line) || |body| < 2 || body[0] != DASH || !IsSpace(body[1]) then None
    else
      var entry := TrimStart(body[1..]);
      if entry == [] || exists i :: 0 <= i < |entry| && IsLineTerminator(entry[i]) then None
      else Some(StripQuotes(entry))
  }

  predicate IsItem(line: Text) { ItemOf(line).Some? }

  // ---- The reader ----

  datatype Mode = Outside | InUpdate | InSkip

  /** Where the scanner is after a line. */
  function Next(mode: Mode, line: Text): Mode
  {
    if IsUpdate(line) then InUpdate
    else if !mode.Outside? && IsSkip(line) then InSkip
    else if IsQuiet(line) then mode
    else if mode.InSkip? then if IsItem(line) then InSkip else Outside
    else if mode.InUpdate? && !StartsWithSpace(line) then Outside
    else mode
  }

  predicate Collects(mode: Mode, line: Text)
  {
    mode.InSkip? && IsItem(line)
  }

  /** What one line adds to the skip list. */
  function Entry(mode: Mode, line: Text): seq<Text>
  {
    if Collects(mode, line) then [ItemOf(line).value] else []
  }

  /** The skip list of `lines`, the scanner being in `mode` before them. */
  function Read(lines: seq<Text>, mode: Mode): seq<Text>
    decreases |lines|
  {
    if lines == [] then [] else Entry(mode, lines[0]) + Read(lines[1..], Next(mode, lines[0]))
  }

  function ModeAfter(lines: seq<Text>, mode: Mode): Mode
    decreases |lines|
  {
    if lines == [] then mode else ModeAfter(lines[1..], Next(mode, lines[0]))
  }

  lemma {:induction false} ReadConcat(a: seq<Text>, b: seq<Text>, mode: Mode)
    ensures Read(a + b, mode) == Read(a, mode) + Read(b, ModeAfter(a, mode))
    ensures ModeAfter(a + b, mode) == ModeAfter(b, ModeAfter(a, mode))
    decreases |a|
  {
    hide Entry, Next;
    if a == [] {
      assert a + b == b;
    } else {
      assert (a + b)[1..] == a[1..] + b;
      ReadConcat(a[1..], b, Next(mode, a[0]));
    }
  }

  /** An item is neither header nor quiet. */
  lemma ItemIsItem(line: Text)
    requires IsItem(line)
    ensures !IsUpdate(line) && !IsSkip(line) && !IsQuiet(line)
  {
    hide Trim, TrimEnd, TrimStart;
    assert IsIndented(line) && Trim(line) != [] && Trim(line)[0] == DASH;
    assert SKIP_KEY[0] != DASH;
    assert UPDATE_KEY[0] == 0x75;
    TrimKeepsHead(line);
  }

  lemma TrimKeepsHead(line: Text)
    requires Trim(line) != [] && line != []
    ensures TrimEnd(line) != [] && TrimEnd(line)[0] == line[0]
  {
    var a, b := TrimStart(line), Trim(line);
    TrimStartIsSuffix(line);
    assert !IsSpace(a[|b| - 1]);
    assert a[|b| - 1] == line[|line| - |a| + |b| - 1];
  }

  /** `loadUpdateSkipPaths` on the lines of the file. */
  method LoadUpdateSkipPaths(lines: seq<Text>) returns (paths: seq<Text>)
    ensures paths == Read(lines, Outside)
  {
    hide IsUpdate, IsSkip, IsQuiet, ItemOf, Trim, StartsWithSpace;
    paths := [];
    var inUpdate, inSkip := false, false;
    for i := 0 to |lines|
      invariant inSkip ==> inUpdate
      invariant ModeOf(inUpdate, inSkip) == ModeAfter(lines[..i], Outside)
      invariant paths == Read(lines[..i], Outside)
    {
      var line := lines[i];
      assert lines[..i + 1] == lines[..i] + [line];
      ReadConcat(lines[..i], [line], Outside);
      OneLine(line, ModeOf(inUpdate, inSkip));
      if IsItem(line) {
        ItemIsItem(line);
      }
      if IsUpdate(line) {
        inUpdate, inSkip := true, false;
        continue;
      }
      if inUpdate && IsSkip(line) {
        inSkip := true;
        continue;
      }
      if inSkip {
        var item := ItemOf(line);
        if item.Some? {
          paths := paths + [item.value];
          continue;
        }
        if !IsQuiet(line) {
          inSkip, inUpdate := false, false;
        }
      }
      if inUpdate && !IsQuiet(line) && !StartsWithSpace(line) {
        inUpdate, inSkip := false, false;
      }
    }
    assert lines[..|lines|] == lines;
  }

  function ModeOf(inUpdate: bool, inSkip: bool): Mode
  {
    if !inUpdate then Outside else if inSkip then InSkip else InUpdate
  }

  lemma OneLine(line: Text, mode: Mode)
    ensures Read([line], mode) == Entry(mode, line) && ModeAfter([line], mode) == Next(mode, line)
  {
    hide Entry, Next;
    assert [line][1..] == [];
  }
}
