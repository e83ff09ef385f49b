/** Removing entries from `update.skip`: the edited file reads back as the old
    list without them. */
module SkipEditor {
  import opened JsText
  import opened Options
  import opened SkipConfig

  // ---- What the editor keeps ----

  function Without(paths: seq<Text>, drop: set<Text>): seq<Text>
  {
    if paths == [] then [] else (if paths[0] in drop then [] else [paths[0]]) + Without(paths[1..], drop)
  }

  /** The entries that are dropped, in order. */
  function Dropped(paths: seq<Text>, drop: set<Text>): seq<Text>
  {
    if paths == [] then [] else (if paths[0] in drop then [paths[0]] else []) + Dropped(paths[1..], drop)
  }

  predicate IsDropped(mode: Mode, line: Text, drop: set<Text>)
  {
    Collects(mode, line) && ItemOf(line).value in drop
  }

  function KeepItems(lines: seq<Text>, drop: set<Text>, mode: Mode): (keep: seq<bool>)
    ensures |keep| == |lines|
    decreases |lines|
  {
    if lines == [] then []
    else [!IsDropped(mode, lines[0], drop)] + KeepItems(lines[1..], drop, Next(mode, lines[0]))
  }

  predicate Recognises(mode: Mode, line: Text)
  {
    !IsUpdate(line) && !mode.Outside? && IsSkip(line)
  }

  /** The last `skip:` that the scanner recognised, or -1. */
  function LastSkip(lines: seq<Text>): (s: int)
    ensures -1 <= s < |lines|
    decreases |lines|
  {
    if lines == [] then -1
    else
      var n := |lines| - 1;
      if Recognises(ModeAfter(lines[..n], Outside), lines[n]) then n else LastSkip(lines[..n])
  }

  /** The last `update:`, or -1. */
  function LastUpdate(lines: seq<Text>): (u: int)
    ensures -1 <= u < |lines|
    ensures forall i :: u < i < |lines| ==> !IsUpdate(lines[i])
    ensures u >= 0 ==> IsUpdate(lines[u])
    decreases |lines|
  {
    if lines == [] then -1
    else if IsUpdate(lines[|lines| - 1]) then |lines| - 1
    else LastUpdate(lines[..|lines| - 1])
  }

  /** Some kept line is another key of the `update:` that precedes `lines`. */
  predicate HasOtherKey(lines: seq<Text>, keep: seq<bool>)
    requires |keep| == |lines|
    decreases |lines|
  {
    if lines == [] then false
    else if !keep[0] || IsQuiet(lines[0]) then HasOtherKey(lines[1..], keep[1..])
    else if lines[0][0] != SPACE && lines[0][0] != TAB then false
    else !IsSkip(lines[0]) || HasOtherKey(lines[1..], keep[1..])
  }

  /** The items and, when none is left, the header they stood under. */
  function KeepWithoutHeader(lines: seq<Text>, drop: set<Text>): (keep: seq<bool>)
    ensures |keep| == |lines|
  {
    var keep, s := KeepItems(lines, drop, Outside), LastSkip(lines);
    if Without(Read(lines, Outside), drop) == [] && s >= 0 then keep[s := false] else keep
  }

  /** `keep` at the end of `removeUpdateSkipPathsFromConfig`. */
  function Keeps(lines: seq<Text>, drop: set<Text>): (keep: seq<bool>)
    ensures |keep| == |lines|
  {
    if Dropped(Read(lines, Outside), drop) == [] then seq(|lines|, _ => true)
    else
      var keep, u := KeepWithoutHeader(lines, drop), LastUpdate(lines);
      if u >= 0 && Without(Read(lines, Outside), drop) == [] && !HasOtherKey(lines[u + 1..], keep[u + 1..])
      then keep[u := false] else keep
  }

  /** `lines.filter((_, i) => keep[i])` */
  function Kept(lines: seq<Text>, keep: seq<bool>): seq<Text>
    requires |keep| == |lines|
    decreases |lines|
  {
    if lines == [] then [] else (if keep[0] then [lines[0]] else []) + Kept(lines[1..], keep[1..])
  }

  function Edited(lines: seq<Text>, drop: set<Text>): seq<Text>
  {
    Kept(lines, Keeps(lines, drop))
  }

  // ---- Reading what is kept ----

  function ReadKept(lines: seq<Text>, keep: seq<bool>, mode: Mode): seq<Text>
    requires |keep| == |lines|
    decreases |lines|
  {
    if lines == [] then []
    else if keep[0] then Entry(mode, lines[0]) + ReadKept(lines[1..], keep[1..], Next(mode, lines[0]))
    else ReadKept(lines[1..], keep[1..], mode)
  }

  function ModeKept(lines: seq<Text>, keep: seq<bool>, mode: Mode): Mode
    requires |keep| == |lines|
    decreases |lines|
  {
    if lines == [] then mode
    else ModeKept(lines[1..], keep[1..], if keep[0] then Next(mode, lines[0]) else mode)
  }

  lemma {:induction false} ReadOfKept(lines: seq<Text>, keep: seq<bool>, mode: Mode)
    requires |keep| == |lines|
    ensures Read(Kept(lines, keep), mode) == ReadKept(lines, keep, mode)
    decreases |lines|
  {
    hide Entry, Next;
    if lines != [] {
      var rest := Kept(lines[1..], keep[1..]);
      if keep[0] {
        ReadOfKept(lines[1..], keep[1..], Next(mode, lines[0]));
        assert ([lines[0]] + rest)[1..] == rest;
      } else {
        ReadOfKept(lines[1..], keep[1..], mode);
        assert [] + rest == rest;
      }
    }
  }

  lemma {:induction false} ReadKeptConcat(a: seq<Text>, b: seq<Text>, ka: seq<bool>, kb: seq<bool>, mode: Mode)
    requires |ka| == |a| && |kb| == |b|
    ensures ReadKept(a + b, ka + kb, mode) == ReadKept(a, ka, mode) + ReadKept(b, kb, ModeKept(a, ka, mode))
    decreases |a|
  {
    hide Entry, Next;
    if a == [] {
      assert a + b == b && ka + kb == kb;
    } else {
      assert (a + b)[1..] == a[1..] + b && (ka + kb)[1..] == ka[1..] + kb;
      ReadKeptConcat(a[1..], b, ka[1..], kb, if ka[0] then Next(mode, a[0]) else mode);
    }
  }

  lemma {:induction false} KeepItemsConcat(a: seq<Text>, b: seq<Text>, drop: set<Text>, mode: Mode)
    ensures KeepItems(a + b, drop, mode) == KeepItems(a, drop, mode) + KeepItems(b, drop, ModeAfter(a, mode))
    decreases |a|
  {
    hide IsDropped, Next;
    if a == [] {
      assert a + b == b;
    } else {
      assert (a + b)[1..] == a[1..] + b;
      KeepItemsConcat(a[1..], b, drop, Next(mode, a[0]));
    }
  }

  lemma {:induction false} WithoutConcat(a: seq<Text>, b: seq<Text>, drop: set<Text>)
    ensures Without(a + b, drop) == Without(a, drop) + Without(b, drop)
    decreases |a|
  {
    if a == [] {
      assert a + b == b;
    } else {
      assert (a + b)[1..] == a[1..] + b;
      WithoutConcat(a[1..], b, drop);
    }
  }

  lemma {:induction false} WithoutMembers(paths: seq<Text>, drop: set<Text>)
    ensures Without(paths, drop) == [] <==> forall p :: p in paths ==> p in drop
    ensures Dropped(paths, drop) == [] <==> forall p :: p in paths ==> p !in drop
    ensures Dropped(paths, drop) == [] ==> Without(paths, drop) == paths
    ensures forall p :: p in Without(paths, drop) ==> p in paths && p !in drop
    decreases |paths|
  {
    if paths != [] {
      WithoutMembers(paths[1..], drop);
      assert paths == [paths[0]] + paths[1..];
    }
  }

  /** An item that goes away leaves the scanner where it was. */
  lemma DroppedStays(mode: Mode, line: Text, drop: set<Text>)
    ensures IsDropped(mode, line, drop) ==> mode.InSkip? && Next(mode, line) == mode
    ensures Without(Entry(mode, line), drop) == if IsDropped(mode, line, drop) then [] else Entry(mode, line)
  {
    hide IsUpdate, IsSkip, IsQuiet, ItemOf;
    if IsItem(line) {
      ItemIsItem(line);
    }
    assert Entry(mode, line) != [] ==> Entry(mode, line)[1..] == [];
  }

  /** Taking out items alone takes out exactly those entries. */
  lemma {:induction false} ItemsOnly(lines: seq<Text>, drop: set<Text>, mode: Mode)
    ensures ReadKept(lines, KeepItems(lines, drop, mode), mode) == Without(Read(lines, mode), drop)
    ensures ModeKept(lines, KeepItems(lines, drop, mode), mode) == ModeAfter(lines, mode)
    decreases |lines|
  {
    hide Entry, Next, IsDropped, Without;
    if lines == [] {
      WithoutMembers([], drop);
    } else {
      var line, next := lines[0], Next(mode, lines[0]);
      var keep := KeepItems(lines, drop, mode);
      assert keep[1..] == KeepItems(lines[1..], drop, next);
      DroppedStays(mode, line, drop);
      ItemsOnly(lines[1..], drop, next);
      WithoutConcat(Entry(mode, line), Read(lines[1..], next), drop);
    }
  }

  // ---- Headers ----

  predicate NoSkips(lines: seq<Text>, mode: Mode)
    decreases |lines|
  {
    lines == [] || (!Recognises(mode, lines[0]) && NoSkips(lines[1..], Next(mode, lines[0])))
  }

  lemma {:induction false} NoSkipsConcat(a: seq<Text>, b: seq<Text>, mode: Mode)
    ensures NoSkips(a + b, mode) <==> NoSkips(a, mode) && NoSkips(b, ModeAfter(a, mode))
    decreases |a|
  {
    hide Recognises, Next;
    if a == [] {
      assert a + b == b;
    } else {
      assert (a + b)[1..] == a[1..] + b;
      NoSkipsConcat(a[1..], b, Next(mode, a[0]));
    }
  }

  lemma NoSkipsOne(line: Text, mode: Mode)
    ensures NoSkips([line], mode) <==> !Recognises(mode, line)
    ensures NoSkips([], mode)
  {
    hide Recognises, Next;
    assert [line][1..] == [];
  }

  lemma {:induction false} LastSkipIsLast(lines: seq<Text>)
    ensures var s := LastSkip(lines);
      if s < 0 then NoSkips(lines, Outside)
      else Recognises(ModeAfter(lines[..s], Outside), lines[s]) && NoSkips(lines[s + 1..], InSkip)
    decreases |lines|
  {
    hide Recognises, Next, NoSkips, ModeAfter, Read;
    if lines == [] {
      NoSkipsOne([], Outside);
    } else {
      var n := |lines| - 1;
      var front, last := lines[..n], lines[n];
      assert lines == front + [last];
      NoSkipsConcat(front, [last], Outside);
      NoSkipsOne(last, ModeAfter(front, Outside));
      if Recognises(ModeAfter(front, Outside), last) {
        assert lines[n + 1..] == [];
        NoSkipsOne(last, InSkip);
      } else {
        LastSkipIsLast(front);
        var s := LastSkip(front);
        if s >= 0 {
          LaterStays(lines, front, last, s);
        }
      }
    }
  }

  /** A line that is no header leaves the last header the last. */
  lemma LaterStays(lines: seq<Text>, front: seq<Text>, last: Text, s: nat)
    requires lines == front + [last] && s < |front| && Recognises(ModeAfter(front[..s], Outside), front[s])
    requires NoSkips(front[s + 1..], InSkip) && !Recognises(ModeAfter(front, Outside), last)
    ensures lines[..s] == front[..s] && lines[s] == front[s] && NoSkips(lines[s + 1..], InSkip)
  {
    hide Recognises, Next, NoSkips, ModeAfter, Read;
    assert lines[s + 1..] == front[s + 1..] + [last];
    ModeThrough(front, s);
    NoSkipsConcat(front[s + 1..], [last], InSkip);
    NoSkipsOne(last, ModeAfter(front[s + 1..], InSkip));
  }

  lemma ModeThrough(lines: seq<Text>, s: nat)
    requires s < |lines| && Recognises(ModeAfter(lines[..s], Outside), lines[s])
    ensures ModeAfter(lines, Outside) == ModeAfter(lines[s + 1..], InSkip)
    ensures Read(lines, Outside) == Read(lines[..s], Outside) + Read(lines[s + 1..], InSkip)
  {
    hide Recognises, Next, Entry, Read, ModeAfter;
    var pre, post := lines[..s], lines[s + 1..];
    assert lines == pre + ([lines[s]] + post);
    assert [] + Read(post, InSkip) == Read(post, InSkip);
    ReadConcat(pre, [lines[s]] + post, Outside);
    ReadConcat([lines[s]], post, ModeAfter(pre, Outside));
    OneLine(lines[s], ModeAfter(pre, Outside));
    RecognisedIsNoItem(ModeAfter(pre, Outside), lines[s]);
  }

  lemma RecognisedIsNoItem(mode: Mode, line: Text)
    requires Recognises(mode, line)
    ensures Next(mode, line) == InSkip && Entry(mode, line) == [] && !IsItem(line)
  {
    hide IsQuiet;
    if IsItem(line) {
      ItemIsItem(line);
    }
  }

  /** Outside a skip list and without a header, nothing is read. */
  lemma {:induction false} Silent(lines: seq<Text>, drop: set<Text>, mode: Mode)
    requires NoSkips(lines, mode) && !mode.InSkip?
    ensures Read(lines, mode) == []
    ensures ReadKept(lines, KeepItems(lines, drop, mode), mode) == []
    decreases |lines|
  {
    ItemsOnly(lines, drop, mode);
    if lines != [] {
      hide IsUpdate, IsQuiet, IsItem, IsSkip;
      Silent(lines[1..], drop, Next(mode, lines[0]));
    }
    WithoutMembers([], drop);
  }

  // ---- What the removal of a header can expose ----

  /** An item behind blank lines, comments and `skip:` headers only. */
  predicate ItemComes(lines: seq<Text>)
  {
    exists j :: 0 <= j < |lines| && IsItem(lines[j]) && forall i :: 0 <= i < j ==> IsQuiet(lines[i]) || IsSkip(lines[i])
  }

  predicate Passes(line: Text) { !IsUpdate(line) && !IsSkip(line) && (IsQuiet(line) || StartsWithSpace(line)) }

  /** A `skip:` header with an item, before anything ends the `update:` block. */
  predicate ListComes(lines: seq<Text>)
  {
    exists k :: 0 <= k < |lines| && IsSkip(lines[k]) && !IsUpdate(lines[k]) && ItemComes(lines[k + 1..])
                && forall i :: 0 <= i < k ==> Passes(lines[i])
  }

  /** A line that ends a skip list although it is indented by a space. */
  predicate IsOtherKey(line: Text)
  {
    !IsUpdate(line) && !IsSkip(line) && !IsItem(line) && !IsQuiet(line) && StartsWithSpace(line)
  }

  /** After the rest of a skip list: another key of the same block, then in the
      same block one more skip list. */
  predicate SecondListComes(lines: seq<Text>)
  {
    exists e :: 0 <= e < |lines| && IsOtherKey(lines[e]) && ListComes(lines[e + 1..])
                && forall i :: 0 <= i < e ==> IsItem(lines[i]) || (IsQuiet(lines[i]) && !IsUpdate(lines[i]))
  }

  /** The header that would be removed hides a second skip list of its block. */
  predicate Exposes(lines: seq<Text>)
  {
    var s := LastSkip(lines);
    s >= 0 && ModeAfter(lines[..s], Outside).InUpdate? && SecondListComes(lines[s + 1..])
  }

  lemma ItemComesStep(lines: seq<Text>)
    ensures ItemComes(lines) <==>
      lines != [] && (IsItem(lines[0]) || ((IsQuiet(lines[0]) || IsSkip(lines[0])) && ItemComes(lines[1..])))
  {
    hide IsItem, IsQuiet, IsSkip;
    if lines != [] && (IsQuiet(lines[0]) || IsSkip(lines[0])) && ItemComes(lines[1..]) {
      var j :| 0 <= j < |lines[1..]| && IsItem(lines[1..][j])
               && forall i :: 0 <= i < j ==> IsQuiet(lines[1..][i]) || IsSkip(lines[1..][i]);
      assert IsItem(lines[j + 1]);
      assert forall i :: 0 < i < j + 1 ==> lines[i] == lines[1..][i - 1];
    }
    if ItemComes(lines) && !IsItem(lines[0]) {
      var j :| 0 <= j < |lines| && IsItem(lines[j]) && forall i :: 0 <= i < j ==> IsQuiet(lines[i]) || IsSkip(lines[i]);
      assert IsItem(lines[1..][j - 1]);
    }
  }

  lemma ListComesStep(lines: seq<Text>)
    ensures ListComes(lines) <==>
      lines != [] && ((IsSkip(lines[0]) && !IsUpdate(lines[0]) && ItemComes(lines[1..]))
                      || (Passes(lines[0]) && ListComes(lines[1..])))
  {
    hide IsItem, IsQuiet, IsSkip, IsUpdate, ItemComes, Passes;
    if lines != [] && Passes(lines[0]) && ListComes(lines[1..]) {
      var rest := lines[1..];
      var k :| 0 <= k < |rest| && IsSkip(rest[k]) && !IsUpdate(rest[k]) && ItemComes(rest[k + 1..])
               && forall i :: 0 <= i < k ==> Passes(rest[i]);
      assert lines[k + 1] == rest[k] && lines[k + 2..] == rest[k + 1..];
      assert forall i :: 0 < i < k + 1 ==> lines[i] == rest[i - 1];
    }
    if ListComes(lines) {
      var k :| 0 <= k < |lines| && IsSkip(lines[k]) && !IsUpdate(lines[k]) && ItemComes(lines[k + 1..])
               && forall i :: 0 <= i < k ==> Passes(lines[i]);
      if k > 0 {
        assert lines[1..][k - 1] == lines[k] && lines[1..][k..] == lines[k + 1..];
      }
    }
  }

  lemma SecondListComesStep(lines: seq<Text>)
    ensures SecondListComes(lines) <==>
      lines != [] && ((IsOtherKey(lines[0]) && ListComes(lines[1..]))
                      || ((IsItem(lines[0]) || (IsQuiet(lines[0]) && !IsUpdate(lines[0]))) && SecondListComes(lines[1..])))
  {
    hide IsItem, IsQuiet, IsUpdate, ListComes, IsOtherKey;
    if lines != [] && (IsItem(lines[0]) || (IsQuiet(lines[0]) && !IsUpdate(lines[0]))) && SecondListComes(lines[1..]) {
      var rest := lines[1..];
      var e :| 0 <= e < |rest| && IsOtherKey(rest[e]) && ListComes(rest[e + 1..])
               && forall i :: 0 <= i < e ==> IsItem(rest[i]) || (IsQuiet(rest[i]) && !IsUpdate(rest[i]));
      assert lines[e + 1] == rest[e] && lines[e + 2..] == rest[e + 1..];
      assert forall i :: 0 < i < e + 1 ==> lines[i] == rest[i - 1];
    }
    if SecondListComes(lines) {
      var e :| 0 <= e < |lines| && IsOtherKey(lines[e]) && ListComes(lines[e + 1..])
               && forall i :: 0 <= i < e ==> IsItem(lines[i]) || (IsQuiet(lines[i]) && !IsUpdate(lines[i]));
      if e > 0 {
        assert lines[1..][e - 1] == lines[e] && lines[1..][e..] == lines[e + 1..];
      }
    }
  }

  /** Where the kinds of lines exclude each other. */
  lemma LineKinds(line: Text)
    ensures !(IsUpdate(line) && (IsSkip(line) || IsItem(line) || IsQuiet(line) || StartsWithSpace(line)))
    ensures !(IsItem(line) && (IsSkip(line) || IsQuiet(line)))
    ensures !(IsSkip(line) && IsQuiet(line))
  {
    hide Trim, TrimEnd, ItemOf;
    if IsItem(line) {
      ItemIsItem(line);
    }
    assert UPDATE_KEY[0] == 0x75;
    if IsSkip(line) {
      TrimKeepsHead(line);
    }
  }

  // ---- Reading on without the header ----

  /** The modes of the reader before and after the removal, in step, as long as
      they differ: behind the header, behind another key, in an exposed list. */
  lemma {:induction false} ExposedList(lines: seq<Text>, drop: set<Text>)
    requires NoSkips(lines, Outside)
    ensures ReadKept(lines, KeepItems(lines, drop, Outside), InSkip) != [] <==> ItemComes(lines)
    decreases |lines|
  {
    hide IsItem, IsQuiet, IsSkip, IsUpdate, ItemComes, ListComes, Passes;
    ItemComesStep(lines);
    if lines != [] {
      LineKinds(lines[0]);
      var rest := lines[1..];
      if IsUpdate(lines[0]) {
        Silent(rest, drop, InUpdate);
      } else if IsSkip(lines[0]) || IsQuiet(lines[0]) {
        ExposedList(rest, drop);
      } else if !IsItem(lines[0]) {
        Silent(rest, drop, Outside);
      }
    }
  }

  lemma {:induction false} ExposedBlock(lines: seq<Text>, drop: set<Text>)
    requires NoSkips(lines, Outside)
    ensures ReadKept(lines, KeepItems(lines, drop, Outside), InUpdate) != [] <==> ListComes(lines)
    decreases |lines|
  {
    hide IsItem, IsQuiet, IsSkip, IsUpdate, ItemComes, ListComes;
    ListComesStep(lines);
    if lines != [] {
      LineKinds(lines[0]);
      var rest := lines[1..];
      if IsUpdate(lines[0]) {
        Silent(rest, drop, InUpdate);
      } else if IsSkip(lines[0]) {
        ExposedList(rest, drop);
      } else if IsQuiet(lines[0]) || StartsWithSpace(lines[0]) {
        ExposedBlock(rest, drop);
      } else {
        Silent(rest, drop, Outside);
      }
    }
  }

  lemma ItemEntry(line: Text)
    requires IsItem(line)
    ensures |Entry(InSkip, line)| == 1
  {
  }

  lemma DroppedItemTail(lines: seq<Text>, drop: set<Text>)
    requires lines != [] && IsItem(lines[0]) && Without(Read(lines, InSkip), drop) == []
    ensures IsDropped(InSkip, lines[0], drop) && Next(InSkip, lines[0]) == InSkip
    ensures Without(Read(lines[1..], InSkip), drop) == []
  {
    hide Entry, Next, IsItem, IsDropped, Without;
    var line, rest := lines[0], lines[1..];
    ItemEntry(line);
    DroppedStays(InSkip, line, drop);
    WithoutConcat(Entry(InSkip, line), Read(rest, Next(InSkip, line)), drop);
    assert |Without(Entry(InSkip, line), drop)| == 0;
  }

  lemma {:induction false} ExposedRest(lines: seq<Text>, drop: set<Text>)
    requires NoSkips(lines, InSkip) && Without(Read(lines, InSkip), drop) == []
    ensures ReadKept(lines, KeepItems(lines, drop, InSkip), InUpdate) != [] <==> SecondListComes(lines)
    decreases |lines|
  {
    hide IsItem, IsQuiet, IsSkip, IsUpdate, ListComes, SecondListComes;
    SecondListComesStep(lines);
    if lines != [] {
      LineKinds(lines[0]);
      var rest := lines[1..];
      if IsUpdate(lines[0]) {
        Silent(rest, drop, InUpdate);
      } else if IsItem(lines[0]) {
        DroppedItemTail(lines, drop);
        ExposedRest(rest, drop);
      } else if IsQuiet(lines[0]) {
        assert Read(lines, InSkip) == Read(rest, InSkip);
        ExposedRest(rest, drop);
      } else if StartsWithSpace(lines[0]) {
        ExposedBlock(rest, drop);
      } else {
        Silent(rest, drop, Outside);
      }
    }
  }

  /** Splitting a keep list at the header. */
  lemma KeepItemsAt(lines: seq<Text>, drop: set<Text>, s: nat)
    requires s < |lines| && Recognises(ModeAfter(lines[..s], Outside), lines[s])
    ensures KeepItems(lines, drop, Outside)
         == KeepItems(lines[..s], drop, Outside) + [true] + KeepItems(lines[s + 1..], drop, InSkip)
  {
    hide Recognises, Next, ModeAfter, IsDropped;
    var pre, post, mode := lines[..s], lines[s + 1..], ModeAfter(lines[..s], Outside);
    assert lines == pre + ([lines[s]] + post);
    KeepItemsConcat(pre, [lines[s]] + post, drop, Outside);
    assert ([lines[s]] + post)[1..] == post;
    RecognisedIsNoItem(mode, lines[s]);
    NoItemIsKept(mode, lines[s], drop);
  }

  lemma NoItemIsKept(mode: Mode, line: Text, drop: set<Text>)
    requires !IsItem(line)
    ensures !IsDropped(mode, line, drop)
  {
    hide ItemOf;
  }

  lemma ReadAround(pre: seq<Text>, line: Text, post: seq<Text>, kpre: seq<bool>, kpost: seq<bool>)
    requires |kpre| == |pre| && |kpost| == |post|
    ensures ReadKept(pre + ([line] + post), kpre + ([false] + kpost), Outside)
         == ReadKept(pre, kpre, Outside) + ReadKept(post, kpost, ModeKept(pre, kpre, Outside))
  {
    hide Next, Entry;
    ReadKeptConcat(pre, [line] + post, kpre, [false] + kpost, Outside);
    assert ([line] + post)[1..] == post && ([false] + kpost)[1..] == kpost;
  }

  lemma HeaderParts(lines: seq<Text>, drop: set<Text>)
    requires LastSkip(lines) >= 0 && Without(Read(lines, Outside), drop) == []
    ensures var s := LastSkip(lines);
      && KeepWithoutHeader(lines, drop)
         == KeepItems(lines[..s], drop, Outside) + ([false] + KeepItems(lines[s + 1..], drop, InSkip))
      && Without(Read(lines[..s], Outside), drop) == [] && Without(Read(lines[s + 1..], InSkip), drop) == []
      && NoSkips(lines[s + 1..], InSkip) && Recognises(ModeAfter(lines[..s], Outside), lines[s])
  {
    hide Recognises, Next, IsDropped, Entry, ModeAfter, Read, NoSkips, KeepItems;
    var s := LastSkip(lines);
    LastSkipIsLast(lines);
    ModeThrough(lines, s);
    KeepItemsAt(lines, drop, s);
    WithoutConcat(Read(lines[..s], Outside), Read(lines[s + 1..], InSkip), drop);
    var kpre, kpost := KeepItems(lines[..s], drop, Outside), KeepItems(lines[s + 1..], drop, InSkip);
    assert (kpre + [true] + kpost)[s := false] == kpre + ([false] + kpost);
  }

  /** With the header gone, the rest is read from where the scanner was. */
  lemma ReadWithoutHeader(lines: seq<Text>, drop: set<Text>)
    requires LastSkip(lines) >= 0 && Without(Read(lines, Outside), drop) == []
    ensures ReadKept(lines, KeepWithoutHeader(lines, drop), Outside) == [] <==> !Exposes(lines)
  {
    hide Recognises, Next, Entry, SecondListComes, KeepWithoutHeader, KeepItems, NoSkips, LastSkip, ReadKept, Without;
    var s := LastSkip(lines);
    HeaderParts(lines, drop);
    var pre, post, mode := lines[..s], lines[s + 1..], ModeAfter(lines[..s], Outside);
    var kpre, kpost := KeepItems(pre, drop, Outside), KeepItems(post, drop, InSkip);
    ItemsOnly(pre, drop, Outside);
    ItemsOnly(post, drop, InSkip);
    assert lines == pre + ([lines[s]] + post);
    ReadAround(pre, lines[s], post, kpre, kpost);
    RecognisedMode(mode, lines[s]);
    if mode.InUpdate? {
      ExposedRest(post, drop);
    }
  }

  lemma RecognisedMode(mode: Mode, line: Text)
    requires Recognises(mode, line)
    ensures mode.InUpdate? || mode.InSkip?
  {
  }

  // ---- Removing the `update:` key as well ----

  /** Indentation begins with a space or a tab, as in every YAML file. */
  predicate WellIndented(lines: seq<Text>)
  {
    forall line :: line in lines && IsIndented(line) && !IsQuiet(line) ==> line[0] == 0x20 || line[0] == 0x09
  }

  lemma {:induction false} OutsideStays(lines: seq<Text>, keep: seq<bool>)
    requires |keep| == |lines| && forall line :: line in lines ==> !IsUpdate(line)
    ensures ReadKept(lines, keep, Outside) == []
    decreases |lines|
  {
    hide IsUpdate, IsSkip, IsQuiet, IsItem;
    if lines != [] {
      OutsideStays(lines[1..], keep[1..]);
    }
  }

  lemma NotQuietIsSomething(line: Text)
    requires !IsQuiet(line)
    ensures line != []
  {
  }

  lemma UnindentedEnds(mode: Mode, line: Text)
    requires line != [] && line[0] != SPACE && line[0] != TAB && !IsQuiet(line) && !IsUpdate(line)
    requires IsIndented(line) ==> line[0] == SPACE || line[0] == TAB
    ensures Next(mode, line) == Outside && Entry(mode, line) == []
  {
    hide IsUpdate, IsQuiet, Trim;
  }

  /** A block without another key reads the same, namely nothing, whether or not
      the scanner knows that it is in a block. */
  lemma {:induction false} BareBlockIsSilent(lines: seq<Text>, keep: seq<bool>, mode: Mode)
    requires |keep| == |lines| && WellIndented(lines) && !HasOtherKey(lines, keep)
    requires forall line :: line in lines ==> !IsUpdate(line)
    ensures ReadKept(lines, keep, mode) == []
    decreases |lines|
  {
    hide IsUpdate, IsSkip, IsQuiet, IsItem, IsIndented;
    if lines != [] {
      var rest := lines[1..];
      LineKinds(lines[0]);
      assert forall line :: line in rest ==> line in lines;
      if !keep[0] || IsQuiet(lines[0]) || IsSkip(lines[0]) {
        BareBlockIsSilentStep(lines, keep, mode);
        BareBlockIsSilent(rest, keep[1..], if keep[0] then Next(mode, lines[0]) else mode);
      } else {
        NotQuietIsSomething(lines[0]);
        UnindentedEnds(mode, lines[0]);
        OutsideStays(rest, keep[1..]);
      }
    }
  }

  lemma BareBlockIsSilentStep(lines: seq<Text>, keep: seq<bool>, mode: Mode)
    requires |keep| == |lines| && lines != [] && WellIndented(lines) && !HasOtherKey(lines, keep)
    requires forall line :: line in lines ==> !IsUpdate(line)
    requires !keep[0] || IsQuiet(lines[0]) || IsSkip(lines[0])
    ensures !HasOtherKey(lines[1..], keep[1..])
    ensures keep[0] ==> Entry(mode, lines[0]) == []
  {
    hide IsUpdate, IsIndented;
    LineKinds(lines[0]);
  }

  lemma ReadAroundAt(lines: seq<Text>, keep: seq<bool>, u: nat)
    requires |keep| == |lines| && u < |lines|
    ensures ReadKept(lines, keep, Outside) == ReadKept(lines[..u], keep[..u], Outside)
      + ReadKept([lines[u]] + lines[u + 1..], [keep[u]] + keep[u + 1..], ModeKept(lines[..u], keep[..u], Outside))
  {
    assert lines == lines[..u] + ([lines[u]] + lines[u + 1..]);
    assert keep == keep[..u] + ([keep[u]] + keep[u + 1..]);
    ReadKeptConcat(lines[..u], [lines[u]] + lines[u + 1..], keep[..u], [keep[u]] + keep[u + 1..], Outside);
  }

  lemma ReadWithoutUpdate(lines: seq<Text>, keep: seq<bool>)
    requires |keep| == |lines| && WellIndented(lines) && LastUpdate(lines) >= 0
    requires var u := LastUpdate(lines); !HasOtherKey(lines[u + 1..], keep[u + 1..])
    ensures ReadKept(lines, keep[LastUpdate(lines) := false], Outside) == ReadKept(lines, keep, Outside)
  {
    hide Next, Entry, IsUpdate, LastUpdate, ReadKept, ModeKept, HasOtherKey, WellIndented;
    var u := LastUpdate(lines);
    var keep' := keep[u := false];
    var m, rest, krest := ModeKept(lines[..u], keep[..u], Outside), lines[u + 1..], keep[u + 1..];
    assert keep'[..u] == keep[..u] && keep'[u + 1..] == krest;
    ReadAroundAt(lines, keep, u);
    ReadAroundAt(lines, keep', u);
    RestIsBare(lines, u);
    BareTail(lines[u], rest, keep[u], krest, m);
    BareTail(lines[u], rest, false, krest, m);
  }

  lemma RestIsBare(lines: seq<Text>, u: nat)
    requires u < |lines| && u == LastUpdate(lines) && WellIndented(lines)
    ensures IsUpdate(lines[u]) && WellIndented(lines[u + 1..])
    ensures forall line :: line in lines[u + 1..] ==> !IsUpdate(line)
  {
    hide IsUpdate, IsIndented, IsQuiet;
    assert forall line :: line in lines[u + 1..] ==> line in lines;
  }

  lemma BareTail(line: Text, rest: seq<Text>, k: bool, krest: seq<bool>, mode: Mode)
    requires |krest| == |rest| && IsUpdate(line) && WellIndented(rest) && !HasOtherKey(rest, krest)
    requires forall l :: l in rest ==> !IsUpdate(l)
    ensures ReadKept([line] + rest, [k] + krest, mode) == []
  {
    hide HasOtherKey, WellIndented, IsUpdate, Next;
    assert ([line] + rest)[1..] == rest && ([k] + krest)[1..] == krest;
    BareBlockIsSilent(rest, krest, mode);
    BareBlockIsSilent(rest, krest, Next(mode, line));
    UpdateIsNoItem(line);
  }

  lemma UpdateIsNoItem(line: Text)
    requires IsUpdate(line)
    ensures !IsItem(line)
  {
    LineKinds(line);
  }

  // ---- The editor and the reader commute ----

  lemma KeepAllReadsAll(lines: seq<Text>)
    ensures Kept(lines, seq(|lines|, _ => true)) == lines
  {
    KeptAll(lines, seq(|lines|, _ => true));
  }

  lemma {:induction false} KeptAll(lines: seq<Text>, keep: seq<bool>)
    requires |keep| == |lines| && forall i :: 0 <= i < |keep| ==> keep[i]
    ensures Kept(lines, keep) == lines
    decreases |lines|
  {
    if lines != [] {
      KeptAll(lines[1..], keep[1..]);
    }
  }

  function Members(paths: seq<Text>): set<Text> { set p | p in paths }

  /** The list of the file without its last header and without all its entries. */
  function Exposed(lines: seq<Text>): seq<Text>
  {
    Read(Kept(lines, KeepWithoutHeader(lines, Members(Read(lines, Outside)))), Outside)
  }

  lemma {:induction false} SameItemsGo(lines: seq<Text>, a: set<Text>, b: set<Text>, mode: Mode)
    requires forall p :: p in Read(lines, mode) ==> (p in a <==> p in b)
    ensures KeepItems(lines, a, mode) == KeepItems(lines, b, mode)
    decreases |lines|
  {
    hide ItemOf, Next;
    if lines != [] {
      var rest := Read(lines[1..], Next(mode, lines[0]));
      assert forall p :: p in rest ==> p in Read(lines, mode);
      if Collects(mode, lines[0]) {
        assert Read(lines, mode)[0] == ItemOf(lines[0]).value;
      }
      SameItemsGo(lines[1..], a, b, Next(mode, lines[0]));
    }
  }

  /** Once every entry goes, it does not matter what else was to go. */
  lemma AllGo(lines: seq<Text>, drop: set<Text>)
    requires Without(Read(lines, Outside), drop) == []
    ensures KeepWithoutHeader(lines, drop) == KeepWithoutHeader(lines, Members(Read(lines, Outside)))
  {
    hide Read, KeepItems, LastSkip, Without;
    var paths := Read(lines, Outside);
    WithoutMembers(paths, drop);
    WithoutMembers(paths, Members(paths));
    SameItemsGo(lines, drop, Members(paths), Outside);
  }

  /** What the edited file reads as: the old list without the removed entries,
      or, when none remains, whatever stood hidden. */
  lemma EditedReads(lines: seq<Text>, drop: set<Text>)
    requires WellIndented(lines)
    ensures var paths := Read(lines, Outside);
      Read(Edited(lines, drop), Outside)
      == if Without(paths, drop) != [] || Dropped(paths, drop) == [] then Without(paths, drop) else Exposed(lines)
  {
    hide Read, ReadKept, Kept, Without, Dropped, KeepItems, LastSkip, LastUpdate, HasOtherKey, WellIndented,
      KeepWithoutHeader, Members;
    var paths := Read(lines, Outside);
    WithoutMembers(paths, drop);
    if Dropped(paths, drop) == [] {
      KeepAllReadsAll(lines);
    } else if Without(paths, drop) == [] {
      ReadOfKept(lines, Keeps(lines, drop), Outside);
      ReadOfKept(lines, KeepWithoutHeader(lines, drop), Outside);
      AllGo(lines, drop);
      var u := LastUpdate(lines);
      if u >= 0 && !HasOtherKey(lines[u + 1..], KeepWithoutHeader(lines, drop)[u + 1..]) {
        ReadWithoutUpdate(lines, KeepWithoutHeader(lines, drop));
      }
    } else {
      ReadOfKept(lines, Keeps(lines, drop), Outside);
      ItemsOnly(lines, drop, Outside);
      assert Keeps(lines, drop) == KeepItems(lines, drop, Outside) by { SomeRemain(lines, drop); }
    }
  }

  lemma SomeRemain(lines: seq<Text>, drop: set<Text>)
    requires Without(Read(lines, Outside), drop) != [] && Dropped(Read(lines, Outside), drop) != []
    ensures Keeps(lines, drop) == KeepItems(lines, drop, Outside)
  {
    hide Read, KeepItems, LastSkip, LastUpdate, Without, Dropped, HasOtherKey;
  }

  /** Something stands hidden exactly when a second list follows in the block. */
  lemma ExposedIffExposes(lines: seq<Text>)
    ensures Exposed(lines) != [] <==> Exposes(lines)
  {
    hide Read, ReadKept, Kept, Without, Dropped, KeepItems, LastSkip, SecondListComes, ModeAfter;
    var paths := Read(lines, Outside);
    var all := Members(paths);
    assert forall p :: p in paths ==> p in all;
    WithoutMembers(paths, all);
    ReadOfKept(lines, KeepWithoutHeader(lines, all), Outside);
    if LastSkip(lines) >= 0 {
      ReadWithoutHeader(lines, all);
    } else {
      ItemsOnly(lines, all, Outside);
    }
  }

  /** The edited file reads back as the old list without the removed entries, in
      the same order, exactly when some entry remains, nothing was removed, or
      the removed header did not hide a second list of its block. */
  lemma EditCommutes(lines: seq<Text>, drop: set<Text>)
    requires WellIndented(lines)
    ensures var paths := Read(lines, Outside);
      Read(Edited(lines, drop), Outside) == Without(paths, drop)
      <==> Without(paths, drop) != [] || Dropped(paths, drop) == [] || !Exposes(lines)
  {
    hide Read, Edited, Without, Dropped, Exposes, WellIndented, Exposed;
    EditedReads(lines, drop);
    ExposedIffExposes(lines);
  }

  /** Only removed entries and the two keys they stood under ever go. */
  lemma OnlyEntriesGo(lines: seq<Text>, drop: set<Text>, i: nat)
    requires i < |lines| && !Keeps(lines, drop)[i]
    ensures Dropped(Read(lines, Outside), drop) != []
    ensures IsDropped(ModeAfter(lines[..i], Outside), lines[i], drop)
         || (Without(Read(lines, Outside), drop) == [] && (i == LastSkip(lines) || i == LastUpdate(lines)))
  {
    hide IsDropped, Next, Entry, Read, Without, Dropped, LastSkip, LastUpdate, HasOtherKey;
    KeepItemsPointwise(lines, drop, Outside, i);
  }

  predicate IsMargin(line: Text) { line != [] && line[0] in {0x20, 0x09} }

  /** Line `j` is a key of the block that `lines` continue, and stays. */
  predicate IsKeyOfBlock(lines: seq<Text>, keep: seq<bool>, j: nat)
    requires |keep| == |lines| && j < |lines|
  {
    && keep[j] && !IsQuiet(lines[j]) && !IsSkip(lines[j])
    && forall k :: 0 <= k <= j && keep[k] && !IsQuiet(lines[k]) ==> IsMargin(lines[k])
  }

  predicate HasKeyOfBlock(lines: seq<Text>, keep: seq<bool>)
    requires |keep| == |lines|
  {
    exists j :: 0 <= j < |lines| && IsKeyOfBlock(lines, keep, j)
  }

  lemma {:induction false} HasOtherKeyIff(lines: seq<Text>, keep: seq<bool>)
    requires |keep| == |lines|
    ensures HasOtherKey(lines, keep) <==> HasKeyOfBlock(lines, keep)
    decreases |lines|
  {
    hide IsQuiet, IsSkip;
    if lines != [] {
      var rest, krest := lines[1..], keep[1..];
      HasOtherKeyIff(rest, krest);
      assert forall k :: 0 < k < |lines| ==> lines[k] == rest[k - 1] && keep[k] == krest[k - 1];
      if !keep[0] || IsQuiet(lines[0]) || (IsMargin(lines[0]) && IsSkip(lines[0])) {
        if j :| 0 <= j < |rest| && IsKeyOfBlock(rest, krest, j) {
          KeyMovesDown(lines, keep, j);
        }
        if j :| 0 <= j < |lines| && IsKeyOfBlock(lines, keep, j) {
          KeyMovesUp(lines, keep, j);
        }
      } else {
        NotQuietIsSomething(lines[0]);
        assert IsMargin(lines[0]) ==> IsKeyOfBlock(lines, keep, 0);
        assert !IsMargin(lines[0]) ==> forall j :: 0 <= j < |lines| ==> !IsKeyOfBlock(lines, keep, j);
      }
    }
  }

  lemma KeyMovesDown(lines: seq<Text>, keep: seq<bool>, j: nat)
    requires |keep| == |lines| && j < |lines| - 1 && IsKeyOfBlock(lines[1..], keep[1..], j)
    requires keep[0] && !IsQuiet(lines[0]) ==> IsMargin(lines[0])
    ensures IsKeyOfBlock(lines, keep, j + 1)
  {
    hide IsQuiet, IsSkip;
    assert forall k :: 0 < k < |lines| ==> lines[k] == lines[1..][k - 1] && keep[k] == keep[1..][k - 1];
  }

  lemma KeyMovesUp(lines: seq<Text>, keep: seq<bool>, j: nat)
    requires |keep| == |lines| && j < |lines| && IsKeyOfBlock(lines, keep, j)
    requires !keep[0] || IsQuiet(lines[0]) || IsSkip(lines[0])
    ensures j > 0 && IsKeyOfBlock(lines[1..], keep[1..], j - 1)
  {
    hide IsQuiet, IsSkip;
    assert forall k :: 0 <= k < |lines| - 1 ==> lines[1..][k] == lines[k + 1] && keep[1..][k] == keep[k + 1];
  }

  lemma HeaderPointwise(lines: seq<Text>, drop: set<Text>, i: nat)
    requires i < |lines|
    ensures !KeepWithoutHeader(lines, drop)[i]
       <==> IsDropped(ModeAfter(lines[..i], Outside), lines[i], drop)
            || (Without(Read(lines, Outside), drop) == [] && i == LastSkip(lines))
  {
    hide IsDropped, Next, Entry, Read, Without, LastSkip, KeepItems, ModeAfter;
    KeepItemsPointwise(lines, drop, Outside, i);
  }

  /** Exactly these lines go: the removed entries and, when none is left, the header
      they stood under, and with it the `update:` of the block unless the block has
      another key. */
  lemma TheseLinesGo(lines: seq<Text>, drop: set<Text>, i: nat)
    requires i < |lines|
    ensures var keep, u := KeepWithoutHeader(lines, drop), LastUpdate(lines);
      !Keeps(lines, drop)[i]
      <==> && Dropped(Read(lines, Outside), drop) != []
           && (|| IsDropped(ModeAfter(lines[..i], Outside), lines[i], drop)
               || (&& Without(Read(lines, Outside), drop) == []
                   && (i == LastSkip(lines) || (i == u && !HasKeyOfBlock(lines[u + 1..], keep[u + 1..])))))
  {
    hide IsDropped, Next, Entry, Read, Without, Dropped, LastSkip, LastUpdate, HasOtherKey, HasKeyOfBlock,
      KeepWithoutHeader, ModeAfter;
    HeaderPointwise(lines, drop, i);
    var keep, u := KeepWithoutHeader(lines, drop), LastUpdate(lines);
    if u >= 0 {
      HasOtherKeyIff(lines[u + 1..], keep[u + 1..]);
    }
  }

  lemma {:induction false} KeepItemsPointwise(lines: seq<Text>, drop: set<Text>, mode: Mode, i: nat)
    requires i < |lines|
    ensures KeepItems(lines, drop, mode)[i] == !IsDropped(ModeAfter(lines[..i], mode), lines[i], drop)
    decreases |lines|
  {
    hide IsDropped, Next;
    if i > 0 {
      assert lines[..i][1..] == lines[1..][..i - 1];
      KeepItemsPointwise(lines[1..], drop, Next(mode, lines[0]), i - 1);
    }
  }

  lemma {:induction false} KeptShrinks(lines: seq<Text>, keep: seq<bool>)
    requires |keep| == |lines|
    ensures |Kept(lines, keep)| <= |lines|
    ensures |Kept(lines, keep)| == |lines| ==> forall i :: 0 <= i < |lines| ==> keep[i]
    decreases |lines|
  {
    if lines != [] {
      KeptShrinks(lines[1..], keep[1..]);
      if |Kept(lines, keep)| == |lines| {
        assert forall i :: 0 < i < |lines| ==> keep[i] == keep[1..][i - 1];
      }
    }
  }

  lemma {:induction false} DroppedConcat(a: seq<Text>, b: seq<Text>, drop: set<Text>)
    ensures Dropped(a + b, drop) == Dropped(a, drop) + Dropped(b, drop)
    decreases |a|
  {
    if a == [] {
      assert a + b == b;
    } else {
      assert (a + b)[1..] == a[1..] + b;
      DroppedConcat(a[1..], b, drop);
    }
  }

  /** A file in which every line stays holds no entry that is to go. */
  lemma {:induction false} NothingGoes(lines: seq<Text>, drop: set<Text>, mode: Mode)
    requires forall i :: 0 <= i < |lines| ==> KeepItems(lines, drop, mode)[i]
    ensures Dropped(Read(lines, mode), drop) == []
    decreases |lines|
  {
    hide Entry, Next, IsDropped, Dropped;
    if lines == [] {
      WithoutMembers([], drop);
    } else {
      var next, keep := Next(mode, lines[0]), KeepItems(lines, drop, mode);
      assert keep[0];
      forall i | 0 <= i < |lines| - 1 ensures KeepItems(lines[1..], drop, next)[i] {
        assert keep[i + 1];
      }
      NothingGoes(lines[1..], drop, next);
      KeptLineDropsNothing(mode, lines[0], drop);
      DroppedConcat(Entry(mode, lines[0]), Read(lines[1..], next), drop);
    }
  }

  lemma KeptLineDropsNothing(mode: Mode, line: Text, drop: set<Text>)
    requires !IsDropped(mode, line, drop)
    ensures Dropped(Entry(mode, line), drop) == []
  {
    hide ItemOf;
    WithoutMembers(Entry(mode, line), drop);
  }

  /** The editor leaves a file alone exactly when there is nothing to remove. */
  lemma UneditedIff(lines: seq<Text>, drop: set<Text>)
    ensures Edited(lines, drop) == lines <==> Dropped(Read(lines, Outside), drop) == []
  {
    hide Read, Kept, Without, Dropped, KeepItems, LastSkip, LastUpdate, HasOtherKey;
    if Dropped(Read(lines, Outside), drop) == [] {
      KeepAllReadsAll(lines);
    } else {
      KeptShrinks(lines, Keeps(lines, drop));
      if Edited(lines, drop) == lines {
        forall i | 0 <= i < |lines| ensures KeepItems(lines, drop, Outside)[i] {
          assert Keeps(lines, drop)[i];
          assert KeepWithoutHeader(lines, drop)[i];
        }
        NothingGoes(lines, drop, Outside);
      }
    }
  }

  /** Removing the same entries once more changes nothing, unless the first
      removal has brought up one of them. */
  lemma SecondEditIsNoOp(lines: seq<Text>, drop: set<Text>)
    requires WellIndented(lines)
    ensures var paths := Read(lines, Outside);
      Edited(Edited(lines, drop), drop) == Edited(lines, drop)
      <==> Without(paths, drop) != [] || Dropped(paths, drop) == [] || forall p :: p in Exposed(lines) ==> p !in drop
  {
    hide Read, Edited, Without, Dropped, WellIndented, Exposed;
    var once := Edited(lines, drop);
    EditedReads(lines, drop);
    UneditedIff(once, drop);
    WithoutMembers(Read(lines, Outside), drop);
    WithoutMembers(Read(once, Outside), drop);
  }

  /** The entries for which `isStale` holds. */
  function StaleSet(paths: seq<Text>, isStale: Text -> bool): set<Text>
  {
    set p | p in paths && isStale(p)
  }

  /** Pruning what is stale leaves all that is not stale, and nothing stale unless
      everything was stale and a stale entry comes up. */
  lemma PruningLeavesNoStale(lines: seq<Text>, isStale: Text -> bool)
    requires WellIndented(lines)
    ensures var paths := Read(lines, Outside);
      var left := Read(Edited(lines, StaleSet(paths, isStale)), Outside);
      && (forall p :: p in paths && !isStale(p) ==> p in left)
      && ((forall p :: p in left ==> !isStale(p))
          <==> (exists p :: p in paths && !isStale(p)) || paths == [] || forall p :: p in Exposed(lines) ==> !isStale(p))
  {
    hide Read, Edited, Without, Dropped, WellIndented, Exposed;
    var paths := Read(lines, Outside);
    var drop := StaleSet(paths, isStale);
    EditedReads(lines, drop);
    WithoutMembers(paths, drop);
    WithoutContains(paths, drop);
    if paths != [] && Dropped(paths, drop) == [] {
      assert paths[0] in paths && !isStale(paths[0]);
    }
  }

  lemma {:induction false} WithoutContains(paths: seq<Text>, drop: set<Text>)
    ensures forall p :: p in paths && p !in drop ==> p in Without(paths, drop)
    decreases |paths|
  {
    if paths != [] {
      WithoutContains(paths[1..], drop);
      assert paths == [paths[0]] + paths[1..];
    }
  }

  // ---- A file that exposes a second list ----

  const ENTRY_A: Text := [SPACE, DASH, SPACE, 0x61]
  const ENTRY_B: Text := [SPACE, DASH, SPACE, 0x62]
  const OTHER_KEY: Text := [SPACE, 0x6B, 0x3A]
  const SKIP_LINE: Text := [SPACE] + SKIP_KEY
  const EXPOSING_FILE: seq<Text> := [UPDATE_KEY, SKIP_LINE, ENTRY_A, OTHER_KEY, SKIP_LINE, ENTRY_B]

  lemma IndentedByOne(body: Text)
    requires |body| >= 2 && !IsSpace(body[0]) && !IsSpace(body[|body| - 1])
    ensures Trim([SPACE] + body) == body && TrimEnd([SPACE] + body) == [SPACE] + body && TrimEnd(body) == body
  {
    assert ([SPACE] + body)[1..] == body;
    assert TrimStart(body) == body;
    assert TrimStart([SPACE] + body) == body;
  }

  lemma EntryLine(c: Unit)
    requires !IsSpace(c) && !IsLineTerminator(c) && !IsQuote(c)
    ensures ItemOf([SPACE, DASH, SPACE, c]) == Some([c]) && IsItem([SPACE, DASH, SPACE, c])
  {
    hide ItemOf, Trim;
    IndentedByOne([DASH, SPACE, c]);
    assert [SPACE] + [DASH, SPACE, c] == [SPACE, DASH, SPACE, c];
    EntryBody([SPACE, DASH, SPACE, c], c);
  }

  lemma EntryBody(line: Text, c: Unit)
    requires IsIndented(line) && Trim(line) == [DASH, SPACE, c]
    requires !IsSpace(c) && !IsLineTerminator(c) && !IsQuote(c)
    ensures ItemOf(line) == Some([c])
  {
    hide Trim, TrimStart, StripQuotes, IsSpaceCode;
    var body: Text := [DASH, SPACE, c];
    assert body[1..] == [SPACE, c];
    assert IsSpace(body[1]) by { SpaceIsSpace(); }
    TrimStartOfPair(c);
    NothingToStrip(c);
  }

  lemma SpaceIsSpace()
    ensures IsSpace(SPACE)
  {
  }

  lemma TrimStartOfPair(c: Unit)
    requires !IsSpace(c)
    ensures TrimStart([SPACE, c]) == [c]
  {
    var pair: Text := [SPACE, c];
    assert pair[1..] == [c];
    assert TrimStart([c]) == [c];
  }

  lemma NothingToStrip(c: Unit)
    requires !IsQuote(c)
    ensures StripQuotes([c]) == [c]
  {
  }

  lemma HeaderLines()
    ensures IsUpdate(UPDATE_KEY) && IsSkip(SKIP_LINE) && !IsUpdate(SKIP_LINE)
  {
    IndentedByOne(SKIP_KEY);
    assert TrimEnd(UPDATE_KEY) == UPDATE_KEY;
    LineKinds(SKIP_LINE);
  }

  lemma OtherLine()
    ensures IsOtherKey(OTHER_KEY)
  {
    IndentedByOne([0x6B, 0x3A]);
    assert OTHER_KEY == [SPACE] + [0x6B, 0x3A] && SKIP_KEY[0] == 0x73;
  }

  /** The modes in which the lines of the example are read. */
  lemma ExampleModes()
    ensures Next(Outside, UPDATE_KEY) == InUpdate && Next(InUpdate, SKIP_LINE) == InSkip
    ensures Next(InSkip, ENTRY_A) == InSkip && Next(InSkip, OTHER_KEY) == Outside
    ensures Next(Outside, SKIP_LINE) == Outside && Next(Outside, ENTRY_B) == Outside
    ensures Recognises(InUpdate, SKIP_LINE) && !Recognises(Outside, SKIP_LINE)
    ensures !IsSkip(ENTRY_A) && !IsSkip(ENTRY_B) && !IsSkip(OTHER_KEY)
  {
    hide IsUpdate, IsSkip, IsQuiet, ItemOf, Trim;
    HeaderLines();
    OtherLine();
    EntryLine(0x61);
    EntryLine(0x62);
    LineKinds(SKIP_LINE);
    LineKinds(ENTRY_A);
    LineKinds(ENTRY_B);
    LineKinds(OTHER_KEY);
  }

  lemma ExampleLastSkip()
    ensures LastSkip(EXPOSING_FILE) == 1 && ModeAfter(EXPOSING_FILE[..1], Outside) == InUpdate
  {
    hide Next, Recognises, IsUpdate, IsSkip;
    ExampleModes();
    var e := EXPOSING_FILE;
    ModeOfPrefix(e, 0);
    ModeOfPrefix(e, 1);
    ModeOfPrefix(e, 2);
    ModeOfPrefix(e, 3);
    ModeOfPrefix(e, 4);
    assert e[..6] == e;
    LastSkipOfPrefix(e, 5);
    LastSkipOfPrefix(e, 4);
    LastSkipOfPrefix(e, 3);
    LastSkipOfPrefix(e, 2);
    LastSkipOfPrefix(e, 1);
    NoneRecognised(ModeAfter(e[..5], Outside), ENTRY_B);
    NoneRecognised(ModeAfter(e[..3], Outside), OTHER_KEY);
    NoneRecognised(ModeAfter(e[..2], Outside), ENTRY_A);
  }

  lemma NoneRecognised(mode: Mode, line: Text)
    requires !IsSkip(line)
    ensures !Recognises(mode, line)
  {
  }

  lemma ModeOfPrefix(lines: seq<Text>, i: nat)
    requires i < |lines|
    ensures ModeAfter(lines[..i + 1], Outside) == Next(ModeAfter(lines[..i], Outside), lines[i])
  {
    hide Next;
    assert lines[..i + 1] == lines[..i] + [lines[i]];
    ReadConcat(lines[..i], [lines[i]], Outside);
    OneLine(lines[i], ModeAfter(lines[..i], Outside));
  }

  lemma LastSkipOfPrefix(lines: seq<Text>, i: nat)
    requires i < |lines|
    ensures LastSkip(lines[..i + 1])
         == if Recognises(ModeAfter(lines[..i], Outside), lines[i]) then i else LastSkip(lines[..i])
  {
    hide Recognises;
    assert lines[..i + 1][..i] == lines[..i];
  }

  /** A concrete file: the last entry of the first list goes, and the list that
      was hidden behind another key is suddenly read. */
  lemma ExampleExposes()
    ensures Exposes(EXPOSING_FILE)
    ensures Read(EXPOSING_FILE, Outside) == [[0x61]]
    ensures Read(Edited(EXPOSING_FILE, {[0x61]}), Outside) != Without([[0x61]], {[0x61]})
  {
    hide Next, Recognises, IsUpdate, IsSkip, IsQuiet, ItemOf, IsItem, Read, Edited;
    ExampleModes();
    ExampleLastSkip();
    HeaderLines();
    OtherLine();
    EntryLine(0x61);
    EntryLine(0x62);
    var rest := EXPOSING_FILE[2..];
    assert rest == [ENTRY_A, OTHER_KEY, SKIP_LINE, ENTRY_B];
    ItemComesStep([ENTRY_B]);
    assert [SKIP_LINE, ENTRY_B][1..] == [ENTRY_B];
    ListComesStep([SKIP_LINE, ENTRY_B]);
    assert rest[1..] == [OTHER_KEY, SKIP_LINE, ENTRY_B] && rest[1..][1..] == [SKIP_LINE, ENTRY_B];
    SecondListComesStep(rest[1..]);
    SecondListComesStep(rest);
    ExampleRead();
    assert WellIndented(EXPOSING_FILE) by { ExampleIndented(); }
    var paths: seq<Text> := [[0x61]];
    WithoutMembers(paths, {[0x61]});
    EditCommutes(EXPOSING_FILE, {[0x61]});
  }

  lemma ExampleIndented()
    ensures WellIndented(EXPOSING_FILE)
  {
    hide IsQuiet;
  }

  lemma ExampleRead()
    ensures Read(EXPOSING_FILE, Outside) == [[0x61]]
  {
    hide Next, IsUpdate, IsSkip, ItemOf;
    ExampleModes();
    EntryLine(0x61);
    var e := EXPOSING_FILE;
    assert e[1..][1..] == e[2..] && e[2..][1..] == e[3..] && e[3..][1..] == e[4..] && e[4..][1..] == e[5..] && e[5..] == [ENTRY_B];
    OneLine(ENTRY_B, Outside);
    HeaderLines();
    OtherLine();
    LineKinds(SKIP_LINE);
    UpdateIsNoItem(UPDATE_KEY);
    assert Read(e[5..], Outside) == [];
    assert Read(e[4..], Outside) == [];
    assert Read(e[3..], InSkip) == [];
    assert Read(e[2..], InSkip) == [[0x61]];
    assert Read(e[1..], InUpdate) == [[0x61]];
  }
}
