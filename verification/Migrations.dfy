/** The migrations of `pactile update`: classified by what the user changed,
    sorted, and carried out on files and hash table together. */
module Migrations {
  import opened Options
  import opened Moves

  datatype ItemType = Rename | RenameDir | Delete | SafeFileDelete

  /** A manifest entry. `slash`: `from` is written with a trailing slash. */
  datatype Item = Item(kind: ItemType, from: Path, slash: bool, to: Option<Path>)

  datatype Bucket = Auto | Confirm | Conflict | Skip | Dropped

  datatype Classified = Classified(auto: seq<Item>, confirm: seq<Item>, conflict: seq<Item>, skip: seq<Item>)

  /** The bundled templates and the path tests that classification consults. */
  datatype Setting = Setting(
    templates: map<Path, string>,
    hash: string -> string,
    isProtected: Path -> bool,
    isUnscanned: Path -> bool)

  // ---- Classification ----

  predicate Exists(t: Tree, p: Path) { p in t.files || p in t.dirs }

  predicate IsTemplate(t: Tree, s: Setting, p: Path)
  {
    p in t.files && p in s.templates && s.templates[p] != "" && t.files[p] == s.templates[p]
  }

  /** Some directory between `dir` and `p` is not descended into. */
  predicate Hidden(s: Setting, dir: Path, p: Path)
    requires dir <= p
  {
    exists n :: |dir| < n < |p| && s.isUnscanned(p[..n])
  }

  /** `isDirectorySafeToReplace` */
  predicate IsDirSafe(t: Tree, s: Setting, dir: Path)
  {
    forall p :: p in t.files && dir < p && !Hidden(s, dir, p) ==>
      || IsTemplate(t, s, p)
      || (p in t.hashes && t.hashes[p] != "" && !Modified(t, p, s.hash))
  }

  function BucketOf(t: Tree, s: Setting, item: Item): Bucket
  {
    if item.kind.SafeFileDelete? then Dropped
    else if s.isProtected(item.from) then Skip
    else if item.to.Some? && s.isProtected(item.to.value) && !item.kind.Rename? && !item.kind.RenameDir? then Skip
    else if !Exists(t, item.from) then Skip
    else if item.kind.Rename? && item.to.Some? then
      if Exists(t, item.to.value) then if IsTemplate(t, s, item.to.value) then Auto else Conflict
      else if Modified(t, item.from, s.hash) then Confirm else Auto
    else if item.kind.RenameDir? && item.to.Some? then
      if Exists(t, item.to.value) && !IsDirSafe(t, s, item.to.value) then Conflict else Auto
    else if item.kind.Delete? then
      if Modified(t, item.from, s.hash) then Confirm else Auto
    else Dropped
  }

  /** The items of one bucket, in order. */
  function Pick(t: Tree, s: Setting, items: seq<Item>, b: Bucket): (r: seq<Item>)
    ensures forall item :: item in r ==> item in items && BucketOf(t, s, item) == b
  {
    if items == [] then []
    else
      var last := items[|items| - 1];
      Pick(t, s, items[..|items| - 1], b) + if BucketOf(t, s, last) == b then [last] else []
  }

  function ClassifiedOf(t: Tree, s: Setting, items: seq<Item>): Classified
  {
    Classified(Pick(t, s, items, Auto), Pick(t, s, items, Confirm), Pick(t, s, items, Conflict), Pick(t, s, items, Skip))
  }

  /** `classifyMigrations` */
  method ClassifyMigrations(items: seq<Item>, t: Tree, s: Setting) returns (result: Classified)
    ensures result == ClassifiedOf(t, s, items)
  {
    var auto, confirm, conflict, skip := [], [], [], [];
    for i := 0 to |items|
      invariant Classified(auto, confirm, conflict, skip) == ClassifiedOf(t, s, items[..i])
    {
      assert items[..i + 1][..i] == items[..i];
      match BucketOf(t, s, items[i]) {
        case Auto => auto := auto + [items[i]];
        case Confirm => confirm := confirm + [items[i]];
        case Conflict => conflict := conflict + [items[i]];
        case Skip => skip := skip + [items[i]];
        case Dropped =>
      }
    }
    assert items[..|items|] == items;
    return Classified(auto, confirm, conflict, skip);
  }

  function Total(c: Classified): nat { |c.auto| + |c.confirm| + |c.conflict| + |c.skip| }

  /** Every item is in one bucket or was dropped. */
  lemma {:induction false} EveryItemHasABucket(t: Tree, s: Setting, items: seq<Item>)
    ensures Total(ClassifiedOf(t, s, items)) + |Pick(t, s, items, Dropped)| == |items|
    decreases |items|
  {
    if items != [] {
      EveryItemHasABucket(t, s, items[..|items| - 1]);
    }
  }

  // ---- The order of execution ----

  /** `from.split("/").length`: a trailing slash counts as a segment. */
  function Depth(item: Item): nat { |item.from| + if item.slash then 1 else 0 }

  /** The comparator of `sortMigrationsForExecution`. */
  function Compare(a: Item, b: Item): int
  {
    if a.kind.RenameDir? && b.kind.RenameDir? then Depth(b) - Depth(a)
    else if a.kind.RenameDir? then -1
    else if b.kind.RenameDir? then 1
    else 0
  }

  /** `x` goes after everything it does not compare below. */
  function Insert(sorted: seq<Item>, x: Item): (r: seq<Item>)
  {
    if sorted == [] then [x]
    else
      var last := sorted[|sorted| - 1];
      if Compare(x, last) < 0 then Insert(sorted[..|sorted| - 1], x) + [last] else sorted + [x]
  }

  /** `sortMigrationsForExecution`: the stable sort. */
  function SortForExecution(items: seq<Item>): (r: seq<Item>)
  {
    if items == [] then []
    else Insert(SortForExecution(items[..|items| - 1]), items[|items| - 1])
  }

  predicate IsSorted(s: seq<Item>)
  {
    forall i, j :: 0 <= i < j < |s| ==> Compare(s[i], s[j]) <= 0
  }

  /** The items that compare equal to `key`, in order. */
  function Peers(s: seq<Item>, key: Item): seq<Item>
  {
    if s == [] then []
    else
      var last := s[|s| - 1];
      Peers(s[..|s| - 1], key) + if Compare(last, key) == 0 then [last] else []
  }

  lemma {:induction false} InsertAdds(s: seq<Item>, x: Item)
    ensures multiset(Insert(s, x)) == multiset(s) + multiset{x}
    ensures forall y :: y in Insert(s, x) <==> y in s || y == x
    decreases |s|
  {
    if s != [] && Compare(x, s[|s| - 1]) < 0 {
      var front, last := s[..|s| - 1], s[|s| - 1];
      InsertAdds(front, x);
      assert s == front + [last];
    }
  }

  lemma {:induction false} InsertSorts(s: seq<Item>, x: Item)
    requires IsSorted(s)
    ensures IsSorted(Insert(s, x))
    decreases |s|
  {
    if s != [] && Compare(x, s[|s| - 1]) < 0 {
      var front, last := s[..|s| - 1], s[|s| - 1];
      InsertSorts(front, x);
      InsertAdds(front, x);
      AppendSorted(Insert(front, x), last);
    } else if s != [] {
      assert forall y :: y in s ==> Compare(y, s[|s| - 1]) <= 0;
      AppendSorted(s, x);
    }
  }

  lemma AppendSorted(s: seq<Item>, x: Item)
    requires IsSorted(s) && forall y :: y in s ==> Compare(y, x) <= 0
    ensures IsSorted(s + [x])
  {
  }

  lemma {:induction false} InsertPeers(s: seq<Item>, x: Item, key: Item)
    ensures Compare(x, key) == 0 || Peers(Insert(s, x), key) == Peers(s, key)
    ensures IsSorted(s) && Compare(x, key) == 0 ==> Peers(Insert(s, x), key) == Peers(s, key) + [x]
    decreases |s|
  {
    if s != [] && Compare(x, s[|s| - 1]) < 0 {
      var front, last := s[..|s| - 1], s[|s| - 1];
      InsertPeers(front, x, key);
      assert (Insert(front, x) + [last])[..|Insert(front, x)|] == Insert(front, x);
    } else {
      assert (s + [x])[..|s|] == s;
    }
  }

  lemma {:induction false} SortSorts(items: seq<Item>)
    ensures IsSorted(SortForExecution(items)) && multiset(SortForExecution(items)) == multiset(items)
    decreases |items|
  {
    hide IsSorted, Insert;
    if items == [] {
      EmptyIsSorted();
    } else {
      var front, last := items[..|items| - 1], items[|items| - 1];
      SortSorts(front);
      InsertAdds(SortForExecution(front), last);
      InsertSorts(SortForExecution(front), last);
      assert items == front + [last];
    }
  }

  lemma EmptyIsSorted()
    ensures IsSorted([])
  {
  }

  /** What the sort promises: deeper directories first, directories before files,
      nothing lost, and equals in their original order. */
  lemma {:induction false} SortIsStable(items: seq<Item>, key: Item)
    ensures IsSorted(SortForExecution(items))
    ensures multiset(SortForExecution(items)) == multiset(items)
    ensures Peers(SortForExecution(items), key) == Peers(items, key)
    decreases |items|
  {
    hide IsSorted, Insert;
    SortSorts(items);
    if items != [] {
      var front, last := items[..|items| - 1], items[|items| - 1];
      SortIsStable(front, key);
      InsertPeers(SortForExecution(front), last, key);
    }
  }

  lemma {:induction false} NoPeersNoItem(s: seq<Item>, key: Item)
    ensures Peers(s, key) == [] <==> forall y :: y in s ==> Compare(y, key) != 0
    ensures forall y :: y in Peers(s, key) ==> y in s && Compare(y, key) == 0
    decreases |s|
  {
    if s != [] {
      NoPeersNoItem(s[..|s| - 1], key);
      assert s == s[..|s| - 1] + [s[|s| - 1]];
    }
  }

  lemma PeerOf(a: seq<Item>, b: seq<Item>, x: Item) returns (y: Item)
    requires x in a && Peers(a, x) == Peers(b, x)
    ensures y in b && Compare(y, x) == 0
  {
    NoPeersNoItem(a, x);
    NoPeersNoItem(b, x);
    assert Compare(x, x) == 0;
    y :| y in b && Compare(y, x) == 0;
  }

  /** Both lists have the same items in the same order, rank by rank. */
  ghost predicate SamePeers(a: seq<Item>, b: seq<Item>)
  {
    forall key :: Peers(a, key) == Peers(b, key)
  }

  lemma LastsCompareEqual(a: seq<Item>, b: seq<Item>)
    requires IsSorted(a) && IsSorted(b) && a != [] && b != []
    requires SamePeers(a, b)
    ensures Compare(b[|b| - 1], a[|a| - 1]) == 0
  {
    hide Peers;
    var x, y := a[|a| - 1], b[|b| - 1];
    var x' := PeerOf(a, b, x);
    var y' := PeerOf(b, a, y);
    assert y' == x || Compare(y', x) <= 0;
    assert x' == y || Compare(x', y) <= 0;
  }

  lemma PeersOfLast(a: seq<Item>, key: Item)
    requires a != []
    ensures Peers(a, key) == Peers(a[..|a| - 1], key) + if Compare(a[|a| - 1], key) == 0 then [a[|a| - 1]] else []
  {
  }

  lemma LastIsHighest(a: seq<Item>, b: seq<Item>)
    requires IsSorted(a) && IsSorted(b) && a != [] && b != []
    requires SamePeers(a, b)
    ensures b[|b| - 1] == a[|a| - 1]
    ensures SamePeers(a[..|a| - 1], b[..|b| - 1])
  {
    LastsCompareEqual(a, b);
    hide Peers, IsSorted;
    var x := a[|a| - 1];
    assert Compare(x, x) == 0;
    PeersOfLast(a, x);
    PeersOfLast(b, x);
    assert Peers(a, x)[|Peers(a, x)| - 1] == x;
    var a', b' := a[..|a| - 1], b[..|b| - 1];
    forall key
      ensures Peers(a', key) == Peers(b', key)
    {
      PeersOfLast(a, key);
      PeersOfLast(b, key);
      assert Peers(a, key) == Peers(b, key);
      SameEnd(Peers(a', key), Peers(b', key), if Compare(x, key) == 0 then [x] else []);
    }
  }

  lemma SameEnd<T>(a: seq<T>, b: seq<T>, c: seq<T>)
    requires a + c == b + c
    ensures a == b
  {
    assert |a| == |b|;
    assert a == (a + c)[..|a|] && b == (b + c)[..|b|];
  }

  /** Nothing else is sorted and keeps equals in order: whichever stable sort the
      run-time uses, it returns this list. */
  lemma {:induction false} StableSortIsUnique(a: seq<Item>, b: seq<Item>)
    requires IsSorted(a) && IsSorted(b) && SamePeers(a, b)
    ensures a == b
    decreases |a|
  {
    hide Peers;
    if a != [] && b != [] {
      LastIsHighest(a, b);
      StableSortIsUnique(a[..|a| - 1], b[..|b| - 1]);
      assert a == a[..|a| - 1] + [a[|a| - 1]] && b == b[..|b| - 1] + [b[|b| - 1]];
    } else if a != [] {
      var _ := PeerOf(a, b, a[0]);
    } else if b != [] {
      var _ := PeerOf(b, a, b[0]);
    }
  }

  // ---- Execution ----

  datatype Action = Proceed | BackupFirst | LeaveAlone

  datatype Counts = Counts(renamed: nat, deleted: nat, skipped: nat, conflicts: nat)

  /** `--force`, `--skip-all` or the answer to the prompt. */
  function ActionFor(force: bool, skipAll: bool, answer: Action): Action
  {
    if force then Proceed else if skipAll then LeaveAlone else answer
  }

  /** `<path>.backup` */
  function BackupOf(p: Path): Path
  {
    if p == [] then [".backup"] else p[..|p| - 1] + [p[|p| - 1] + ".backup"]
  }

  function AutoOp(item: Item): seq<Op>
  {
    match item.kind
    case Rename => if item.to.Some? then [MoveFile(item.from, item.to.value)] else []
    case RenameDir => if item.to.Some? then [MoveDir(item.from, item.to.value)] else []
    case Delete => [Remove(item.from)]
    case SafeFileDelete => []
  }

  /** What happens to an item the user modified. */
  function ConfirmOps(item: Item, action: Action): seq<Op>
  {
    if action.LeaveAlone? then []
    else if item.kind.Rename? && item.to.Some? then
      (if action.BackupFirst? then [Copy(item.from, BackupOf(item.to.value))] else [])
      + [MoveFile(item.from, item.to.value)]
    else if item.kind.Delete? then
      (if action.BackupFirst? then [Copy(item.from, BackupOf(item.from))] else []) + [Remove(item.from)]
    else []
  }

  function AutoOps(items: seq<Item>): seq<Op>
  {
    if items == [] then [] else AutoOps(items[..|items| - 1]) + AutoOp(items[|items| - 1])
  }

  function AllConfirmOps(items: seq<Item>, actions: seq<Action>): seq<Op>
    requires |actions| == |items|
  {
    if items == [] then []
    else
      var n := |items| - 1;
      AllConfirmOps(items[..n], actions[..n]) + ConfirmOps(items[n], actions[n])
  }

  function ExecutionOps(c: Classified, actions: seq<Action>): seq<Op>
    requires |actions| == |c.confirm|
  {
    AutoOps(SortForExecution(c.auto)) + AllConfirmOps(c.confirm, actions)
  }

  function Add(a: Counts, b: Counts): Counts
  {
    Counts(a.renamed + b.renamed, a.deleted + b.deleted, a.skipped + b.skipped, a.conflicts + b.conflicts)
  }

  const NONE_COUNTED := Counts(0, 0, 0, 0)

  function CountOf(item: Item, action: Action): Counts
  {
    if action.LeaveAlone? then Counts(0, 0, 1, 0)
    else if item.kind.Rename? && item.to.Some? then Counts(1, 0, 0, 0)
    else if item.kind.Delete? then Counts(0, 1, 0, 0)
    else NONE_COUNTED
  }

  function AutoCount(item: Item): Counts
  {
    if (item.kind.Rename? || item.kind.RenameDir?) && item.to.Some? then Counts(1, 0, 0, 0)
    else if item.kind.Delete? then Counts(0, 1, 0, 0)
    else NONE_COUNTED
  }

  function AutoCounts(items: seq<Item>): Counts
  {
    if items == [] then NONE_COUNTED else Add(AutoCounts(items[..|items| - 1]), AutoCount(items[|items| - 1]))
  }

  function ConfirmCounts(items: seq<Item>, actions: seq<Action>): Counts
    requires |actions| == |items|
  {
    if items == [] then NONE_COUNTED
    else
      var n := |items| - 1;
      Add(ConfirmCounts(items[..n], actions[..n]), CountOf(items[n], actions[n]))
  }

  function ExecutionCounts(c: Classified, actions: seq<Action>): Counts
    requires |actions| == |c.confirm|
  {
    Add(Add(AutoCounts(SortForExecution(c.auto)), ConfirmCounts(c.confirm, actions)),
        Counts(0, 0, |c.skip|, |c.conflict|))
  }

  function ActionsFor(force: bool, skipAll: bool, answers: seq<Action>): (r: seq<Action>)
    ensures |r| == |answers|
  {
    seq(|answers|, i requires 0 <= i < |answers| => ActionFor(force, skipAll, answers[i]))
  }

  // ---- Two roots ----

  datatype Root = Canonical | Live

  /** `migrationRoot`; none for an item that would cross the boundary. */
  function MigrationRoot(item: Item, isCanonical: Path -> bool): Option<Root>
  {
    if item.to.Some? && isCanonical(item.from) != isCanonical(item.to.value) then None
    else Some(if isCanonical(item.from) then Canonical else Live)
  }

  predicate StaysInRoot(items: seq<Item>, isCanonical: Path -> bool)
  {
    forall item :: item in items ==> MigrationRoot(item, isCanonical).Some?
  }

  /** The items of one root, in order. */
  function OfRoot(items: seq<Item>, root: Root, isCanonical: Path -> bool): (r: seq<Item>)
    ensures forall item :: item in r ==> item in items
  {
    if items == [] then []
    else
      var last := items[|items| - 1];
      OfRoot(items[..|items| - 1], root, isCanonical)
      + if MigrationRoot(last, isCanonical) == Some(root) then [last] else []
  }

  function ClassifiedOfRoot(c: Classified, root: Root, isCanonical: Path -> bool): Classified
  {
    Classified(OfRoot(c.auto, root, isCanonical), OfRoot(c.confirm, root, isCanonical),
               OfRoot(c.conflict, root, isCanonical), OfRoot(c.skip, root, isCanonical))
  }

  method PartitionItems(items: seq<Item>, isCanonical: Path -> bool)
      returns (ok: bool, canonical: seq<Item>, live: seq<Item>)
    ensures ok == StaysInRoot(items, isCanonical)
    ensures ok ==> canonical == OfRoot(items, Canonical, isCanonical) && live == OfRoot(items, Live, isCanonical)
  {
    ok, canonical, live := true, [], [];
    for i := 0 to |items|
      invariant ok && StaysInRoot(items[..i], isCanonical)
      invariant canonical == OfRoot(items[..i], Canonical, isCanonical)
      invariant live == OfRoot(items[..i], Live, isCanonical)
    {
      assert items[..i + 1][..i] == items[..i];
      match MigrationRoot(items[i], isCanonical) {
        case None =>
          assert items[i] in items;
          return false, [], [];
        case Some(Canonical) => canonical := canonical + [items[i]];
        case Some(Live) => live := live + [items[i]];
      }
    }
    assert items[..|items|] == items;
  }

  /** `partitionMigrations`; no result when an item crosses the boundary. */
  method PartitionMigrations(c: Classified, isCanonical: Path -> bool)
      returns (result: Option<(Classified, Classified)>)
    ensures result.Some? <==> StaysInRoot(c.auto + c.confirm + c.conflict + c.skip, isCanonical)
    ensures result.Some? ==> result.value.0 == ClassifiedOfRoot(c, Canonical, isCanonical)
                             && result.value.1 == ClassifiedOfRoot(c, Live, isCanonical)
  {
    var ok0, auto0, auto1 := PartitionItems(c.auto, isCanonical);
    var ok1, confirm0, confirm1 := PartitionItems(c.confirm, isCanonical);
    var ok2, conflict0, conflict1 := PartitionItems(c.conflict, isCanonical);
    var ok3, skip0, skip1 := PartitionItems(c.skip, isCanonical);
    if !(ok0 && ok1 && ok2 && ok3) {
      return None;
    }
    return Some((Classified(auto0, confirm0, conflict0, skip0), Classified(auto1, confirm1, conflict1, skip1)));
  }

  /** The project directory, its files and its table of template hashes. */
  class Checkout {
    var files: map<Path, string>
    var dirs: set<Path>
    var hashes: map<Path, string>

    constructor (t: Tree)
      ensures Snapshot() == t
    {
      files, dirs, hashes := t.files, t.dirs, t.hashes;
    }

    function Snapshot(): Tree
      reads this
    {
      Tree(files, dirs, hashes)
    }

    method RenameFile(from: Path, to: Path) returns (ok: bool)
      modifies this
      ensures ok == Do(old(Snapshot()), MoveFile(from, to)).Some?
      ensures Snapshot() == Do(old(Snapshot()), MoveFile(from, to)).GetOr(Left(old(Snapshot()), MoveFile(from, to)))
    {
      dirs := dirs + Ancestors(to);
      if from !in files {
        return false;
      }
      files := Relocate(files, MoveFile(from, to));
      if from in hashes {
        hashes := Relocate(hashes, MoveFile(from, to));
      }
      ok := true;
    }

    /** The rewriting of the hash table after a directory rename, entry by entry. */
    static method RenameHashes(hashes: map<Path, string>, from: Path, to: Path) returns (updated: map<Path, string>)
      requires Apart(from, to)
      ensures updated == Relocate(hashes, MoveDir(from, to))
    {
      hide Relocate;
      updated := map[];
      ghost var op, done := MoveDir(from, to), map[];
      RelocateNone(op);
      var rest := hashes;
      while rest != map[]
        invariant hashes == done + rest && done.Keys !! rest.Keys
        invariant updated == Relocate(done, op)
        decreases |rest|
      {
        var p :| p in rest;
        RelocateOneMore(done, op, p, rest[p]);
        if from < p {
          updated := updated[to + p[|from|..] := rest[p]];
        } else if !(to < p) {
          updated := updated[p := rest[p]];
        }
        Shift(done, rest, p);
        TakeOut(rest, p);
        done := done[p := rest[p]];
        rest := rest - {p};
      }
      UnionWithNone(done);
    }

    static lemma UnionWithNone(m: map<Path, string>)
      ensures m + map[] == m
    {
    }

    static lemma Shift(done: map<Path, string>, rest: map<Path, string>, p: Path)
      requires p in rest && done.Keys !! rest.Keys
      ensures done[p := rest[p]] + (rest - {p}) == done + rest
      ensures done[p := rest[p]].Keys !! (rest - {p}).Keys
    {
    }

    static lemma RelocateNone(op: Op)
      requires IsMove(op)
      ensures Relocate<string>(map[], op) == map[]
    {
    }

    static lemma TakeOut(m: map<Path, string>, p: Path)
      requires p in m
      ensures m == (m - {p})[p := m[p]] && |m - {p}| < |m|
    {
      var m' := m - {p};
      assert m.Keys == m'.Keys + {p};
      assert |m.Keys| == |m'.Keys| + 1;
    }

    static lemma RelocateOneMore(m: map<Path, string>, op: Op, p: Path, v: string)
      requires op.MoveDir? && Apart(op.from, op.to) && p !in m
      ensures Relocate(m[p := v], op)
           == if Takes(op, p) then Relocate(m, op)[Moved(op, p) := v]
              else if Fills(op, p) then Relocate(m, op)
              else Relocate(m, op)[p := v]
    {
      var m' := m[p := v];
      NewKeysHaveOrigin(m, op);
      NewKeysHaveOrigin(m', op);
      NewKeysGrow(m, op, p, v);
      forall q | q in NewKeys(m, op)
        ensures Origin(op, q) != p
      {
      }
      if Takes(op, p) {
        MovedBack(op, p);
      }
    }

    static lemma NewKeysGrow(m: map<Path, string>, op: Op, p: Path, v: string)
      requires op.MoveDir? && Apart(op.from, op.to)
      ensures NewKeys(m[p := v], op)
           == NewKeys(m, op) + if Takes(op, p) then {Moved(op, p)} else if Fills(op, p) then {} else {p}
    {
      PrefixesComparable(op.from, op.to, p);
    }

    method RenameDirectory(from: Path, to: Path) returns (ok: bool)
      modifies this
      ensures ok == Do(old(Snapshot()), MoveDir(from, to)).Some?
      ensures Snapshot() == Do(old(Snapshot()), MoveDir(from, to)).GetOr(Left(old(Snapshot()), MoveDir(from, to)))
    {
      hide Relocate, RelocateDirs, Ancestors;
      ghost var t := Snapshot();
      var op := MoveDir(from, to);
      ok := from in dirs && Apart(from, to);
      files := map k | k in files && !(to < k) :: files[k];
      dirs := (set d | d in dirs && !(to <= d)) + Ancestors(to);
      assert Snapshot() == Left(t, op);
      if ok {
        ClearedFirst(t, from, to);
        files := Relocate(files, op);
        dirs := RelocateDirs(dirs, from, to);
        hashes := RenameHashes(hashes, from, to);
      }
    }

    /** Removing the target first does not show when the rename succeeds. */
    static lemma ClearedFirst(t: Tree, from: Path, to: Path)
      requires Apart(from, to)
      ensures var t', op := Left(t, MoveDir(from, to)), MoveDir(from, to);
        && Relocate(t'.files, op) == Relocate(t.files, op)
        && RelocateDirs(t'.dirs, from, to) == RelocateDirs(t.dirs, from, to)
    {
      var t', op := Left(t, MoveDir(from, to)), MoveDir(from, to);
      forall p | Takes(op, p)
        ensures !Fills(op, p)
      {
        PrefixesComparable(from, to, p);
      }
      forall d | d in t.dirs && from <= d
        ensures !(to <= d)
      {
        PrefixesComparable(from, to, d);
      }
      assert NewKeys(t'.files, op) == NewKeys(t.files, op);
      NewKeysHaveOrigin(t.files, op);
      NewKeysHaveOrigin(t'.files, op);
    }

    method Unlink(from: Path) returns (ok: bool)
      modifies this
      ensures ok == Do(old(Snapshot()), Remove(from)).Some?
      ensures Snapshot() == Do(old(Snapshot()), Remove(from)).GetOr(Left(old(Snapshot()), Remove(from)))
    {
      if from !in files {
        return false;
      }
      files := files - {from};
      hashes := hashes - {from};
      ok := true;
    }

    method CopyFile(from: Path, to: Path) returns (ok: bool)
      modifies this
      ensures ok == Do(old(Snapshot()), Copy(from, to)).Some?
      ensures Snapshot() == Do(old(Snapshot()), Copy(from, to)).GetOr(Left(old(Snapshot()), Copy(from, to)))
    {
      if from !in files {
        return false;
      }
      files := files[to := files[from]];
      ok := true;
    }

    /** Carries out one unmodified item and counts it. */
    method ExecuteAuto(item: Item) returns (ok: bool, count: Counts)
      modifies this
      ensures ok == Run(old(Snapshot()), AutoOp(item)).Some? && Snapshot() == Until(old(Snapshot()), AutoOp(item))
      ensures count == AutoCount(item)
    {
      ok, count := true, NONE_COUNTED;
      if item.kind.Rename? && item.to.Some? {
        ok := RenameFile(item.from, item.to.value);
        count := Counts(1, 0, 0, 0);
      } else if item.kind.RenameDir? && item.to.Some? {
        ok := RenameDirectory(item.from, item.to.value);
        count := Counts(1, 0, 0, 0);
      } else if item.kind.Delete? {
        ok := Unlink(item.from);
        count := Counts(0, 1, 0, 0);
      }
      OneOp(old(Snapshot()), AutoOp(item));
    }

    static lemma OneOp(t: Tree, ops: seq<Op>)
      ensures ops == [] ==> Run(t, ops) == Some(t) && Until(t, ops) == t
      ensures |ops| == 1 ==> Run(t, ops) == Do(t, ops[0]) && Until(t, ops) == Do(t, ops[0]).GetOr(Left(t, ops[0]))
    {
    }

    static lemma TwoOps(t: Tree, a: Op, b: Op)
      ensures Run(t, [a] + [b]) == if Do(t, a).None? then None else Do(Do(t, a).value, b)
      ensures Until(t, [a] + [b])
           == if Do(t, a).None? then Left(t, a) else Do(Do(t, a).value, b).GetOr(Left(Do(t, a).value, b))
    {
      RunConcat(t, [a], [b]);
      UntilConcat(t, [a], [b]);
      OneOp(t, [a]);
      if Do(t, a).Some? {
        OneOp(Do(t, a).value, [b]);
      }
    }

    /** Carries out one modified item as decided and counts it. */
    method ExecuteConfirmed(item: Item, action: Action) returns (ok: bool, count: Counts)
      modifies this
      ensures ok == Run(old(Snapshot()), ConfirmOps(item, action)).Some?
      ensures Snapshot() == Until(old(Snapshot()), ConfirmOps(item, action))
      ensures count == CountOf(item, action)
    {
      hide Do, Left;
      ghost var t := Snapshot();
      if action.LeaveAlone? {
        return true, Counts(0, 0, 1, 0);
      }
      ok, count := true, NONE_COUNTED;
      if item.kind.Rename? && item.to.Some? {
        if action.BackupFirst? {
          ok := CopyFile(item.from, BackupOf(item.to.value));
          TwoOps(t, Copy(item.from, BackupOf(item.to.value)), MoveFile(item.from, item.to.value));
        }
        if ok {
          ok := RenameFile(item.from, item.to.value);
          OneOp(t, [] + [MoveFile(item.from, item.to.value)]);
        }
        count := Counts(1, 0, 0, 0);
      } else if item.kind.Delete? {
        if action.BackupFirst? {
          ok := CopyFile(item.from, BackupOf(item.from));
          TwoOps(t, Copy(item.from, BackupOf(item.from)), Remove(item.from));
        }
        if ok {
          ok := Unlink(item.from);
          OneOp(t, [] + [Remove(item.from)]);
        }
        count := Counts(0, 1, 0, 0);
      }
    }

    method ExecuteAutos(items: seq<Item>) returns (ok: bool, counts: Counts)
      modifies this
      ensures ok == Run(old(Snapshot()), AutoOps(items)).Some? && Snapshot() == Until(old(Snapshot()), AutoOps(items))
      ensures ok ==> counts == AutoCounts(items)
    {
      hide Run, Until, AutoOp, AutoCount;
      ok, counts := true, NONE_COUNTED;
      ghost var t := Snapshot();
      EmptyRun(t);
      for i := 0 to |items|
        invariant Run(t, AutoOps(items[..i])) == Some(Snapshot())
        invariant counts == AutoCounts(items[..i]) && ok
      {
        var count;
        ghost var before := Snapshot();
        ok, count := ExecuteAuto(items[i]);
        assert items[..i + 1][..i] == items[..i];
        RunConcat(t, AutoOps(items[..i]), AutoOp(items[i]));
        UntilConcat(t, AutoOps(items[..i]), AutoOp(items[i]));
        RunIsUntil(before, AutoOp(items[i]));
        if !ok {
          AutoFails(t, items, i);
          return;
        }
        counts := Add(counts, count);
      }
      assert items[..|items|] == items;
      RunIsUntil(t, AutoOps(items));
    }

    static lemma EmptyRun(t: Tree)
      ensures Run(t, []) == Some(t) && Until(t, []) == t
    {
    }

    static lemma {:induction false} AutoFails(t: Tree, items: seq<Item>, i: nat)
      requires i < |items| && Run(t, AutoOps(items[..i + 1])).None?
      ensures Run(t, AutoOps(items)).None? && Until(t, AutoOps(items)) == Until(t, AutoOps(items[..i + 1]))
      decreases |items|
    {
      hide Run, Until, AutoOp;
      var n := |items| - 1;
      if i == n {
        assert items[..i + 1] == items;
      } else {
        assert items[..n][..i + 1] == items[..i + 1];
        AutoFails(t, items[..n], i);
        RunConcat(t, AutoOps(items[..n]), AutoOp(items[n]));
        UntilConcat(t, AutoOps(items[..n]), AutoOp(items[n]));
      }
    }

    method ExecuteConfirms(items: seq<Item>, actions: seq<Action>) returns (ok: bool, counts: Counts)
      requires |actions| == |items|
      modifies this
      ensures ok == Run(old(Snapshot()), AllConfirmOps(items, actions)).Some?
      ensures Snapshot() == Until(old(Snapshot()), AllConfirmOps(items, actions))
      ensures ok ==> counts == ConfirmCounts(items, actions)
    {
      hide Run, Until, ConfirmOps, CountOf;
      ok, counts := true, NONE_COUNTED;
      ghost var t := Snapshot();
      EmptyRun(t);
      for i := 0 to |items|
        invariant Run(t, AllConfirmOps(items[..i], actions[..i])) == Some(Snapshot())
        invariant counts == ConfirmCounts(items[..i], actions[..i]) && ok
      {
        var count;
        ghost var before := Snapshot();
        ok, count := ExecuteConfirmed(items[i], actions[i]);
        assert items[..i + 1][..i] == items[..i] && actions[..i + 1][..i] == actions[..i];
        RunConcat(t, AllConfirmOps(items[..i], actions[..i]), ConfirmOps(items[i], actions[i]));
        UntilConcat(t, AllConfirmOps(items[..i], actions[..i]), ConfirmOps(items[i], actions[i]));
        RunIsUntil(before, ConfirmOps(items[i], actions[i]));
        if !ok {
          ConfirmFails(t, items, actions, i);
          return;
        }
        counts := Add(counts, count);
      }
      assert items[..|items|] == items && actions[..|items|] == actions;
      RunIsUntil(t, AllConfirmOps(items, actions));
    }

    static lemma {:induction false} ConfirmFails(t: Tree, items: seq<Item>, actions: seq<Action>, i: nat)
      requires |actions| == |items| && i < |items|
      requires Run(t, AllConfirmOps(items[..i + 1], actions[..i + 1])).None?
      ensures Run(t, AllConfirmOps(items, actions)).None?
      ensures Until(t, AllConfirmOps(items, actions)) == Until(t, AllConfirmOps(items[..i + 1], actions[..i + 1]))
      decreases |items|
    {
      hide Run, Until, ConfirmOps;
      var n := |items| - 1;
      if i == n {
        assert items[..i + 1] == items && actions[..i + 1] == actions;
      } else {
        assert items[..n][..i + 1] == items[..i + 1] && actions[..n][..i + 1] == actions[..i + 1];
        ConfirmFails(t, items[..n], actions[..n], i);
        RunConcat(t, AllConfirmOps(items[..n], actions[..n]), ConfirmOps(items[n], actions[n]));
        UntilConcat(t, AllConfirmOps(items[..n], actions[..n]), ConfirmOps(items[n], actions[n]));
      }
    }

    /** `executeMigrations`; no result when a file operation throws, with the tree
        left as it then is. */
    method ExecuteMigrations(c: Classified, force: bool, skipAll: bool, answers: seq<Action>)
        returns (result: Option<Counts>)
      requires |answers| == |c.confirm|
      modifies this
      ensures var actions := ActionsFor(force, skipAll, answers);
        && (result.Some? <==> Run(old(Snapshot()), ExecutionOps(c, actions)).Some?)
        && Snapshot() == Until(old(Snapshot()), ExecutionOps(c, actions))
        && (result.Some? ==> result.value == ExecutionCounts(c, actions))
    {
      hide Run, Until, AutoOps, AllConfirmOps, AutoCounts, ConfirmCounts, SortForExecution;
      ghost var t := Snapshot();
      ghost var actions := ActionsFor(force, skipAll, answers);
      var sorted := SortForExecution(c.auto);
      var ok, autoCounts := ExecuteAutos(sorted);
      RunConcat(t, AutoOps(sorted), AllConfirmOps(c.confirm, actions));
      UntilConcat(t, AutoOps(sorted), AllConfirmOps(c.confirm, actions));
      RunIsUntil(t, AutoOps(sorted));
      if !ok {
        return None;
      }
      var confirmCounts;
      ok, confirmCounts := ExecuteConfirms(c.confirm, ActionsFor(force, skipAll, answers));
      if !ok {
        return None;
      }
      result := Some(Add(Add(autoCounts, confirmCounts), Counts(0, 0, |c.skip|, |c.conflict|)));
    }
  }
}
