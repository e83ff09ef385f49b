/** What migrations keep: nothing the user changed is lost unless the user said
    so, every item is accounted for, and nested directories move in the right order. */
module MigrationSafety {
  import opened Options
  import opened Moves
  import opened Migrations

  // ---- The sort puts nested sources first ----

  /** `outer` would be moved after `inner`, which lies inside it. */
  predicate Nests(outer: Item, inner: Item)
  {
    outer.kind.RenameDir? && inner.kind.RenameDir? && outer.from < inner.from
  }

  /** The sources do not meet, except for directories inside directories whose
      depths the sort can tell apart. */
  predicate SourcesCompatible(a: Item, b: Item)
  {
    || Apart(a.from, b.from)
    || (Nests(a, b) && Depth(a) < Depth(b))
    || (Nests(b, a) && Depth(b) < Depth(a))
  }

  predicate Pairwise(items: seq<Item>)
  {
    forall i, j :: 0 <= i < j < |items| ==> SourcesCompatible(items[i], items[j])
  }

  lemma {:induction false} InsertPairwise(s: seq<Item>, x: Item)
    requires Pairwise(s) && forall y :: y in s ==> SourcesCompatible(y, x)
    ensures Pairwise(Insert(s, x))
    decreases |s|
  {
    if s != [] && Compare(x, s[|s| - 1]) < 0 {
      var front, last := s[..|s| - 1], s[|s| - 1];
      InsertPairwise(front, x);
      InsertAdds(front, x);
      forall y | y in Insert(front, x)
        ensures SourcesCompatible(y, last)
      {
        assert y == x ==> SourcesCompatible(last, y);
      }
    }
  }

  lemma {:induction false} SortPairwise(items: seq<Item>)
    requires Pairwise(items)
    ensures Pairwise(SortForExecution(items))
    decreases |items|
  {
    if items != [] {
      var front, last := items[..|items| - 1], items[|items| - 1];
      SortPairwise(front);
      SortIsStable(front, last);
      forall y | y in SortForExecution(front)
        ensures SourcesCompatible(y, last)
      {
        assert y in multiset(front);
      }
      InsertPairwise(SortForExecution(front), last);
    }
  }

  /** Two nested sources are told apart by depth unless the outer one is written
      with a trailing slash and the inner one is its direct child without one. */
  lemma DepthTellsApart(outer: Item, inner: Item)
    requires Nests(outer, inner)
    ensures Depth(outer) < Depth(inner) <==> !(outer.slash && !inner.slash && |inner.from| == |outer.from| + 1)
    ensures Depth(outer) < Depth(inner) <==> Compare(inner, outer) < 0
  {
  }

  predicate SortedPairFollows(a: Item, b: Item)
  {
    || Apart(a.from, b.from) || Nests(b, a)
  }

  lemma SortedFollows(items: seq<Item>, i: nat, j: nat)
    requires Pairwise(items) && IsSorted(items) && i < j < |items|
    ensures SortedPairFollows(items[i], items[j])
  {
    assert SourcesCompatible(items[i], items[j]) && Compare(items[i], items[j]) <= 0;
  }

  lemma SortPermutes(items: seq<Item>)
    ensures IsSorted(SortForExecution(items)) && |SortForExecution(items)| == |items|
    ensures forall item :: item in SortForExecution(items) <==> item in items
  {
    var sorted := SortForExecution(items);
    SortSorts(items);
    assert |multiset(sorted)| == |multiset(items)|;
    forall item
      ensures item in sorted <==> item in items
    {
      assert item in multiset(sorted) <==> item in multiset(items);
    }
  }

  // ---- Executed operations come from items ----

  /** `op` is what `item` does when nobody needs to be asked. */
  ghost predicate FromAuto(op: Op, items: seq<Item>)
  {
    exists item :: item in items && op in AutoOp(item)
  }

  ghost predicate FromConfirm(op: Op, items: seq<Item>, actions: seq<Action>)
    requires |actions| == |items|
  {
    exists i :: 0 <= i < |items| && op in ConfirmOps(items[i], actions[i])
  }

  lemma {:induction false} AutoOpsFrom(op: Op, items: seq<Item>)
    ensures op in AutoOps(items) <==> FromAuto(op, items)
    decreases |items|
  {
    if items != [] {
      var front, last := items[..|items| - 1], items[|items| - 1];
      AutoOpsFrom(op, front);
      assert forall item :: item in items <==> item in front || item == last;
    }
  }

  lemma FromConfirmLast(op: Op, items: seq<Item>, actions: seq<Action>)
    requires |actions| == |items| && items != []
    ensures var n := |items| - 1;
      FromConfirm(op, items, actions)
      <==> FromConfirm(op, items[..n], actions[..n]) || op in ConfirmOps(items[n], actions[n])
  {
    hide ConfirmOps;
    var n := |items| - 1;
    assert forall i :: 0 <= i < n ==> items[..n][i] == items[i] && actions[..n][i] == actions[i];
    if FromConfirm(op, items, actions) {
      var i :| 0 <= i < |items| && op in ConfirmOps(items[i], actions[i]);
      assert i < n ==> op in ConfirmOps(items[..n][i], actions[..n][i]);
    }
  }

  lemma {:induction false} ConfirmOpsFrom(op: Op, items: seq<Item>, actions: seq<Action>)
    requires |actions| == |items|
    ensures op in AllConfirmOps(items, actions) <==> FromConfirm(op, items, actions)
    decreases |items|
  {
    hide ConfirmOps;
    if items != [] {
      var n := |items| - 1;
      ConfirmOpsFrom(op, items[..n], actions[..n]);
      FromConfirmLast(op, items, actions);
    }
  }

  lemma ExecutionOpsFrom(op: Op, c: Classified, actions: seq<Action>)
    requires |actions| == |c.confirm|
    ensures op in ExecutionOps(c, actions) <==> FromAuto(op, c.auto) || FromConfirm(op, c.confirm, actions)
  {
    AutoOpsFrom(op, SortForExecution(c.auto));
    ConfirmOpsFrom(op, c.confirm, actions);
    SortPermutes(c.auto);
  }

  // ---- The executed operations are ordered ----

  /** Sources of modified items meet no other source. */
  predicate ConfirmsApart(c: Classified)
  {
    && (forall i, j :: 0 <= i < j < |c.confirm| ==> Apart(c.confirm[i].from, c.confirm[j].from))
    && (forall a, b :: a in c.auto && b in c.confirm ==> Apart(a.from, b.from))
  }

  /** Whatever `item` turns into acts on its own source. */
  lemma OpSource(item: Item, action: Action, op: Op)
    ensures op in AutoOp(item) ==> op.from == item.from && (op.MoveDir? <==> item.kind.RenameDir?) && !op.Copy?
    ensures op in ConfirmOps(item, action) ==> op.from == item.from && !op.MoveDir?
  {
  }

  lemma OrderedConcat(a: seq<Op>, b: seq<Op>)
    requires Ordered(a) && Ordered(b)
    requires forall x, y :: x in a && y in b ==> SourcesFollow(x, y)
    ensures Ordered(a + b)
  {
    var ops := a + b;
    forall i, j | 0 <= i < j < |ops|
      ensures SourcesFollow(ops[i], ops[j])
    {
      if i < |a| && j >= |a| {
        assert ops[i] in a && ops[j] in b;
      }
    }
  }

  lemma {:induction false} AutoOpsOrdered(items: seq<Item>)
    requires Pairwise(items) && IsSorted(items)
    ensures Ordered(AutoOps(items))
    decreases |items|
  {
    if items != [] {
      var n := |items| - 1;
      var front, last := items[..n], items[n];
      AutoOpsOrdered(front);
      forall x, y | x in AutoOps(front) && y in AutoOp(last)
        ensures SourcesFollow(x, y)
      {
        AutoOpsFrom(x, front);
        var i :| 0 <= i < n && x in AutoOp(front[i]);
        OpSource(front[i], Proceed, x);
        OpSource(last, Proceed, y);
        SortedFollows(items, i, n);
      }
      OrderedConcat(AutoOps(front), AutoOp(last));
    }
  }

  lemma {:induction false} ConfirmOpsOrdered(items: seq<Item>, actions: seq<Action>)
    requires |actions| == |items|
    requires forall i, j :: 0 <= i < j < |items| ==> Apart(items[i].from, items[j].from)
    ensures Ordered(AllConfirmOps(items, actions))
    decreases |items|
  {
    if items != [] {
      var n := |items| - 1;
      ConfirmOpsOrdered(items[..n], actions[..n]);
      forall x, y | x in AllConfirmOps(items[..n], actions[..n]) && y in ConfirmOps(items[n], actions[n])
        ensures SourcesFollow(x, y)
      {
        ConfirmOpsFrom(x, items[..n], actions[..n]);
        var i :| 0 <= i < n && x in ConfirmOps(items[..n][i], actions[..n][i]);
        OpSource(items[i], actions[i], x);
        OpSource(items[n], actions[n], y);
      }
      OneItemOrdered(items[n], actions[n]);
      OrderedConcat(AllConfirmOps(items[..n], actions[..n]), ConfirmOps(items[n], actions[n]));
    }
  }

  lemma OneItemOrdered(item: Item, action: Action)
    ensures Ordered(ConfirmOps(item, action))
  {
  }

  /** With compatible sources, the order of execution is one in which no
      operation takes away the source of a later one. */
  lemma ExecutionOrdered(c: Classified, actions: seq<Action>)
    requires |actions| == |c.confirm| && Pairwise(c.auto) && ConfirmsApart(c)
    ensures Ordered(ExecutionOps(c, actions))
  {
    var sorted := SortForExecution(c.auto);
    SortPairwise(c.auto);
    SortPermutes(c.auto);
    AutoOpsOrdered(sorted);
    ConfirmOpsOrdered(c.confirm, actions);
    forall x, y | x in AutoOps(sorted) && y in AllConfirmOps(c.confirm, actions)
      ensures SourcesFollow(x, y)
    {
      AutoOpsFrom(x, sorted);
      var item :| item in sorted && x in AutoOp(item);
      ConfirmOpsFrom(y, c.confirm, actions);
      var i :| 0 <= i < |c.confirm| && y in ConfirmOps(c.confirm[i], actions[i]);
      OpSource(item, Proceed, x);
      OpSource(c.confirm[i], actions[i], y);
    }
    OrderedConcat(AutoOps(sorted), AllConfirmOps(c.confirm, actions));
  }

  // ---- Execution never stops half way ----

  /** Renames and deletions are of files, directory renames of directories. */
  ghost predicate KindsMatch(t: Tree, items: seq<Item>)
  {
    forall item :: item in items ==> if item.kind.RenameDir? then item.from !in t.files else item.from !in t.dirs
  }

  lemma ExecutedItemExists(t: Tree, s: Setting, item: Item)
    requires BucketOf(t, s, item).Auto? || BucketOf(t, s, item).Confirm?
    ensures Exists(t, item.from)
    ensures item.kind.Delete? || (item.kind.Rename? && item.to.Some?) || (item.kind.RenameDir? && item.to.Some?)
    ensures BucketOf(t, s, item).Confirm? ==> !item.kind.RenameDir? && Modified(t, item.from, s.hash)
  {
  }

  lemma ExecutionSourcesExist(t: Tree, s: Setting, items: seq<Item>, actions: seq<Action>)
    requires KindsMatch(t, items) && |actions| == |ClassifiedOf(t, s, items).confirm|
    ensures SourcesExist(t, ExecutionOps(ClassifiedOf(t, s, items), actions))
  {
    var c := ClassifiedOf(t, s, items);
    forall op | op in ExecutionOps(c, actions)
      ensures HasSource(t, op)
    {
      ExecutionOpsFrom(op, c, actions);
      if FromAuto(op, c.auto) {
        var item :| item in c.auto && op in AutoOp(item);
        ExecutedItemExists(t, s, item);
        OpSource(item, Proceed, op);
      } else {
        var i :| 0 <= i < |c.confirm| && op in ConfirmOps(c.confirm[i], actions[i]);
        ExecutedItemExists(t, s, c.confirm[i]);
        OpSource(c.confirm[i], actions[i], op);
      }
    }
  }

  /** The conditions on a release's migrations, given what the user has on disk. */
  ghost predicate IsSound(t: Tree, s: Setting, items: seq<Item>, actions: seq<Action>)
  {
    var c := ClassifiedOf(t, s, items);
    && KindsMatch(t, items) && |actions| == |c.confirm|
    && Pairwise(c.auto) && ConfirmsApart(c)
    && TargetsApart(ExecutionOps(c, actions))
  }

  /** Every sound set of migrations runs to its end, in an order that does not
      show in the result. */
  lemma ExecutionCompletes(t: Tree, s: Setting, items: seq<Item>, actions: seq<Action>)
    requires IsSound(t, s, items, actions)
    ensures var ops := ExecutionOps(ClassifiedOf(t, s, items), actions);
      IsPlan(ops) && Run(t, ops).Some?
  {
    hide ExecutionOps;
    ExecutionOrdered(ClassifiedOf(t, s, items), actions);
    ExecutionSourcesExist(t, s, items, actions);
    OrderedRuns(t, ExecutionOps(ClassifiedOf(t, s, items), actions));
  }

  // ---- Nothing the user changed is lost ----

  /** The content of `p` is still somewhere the user will find it. */
  ghost predicate Survives(ops: seq<Op>, p: Path)
  {
    exists q :: EndsAt(ops, p, q) || Copy(p, q) in ops
  }

  /** Something the user agreed to delete without a copy. */
  ghost predicate DeletedOnPurpose(c: Classified, actions: seq<Action>, p: Path)
    requires |actions| == |c.confirm|
  {
    exists i :: 0 <= i < |c.confirm| && c.confirm[i].kind.Delete? && c.confirm[i].from == p && actions[i].Proceed?
  }

  /** `p` lies in a directory that is replaced without having been looked into. */
  ghost predicate Overlooked(s: Setting, c: Classified, p: Path)
  {
    exists item :: item in c.auto && item.kind.RenameDir? && item.to.Some? && item.to.value < p
                   && Hidden(s, item.to.value, p)
  }

  /** The directories above a file exist. */
  ghost predicate HasParents(t: Tree)
  {
    forall p, d :: p in t.files && d < p && d != [] ==> d in t.dirs
  }

  lemma {:induction false} NoFateReason(ops: seq<Op>, p: Path)
    requires Fate(ops, p).None?
    ensures exists op :: op in ops && (op == Remove(p) || Fills(op, p))
    decreases |ops|
  {
    if !Takes(ops[0], p) && !Fills(ops[0], p) {
      NoFateReason(ops[1..], p);
      var op :| op in ops[1..] && (op == Remove(p) || Fills(op, p));
      assert op in ops;
    } else {
      assert ops[0] in ops;
    }
  }

  /** Where classification lets an automatic item fill a path that holds a file. */
  lemma AutoFillsSafely(t: Tree, s: Setting, item: Item, op: Op, p: Path)
    requires BucketOf(t, s, item).Auto? && op in AutoOp(item) && HasParents(t)
    requires p in t.files && Modified(t, p, s.hash) && !IsTemplate(t, s, p)
    requires item.to.Some? ==> item.to.value != []
    ensures op != Remove(p)
    ensures Fills(op, p) ==> item.kind.RenameDir? && item.to.value < p && Hidden(s, item.to.value, p)
  {
  }

  lemma ConfirmedFills(t: Tree, s: Setting, item: Item, action: Action, op: Op, p: Path)
    requires BucketOf(t, s, item).Confirm? && op in ConfirmOps(item, action) && p in t.files
    ensures !action.LeaveAlone?
    ensures Fills(op, p) ==> op.Copy?
    ensures op == Remove(p) ==> item.kind.Delete? && item.from == p
    ensures op == Remove(p) && action.BackupFirst? ==> Copy(p, BackupOf(p)) in ConfirmOps(item, action)
  {
  }

  lemma TargetsNotRoot(c: Classified, actions: seq<Action>, item: Item)
    requires |actions| == |c.confirm| && TargetsApart(ExecutionOps(c, actions)) && item in c.auto
    requires item.to.Some? && (item.kind.Rename? || item.kind.RenameDir?)
    ensures item.to.value != []
  {
    var op := AutoOp(item)[0];
    assert FromAuto(op, c.auto);
    ExecutionOpsFrom(op, c, actions);
    assert Apart(op.to, op.from);
  }

  /** The target of `item` is `p`, or a directory above it. */
  predicate TargetFills(item: Item, p: Path)
  {
    item.to.Some? && ((item.kind.Rename? && item.to.value == p) || (item.kind.RenameDir? && item.to.value < p))
  }

  /** Something else comes to stand at `p`: an automatic item's source, or the
      backup copy of a modified file. */
  ghost predicate Replaced(c: Classified, actions: seq<Action>, p: Path)
    requires |actions| == |c.confirm|
  {
    || (exists item :: item in c.auto && TargetFills(item, p))
    || (exists i, from :: 0 <= i < |c.confirm| && Copy(from, p) in ConfirmOps(c.confirm[i], actions[i]))
  }

  lemma ReplacedIsFilled(c: Classified, actions: seq<Action>, p: Path) returns (op: Op)
    requires |actions| == |c.confirm| && Replaced(c, actions, p)
    ensures op in ExecutionOps(c, actions) && Fills(op, p)
  {
    hide ExecutionOps;
    if item :| item in c.auto && TargetFills(item, p) {
      op := if item.kind.Rename? then MoveFile(item.from, item.to.value) else MoveDir(item.from, item.to.value);
      assert op in AutoOp(item);
    } else {
      var i, from :| 0 <= i < |c.confirm| && Copy(from, p) in ConfirmOps(c.confirm[i], actions[i]);
      op := Copy(from, p);
      assert FromConfirm(op, c.confirm, actions);
    }
    ExecutionOpsFrom(op, c, actions);
  }

  lemma AutoReplaces(t: Tree, s: Setting, c: Classified, actions: seq<Action>, p: Path, op: Op)
    requires |actions| == |c.confirm| && FromAuto(op, c.auto) && (op == Remove(p) || Fills(op, p))
    requires forall item :: item in c.auto ==> BucketOf(t, s, item).Auto?
    requires p in t.files && Modified(t, p, s.hash)
    ensures Replaced(c, actions, p)
  {
    var item :| item in c.auto && op in AutoOp(item);
    ExecutedItemExists(t, s, item);
    if item.to.None? || item.kind.Delete? {
      AutoRemovesSafely(t, s, item, op, p);
    } else {
      assert TargetFills(item, p);
    }
  }

  /** For a file that is not itself a bundled template, and with the names of backup
      copies free, being replaced means lying in a directory that is replaced
      without having been looked into. */
  lemma ReplacedIsOverlooked(t: Tree, s: Setting, items: seq<Item>, actions: seq<Action>, p: Path)
    requires IsSound(t, s, items, actions) && HasParents(t)
    requires p in t.files && Modified(t, p, s.hash) && !IsTemplate(t, s, p)
    requires forall op :: op in ExecutionOps(ClassifiedOf(t, s, items), actions) && op.Copy? ==> op.to !in t.files
    ensures Replaced(ClassifiedOf(t, s, items), actions, p) <==> Overlooked(s, ClassifiedOf(t, s, items), p)
  {
    hide ExecutionOps, IsDirSafe, Modified, IsTemplate, Hidden, ConfirmOps, BucketOf;
    var c := ClassifiedOf(t, s, items);
    if item :| item in c.auto && TargetFills(item, p) {
      var op := if item.kind.Rename? then MoveFile(item.from, item.to.value) else MoveDir(item.from, item.to.value);
      assert op in AutoOp(item);
      TargetsNotRoot(c, actions, item);
      AutoFillsSafely(t, s, item, op, p);
    } else if i, from :| 0 <= i < |c.confirm| && Copy(from, p) in ConfirmOps(c.confirm[i], actions[i]) {
      assert FromConfirm(Copy(from, p), c.confirm, actions);
      ExecutionOpsFrom(Copy(from, p), c, actions);
    }
  }

  lemma AutoRemovesSafely(t: Tree, s: Setting, item: Item, op: Op, p: Path)
    requires BucketOf(t, s, item).Auto? && op in AutoOp(item) && (item.to.None? || item.kind.Delete?)
    requires Modified(t, p, s.hash)
    ensures op != Remove(p) && !Fills(op, p)
  {
  }

  lemma ConfirmedSurvives(t: Tree, s: Setting, items: seq<Item>, actions: seq<Action>, p: Path, op: Op)
    requires IsSound(t, s, items, actions) && p in t.files && Modified(t, p, s.hash)
    requires FromConfirm(op, ClassifiedOf(t, s, items).confirm, actions) && (op == Remove(p) || Fills(op, p))
    requires !DeletedOnPurpose(ClassifiedOf(t, s, items), actions, p) && !Replaced(ClassifiedOf(t, s, items), actions, p)
    ensures Survives(ExecutionOps(ClassifiedOf(t, s, items), actions), p)
  {
    hide ExecutionOps, TargetsApart, Pairwise, ConfirmsApart, KindsMatch, BackupOf, BucketOf, EndsAt, ConfirmOps, Modified;
    var c := ClassifiedOf(t, s, items);
    var i :| 0 <= i < |c.confirm| && op in ConfirmOps(c.confirm[i], actions[i]);
    ConfirmedFills(t, s, c.confirm[i], actions[i], op, p);
    FillsByCopy(op, p);
    var copy := Copy(p, BackupOf(p));
    assert copy in ConfirmOps(c.confirm[i], actions[i]);
    assert FromConfirm(copy, c.confirm, actions);
    ExecutionOpsFrom(copy, c, actions);
  }

  lemma FillsByCopy(op: Op, p: Path)
    ensures Fills(op, p) && op.Copy? ==> exists from :: op == Copy(from, p)
  {
    if Fills(op, p) && op.Copy? {
      assert op == Copy(op.from, p);
    }
  }

  lemma FilledIsLost(ops: seq<Op>, op: Op, p: Path)
    requires TargetsApart(ops) && op in ops && Fills(op, p)
    ensures !Survives(ops, p)
  {
    forall q
      ensures !EndsAt(ops, p, q) && Copy(p, q) !in ops
    {
      assert Copy(p, q) in ops ==> Apart(op.to, Copy(p, q).from);
      forall other | other in ops
        ensures !Takes(other, p)
      {
        assert Apart(op.to, other.from);
        ApartRegions(op, other, p);
      }
    }
  }

  /** Conservation: after a sound set of migrations, the content of any file that
      counts as modified is still there, at its own path, at its new path or in a
      `.backup` copy, unless the user agreed to its deletion, exactly when nothing
      else was put in its place. */
  lemma ModifiedSurvives(t: Tree, s: Setting, items: seq<Item>, actions: seq<Action>, p: Path)
    requires IsSound(t, s, items, actions)
    requires p in t.files && Modified(t, p, s.hash) && !DeletedOnPurpose(ClassifiedOf(t, s, items), actions, p)
    ensures var c := ClassifiedOf(t, s, items);
      Survives(ExecutionOps(c, actions), p) <==> !Replaced(c, actions, p)
  {
    hide ExecutionOps, Modified, Replaced, Survives, DeletedOnPurpose, BucketOf;
    var c := ClassifiedOf(t, s, items);
    var ops := ExecutionOps(c, actions);
    ExecutionCompletes(t, s, items, actions);
    if Replaced(c, actions, p) {
      var op := ReplacedIsFilled(c, actions, p);
      FilledIsLost(ops, op, p);
    } else if Fate(ops, p).Some? {
      FateIsOneShot(ops, p, Fate(ops, p).value);
      EndingSurvives(ops, p, Fate(ops, p).value);
    } else {
      NoFateReason(ops, p);
      var op :| op in ops && (op == Remove(p) || Fills(op, p));
      ExecutionOpsFrom(op, c, actions);
      if FromAuto(op, c.auto) {
        AutoReplaces(t, s, c, actions, p, op);
      } else {
        ConfirmedSurvives(t, s, items, actions, p, op);
      }
    }
  }

  lemma EndingSurvives(ops: seq<Op>, p: Path, q: Path)
    requires EndsAt(ops, p, q)
    ensures Survives(ops, p)
  {
  }

  /** What survives is really there after the run. */
  lemma SurvivorIsThere(t: Tree, ops: seq<Op>, p: Path)
    requires IsPlan(ops) && Run(t, ops).Some? && p in t.files && Survives(ops, p)
    ensures exists q :: q in Run(t, ops).value.files && Run(t, ops).value.files[q] == t.files[p]
  {
    var q :| EndsAt(ops, p, q) || Copy(p, q) in ops;
    PlanIsOneShot(t, ops, p, q);
  }

  const OLD_DIR: Path := [".trellis"]
  const NEW_DIR: Path := [".cstl"]
  const TASK_FILE: Path := [".cstl", "tasks", "mine", "prd.md"]
  const TASK_TREE := Tree(map[TASK_FILE := "work"], {OLD_DIR, NEW_DIR}, map[])
  const RENAME_ROOT := Item(RenameDir, OLD_DIR, false, Some(NEW_DIR))

  /** Directories below `tasks` are not descended into. */
  function TaskSetting(hash: string -> string): Setting
  {
    Setting(map[], hash, p => false, p => |p| == 3 && p[1] == "tasks")
  }

  lemma TaskIsHidden(hash: string -> string)
    ensures NEW_DIR < TASK_FILE && Hidden(TaskSetting(hash), NEW_DIR, TASK_FILE)
    ensures Modified(TASK_TREE, TASK_FILE, hash)
  {
    assert |NEW_DIR| < 3 < |TASK_FILE| && TaskSetting(hash).isUnscanned(TASK_FILE[..3]);
  }

  lemma PickOne(t: Tree, s: Setting, item: Item, b: Bucket)
    ensures Pick(t, s, [item], b) == if BucketOf(t, s, item) == b then [item] else []
  {
    hide BucketOf;
    assert [item][..0] == [];
  }

  lemma RunOne(item: Item)
    ensures ExecutionOps(Classified([item], [], [], []), []) == AutoOp(item)
  {
    assert [item][..0] == [];
    assert SortForExecution([item]) == [item];
    assert AutoOps([item]) == AutoOp(item);
  }

  lemma TaskMigrationIsAutomatic(hash: string -> string)
    ensures ClassifiedOf(TASK_TREE, TaskSetting(hash), [RENAME_ROOT]) == Classified([RENAME_ROOT], [], [], [])
  {
    TaskIsHidden(hash);
    var s := TaskSetting(hash);
    assert BucketOf(TASK_TREE, s, RENAME_ROOT) == Auto;
    hide BucketOf;
    PickOne(TASK_TREE, s, RENAME_ROOT, Auto);
    PickOne(TASK_TREE, s, RENAME_ROOT, Confirm);
    PickOne(TASK_TREE, s, RENAME_ROOT, Conflict);
    PickOne(TASK_TREE, s, RENAME_ROOT, Skip);
  }

  lemma TaskMigrationRuns()
    ensures ExecutionOps(Classified([RENAME_ROOT], [], [], []), []) == [MoveDir(OLD_DIR, NEW_DIR)]
    ensures Run(TASK_TREE, [MoveDir(OLD_DIR, NEW_DIR)]) == Do(TASK_TREE, MoveDir(OLD_DIR, NEW_DIR))
  {
    RunOne(RENAME_ROOT);
    Checkout.OneOp(TASK_TREE, [MoveDir(OLD_DIR, NEW_DIR)]);
  }

  /** A concrete loss: a task the user wrote is destroyed when the directory it
      lives in is the target of a rename and nothing else there was changed. */
  lemma OverlookedTaskIsLost(hash: string -> string)
    ensures Modified(TASK_TREE, TASK_FILE, hash)
    ensures var c := ClassifiedOf(TASK_TREE, TaskSetting(hash), [RENAME_ROOT]);
      && c.confirm == [] && c.conflict == []
      && Run(TASK_TREE, ExecutionOps(c, [])).Some?
      && Run(TASK_TREE, ExecutionOps(c, [])).value.files == map[]
  {
    hide Hidden, ExecutionOps, ClassifiedOf, Run;
    TaskIsHidden(hash);
    TaskMigrationIsAutomatic(hash);
    TaskMigrationRuns();
    var op := MoveDir(OLD_DIR, NEW_DIR);
    assert OLD_DIR[0] != NEW_DIR[0] && Apart(OLD_DIR, NEW_DIR);
    assert Fills(op, TASK_FILE) && !Takes(op, TASK_FILE) by {
      assert OLD_DIR[0] != TASK_FILE[0];
    }
    assert NewKeys(TASK_TREE.files, op) == {};
  }

  // ---- A trailing slash can undo the order ----

  predicate IsExecutable(item: Item)
  {
    item.kind.Delete? || ((item.kind.Rename? || item.kind.RenameDir?) && item.to.Some?)
  }

  /** The one operation of an automatic item. */
  function OpOf(item: Item): Op
    requires IsExecutable(item)
  {
    AutoOp(item)[0]
  }

  predicate AllExecutable(items: seq<Item>) { forall item :: item in items ==> IsExecutable(item) }

  lemma {:induction false} AutoOpsOneEach(items: seq<Item>)
    requires AllExecutable(items)
    ensures |AutoOps(items)| == |items| && forall k :: 0 <= k < |items| ==> AutoOps(items)[k] == OpOf(items[k])
    decreases |items|
  {
    hide IsExecutable, AutoOp;
    if items != [] {
      var front, last := items[..|items| - 1], items[|items| - 1];
      assert last in items && forall item :: item in front ==> item in items;
      AutoOpsOneEach(front);
      OneOpEach(last);
    }
  }

  lemma OneOpEach(item: Item)
    requires IsExecutable(item)
    ensures AutoOp(item) == [OpOf(item)]
  {
  }

  /** No item before `later` takes its source away. */
  predicate Follows(first: Item, later: Item)
    requires IsExecutable(first) && IsExecutable(later)
  {
    SourcesFollow(OpOf(first), OpOf(later))
  }

  predicate AllFollow(s: seq<Item>)
    requires AllExecutable(s)
  {
    forall k, l :: 0 <= k < l < |s| ==> Follows(s[k], s[l])
  }

  /** As the sort places them, when `a` is listed before `b`. */
  predicate Placed(a: Item, b: Item)
    requires IsExecutable(a) && IsExecutable(b)
  {
    if Compare(b, a) < 0 then Follows(b, a) else Follows(a, b)
  }

  lemma AppendFollows(s: seq<Item>, x: Item)
    requires AllExecutable(s + [x])
    ensures AllExecutable(s) && IsExecutable(x)
    ensures AllFollow(s + [x]) <==> AllFollow(s) && forall e :: e in s ==> Follows(e, x)
  {
    hide IsExecutable, Follows;
    var t := s + [x];
    assert x in t && forall e :: e in s ==> e in t;
    if AllFollow(t) {
      forall k, l | 0 <= k < l < |s|
        ensures Follows(s[k], s[l])
      {
        assert t[k] == s[k] && t[l] == s[l];
      }
      forall e | e in s
        ensures Follows(e, x)
      {
        var k :| 0 <= k < |s| && s[k] == e;
        assert t[k] == e && t[|s|] == x;
      }
    }
  }

  lemma {:induction false} InsertFollows(s: seq<Item>, x: Item)
    requires AllExecutable(s) && IsExecutable(x) && IsSorted(s)
    ensures AllExecutable(Insert(s, x))
    ensures AllFollow(Insert(s, x)) <==> AllFollow(s) && forall e :: e in s ==> Placed(e, x)
    decreases |s|
  {
    hide IsExecutable, Follows, Compare, AllFollow;
    InsertAdds(s, x);
    if s != [] {
      var front, last := s[..|s| - 1], s[|s| - 1];
      assert s == front + [last] && last in s;
      AppendFollows(front, last);
      if Compare(x, last) < 0 {
        InsertFollows(front, x);
        InsertAdds(front, x);
        AppendFollows(Insert(front, x), last);
      } else {
        AppendFollows(s, x);
        forall e | e in s
          ensures Compare(x, e) >= 0
        {
          EarlierIsNoLarger(s, x, e);
        }
      }
    } else {
      AppendFollows([], x);
      assert [] + [x] == [x];
      EmptyFollows();
    }
  }

  lemma EmptyFollows()
    ensures AllFollow([]) && AllPlaced([])
  {
  }

  lemma EarlierIsNoLarger(s: seq<Item>, x: Item, e: Item)
    requires IsSorted(s) && e in s && Compare(x, s[|s| - 1]) >= 0
    ensures Compare(x, e) >= 0
  {
    var k :| 0 <= k < |s| && s[k] == e;
    assert k < |s| - 1 ==> Compare(s[k], s[|s| - 1]) <= 0;
  }

  predicate AllPlaced(items: seq<Item>)
    requires AllExecutable(items)
  {
    forall i, j :: 0 <= i < j < |items| ==> Placed(items[i], items[j])
  }

  lemma AppendPlaced(s: seq<Item>, x: Item)
    requires AllExecutable(s + [x])
    ensures AllExecutable(s) && IsExecutable(x)
    ensures AllPlaced(s + [x]) <==> AllPlaced(s) && forall e :: e in s ==> Placed(e, x)
  {
    hide IsExecutable, Placed;
    var t := s + [x];
    assert x in t && forall e :: e in s ==> e in t;
    if AllPlaced(t) {
      forall k, l | 0 <= k < l < |s|
        ensures Placed(s[k], s[l])
      {
        assert t[k] == s[k] && t[l] == s[l];
      }
      forall e | e in s
        ensures Placed(e, x)
      {
        var k :| 0 <= k < |s| && s[k] == e;
        assert t[k] == e && t[|s|] == x;
      }
    }
  }

  lemma {:induction false} SortFollows(items: seq<Item>)
    requires AllExecutable(items)
    ensures AllExecutable(SortForExecution(items))
    ensures AllFollow(SortForExecution(items)) <==> AllPlaced(items)
    decreases |items|
  {
    hide IsExecutable, Placed, Insert, IsSorted, AllFollow, AllPlaced;
    if items == [] {
      EmptyFollows();
    } else {
      var front, last := items[..|items| - 1], items[|items| - 1];
      assert items == front + [last];
      AppendPlaced(front, last);
      SortFollows(front);
      SortSorts(front);
      SortPermutes(front);
      InsertFollows(SortForExecution(front), last);
    }
  }

  /** The `i`-th item takes away the source of the `j`-th before its turn comes: it
      has the same source, or is a directory rename above a single file, or above a
      directory that the sort cannot tell to be deeper. */
  predicate Robbed(items: seq<Item>, i: nat, j: nat)
    requires i < |items| && j < |items|
  {
    var outer, inner := items[i], items[j];
    && i != j && outer.from <= inner.from
    && (outer.from == inner.from || !inner.kind.RenameDir?
        || (outer.slash && !inner.slash && |inner.from| == |outer.from| + 1 && i < j))
  }

  lemma PlacedIff(t: Tree, items: seq<Item>, i: nat, j: nat)
    requires i < j < |items| && IsExecutable(items[i]) && IsExecutable(items[j]) && WellFormedTree(t)
    requires HasSource(t, OpOf(items[i])) && HasSource(t, OpOf(items[j]))
    ensures Placed(items[i], items[j]) <==> !Robbed(items, i, j) && !Robbed(items, j, i)
  {
    var a, b := items[i], items[j];
    assert a.from <= b.from && !(a.from < b.from) ==> a.from == b.from;
    assert b.from <= a.from && !(b.from < a.from) ==> a.from == b.from;
  }

  lemma AllPlacedIff(t: Tree, items: seq<Item>)
    requires AllExecutable(items) && WellFormedTree(t)
    requires forall i :: 0 <= i < |items| ==> HasSource(t, OpOf(items[i]))
    ensures AllPlaced(items) <==> forall i, j :: 0 <= i < |items| && 0 <= j < |items| ==> !Robbed(items, i, j)
  {
    hide IsExecutable, Placed, Robbed, WellFormedTree, HasSource;
    forall i, j | 0 <= i < j < |items|
      ensures Placed(items[i], items[j]) <==> !Robbed(items, i, j) && !Robbed(items, j, i)
    {
      PlacedIff(t, items, i, j);
    }
    NobodyRobsItself(items);
  }

  lemma NobodyRobsItself(items: seq<Item>)
    ensures forall i :: 0 <= i < |items| ==> !Robbed(items, i, i)
  {
  }

  lemma SourcesOfItems(t: Tree, items: seq<Item>)
    requires AllExecutable(items) && SourcesExist(t, AutoOps(SortForExecution(items)))
    ensures forall i :: 0 <= i < |items| ==> HasSource(t, OpOf(items[i]))
  {
    hide IsExecutable, SortForExecution, AutoOp, HasSource;
    var sorted := SortForExecution(items);
    SortPermutes(items);
    AutoOpsOneEach(sorted);
    forall i | 0 <= i < |items|
      ensures HasSource(t, OpOf(items[i]))
    {
      assert items[i] in sorted;
      var k :| 0 <= k < |sorted| && sorted[k] == items[i];
      SourceAt(t, AutoOps(sorted), k);
    }
  }

  lemma SourceAt(t: Tree, ops: seq<Op>, k: nat)
    requires SourcesExist(t, ops) && k < |ops|
    ensures HasSource(t, ops[k])
  {
    assert ops[k] in ops;
  }

  /** A list of automatic migrations, nested ones included, runs to its end exactly
      when no item is robbed of its source: the sort gets every other nesting right. */
  lemma SortedMovesRun(t: Tree, items: seq<Item>)
    requires AllExecutable(items) && WellFormedTree(t)
    requires TargetsApart(AutoOps(SortForExecution(items))) && SourcesExist(t, AutoOps(SortForExecution(items)))
    ensures Run(t, AutoOps(SortForExecution(items))).Some?
       <==> forall i, j :: 0 <= i < |items| && 0 <= j < |items| ==> !Robbed(items, i, j)
  {
    hide Run, SortForExecution, IsExecutable, Robbed, TargetsApart, SourcesExist, AllFollow, AllPlaced, AutoOps, Ordered, WellFormedTree, HasSource;
    SortFollows(items);
    OrderedIsFollowing(SortForExecution(items));
    RunsIffOrdered(t, AutoOps(SortForExecution(items)));
    SourcesOfItems(t, items);
    AllPlacedIff(t, items);
  }

  lemma OrderedIsFollowing(s: seq<Item>)
    requires AllExecutable(s)
    ensures Ordered(AutoOps(s)) <==> AllFollow(s)
  {
    hide SourcesFollow, IsExecutable, AutoOp;
    AutoOpsOneEach(s);
    var ops := AutoOps(s);
    if AllFollow(s) {
      forall k, l | 0 <= k < l < |ops|
        ensures SourcesFollow(ops[k], ops[l])
      {
        assert Follows(s[k], s[l]);
      }
    }
    if Ordered(ops) {
      forall k, l | 0 <= k < l < |s|
        ensures Follows(s[k], s[l])
      {
        assert SourcesFollow(ops[k], ops[l]);
      }
    }
  }

  // ---- Every item is counted once ----

  function Sum(n: Counts): nat { n.renamed + n.deleted + n.skipped + n.conflicts }

  lemma SumOfAdd(a: Counts, b: Counts)
    ensures Sum(Add(a, b)) == Sum(a) + Sum(b)
  {
  }

  lemma CountsOne(item: Item, action: Action)
    ensures IsExecutable(item) ==> Sum(AutoCount(item)) == 1
    ensures IsExecutable(item) && !item.kind.RenameDir? ==> Sum(CountOf(item, action)) == 1
  {
  }

  lemma EmptySum()
    ensures Sum(NONE_COUNTED) == 0
  {
  }

  lemma {:induction false} AutoCountsAll(items: seq<Item>)
    requires forall item :: item in items ==> IsExecutable(item)
    ensures Sum(AutoCounts(items)) == |items|
    decreases |items|
  {
    hide Add, Sum, AutoCount, IsExecutable;
    if items == [] {
      EmptySum();
    } else {
      var n := |items| - 1;
      AutoCountsAll(items[..n]);
      CountsOne(items[n], Proceed);
      SumOfAdd(AutoCounts(items[..n]), AutoCount(items[n]));
    }
  }

  lemma {:induction false} ConfirmCountsAll(items: seq<Item>, actions: seq<Action>)
    requires |actions| == |items|
    requires forall item :: item in items ==> IsExecutable(item) && !item.kind.RenameDir?
    ensures Sum(ConfirmCounts(items, actions)) == |items|
    decreases |items|
  {
    hide Add, Sum, CountOf, IsExecutable;
    if items == [] {
      EmptySum();
    } else {
      var n := |items| - 1;
      ConfirmCountsAll(items[..n], actions[..n]);
      CountsOne(items[n], actions[n]);
      SumOfAdd(ConfirmCounts(items[..n], actions[..n]), CountOf(items[n], actions[n]));
    }
  }

  /** The counters of one execution add up to the number of its items. */
  lemma ExecutionCountsAll(c: Classified, actions: seq<Action>)
    requires |actions| == |c.confirm|
    requires forall item :: item in c.auto ==> IsExecutable(item)
    requires forall item :: item in c.confirm ==> IsExecutable(item) && !item.kind.RenameDir?
    ensures Sum(ExecutionCounts(c, actions)) == Total(c)
  {
    var sorted := SortForExecution(c.auto);
    hide AutoCounts, ConfirmCounts, SortForExecution, IsExecutable, Add, Sum;
    SortPermutes(c.auto);
    AutoCountsAll(sorted);
    ConfirmCountsAll(c.confirm, actions);
    SumOfAdd(AutoCounts(sorted), ConfirmCounts(c.confirm, actions));
    SumOfAdd(Add(AutoCounts(sorted), ConfirmCounts(c.confirm, actions)), Counts(0, 0, |c.skip|, |c.conflict|));
    SumOfRest(|c.skip|, |c.conflict|);
  }

  lemma SumOfRest(skipped: nat, conflicts: nat)
    ensures Sum(Counts(0, 0, skipped, conflicts)) == skipped + conflicts
  {
  }

  lemma {:induction false} RootsAddUp(items: seq<Item>, isCanonical: Path -> bool)
    requires StaysInRoot(items, isCanonical)
    ensures |OfRoot(items, Canonical, isCanonical)| + |OfRoot(items, Live, isCanonical)| == |items|
    decreases |items|
  {
    if items != [] {
      assert items[|items| - 1] in items;
      RootsAddUp(items[..|items| - 1], isCanonical);
    }
  }

  /** Renamed, deleted, skipped and conflicting items together are all the
      classified ones, also when they are executed root by root and the results
      merged, whatever the user decides. */
  lemma EveryItemIsCounted(t: Tree, s: Setting, items: seq<Item>, isCanonical: Path -> bool,
                           actions: seq<Action>, canonicalActions: seq<Action>, liveActions: seq<Action>)
    requires var c := ClassifiedOf(t, s, items);
      && StaysInRoot(c.auto + c.confirm + c.conflict + c.skip, isCanonical)
      && |actions| == |c.confirm|
      && |canonicalActions| == |OfRoot(c.confirm, Canonical, isCanonical)|
      && |liveActions| == |OfRoot(c.confirm, Live, isCanonical)|
    ensures var c := ClassifiedOf(t, s, items);
      && Sum(ExecutionCounts(c, actions)) == |items| - |Pick(t, s, items, Dropped)|
      && Sum(Add(ExecutionCounts(ClassifiedOfRoot(c, Canonical, isCanonical), canonicalActions),
                 ExecutionCounts(ClassifiedOfRoot(c, Live, isCanonical), liveActions)))
         == |items| - |Pick(t, s, items, Dropped)|
  {
    var c := ClassifiedOf(t, s, items);
    forall item | item in c.auto || item in c.confirm
      ensures IsExecutable(item) && (item in c.confirm ==> !item.kind.RenameDir?)
    {
      ExecutedItemExists(t, s, item);
    }
    EveryItemHasABucket(t, s, items);
    ExecutionCountsAll(c, actions);
    ExecutionCountsAll(ClassifiedOfRoot(c, Canonical, isCanonical), canonicalActions);
    ExecutionCountsAll(ClassifiedOfRoot(c, Live, isCanonical), liveActions);
    RootsAddUp(c.auto, isCanonical);
    RootsAddUp(c.confirm, isCanonical);
    RootsAddUp(c.conflict, isCanonical);
    RootsAddUp(c.skip, isCanonical);
  }
}
