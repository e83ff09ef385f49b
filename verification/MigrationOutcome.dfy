/** What the migrations leave behind, item by item and path by path, under each of
    the options of the command. */
module MigrationOutcome {
  import opened Options
  import opened Moves
  import opened Migrations
  import opened MigrationSafety

  // ---- What one operation of a plan leaves ----

  lemma {:induction false} GoneStays(t: Tree, ops: seq<Op>, p: Path)
    requires Run(t, ops).Some? && p !in t.files && p !in t.hashes && forall op :: op in ops ==> !Fills(op, p)
    ensures p !in Run(t, ops).value.files && p !in Run(t, ops).value.hashes
    decreases |ops|
  {
    if ops != [] {
      assert ops[0] in ops && forall op :: op in ops[1..] ==> op in ops;
      NothingAppears(t, ops[0], p);
      GoneStays(Do(t, ops[0]).value, ops[1..], p);
    }
  }

  lemma NothingAppears(t: Tree, op: Op, p: Path)
    requires Do(t, op).Some? && !Fills(op, p)
    ensures var t' := Do(t, op).value;
      && ((p !in t.files || (Takes(op, p) && !op.Copy?)) ==> p !in t'.files)
      && ((p !in t.hashes || (Takes(op, p) && !op.Copy?)) ==> p !in t'.hashes)
  {
    if IsMove(op) {
      NewKeysHaveOrigin(t.files, op);
      NewKeysHaveOrigin(t.hashes, op);
    }
  }

  /** What a plan takes away from a path is neither there nor in the table at the end. */
  lemma {:induction false} TakenIsGone(t: Tree, ops: seq<Op>, op: Op, p: Path)
    requires Run(t, ops).Some? && op in ops && Takes(op, p) && forall other :: other in ops ==> !Fills(other, p)
    ensures p !in Run(t, ops).value.files && p !in Run(t, ops).value.hashes
    decreases |ops|
  {
    var rest := ops[1..];
    assert forall other :: other in rest ==> other in ops;
    var next := Do(t, ops[0]).value;
    if op == ops[0] {
      NothingAppears(t, op, p);
      GoneStays(next, rest, p);
    } else {
      TakenIsGone(next, rest, op, p);
    }
  }

  lemma TakenIsUnfilled(ops: seq<Op>, op: Op, p: Path)
    requires TargetsApart(ops) && op in ops && Takes(op, p)
    ensures forall other :: other in ops ==> !Fills(other, p)
  {
    forall other | other in ops
      ensures !Fills(other, p)
    {
      if Fills(other, p) {
        assert Apart(other.to, op.from);
        ApartRegions(other, op, p);
      }
    }
  }

  /** The file at `from`, with its entry, is now at `to` and nowhere else. */
  ghost predicate CarriedTo(t: Tree, t': Tree, from: Path, to: Path)
  {
    && Look(t'.files, from).None? && Look(t'.hashes, from).None?
    && Look(t'.files, to) == Look(t.files, from)
    && (from in t.hashes ==> Look(t'.hashes, to) == Look(t.hashes, from))
  }

  /** Neither the file at `p` nor its entry is left. */
  ghost predicate Gone(t': Tree, p: Path) { p !in t'.files && p !in t'.hashes }

  /** File and entry are as they were. */
  ghost predicate Same(t: Tree, t': Tree, p: Path)
  {
    Look(t'.files, p) == Look(t.files, p) && Look(t'.hashes, p) == Look(t.hashes, p)
  }

  /** The operation with the longest source above a file takes it where it goes. */
  lemma CarriedFile(t: Tree, ops: seq<Op>, op: Op, p: Path)
    requires IsPlan(ops) && Run(t, ops).Some? && p in t.files && Carries(ops, op, p) && IsMove(op)
    ensures CarriedTo(t, Run(t, ops).value, p, Moved(op, p))
  {
    hide Run, IsPlan;
    var q := Moved(op, p);
    assert EndsAt(ops, p, q);
    PlanIsOneShot(t, ops, p, q);
    FateIsOneShot(ops, p, q);
    HashFollowsFate(t, ops, p);
    PlanTargets(ops);
    TakenIsUnfilled(ops, op, p);
    TakenIsGone(t, ops, op, p);
  }

  lemma PlanTargets(ops: seq<Op>)
    requires IsPlan(ops)
    ensures TargetsApart(ops)
  {
  }

  lemma UntouchedFile(t: Tree, ops: seq<Op>, p: Path)
    requires Run(t, ops).Some? && Untouched(ops, p)
    ensures Same(t, Run(t, ops).value, p)
  {
    RunIsUntil(t, ops);
    UntouchedStays(t, ops, p);
  }

  // ---- The items that were carried out ----

  /** The tree when all operations are done. */
  function Outcome(t: Tree, c: Classified, actions: seq<Action>): Tree
    requires |actions| == |c.confirm|
  {
    Run(t, ExecutionOps(c, actions)).GetOr(t)
  }

  lemma Completed(t: Tree, s: Setting, items: seq<Item>, actions: seq<Action>)
    requires IsSound(t, s, items, actions)
    ensures var c := ClassifiedOf(t, s, items);
      var ops := ExecutionOps(c, actions);
      IsPlan(ops) && Run(t, ops) == Some(Outcome(t, c, actions)) && TargetsApart(ops)
  {
    hide ExecutionOps;
    ExecutionCompletes(t, s, items, actions);
  }

  /** No other source lies between `item` and a file below it. */
  predicate Innermost(c: Classified, item: Item, p: Path)
  {
    && item.from < p
    && (forall other :: other in c.auto ==> !(item.from < other.from <= p))
    && (forall other :: other in c.confirm ==> !(item.from < other.from <= p))
  }

  lemma OpFromItem(c: Classified, actions: seq<Action>, op: Op)
    requires |actions| == |c.confirm| && op in ExecutionOps(c, actions)
    ensures (exists item :: item in c.auto && op in AutoOp(item) && op.from == item.from && !op.Copy?)
         || (exists i :: 0 <= i < |c.confirm| && op in ConfirmOps(c.confirm[i], actions[i])
                         && op.from == c.confirm[i].from && !op.MoveDir?)
  {
    hide AutoOp, ConfirmOps, ExecutionOps;
    ExecutionOpsFrom(op, c, actions);
    if FromAuto(op, c.auto) {
      var item :| item in c.auto && op in AutoOp(item);
      OpSource(item, Proceed, op);
    } else {
      var i :| 0 <= i < |c.confirm| && op in ConfirmOps(c.confirm[i], actions[i]);
      OpSource(c.confirm[i], actions[i], op);
    }
  }

  /** The move of an item has the longest source above a file that no deeper item takes. */
  lemma ItemCarries(c: Classified, actions: seq<Action>, op: Op, p: Path)
    requires |actions| == |c.confirm| && op in ExecutionOps(c, actions) && Takes(op, p)
    requires forall other :: other in c.auto ==> !(op.from < other.from <= p)
    requires forall other :: other in c.confirm ==> !(op.from < other.from <= p)
    ensures Carries(ExecutionOps(c, actions), op, p)
  {
    hide ExecutionOps;
    forall other | other in ExecutionOps(c, actions) && Takes(other, p)
      ensures |other.from| <= |op.from|
    {
      OpFromItem(c, actions, other);
      assert other.from <= p && op.from <= p;
      PrefixesComparable(op.from, other.from, p);
    }
  }

  /** What an automatic item does. */
  lemma AutoOutcome(t: Tree, s: Setting, items: seq<Item>, actions: seq<Action>, item: Item)
    requires IsSound(t, s, items, actions) && item in ClassifiedOf(t, s, items).auto
    ensures var c := ClassifiedOf(t, s, items);
      var t' := Outcome(t, c, actions);
      match item.kind
      case Rename => item.to.Some? && item.from in t.files && CarriedTo(t, t', item.from, item.to.value)
      case Delete => item.from in t.files && Gone(t', item.from)
      case RenameDir =>
        && item.to.Some?
        && (forall p :: p in t.files && Innermost(c, item, p) ==> CarriedTo(t, t', p, item.to.value + p[|item.from|..]))
      case SafeFileDelete => false
  {
    hide ExecutionOps, BucketOf, Run, Modified;
    var c := ClassifiedOf(t, s, items);
    var ops := ExecutionOps(c, actions);
    Completed(t, s, items, actions);
    ExecutedItemExists(t, s, item);
    AutoIsExecutable(item);
    var op := OpOf(item);
    assert FromAuto(op, c.auto);
    ExecutionOpsFrom(op, c, actions);
    if item.kind.RenameDir? {
      forall p | p in t.files && Innermost(c, item, p)
        ensures CarriedTo(t, Outcome(t, c, actions), p, item.to.value + p[|item.from|..])
      {
        ItemCarries(c, actions, op, p);
        CarriedFile(t, ops, op, p);
      }
    } else {
      ItemCarries(c, actions, op, item.from);
      if item.kind.Rename? {
        CarriedFile(t, ops, op, item.from);
      } else {
        TakenIsUnfilled(ops, op, item.from);
        TakenIsGone(t, ops, op, item.from);
      }
    }
  }

  lemma AutoIsExecutable(item: Item)
    requires item.kind.Delete? || ((item.kind.Rename? || item.kind.RenameDir?) && item.to.Some?)
    ensures IsExecutable(item) && OpOf(item) in AutoOp(item)
    ensures match item.kind
      case Rename => OpOf(item) == MoveFile(item.from, item.to.value)
      case RenameDir => OpOf(item) == MoveDir(item.from, item.to.value)
      case _ => OpOf(item) == Remove(item.from)
  {
  }

  /** The item is a rename to `to`, or a deletion. */
  predicate IsDecided(item: Item)
  {
    (item.kind.Rename? && item.to.Some?) || item.kind.Delete?
  }

  /** `item` was carried out, renamed or deleted. */
  ghost predicate CarriedOut(t: Tree, t': Tree, item: Item)
  {
    && IsDecided(item) && item.from in t.files
    && if item.kind.Rename? then CarriedTo(t, t', item.from, item.to.value) else Gone(t', item.from)
  }

  /** Where the copy of a modified file is put. */
  function CopyPlace(item: Item): Path
    requires IsDecided(item)
  {
    var p := if item.kind.Rename? then item.to.value else item.from;
    if p == [] then [".backup"] else p[..|p| - 1] + [p[|p| - 1] + ".backup"]
  }

  /** Another item's files come to stand at `p`. */
  ghost predicate Overrun(c: Classified, p: Path) { exists item :: item in c.auto && TargetFills(item, p) }

  lemma ConfirmIsDecided(t: Tree, s: Setting, item: Item)
    requires BucketOf(t, s, item).Confirm?
    ensures IsDecided(item) && item.from in t.files
    ensures item.kind.Rename? ==> item.to.value !in t.files
  {
  }

  lemma DecidedOps(item: Item, action: Action)
    requires IsDecided(item) && !action.LeaveAlone?
    ensures (if item.kind.Rename? then MoveFile(item.from, item.to.value) else Remove(item.from)) in ConfirmOps(item, action)
    ensures action.BackupFirst? ==> Copy(item.from, CopyPlace(item)) in ConfirmOps(item, action)
  {
  }

  /** What a modified item does, by the decision on it. */
  lemma ConfirmedOutcome(t: Tree, s: Setting, items: seq<Item>, actions: seq<Action>, i: nat)
    requires IsSound(t, s, items, actions) && i < |ClassifiedOf(t, s, items).confirm|
    ensures var c := ClassifiedOf(t, s, items);
      var t', item := Outcome(t, c, actions), c.confirm[i];
      && IsDecided(item)
      && match actions[i]
         case LeaveAlone => !Replaced(c, actions, item.from) ==> Same(t, t', item.from)
         case Proceed => CarriedOut(t, t', item)
         case BackupFirst => CarriedOut(t, t', item) && Look(t'.files, CopyPlace(item)) == Look(t.files, item.from)
  {
    hide ExecutionOps, BucketOf, Run, Modified, ConfirmOps, AutoOp, Replaced;
    var c := ClassifiedOf(t, s, items);
    var ops, item := ExecutionOps(c, actions), c.confirm[i];
    Completed(t, s, items, actions);
    assert item in c.confirm;
    ConfirmIsDecided(t, s, item);
    if actions[i].LeaveAlone? {
      if !Replaced(c, actions, item.from) {
        LeftIsUntouched(t, s, items, actions, i);
        UntouchedFile(t, ops, item.from);
      }
    } else {
      DecidedOps(item, actions[i]);
      var op := if item.kind.Rename? then MoveFile(item.from, item.to.value) else Remove(item.from);
      assert FromConfirm(op, c.confirm, actions);
      ExecutionOpsFrom(op, c, actions);
      ItemCarries(c, actions, op, item.from);
      if item.kind.Rename? {
        CarriedFile(t, ops, op, item.from);
      } else {
        TakenIsUnfilled(ops, op, item.from);
        TakenIsGone(t, ops, op, item.from);
      }
      if actions[i].BackupFirst? {
        var copy := Copy(item.from, CopyPlace(item));
        assert FromConfirm(copy, c.confirm, actions);
        ExecutionOpsFrom(copy, c, actions);
        PlanIsOneShot(t, ops, item.from, CopyPlace(item));
      }
    }
  }

  lemma LeftIsUntouched(t: Tree, s: Setting, items: seq<Item>, actions: seq<Action>, i: nat)
    requires IsSound(t, s, items, actions) && i < |ClassifiedOf(t, s, items).confirm| && actions[i].LeaveAlone?
    requires !Replaced(ClassifiedOf(t, s, items), actions, ClassifiedOf(t, s, items).confirm[i].from)
    ensures var c := ClassifiedOf(t, s, items); Untouched(ExecutionOps(c, actions), c.confirm[i].from)
  {
    hide ExecutionOps, BucketOf, TargetsApart, Pairwise, AutoOp, ConfirmOps, TargetFills, KindsMatch;
    var c := ClassifiedOf(t, s, items);
    var p := c.confirm[i].from;
    assert c.confirm[i] in c.confirm;
    ConfirmIsDecided(t, s, c.confirm[i]);
    forall op | op in ExecutionOps(c, actions)
      ensures !Takes(op, p) && !Fills(op, p)
    {
      OpFromItem(c, actions, op);
      if item :| item in c.auto && op in AutoOp(item) && op.from == item.from && !op.Copy? {
        AutoElsewhere(item, op, p);
      } else {
        var j :| 0 <= j < |c.confirm| && op in ConfirmOps(c.confirm[j], actions[j])
                 && op.from == c.confirm[j].from && !op.MoveDir?;
        if i != j {
          assert Apart(c.confirm[if i < j then i else j].from, c.confirm[if i < j then j else i].from);
        }
        ConfirmIsDecided(t, s, c.confirm[j]);
        ConfirmElsewhere(c.confirm[j], actions[j], op, p);
        FillsByCopy(op, p);
      }
    }
  }

  lemma AutoElsewhere(item: Item, op: Op, p: Path)
    requires op in AutoOp(item) && Apart(item.from, p) && !TargetFills(item, p)
    ensures !Takes(op, p) && !Fills(op, p)
  {
  }

  lemma ConfirmElsewhere(item: Item, action: Action, op: Op, p: Path)
    requires op in ConfirmOps(item, action) && IsDecided(item) && (item.kind.Rename? ==> item.to.value != p)
    ensures !action.LeaveAlone?
    ensures item.from != p ==> !Takes(op, p)
    ensures Fills(op, p) ==> op.Copy?
  {
  }

  /** `q` is neither at or below the source of an item that is carried out, nor at or
      below its target, nor the place of a copy. */
  ghost predicate Unconcerned(c: Classified, actions: seq<Action>, q: Path)
    requires |actions| == |c.confirm|
  {
    && (forall item :: item in c.auto ==> !(item.from <= q) && (item.to.Some? ==> !(item.to.value <= q)))
    && (forall i :: 0 <= i < |c.confirm| && !actions[i].LeaveAlone? ==>
          c.confirm[i].from != q && c.confirm[i].to != Some(q))
    && (forall i :: 0 <= i < |c.confirm| && actions[i].BackupFirst? && IsDecided(c.confirm[i]) ==>
          CopyPlace(c.confirm[i]) != q)
  }

  lemma AutoAside(item: Item, op: Op, q: Path)
    requires op in AutoOp(item) && !(item.from <= q) && (item.to.Some? ==> !(item.to.value <= q))
    ensures !Takes(op, q) && !Fills(op, q)
  {
  }

  lemma ConfirmAside(item: Item, action: Action, op: Op, q: Path)
    requires op in ConfirmOps(item, action)
    requires !action.LeaveAlone? ==> item.from != q && item.to != Some(q)
    requires action.BackupFirst? && IsDecided(item) ==> CopyPlace(item) != q
    ensures !Takes(op, q) && !Fills(op, q)
  {
  }

  /** Nothing else changes. */
  lemma NothingElseChanges(t: Tree, s: Setting, items: seq<Item>, actions: seq<Action>, q: Path)
    requires IsSound(t, s, items, actions) && Unconcerned(ClassifiedOf(t, s, items), actions, q)
    ensures Same(t, Outcome(t, ClassifiedOf(t, s, items), actions), q)
  {
    hide ExecutionOps, Modified, BucketOf, TargetsApart, Pairwise, Run, AutoOp, ConfirmOps, IsDecided, CopyPlace;
    var c := ClassifiedOf(t, s, items);
    var ops := ExecutionOps(c, actions);
    forall op | op in ops
      ensures !Takes(op, q) && !Fills(op, q)
    {
      OpFromItem(c, actions, op);
      if item :| item in c.auto && op in AutoOp(item) && op.from == item.from && !op.Copy? {
        AutoAside(item, op, q);
      } else {
        var i :| 0 <= i < |c.confirm| && op in ConfirmOps(c.confirm[i], actions[i])
                 && op.from == c.confirm[i].from && !op.MoveDir?;
        ConfirmAside(c.confirm[i], actions[i], op, q);
      }
    }
    Completed(t, s, items, actions);
    UntouchedFile(t, ops, q);
  }

  // ---- Why an item is in its bucket ----

  /** The program may touch the item: it is there and not the user's by name. */
  predicate Ready(t: Tree, s: Setting, item: Item)
  {
    && Exists(t, item.from) && !s.isProtected(item.from)
    && (item.kind.Delete? && item.to.Some? ==> !s.isProtected(item.to.value))
  }

  /** The file at `p` is, byte for byte, the template bundled for `p`. */
  predicate IsBundled(t: Tree, s: Setting, p: Path)
  {
    Look(t.files, p) == Look(s.templates, p) && Look(t.files, p) !in {None, Some("")}
  }

  /** The file at `p` has bytes that neither a template nor an earlier run put there. */
  predicate UserMade(t: Tree, s: Setting, p: Path)
  {
    p in t.files && !IsBundled(t, s, p) && (Modified(t, p, s.hash) || t.hashes[p] == "")
  }

  /** The search below `dir` comes to `p`: it descends directory by directory. */
  predicate Reached(s: Setting, dir: Path, p: Path)
  {
    && dir < p
    && (|p| == |dir| + 1 || (!s.isUnscanned(p[..|p| - 1]) && Reached(s, dir, p[..|p| - 1])))
  }

  lemma {:induction false} ReachedIff(s: Setting, dir: Path, p: Path)
    requires dir < p
    ensures Reached(s, dir, p) <==> !Hidden(s, dir, p)
    decreases |p|
  {
    if |p| > |dir| + 1 {
      var q := p[..|p| - 1];
      ReachedIff(s, dir, q);
      assert forall n :: 0 <= n <= |q| ==> q[..n] == p[..n];
    }
  }

  /** The reasons: what is not there, or the user's by name, is skipped; a conflict is
      about content at the target that the user made, a question about a source
      the user modified, and what is done unasked is about neither. */
  lemma BucketHasItsReason(t: Tree, s: Setting, item: Item)
    ensures var b := BucketOf(t, s, item);
      && (if item.kind.SafeFileDelete? then b.Dropped? else b.Skip? <==> !Ready(t, s, item))
      && (Ready(t, s, item) ==>
            match item.kind
            case SafeFileDelete => b.Dropped?
            case Delete => b == if Modified(t, item.from, s.hash) then Confirm else Auto
            case Rename =>
              && (item.to.None? ==> b.Dropped?)
              && (item.to.Some? ==>
                    && (b.Conflict? <==> Exists(t, item.to.value) && !IsBundled(t, s, item.to.value))
                    && (b.Confirm? <==> !Exists(t, item.to.value) && Modified(t, item.from, s.hash))
                    && (b.Auto? <==> !b.Conflict? && !b.Confirm?))
            case RenameDir =>
              && (item.to.None? ==> b.Dropped?)
              && (item.to.Some? ==>
                    && (b.Conflict? <==> Exists(t, item.to.value)
                                         && exists p :: Reached(s, item.to.value, p) && UserMade(t, s, p))
                    && (b.Auto? <==> !b.Conflict?)))
  {
    hide Modified, Reached, IsDirSafe;
    if item.to.Some? {
      SafeIff(t, s, item.to.value);
    }
  }

  lemma SafeIff(t: Tree, s: Setting, dir: Path)
    ensures IsDirSafe(t, s, dir) <==> !exists p :: Reached(s, dir, p) && UserMade(t, s, p)
  {
    hide Modified, Hidden, Reached;
    NoEntryIsModified(t, s.hash);
    forall p | dir < p
      ensures Reached(s, dir, p) <==> !Hidden(s, dir, p)
    {
      ReachedIff(s, dir, p);
    }
    ReachedIsBelow(s);
    assert forall p :: p in t.files ==> (IsBundled(t, s, p) <==> IsTemplate(t, s, p));
    forall p
      ensures (p in t.files && dir < p && !Hidden(s, dir, p)
               && !(IsTemplate(t, s, p) || (p in t.hashes && t.hashes[p] != "" && !Modified(t, p, s.hash))))
              <==> Reached(s, dir, p) && UserMade(t, s, p)
    {
    }
  }

  lemma ReachedIsBelow(s: Setting)
    ensures forall dir, p :: Reached(s, dir, p) ==> dir < p
  {
  }

  lemma NoEntryIsModified(t: Tree, hash: string -> string)
    ensures forall p :: p in t.files && p !in t.hashes ==> Modified(t, p, hash)
  {
  }

  /** What is not ready is not done: a protected path is never renamed or deleted, nor
      is its content, unless an item moves or replaces a directory above it. */
  lemma NotReadyIsNotDone(t: Tree, s: Setting, items: seq<Item>, actions: seq<Action>, p: Path)
    requires IsSound(t, s, items, actions) && p in t.files && s.isProtected(p)
    requires forall item :: item in ClassifiedOf(t, s, items).auto && item.kind.RenameDir? ==> !(item.from < p)
    requires !Replaced(ClassifiedOf(t, s, items), actions, p)
    ensures Same(t, Outcome(t, ClassifiedOf(t, s, items), actions), p)
  {
    hide ExecutionOps, Modified, TargetsApart, Pairwise, Run, AutoOp, ConfirmOps, Replaced, IsDirSafe, Hidden, IsTemplate;
    var c := ClassifiedOf(t, s, items);
    var ops := ExecutionOps(c, actions);
    forall op | op in ops
      ensures !Takes(op, p) && !Fills(op, p)
    {
      OpFromItem(c, actions, op);
      if item :| item in c.auto && op in AutoOp(item) && op.from == item.from && !op.Copy? {
        AutoFillsNot(c, actions, item, op, p);
        OpSource(item, Proceed, op);
      } else {
        var i :| 0 <= i < |c.confirm| && op in ConfirmOps(c.confirm[i], actions[i])
                 && op.from == c.confirm[i].from && !op.MoveDir?;
        assert c.confirm[i] in c.confirm;
        ConfirmIsDecided(t, s, c.confirm[i]);
        ConfirmFillsNot(c, actions, i, op, p);
      }
    }
    Completed(t, s, items, actions);
    UntouchedFile(t, ops, p);
  }

  lemma AutoFillsNot(c: Classified, actions: seq<Action>, item: Item, op: Op, p: Path)
    requires |actions| == |c.confirm| && item in c.auto && op in AutoOp(item) && !Replaced(c, actions, p)
    ensures !Fills(op, p)
  {
    assert !TargetFills(item, p);
  }

  lemma ConfirmFillsNot(c: Classified, actions: seq<Action>, i: nat, op: Op, p: Path)
    requires |actions| == |c.confirm| && i < |c.confirm| && op in ConfirmOps(c.confirm[i], actions[i])
    requires IsDecided(c.confirm[i]) && (c.confirm[i].kind.Rename? ==> c.confirm[i].to.value != p)
    requires !Replaced(c, actions, p)
    ensures !Fills(op, p)
  {
    ConfirmElsewhere(c.confirm[i], actions[i], op, p);
    FillsByCopy(op, p);
  }

  // ---- The options ----

  /** How many elements satisfy `f`. */
  function HowMany<T>(s: seq<T>, f: T -> bool): nat
  {
    if s == [] then 0 else HowMany(s[..|s| - 1], f) + if f(s[|s| - 1]) then 1 else 0
  }

  predicate IsRename(item: Item) { item.kind.Rename? || item.kind.RenameDir? }

  predicate IsDelete(item: Item) { item.kind.Delete? }

  function Zip<A, B>(a: seq<A>, b: seq<B>): (r: seq<(A, B)>)
    requires |a| == |b|
    ensures |r| == |a| && forall i :: 0 <= i < |a| ==> r[i] == (a[i], b[i])
  {
    if a == [] then [] else Zip(a[..|a| - 1], b[..|b| - 1]) + [(a[|a| - 1], b[|b| - 1])]
  }

  lemma {:induction false} InsertCounts(s: seq<Item>, x: Item)
    ensures AutoCounts(Insert(s, x)) == Add(AutoCounts(s), AutoCount(x))
    decreases |s|
  {
    hide AutoCount, Compare;
    if s != [] && Compare(x, s[|s| - 1]) < 0 {
      var front := s[..|s| - 1];
      InsertCounts(front, x);
      assert (Insert(front, x) + [s[|s| - 1]])[..|Insert(front, x)|] == Insert(front, x);
    } else {
      assert (s + [x])[..|s|] == s;
    }
  }

  lemma {:induction false} SortCounts(items: seq<Item>)
    ensures AutoCounts(SortForExecution(items)) == AutoCounts(items)
    decreases |items|
  {
    hide AutoCount;
    if items != [] {
      SortCounts(items[..|items| - 1]);
      InsertCounts(SortForExecution(items[..|items| - 1]), items[|items| - 1]);
    }
  }

  lemma AutoCountIs(item: Item)
    requires IsExecutable(item)
    ensures AutoCount(item) == Counts(if IsRename(item) then 1 else 0, if IsDelete(item) then 1 else 0, 0, 0)
  {
  }

  lemma {:induction false} AutoCountsAre(items: seq<Item>)
    requires forall item :: item in items ==> IsExecutable(item)
    ensures AutoCounts(items) == Counts(HowMany(items, IsRename), HowMany(items, IsDelete), 0, 0)
    decreases |items|
  {
    hide AutoCount, IsExecutable, IsRename, IsDelete;
    if items != [] {
      assert items[|items| - 1] in items && forall item :: item in items[..|items| - 1] ==> item in items;
      AutoCountsAre(items[..|items| - 1]);
      AutoCountIs(items[|items| - 1]);
    }
  }

  // A modified item with the decision on it.

  predicate WasRenamed(d: (Item, Action)) { d.0.kind.Rename? && !d.1.LeaveAlone? }

  predicate WasDeleted(d: (Item, Action)) { d.0.kind.Delete? && !d.1.LeaveAlone? }

  predicate WasLeft(d: (Item, Action)) { d.1.LeaveAlone? }

  lemma CountIs(item: Item, action: Action)
    requires IsDecided(item)
    ensures var d := (item, action);
      CountOf(item, action)
      == Counts(if WasRenamed(d) then 1 else 0, if WasDeleted(d) then 1 else 0, if WasLeft(d) then 1 else 0, 0)
  {
  }

  lemma NoneCounted()
    ensures Zip<Item, Action>([], []) == []
    ensures HowMany([], WasRenamed) == 0 && HowMany([], WasDeleted) == 0 && HowMany([], WasLeft) == 0
  {
  }

  lemma HowManyLast(s: seq<(Item, Action)>, d: (Item, Action))
    ensures HowMany(s + [d], WasRenamed) == HowMany(s, WasRenamed) + if WasRenamed(d) then 1 else 0
    ensures HowMany(s + [d], WasDeleted) == HowMany(s, WasDeleted) + if WasDeleted(d) then 1 else 0
    ensures HowMany(s + [d], WasLeft) == HowMany(s, WasLeft) + if WasLeft(d) then 1 else 0
  {
    assert (s + [d])[..|s|] == s;
  }

  lemma {:induction false} ConfirmCountsAre(items: seq<Item>, actions: seq<Action>)
    requires |actions| == |items| && forall item :: item in items ==> IsDecided(item)
    ensures var done := Zip(items, actions);
      ConfirmCounts(items, actions) == Counts(HowMany(done, WasRenamed), HowMany(done, WasDeleted), HowMany(done, WasLeft), 0)
    decreases |items|
  {
    hide CountOf, IsDecided, WasRenamed, WasDeleted, WasLeft, HowMany, Zip;
    if items != [] {
      var n := |items| - 1;
      assert items[n] in items && forall item :: item in items[..n] ==> item in items;
      ConfirmCountsAre(items[..n], actions[..n]);
      CountIs(items[n], actions[n]);
      assert Zip(items, actions) == Zip(items[..n], actions[..n]) + [(items[n], actions[n])];
      HowManyLast(Zip(items[..n], actions[..n]), (items[n], actions[n]));
    } else {
      NoneCounted();
    }
  }

  /** What is reported: every modified item that was not left alone counts as renamed
      or deleted with the automatic ones, the others as skipped. */
  lemma CountsAre(t: Tree, s: Setting, items: seq<Item>, actions: seq<Action>)
    requires |actions| == |ClassifiedOf(t, s, items).confirm|
    ensures var c := ClassifiedOf(t, s, items);
      var done := Zip(c.confirm, actions);
      ExecutionCounts(c, actions)
      == Counts(HowMany(c.auto, IsRename) + HowMany(done, WasRenamed), HowMany(c.auto, IsDelete) + HowMany(done, WasDeleted),
                |c.skip| + HowMany(done, WasLeft), |c.conflict|)
  {
    hide BucketOf, AutoCounts, ConfirmCounts, HowMany, SortForExecution;
    var c := ClassifiedOf(t, s, items);
    SortCounts(c.auto);
    forall item | item in c.auto ensures IsExecutable(item) { ExecutedItemExists(t, s, item); }
    forall item | item in c.confirm ensures IsDecided(item) { ConfirmIsDecided(t, s, item); }
    AutoCountsAre(c.auto);
    ConfirmCountsAre(c.confirm, actions);
  }

  /** With `--skip-all` the tree is that of the automatic items alone: every modified
      file stays as it is, unless another item's files come to stand there, and is
      counted as skipped. */
  lemma SkipAllLeavesModified(t: Tree, s: Setting, items: seq<Item>, answers: seq<Action>)
    requires |answers| == |ClassifiedOf(t, s, items).confirm|
    requires IsSound(t, s, items, ActionsFor(false, true, answers))
    ensures var c := ClassifiedOf(t, s, items);
      var actions := ActionsFor(false, true, answers);
      var t' := Outcome(t, c, actions);
      && Run(t, AutoOps(SortForExecution(c.auto))) == Some(t')
      && (forall i :: 0 <= i < |c.confirm| && !Overrun(c, c.confirm[i].from) ==> Same(t, t', c.confirm[i].from))
      && ExecutionCounts(c, actions)
         == Counts(HowMany(c.auto, IsRename), HowMany(c.auto, IsDelete), |c.skip| + |c.confirm|, |c.conflict|)
  {
    hide BucketOf, Run, AutoOps, AllConfirmOps, ExecutionCounts, HowMany, WasRenamed, WasDeleted, WasLeft, ConfirmOps, IsSound;
    var c, actions := ClassifiedOf(t, s, items), ActionsFor(false, true, answers);
    Completed(t, s, items, actions);
    NoOpsWhenLeft(c.confirm, actions);
    assert AutoOps(SortForExecution(c.auto)) + [] == AutoOps(SortForExecution(c.auto));
    forall i | 0 <= i < |c.confirm| && !Overrun(c, c.confirm[i].from)
      ensures Same(t, Outcome(t, c, actions), c.confirm[i].from)
    {
      NoCopyWhenLeft(c, actions, c.confirm[i].from);
      ConfirmedOutcome(t, s, items, actions, i);
    }
    CountsAre(t, s, items, actions);
    AllLeft(c.confirm, actions);
  }

  lemma {:induction false} NoOpsWhenLeft(items: seq<Item>, actions: seq<Action>)
    requires |actions| == |items| && forall a :: a in actions ==> a.LeaveAlone?
    ensures AllConfirmOps(items, actions) == []
    decreases |items|
  {
    if items != [] {
      assert actions[|items| - 1] in actions && forall a :: a in actions[..|items| - 1] ==> a in actions;
      NoOpsWhenLeft(items[..|items| - 1], actions[..|items| - 1]);
    }
  }

  lemma NoCopyWhenLeft(c: Classified, actions: seq<Action>, p: Path)
    requires |actions| == |c.confirm| && forall a :: a in actions ==> !a.BackupFirst?
    ensures Replaced(c, actions, p) <==> Overrun(c, p)
  {
    forall i, from | 0 <= i < |c.confirm|
      ensures Copy(from, p) !in ConfirmOps(c.confirm[i], actions[i])
    {
      assert actions[i] in actions;
    }
  }

  lemma {:induction false} AllLeft(items: seq<Item>, actions: seq<Action>)
    requires |actions| == |items| && forall a :: a in actions ==> a.LeaveAlone?
    ensures var done := Zip(items, actions);
      HowMany(done, WasRenamed) == 0 && HowMany(done, WasDeleted) == 0 && HowMany(done, WasLeft) == |items|
    decreases |items|
  {
    hide HowMany, Zip;
    if items == [] {
      NoneCounted();
    } else {
      var n := |items| - 1;
      assert actions[n] in actions && forall a :: a in actions[..n] ==> a in actions;
      AllLeft(items[..n], actions[..n]);
      ZipLast(items, actions);
      HowManyLast(Zip(items[..n], actions[..n]), (items[n], actions[n]));
    }
  }

  lemma ZipLast(items: seq<Item>, actions: seq<Action>)
    requires |actions| == |items| > 0
    ensures var n := |items| - 1; Zip(items, actions) == Zip(items[..n], actions[..n]) + [(items[n], actions[n])]
  {
  }

  /** No item has its source or target at `q` or above it. */
  ghost predicate Aside(c: Classified, q: Path)
  {
    && (forall item :: item in c.auto ==> !(item.from <= q) && (item.to.Some? ==> !(item.to.value <= q)))
    && (forall item :: item in c.confirm ==> item.from != q && item.to != Some(q))
  }

  /** With `--force` every modified file is renamed or deleted like the others, and no
      copy of it is made: what is aside of all items stays as it is. */
  lemma ForceCarriesOut(t: Tree, s: Setting, items: seq<Item>, skipAll: bool, answers: seq<Action>)
    requires |answers| == |ClassifiedOf(t, s, items).confirm|
    requires IsSound(t, s, items, ActionsFor(true, skipAll, answers))
    ensures var c := ClassifiedOf(t, s, items);
      var actions := ActionsFor(true, skipAll, answers);
      var t' := Outcome(t, c, actions);
      && (forall i :: 0 <= i < |c.confirm| ==> CarriedOut(t, t', c.confirm[i]))
      && (forall q :: Aside(c, q) ==> Same(t, t', q))
      && ExecutionCounts(c, actions)
         == Counts(HowMany(c.auto + c.confirm, IsRename), HowMany(c.auto + c.confirm, IsDelete), |c.skip|, |c.conflict|)
  {
    hide BucketOf, Run, ExecutionOps, ExecutionCounts, HowMany, WasRenamed, WasDeleted, WasLeft, ConfirmOps, IsSound, CarriedOut;
    var c, actions := ClassifiedOf(t, s, items), ActionsFor(true, skipAll, answers);
    forall i | 0 <= i < |c.confirm|
      ensures CarriedOut(t, Outcome(t, c, actions), c.confirm[i])
    {
      ConfirmedOutcome(t, s, items, actions, i);
    }
    forall q | Aside(c, q)
      ensures Same(t, Outcome(t, c, actions), q)
    {
      assert Unconcerned(c, actions, q);
      NothingElseChanges(t, s, items, actions, q);
    }
    CountsAre(t, s, items, actions);
    forall item | item in c.confirm ensures IsDecided(item) { ConfirmIsDecided(t, s, item); }
    NoneLeft(c.confirm, actions);
    HowManyConcat(c.auto, c.confirm, IsRename);
    HowManyConcat(c.auto, c.confirm, IsDelete);
  }

  lemma {:induction false} NoneLeft(items: seq<Item>, actions: seq<Action>)
    requires |actions| == |items| && forall a :: a in actions ==> a.Proceed?
    requires forall item :: item in items ==> IsDecided(item)
    ensures var done := Zip(items, actions);
      && HowMany(done, WasRenamed) == HowMany(items, IsRename)
      && HowMany(done, WasDeleted) == HowMany(items, IsDelete) && HowMany(done, WasLeft) == 0
    decreases |items|
  {
    hide Zip;
    if items == [] {
      NoneCounted();
    } else {
      var n := |items| - 1;
      assert actions[n] in actions && forall a :: a in actions[..n] ==> a in actions;
      assert items[n] in items && forall item :: item in items[..n] ==> item in items;
      NoneLeft(items[..n], actions[..n]);
      ZipLast(items, actions);
      HowManyLast(Zip(items[..n], actions[..n]), (items[n], actions[n]));
    }
  }

  lemma {:induction false} HowManyConcat<T>(a: seq<T>, b: seq<T>, f: T -> bool)
    ensures HowMany(a + b, f) == HowMany(a, f) + HowMany(b, f)
    decreases |b|
  {
    if b == [] {
      assert a + b == a;
    } else {
      var n := |b| - 1;
      assert (a + b)[..|a + b| - 1] == a + b[..n];
      HowManyConcat(a, b[..n], f);
    }
  }

  /** The `i`-th modified file was treated as the decision on it says. */
  ghost predicate Obeyed(t: Tree, t': Tree, c: Classified, actions: seq<Action>, i: nat)
    requires i < |actions| == |c.confirm|
  {
    var item := c.confirm[i];
    match actions[i]
    case LeaveAlone => !Replaced(c, actions, item.from) ==> Same(t, t', item.from)
    case Proceed => CarriedOut(t, t', item)
    case BackupFirst => CarriedOut(t, t', item) && Look(t'.files, CopyPlace(item)) == Look(t.files, item.from)
  }

  /** With neither option every modified file follows the answer given for it, and
      nothing aside of the items changes. */
  lemma AnswersDecide(t: Tree, s: Setting, items: seq<Item>, answers: seq<Action>)
    requires |answers| == |ClassifiedOf(t, s, items).confirm|
    requires IsSound(t, s, items, ActionsFor(false, false, answers))
    ensures var c := ClassifiedOf(t, s, items);
      var t' := Outcome(t, c, ActionsFor(false, false, answers));
      && (forall i :: 0 <= i < |answers| ==> Obeyed(t, t', c, answers, i))
      && (forall q :: Unconcerned(c, answers, q) ==> Same(t, t', q))
  {
    hide BucketOf, Run, ExecutionOps, ConfirmOps, IsSound, CarriedOut, Same, Replaced, Unconcerned;
    var c := ClassifiedOf(t, s, items);
    assert ActionsFor(false, false, answers) == answers;
    forall i | 0 <= i < |answers|
      ensures Obeyed(t, Outcome(t, c, answers), c, answers, i)
    {
      ConfirmedOutcome(t, s, items, answers, i);
    }
    forall q | Unconcerned(c, answers, q)
      ensures Same(t, Outcome(t, c, answers), q)
    {
      NothingElseChanges(t, s, items, answers, q);
    }
  }

  // ---- The tree stays a tree ----

  /** The target can be written to: no file stands at a directory above it, nor, for a
      file, a directory at it; a copy is put beside something. */
  ghost predicate IsPlace(t: Tree, op: Op)
  {
    match op
    case MoveFile(_, to) => to !in t.dirs && forall f :: f in t.files ==> !(f < to)
    case MoveDir(_, to) => forall f :: f in t.files ==> !(f <= to)
    case Copy(_, to) => to !in t.dirs && Ancestors(to) <= t.dirs
    case Remove(_) => true
  }

  /** Every file has its directories, and none is one. */
  ghost predicate IsTree(t: Tree) { HasParents(t) && t.files.Keys !! t.dirs }

  /** Moves take the directories along and make those that are missing. */
  lemma TreeStaysTree(t: Tree, op: Op)
    requires IsTree(t) && Do(t, op).Some? && IsPlace(t, op)
    ensures IsTree(Do(t, op).value)
  {
    if op.MoveFile? {
      FileMoveKeepsTree(t, op);
    } else if op.MoveDir? {
      DirMoveKeepsParents(t, op);
      DirMoveKeepsApart(t, op);
    } else if op.Copy? {
      AncestorsAre(op.to);
    }
  }

  lemma AncestorsAre(p: Path)
    ensures forall d: Path :: d in Ancestors(p) <==> d < p && d != []
  {
    forall d: Path | d < p && d != []
      ensures d in Ancestors(p)
    {
      assert d == p[..|d|];
    }
  }

  lemma FileMoveKeepsTree(t: Tree, op: Op)
    requires op.MoveFile? && IsTree(t) && Do(t, op).Some? && IsPlace(t, op)
    ensures IsTree(Do(t, op).value)
  {
    AncestorsAre(op.to);
    NewKeysHaveOrigin(t.files, op);
    assert forall q :: q in NewKeys(t.files, op) ==> q in t.files || q == op.to;
  }

  lemma DirMoveKeepsParents(t: Tree, op: Op)
    requires op.MoveDir? && IsTree(t) && Do(t, op).Some?
    ensures HasParents(Do(t, op).value)
  {
    hide Relocate;
    var t' := Do(t, op).value;
    AncestorsAre(op.to);
    forall p, d | p in t'.files && d < p && d != []
      ensures d in t'.dirs
    {
      RelocatedFrom(t, op, p);
      if !Fills(op, p) {
        PrefixesComparable(op.from, d, p);
        PrefixesComparable(op.to, d, p);
        assert d in t.dirs;
      } else {
        var k :| k in t.files && Takes(op, k) && p == Moved(op, k);
        PrefixesComparable(op.to, d, p);
        if op.to <= d {
          var e := op.from + d[|op.to|..];
          assert e < k by { assert k == op.from + p[|op.to|..]; assert d == p[..|d|]; }
          assert e == [] || e in t.dirs || e == op.from;
          assert d == op.to + e[|op.from|..];
        }
      }
    }
  }

  lemma RelocatedFrom(t: Tree, op: Op, p: Path)
    requires IsMove(op) && p in Relocate(t.files, op)
    ensures !Fills(op, p) ==> p in t.files && !Takes(op, p)
    ensures Fills(op, p) ==> exists k :: k in t.files && Takes(op, k) && p == Moved(op, k)
  {
    NewKeysHaveOrigin(t.files, op);
  }

  lemma DirMoveKeepsApart(t: Tree, op: Op)
    requires op.MoveDir? && IsTree(t) && Do(t, op).Some? && IsPlace(t, op)
    ensures Do(t, op).value.files.Keys !! Do(t, op).value.dirs
  {
    hide Relocate;
    var t' := Do(t, op).value;
    AncestorsAre(op.to);
    forall p | p in t'.files
      ensures p !in t'.dirs
    {
      RelocatedFrom(t, op, p);
      if Fills(op, p) {
        var k :| k in t.files && Takes(op, k) && p == Moved(op, k);
        forall d | d in t.dirs && op.from <= d
          ensures op.to + d[|op.from|..] != p
        {
          MovedApart(op, k, d);
        }
      }
    }
  }

  lemma MovedApart(op: Op, k: Path, d: Path)
    requires op.MoveDir? && Takes(op, k) && op.from <= d && k != d
    ensures op.to + d[|op.from|..] != Moved(op, k)
  {
    assert k == op.from + k[|op.from|..] && d == op.from + d[|op.from|..];
    assert Moved(op, k)[|op.to|..] == k[|op.from|..] && (op.to + d[|op.from|..])[|op.to|..] == d[|op.from|..];
  }

  /** A refused operation leaves every entry; a file rename leaves every file too, while
      a directory rename has already cleared its target. */
  lemma RefusalLeaves(t: Tree, op: Op)
    requires Do(t, op).None?
    ensures var t' := Until(t, [op]);
      && t'.hashes == t.hashes && (!op.MoveDir? ==> t'.files == t.files)
      && (op.MoveDir? ==> forall p :: Look(t'.files, p) == if op.to < p then None else Look(t.files, p))
      && (HasTarget(op) && !op.Copy? ==> forall d :: d < op.to && d != [] ==> d in t'.dirs)
      && (op.MoveDir? ==> forall d :: d in t'.dirs ==> !(op.to <= d))
  {
    if HasTarget(op) {
      AncestorsAre(op.to);
    }
  }

  // ---- Two roots ----

  /** Partitioning fails exactly when an item crosses the roots; otherwise no item of
      either part leaves its root, and together they are all items. */
  lemma {:induction false} PartitionSeparates(items: seq<Item>, isCanonical: Path -> bool)
    ensures StaysInRoot(items, isCanonical)
       <==> forall item :: item in items && item.to.Some? ==> isCanonical(item.from) == isCanonical(item.to.value)
    ensures var canonical, live := OfRoot(items, Canonical, isCanonical), OfRoot(items, Live, isCanonical);
      && (forall item :: item in canonical ==> isCanonical(item.from) && (item.to.Some? ==> isCanonical(item.to.value)))
      && (forall item :: item in live ==> !isCanonical(item.from) && (item.to.Some? ==> !isCanonical(item.to.value)))
      && (StaysInRoot(items, isCanonical) ==> multiset(canonical) + multiset(live) == multiset(items))
    decreases |items|
  {
    if items != [] {
      var front, last := items[..|items| - 1], items[|items| - 1];
      assert items == front + [last];
      PartitionSeparates(front, isCanonical);
    }
  }
}
