/** What a list of file operations does to a project: the tree of files and the
    table of template hashes that `pactile update` keeps beside it. */
module Moves {
  import opened Options

  /** A path as its segments. `a < b` says that `b` lies below `a`. */
  type Path = seq<string>

  datatype Tree = Tree(files: map<Path, string>, dirs: set<Path>, hashes: map<Path, string>)

  datatype Op =
    | MoveFile(from: Path, to: Path)
    | MoveDir(from: Path, to: Path)
    | Remove(from: Path)
    | Copy(from: Path, to: Path)

  /** Neither path lies below the other. */
  predicate Apart(a: Path, b: Path) { !(a <= b) && !(b <= a) }

  // ---- One operation ----

  /** `op` takes `p` away from where it is. */
  predicate Takes(op: Op, p: Path)
  {
    match op
    case MoveFile(from, _) => p == from
    case MoveDir(from, _) => from < p
    case Remove(from) => p == from
    case Copy(_, _) => false
  }

  /** `op` decides what is at `q` afterwards. */
  predicate Fills(op: Op, q: Path)
  {
    match op
    case MoveFile(_, to) => q == to
    case MoveDir(_, to) => to < q
    case Remove(_) => false
    case Copy(_, to) => q == to
  }

  predicate IsMove(op: Op) { op.MoveFile? || op.MoveDir? }

  function Moved(op: Op, p: Path): Path
    requires IsMove(op) && Takes(op, p)
    ensures Fills(op, Moved(op, p))
  {
    op.to + p[|op.from|..]
  }

  function NewKeys<V>(m: map<Path, V>, op: Op): set<Path>
    requires IsMove(op)
  {
    (set k | k in m && !Takes(op, k) && !Fills(op, k)) + (set k | k in m && Takes(op, k) :: Moved(op, k))
  }

  function Origin(op: Op, q: Path): Path
    requires IsMove(op)
  {
    if Fills(op, q) then op.from + q[|op.to|..] else q
  }

  /** Every key the move takes is renamed; what was at its target is dropped. */
  function Relocate<V>(m: map<Path, V>, op: Op): map<Path, V>
    requires IsMove(op)
  {
    NewKeysHaveOrigin(m, op);
    map q | q in NewKeys(m, op) :: m[Origin(op, q)]
  }

  lemma MovedBack(op: Op, p: Path)
    requires IsMove(op) && Takes(op, p)
    ensures Origin(op, Moved(op, p)) == p
  {
    assert op.from + p[|op.from|..] == p;
  }

  lemma NewKeysHaveOrigin<V>(m: map<Path, V>, op: Op)
    requires IsMove(op)
    ensures forall q :: q in NewKeys(m, op) ==> Origin(op, q) in m
  {
    forall k | Takes(op, k)
      ensures Origin(op, Moved(op, k)) == k
    {
      MovedBack(op, k);
    }
  }

  lemma Relocated<V>(m: map<Path, V>, op: Op, p: Path)
    requires IsMove(op) && p in m
    ensures Takes(op, p) ==> Moved(op, p) in Relocate(m, op) && Relocate(m, op)[Moved(op, p)] == m[p]
    ensures !Takes(op, p) && !Fills(op, p) ==> p in Relocate(m, op) && Relocate(m, op)[p] == m[p]
  {
    if Takes(op, p) {
      MovedBack(op, p);
    }
  }

  /** `from` and everything below it becomes `to` and what is below that. */
  function RelocateDirs(dirs: set<Path>, from: Path, to: Path): set<Path>
  {
    (set d | d in dirs && !(from <= d) && !(to <= d))
    + (set d | d in dirs && from <= d :: to + d[|from|..])
    + Ancestors(to)
  }

  /** What `mkdir -p` of the parent creates. */
  function Ancestors(p: Path): (r: set<Path>)
  {
    set i | 0 < i < |p| :: p[..i]
  }

  /** One operation on the tree; none when the file system would refuse it. */
  function Do(t: Tree, op: Op): Option<Tree>
  {
    match op
    case MoveFile(from, to) =>
      if from !in t.files then None
      else Some(Tree(Relocate(t.files, op), t.dirs + Ancestors(to),
                     if from in t.hashes then Relocate(t.hashes, op) else t.hashes))
    case MoveDir(from, to) =>
      if from !in t.dirs || !Apart(from, to) then None
      else Some(Tree(Relocate(t.files, op), RelocateDirs(t.dirs, from, to), Relocate(t.hashes, op)))
    case Remove(from) =>
      if from !in t.files then None
      else Some(t.(files := t.files - {from}, hashes := t.hashes - {from}))
    case Copy(from, to) =>
      if from !in t.files then None
      else Some(t.(files := t.files[to := t.files[from]]))
  }

  function Run(t: Tree, ops: seq<Op>): Option<Tree>
    decreases |ops|
  {
    if ops == [] then Some(t)
    else
      var next :- Do(t, ops[0]);
      Run(next, ops[1..])
  }

  /** What a refused operation leaves: parent directories made for it, and for a
      directory rename the target already removed. */
  function Left(t: Tree, op: Op): Tree
  {
    match op
    case MoveFile(_, to) => t.(dirs := t.dirs + Ancestors(to))
    case MoveDir(_, to) =>
      t.(files := map k | k in t.files && !Fills(op, k) :: t.files[k],
         dirs := (set d | d in t.dirs && !(to <= d)) + Ancestors(to))
    case _ => t
  }

  /** The tree after `ops`, or after the first of them that is refused. */
  function Until(t: Tree, ops: seq<Op>): Tree
    decreases |ops|
  {
    if ops == [] then t
    else
      match Do(t, ops[0])
      case None => Left(t, ops[0])
      case Some(next) => Until(next, ops[1..])
  }

  lemma {:induction false} RunIsUntil(t: Tree, ops: seq<Op>)
    ensures Run(t, ops).Some? ==> Run(t, ops).value == Until(t, ops)
    decreases |ops|
  {
    hide Do, Left;
    if ops != [] && Do(t, ops[0]).Some? {
      RunIsUntil(Do(t, ops[0]).value, ops[1..]);
    }
  }

  lemma {:induction false} UntilConcat(t: Tree, a: seq<Op>, b: seq<Op>)
    ensures Until(t, a + b) == if Run(t, a).None? then Until(t, a) else Until(Run(t, a).value, b)
    decreases |a|
  {
    hide Do, Left;
    if a == [] {
      assert a + b == b;
    } else {
      assert (a + b)[1..] == a[1..] + b && (a + b)[0] == a[0];
      if Do(t, a[0]).Some? {
        UntilConcat(Do(t, a[0]).value, a[1..], b);
      }
    }
  }

  lemma {:induction false} RunConcat(t: Tree, a: seq<Op>, b: seq<Op>)
    ensures Run(t, a + b) == if Run(t, a).None? then None else Run(Run(t, a).value, b)
    decreases |a|
  {
    if a == [] {
      assert a + b == b;
    } else {
      assert (a + b)[1..] == a[1..] + b;
      if Do(t, a[0]).Some? {
        RunConcat(Do(t, a[0]).value, a[1..], b);
      }
    }
  }

  // ---- Plans that do not interfere ----

  predicate HasTarget(op: Op) { !op.Remove? }

  /** No operation fills what another one takes, reads or fills. */
  predicate TargetsApart(ops: seq<Op>)
  {
    && (forall i, j :: 0 <= i < |ops| && 0 <= j < |ops| && HasTarget(ops[i]) ==> Apart(ops[i].to, ops[j].from))
    && (forall i, j :: 0 <= i < j < |ops| && HasTarget(ops[i]) && HasTarget(ops[j]) ==> Apart(ops[i].to, ops[j].to))
  }

  /** Sources are apart, except that a copy may be of the source taken later and
      that a directory may be moved after what is inside it. */
  predicate SourcesFollow(first: Op, later: Op)
  {
    || Apart(first.from, later.from)
    || (first.Copy? && first.from == later.from && !later.MoveDir?)
    || (later.MoveDir? && later.from < first.from)
  }

  predicate Ordered(ops: seq<Op>)
  {
    forall i, j :: 0 <= i < j < |ops| ==> SourcesFollow(ops[i], ops[j])
  }

  predicate IsPlan(ops: seq<Op>) { TargetsApart(ops) && Ordered(ops) }

  lemma PlanTail(ops: seq<Op>)
    requires IsPlan(ops) && ops != []
    ensures IsPlan(ops[1..])
    ensures forall j :: 0 < j < |ops| ==> ops[j] == ops[1..][j - 1]
  {
  }

  // ---- Where every file ends up, all at once ----

  /** Of all operations that take `p`, `op` has the longest source. */
  predicate Carries(ops: seq<Op>, op: Op, p: Path)
  {
    && op in ops && Takes(op, p)
    && forall other :: other in ops && Takes(other, p) ==> |other.from| <= |op.from|
  }

  predicate Untouched(ops: seq<Op>, p: Path)
  {
    forall op :: op in ops ==> !Takes(op, p) && !Fills(op, p)
  }

  /** The path at which the content of `p` is found after all of `ops`. */
  ghost predicate EndsAt(ops: seq<Op>, p: Path, q: Path)
  {
    || (q == p && Untouched(ops, p))
    || (exists op :: Carries(ops, op, p) && IsMove(op) && q == Moved(op, p))
  }

  /** Fate of `p` read off the first operation that takes it. */
  function Fate(ops: seq<Op>, p: Path): Option<Path>
  {
    if ops == [] then Some(p)
    else if Takes(ops[0], p) then if IsMove(ops[0]) then Some(Moved(ops[0], p)) else None
    else if Fills(ops[0], p) then None
    else Fate(ops[1..], p)
  }

  lemma PrefixesComparable(a: Path, b: Path, p: Path)
    ensures a <= p && b <= p ==> a <= b || b <= a
  {
    if a <= p && b <= p {
      assert a == p[..|a|] && b == p[..|b|];
    }
  }

  lemma ApartRegions(a: Op, b: Op, p: Path)
    requires HasTarget(a) && Apart(a.to, b.from)
    ensures !(Fills(a, p) && Takes(b, p))
  {
    PrefixesComparable(a.to, b.from, p);
  }

  lemma ApartTargets(a: Op, b: Op, p: Path)
    requires HasTarget(a) && HasTarget(b) && Apart(a.to, b.to)
    ensures !(Fills(a, p) && Fills(b, p))
  {
    PrefixesComparable(a.to, b.to, p);
  }

  lemma FollowingTakes(first: Op, later: Op, p: Path)
    requires SourcesFollow(first, later) && Takes(first, p) && Takes(later, p)
    ensures |later.from| < |first.from|
  {
    PrefixesComparable(first.from, later.from, p);
  }

  /** For a plan, the first operation to take a path is the one with the longest
      source, so the order of execution does not show in the result. */
  lemma {:induction false} FateIsOneShot(ops: seq<Op>, p: Path, q: Path)
    requires IsPlan(ops)
    ensures Fate(ops, p) == Some(q) <==> EndsAt(ops, p, q)
    decreases |ops|
  {
    if ops != [] {
      var op := ops[0];
      PlanTail(ops);
      forall other | other in ops[1..]
        ensures SourcesFollow(op, other)
        ensures HasTarget(op) ==> !(Fills(op, p) && Takes(other, p))
      {
        var j :| 0 <= j < |ops[1..]| && ops[1..][j] == other;
        assert ops[j + 1] == other;
        if HasTarget(op) {
          ApartRegions(op, other, p);
        }
      }
      FateHead(ops, p, q);
      FateIsOneShot(ops[1..], p, q);
    }
  }

  lemma FateHead(ops: seq<Op>, p: Path, q: Path)
    requires ops != [] && forall other :: other in ops[1..] ==> SourcesFollow(ops[0], other)
    requires forall other :: other in ops[1..] && HasTarget(ops[0]) ==> !(Fills(ops[0], p) && Takes(other, p))
    ensures Takes(ops[0], p) ==> (EndsAt(ops, p, q) <==> IsMove(ops[0]) && q == Moved(ops[0], p))
    ensures !Takes(ops[0], p) && Fills(ops[0], p) ==> !EndsAt(ops, p, q)
    ensures !Takes(ops[0], p) && !Fills(ops[0], p) ==> (EndsAt(ops, p, q) <==> EndsAt(ops[1..], p, q))
  {
    var op := ops[0];
    assert forall other :: other in ops <==> other == op || other in ops[1..];
    if Takes(op, p) {
      forall other | other in ops && Takes(other, p)
        ensures other == op || |other.from| < |op.from|
      {
        if other in ops[1..] {
          FollowingTakes(op, other, p);
        }
      }
      assert Carries(ops, op, p);
    } else {
      assert forall o :: Carries(ops, o, p) <==> Carries(ops[1..], o, p);
    }
  }

  // ---- Running a plan carries out the fates ----

  lemma PlanHead(ops: seq<Op>, other: Op, p: Path)
    requires IsPlan(ops) && ops != [] && other in ops[1..]
    ensures SourcesFollow(ops[0], other)
    ensures HasTarget(ops[0]) ==> Apart(ops[0].to, other.from)
    ensures HasTarget(other) ==> Apart(other.to, ops[0].from)
    ensures HasTarget(ops[0]) ==> !(Fills(ops[0], p) && Takes(other, p))
    ensures HasTarget(other) ==> !(Takes(ops[0], p) && Fills(other, p))
    ensures HasTarget(ops[0]) && HasTarget(other) ==> !(Fills(ops[0], p) && Fills(other, p))
  {
    var j :| 0 <= j < |ops[1..]| && ops[1..][j] == other;
    assert ops[j + 1] == other;
    if HasTarget(ops[0]) {
      ApartRegions(ops[0], other, p);
    }
    if HasTarget(other) {
      ApartRegions(other, ops[0], p);
    }
    if HasTarget(ops[0]) && HasTarget(other) {
      ApartTargets(ops[0], other, p);
    }
  }

  lemma {:induction false} FateUntouched(ops: seq<Op>, p: Path)
    requires Untouched(ops, p)
    ensures Fate(ops, p) == Some(p)
    decreases |ops|
  {
    if ops != [] {
      FateUntouched(ops[1..], p);
    }
  }

  /** What an operation fills, the rest of the plan leaves alone. */
  lemma FilledIsFinal(ops: seq<Op>, q: Path)
    requires IsPlan(ops) && ops != [] && Fills(ops[0], q)
    ensures Untouched(ops[1..], q) && Fate(ops[1..], q) == Some(q)
  {
    forall other | other in ops[1..]
      ensures !Takes(other, q) && !Fills(other, q)
    {
      PlanHead(ops, other, q);
    }
    FateUntouched(ops[1..], q);
  }

  lemma DoMovesFile(t: Tree, op: Op, p: Path)
    requires Do(t, op).Some? && p in t.files
    ensures var t' := Do(t, op).value;
      && (Takes(op, p) && IsMove(op) ==> Moved(op, p) in t'.files && t'.files[Moved(op, p)] == t.files[p])
      && (!Takes(op, p) && !Fills(op, p) ==> p in t'.files && t'.files[p] == t.files[p])
  {
    if IsMove(op) {
      Relocated(t.files, op, p);
    }
  }

  lemma {:induction false} FileFollowsFate(t: Tree, ops: seq<Op>, p: Path)
    requires IsPlan(ops) && Run(t, ops).Some? && p in t.files && Fate(ops, p).Some?
    ensures var q, t' := Fate(ops, p).value, Run(t, ops).value;
      q in t'.files && t'.files[q] == t.files[p]
    decreases |ops|
  {
    if ops != [] {
      PlanTail(ops);
      DoMovesFile(t, ops[0], p);
      var next := Do(t, ops[0]).value;
      if Takes(ops[0], p) {
        FilledIsFinal(ops, Moved(ops[0], p));
        FileFollowsFate(next, ops[1..], Moved(ops[0], p));
      } else {
        FileFollowsFate(next, ops[1..], p);
      }
    }
  }

  /** Some file of `t` had this content and was moved, left or copied to `q`. */
  ghost predicate ComesFrom(t: Tree, ops: seq<Op>, q: Path, content: string)
  {
    exists p :: p in t.files && t.files[p] == content && (Fate(ops, p) == Some(q) || Copy(p, q) in ops)
  }

  lemma DoAddsOnly(t: Tree, op: Op, q: Path)
    requires Do(t, op).Some? && q in Do(t, op).value.files
    ensures var content := Do(t, op).value.files[q];
      || (q in t.files && t.files[q] == content && !Takes(op, q) && !Fills(op, q))
      || (IsMove(op) && exists p :: p in t.files && Takes(op, p) && Moved(op, p) == q && t.files[p] == content)
      || (op.Copy? && q == op.to && op.from in t.files && t.files[op.from] == content)
  {
    if IsMove(op) {
      NewKeysHaveOrigin(t.files, op);
      if Fills(op, q) {
        var p :| p in t.files && Takes(op, p) && Moved(op, p) == q;
        MovedBack(op, p);
      }
    }
  }

  lemma {:induction false} FileComesFrom(t: Tree, ops: seq<Op>, q: Path)
    requires IsPlan(ops) && Run(t, ops).Some? && q in Run(t, ops).value.files
    ensures ComesFrom(t, ops, q, Run(t, ops).value.files[q])
    decreases |ops|
  {
    if ops == [] {
      assert Fate(ops, q) == Some(q);
    } else {
      PlanTail(ops);
      var next, content := Do(t, ops[0]).value, Run(t, ops).value.files[q];
      FileComesFrom(next, ops[1..], q);
      var p :| p in next.files && next.files[p] == content && (Fate(ops[1..], p) == Some(q) || Copy(p, q) in ops[1..]);
      DoAddsOnly(t, ops[0], p);
      ComesFromStep(t, ops, p, q, content);
    }
  }

  lemma ComesFromStep(t: Tree, ops: seq<Op>, p: Path, q: Path, content: string)
    requires IsPlan(ops) && ops != []
    requires Fate(ops[1..], p) == Some(q) || Copy(p, q) in ops[1..]
    requires
      || (p in t.files && t.files[p] == content && !Takes(ops[0], p) && !Fills(ops[0], p))
      || (IsMove(ops[0]) && exists k :: k in t.files && Takes(ops[0], k) && Moved(ops[0], k) == p && t.files[k] == content)
      || (ops[0].Copy? && p == ops[0].to && ops[0].from in t.files && t.files[ops[0].from] == content)
    ensures ComesFrom(t, ops, q, content)
  {
    if Fills(ops[0], p) {
      FilledIsFinal(ops, p);
      if Copy(p, q) in ops[1..] {
        PlanHead(ops, Copy(p, q), p);
      }
      assert q == p;
      if IsMove(ops[0]) {
        var k :| k in t.files && Takes(ops[0], k) && Moved(ops[0], k) == p && t.files[k] == content;
        assert Fate(ops, k) == Some(q);
      } else {
        assert Copy(ops[0].from, q) in ops;
      }
    }
  }

  lemma {:induction false} CopyArrives(t: Tree, ops: seq<Op>, c: Op)
    requires IsPlan(ops) && Run(t, ops).Some? && c in ops && c.Copy?
    ensures c.from in t.files
    ensures c.to in Run(t, ops).value.files && Run(t, ops).value.files[c.to] == t.files[c.from]
    decreases |ops|
  {
    PlanTail(ops);
    var next := Do(t, ops[0]).value;
    if c == ops[0] {
      FilledIsFinal(ops, c.to);
      FileFollowsFate(next, ops[1..], c.to);
    } else {
      CopyArrives(next, ops[1..], c);
      PlanHead(ops, c, c.from);
      DoAddsOnly(t, ops[0], c.from);
      NotFilledBelow(ops[0], c.from);
    }
  }

  lemma NotFilledBelow(op: Op, p: Path)
    requires HasTarget(op) ==> Apart(op.to, p)
    ensures !Fills(op, p)
  {
  }

  /** The whole plan at once: content by content, the tree afterwards is the tree
      before with every path replaced by its fate, plus the copies. */
  lemma PlanIsOneShot(t: Tree, ops: seq<Op>, p: Path, q: Path)
    requires IsPlan(ops) && Run(t, ops).Some?
    ensures p in t.files && EndsAt(ops, p, q)
      ==> q in Run(t, ops).value.files && Run(t, ops).value.files[q] == t.files[p]
    ensures Copy(p, q) in ops
      ==> p in t.files && q in Run(t, ops).value.files && Run(t, ops).value.files[q] == t.files[p]
    ensures q in Run(t, ops).value.files
      ==> exists k :: k in t.files && t.files[k] == Run(t, ops).value.files[q] && (EndsAt(ops, k, q) || Copy(k, q) in ops)
  {
    FateIsOneShot(ops, p, q);
    if p in t.files && EndsAt(ops, p, q) {
      FileFollowsFate(t, ops, p);
    }
    if Copy(p, q) in ops {
      CopyArrives(t, ops, Copy(p, q));
    }
    if q in Run(t, ops).value.files {
      FileComesFrom(t, ops, q);
      var k :| k in t.files && t.files[k] == Run(t, ops).value.files[q] && (Fate(ops, k) == Some(q) || Copy(k, q) in ops);
      FateIsOneShot(ops, k, q);
    }
  }

  // ---- The hash table moves in step ----

  lemma DoMovesHash(t: Tree, op: Op, p: Path)
    requires Do(t, op).Some?
    ensures var h := Do(t, op).value.hashes;
      && (Takes(op, p) && IsMove(op)
          ==> Look(h, Moved(op, p)) == if p !in t.hashes && op.MoveFile? then Look(t.hashes, Moved(op, p)) else Look(t.hashes, p))
      && (!Takes(op, p) && !Fills(op, p) ==> Look(h, p) == Look(t.hashes, p))
  {
    if IsMove(op) && (op.MoveDir? || op.from in t.hashes) {
      NewKeysHaveOrigin(t.hashes, op);
      if Takes(op, p) {
        MovedBack(op, p);
      }
    }
  }

  /** The hash found at the place where a path ends up: its own, or, for a file
      without one, whatever was recorded for the name it is renamed to. */
  function HashAt(t: Tree, ops: seq<Op>, p: Path, q: Path): Option<string>
  {
    if p in t.hashes then Some(t.hashes[p])
    else if MoveFile(p, q) in ops then Look(t.hashes, q)
    else None
  }

  /** The entry of a path goes where its file goes. */
  lemma {:induction false} HashFollowsFate(t: Tree, ops: seq<Op>, p: Path)
    requires IsPlan(ops) && Run(t, ops).Some? && Fate(ops, p).Some?
    ensures Look(Run(t, ops).value.hashes, Fate(ops, p).value) == HashAt(t, ops, p, Fate(ops, p).value)
    decreases |ops|
  {
    if ops != [] {
      PlanTail(ops);
      var next, q := Do(t, ops[0]).value, Fate(ops, p).value;
      DoMovesHash(t, ops[0], p);
      if Takes(ops[0], p) {
        FilledIsFinal(ops, q);
        HashFollowsFate(next, ops[1..], q);
        OwnMoveOnly(ops, p, q);
      } else {
        HashFollowsFate(next, ops[1..], p);
        if MoveFile(p, q) in ops[1..] {
          PlanHead(ops, MoveFile(p, q), q);
          DoMovesHash(t, ops[0], q);
        }
      }
    }
  }

  lemma OwnMoveOnly(ops: seq<Op>, p: Path, q: Path)
    requires IsPlan(ops) && ops != [] && Fills(ops[0], q)
    ensures MoveFile(q, q) !in ops[1..]
    ensures MoveFile(p, q) in ops ==> ops[0] == MoveFile(p, q)
  {
    if MoveFile(q, q) in ops[1..] {
      PlanHead(ops, MoveFile(q, q), q);
    }
    if MoveFile(p, q) in ops[1..] {
      PlanHead(ops, MoveFile(p, q), q);
    }
  }

  /** Operations leave the file and the entry of a path alone that they neither take
      nor fill. */
  lemma {:induction false} UntouchedStays(t: Tree, ops: seq<Op>, p: Path)
    requires Untouched(ops, p)
    ensures Look(Until(t, ops).files, p) == Look(t.files, p) && Look(Until(t, ops).hashes, p) == Look(t.hashes, p)
    decreases |ops|
  {
    if ops != [] && Do(t, ops[0]).Some? {
      assert ops[0] in ops && forall op :: op in ops[1..] ==> op in ops;
      OneLeavesAlone(t, ops[0], p);
      UntouchedStays(Do(t, ops[0]).value, ops[1..], p);
    }
  }

  lemma OneLeavesAlone(t: Tree, op: Op, p: Path)
    requires Do(t, op).Some? && !Takes(op, p) && !Fills(op, p)
    ensures var t' := Do(t, op).value;
      Look(t'.files, p) == Look(t.files, p) && Look(t'.hashes, p) == Look(t.hashes, p)
  {
    if IsMove(op) {
      NewKeysHaveOrigin(t.files, op);
      NewKeysHaveOrigin(t.hashes, op);
    }
  }

  /** `isTemplateModified` */
  predicate Modified(t: Tree, p: Path, hash: string -> string)
  {
    p in t.files && (p !in t.hashes || hash(t.files[p]) != t.hashes[p])
  }

  /** A file keeps its modified or unmodified status wherever a plan takes it,
      except when it had no hash and is renamed, as a single file, to a name whose
      left-over hash is that of its content. */
  lemma StatusKept(t: Tree, ops: seq<Op>, p: Path, q: Path, hash: string -> string)
    requires IsPlan(ops) && Run(t, ops).Some? && p in t.files && EndsAt(ops, p, q)
    ensures (Modified(Run(t, ops).value, q, hash) == Modified(t, p, hash))
       <==> !(p !in t.hashes && MoveFile(p, q) in ops && Look(t.hashes, q) == Some(hash(t.files[p])))
  {
    FateIsOneShot(ops, p, q);
    FileFollowsFate(t, ops, p);
    HashFollowsFate(t, ops, p);
  }

  // ---- When a plan runs to its end ----

  /** Every source is there, as the kind of thing the operation moves. */
  predicate SourcesExist(t: Tree, ops: seq<Op>)
  {
    forall op :: op in ops ==> if op.MoveDir? then op.from in t.dirs else op.from in t.files
  }

  /** Nothing lies below a file, and no path is both file and directory. */
  ghost predicate WellFormedTree(t: Tree)
  {
    && t.files.Keys !! t.dirs
    && forall f, p :: f in t.files && (p in t.files || p in t.dirs) ==> !(f < p)
  }

  /** Carrying out `first` leaves `later` without its source. */
  predicate Robs(first: Op, later: Op)
  {
    || (first.MoveDir? && first.from <= later.from && (later.MoveDir? || first.from != later.from))
    || ((first.MoveFile? || first.Remove?) && !later.MoveDir? && first.from == later.from)
  }

  predicate HasSource(t: Tree, op: Op)
  {
    if op.MoveDir? then op.from in t.dirs else op.from in t.files
  }

  lemma RobbedOrFollows(t: Tree, first: Op, later: Op)
    requires WellFormedTree(t) && HasSource(t, first) && HasSource(t, later)
    ensures SourcesFollow(first, later) <==> !Robs(first, later)
  {
    var a, b := first.from, later.from;
    assert a <= b && !(a < b) ==> a == b;
    assert b <= a && !(b < a) ==> a == b;
  }

  lemma DoKeepsSource(t: Tree, op: Op, other: Op)
    requires Do(t, op).Some? && (HasTarget(op) ==> Apart(op.to, other.from))
    ensures HasSource(Do(t, op).value, other) ==> HasSource(t, other)
    ensures Robs(op, other) ==> !HasSource(Do(t, op).value, other)
    ensures HasSource(t, other) && SourcesFollow(op, other) ==> HasSource(Do(t, op).value, other)
  {
    NotFilledBelow(op, other.from);
    if !other.MoveDir? {
      SourceFile(t, op, other.from);
    } else {
      SourceDir(t, op, other.from);
    }
  }

  lemma SourceFile(t: Tree, op: Op, p: Path)
    requires Do(t, op).Some? && !Fills(op, p)
    ensures p in Do(t, op).value.files <==> p in t.files && !Takes(op, p)
  {
    if IsMove(op) {
      assert p in NewKeys(t.files, op) <==> p in t.files && !Takes(op, p);
    }
  }

  lemma SourceDir(t: Tree, op: Op, p: Path)
    requires Do(t, op).Some? && (HasTarget(op) ==> Apart(op.to, p))
    ensures p in Do(t, op).value.dirs <==> p in t.dirs && !(op.MoveDir? && op.from <= p)
  {
    if HasTarget(op) {
      assert p !in Ancestors(op.to);
    }
  }

  lemma {:induction false} OrderedRuns(t: Tree, ops: seq<Op>)
    requires IsPlan(ops) && SourcesExist(t, ops)
    ensures Run(t, ops).Some?
    decreases |ops|
  {
    if ops != [] {
      PlanTail(ops);
      assert HasSource(t, ops[0]);
      var next := Do(t, ops[0]).value;
      forall other | other in ops[1..]
        ensures HasSource(next, other)
      {
        PlanHead(ops, other, []);
        assert HasSource(t, other);
        DoKeepsSource(t, ops[0], other);
      }
      OrderedRuns(next, ops[1..]);
    }
  }

  /** A source that is gone stays gone, and the operation that needs it fails. */
  lemma {:induction false} MissingSourceStops(t: Tree, ops: seq<Op>, j: nat)
    requires TargetsApart(ops) && j < |ops| && !HasSource(t, ops[j])
    ensures Run(t, ops).None?
    decreases |ops|
  {
    if j > 0 && Do(t, ops[0]).Some? {
      DoKeepsSource(t, ops[0], ops[j]);
      assert ops[1..][j - 1] == ops[j];
      TargetsApartTail(ops);
      MissingSourceStops(Do(t, ops[0]).value, ops[1..], j - 1);
    }
  }

  lemma TargetsApartTail(ops: seq<Op>)
    requires TargetsApart(ops) && ops != []
    ensures TargetsApart(ops[1..])
  {
  }

  lemma {:induction false} RobberyStops(t: Tree, ops: seq<Op>, i: nat, j: nat)
    requires TargetsApart(ops) && i < j < |ops| && Robs(ops[i], ops[j])
    ensures Run(t, ops).None?
    decreases |ops|
  {
    if Do(t, ops[0]).Some? {
      var next := Do(t, ops[0]).value;
      TargetsApartTail(ops);
      assert ops[1..][j - 1] == ops[j];
      if i == 0 {
        DoKeepsSource(t, ops[0], ops[j]);
        MissingSourceStops(next, ops[1..], j - 1);
      } else {
        assert ops[1..][i - 1] == ops[i];
        RobberyStops(next, ops[1..], i - 1, j - 1);
      }
    }
  }

  /** With all sources there and targets apart, a list of operations runs to its
      end exactly when no operation comes before one whose source lies inside its
      own; otherwise it stops half way with an error. */
  lemma RunsIffOrdered(t: Tree, ops: seq<Op>)
    requires TargetsApart(ops) && SourcesExist(t, ops) && WellFormedTree(t)
    ensures Run(t, ops).Some? <==> Ordered(ops)
  {
    if Ordered(ops) {
      OrderedRuns(t, ops);
    } else {
      var i, j :| 0 <= i < j < |ops| && !SourcesFollow(ops[i], ops[j]);
      assert ops[i] in ops && ops[j] in ops;
      RobbedOrFollows(t, ops[i], ops[j]);
      RobberyStops(t, ops, i, j);
    }
  }
}
