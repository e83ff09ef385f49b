/** What the stored hashes mean over every run of updates, workflow switches,
    edits by the user and pruning of the table. */
module LedgerRuns {
  import opened Options
  import opened Ledger
  import opened LedgerSteps

  /** What happens to an installation: an update, a workflow switch, an edit by the
      user, a pruning of the table, or the migrations of a release, which move files
      and entries; `dirs` are the directories they find. */
  datatype Event =
    | Updated(ts: seq<Template>, choose: Path -> Choice)
    | Switched(s: Switch)
    | Edited(path: Path, content: Option<string>)
    | Pruned(keys: set<Path>)
    | Migrated(ops: seq<Moves.Op>, dirs: set<Path>)

  function TreeOf(d: Installed, dirs: set<Path>): Moves.Tree { Moves.Tree(d.files, dirs, d.hashes) }

  function After(d: Installed, r: Rules, e: Event): Installed
  {
    match e
    case Updated(ts, choose) => AfterUpdate(d, r, ts, choose)
    case Switched(s) => AfterSwitch(d, r, s)
    case Edited(path, content) =>
      d.(files := if content.Some? then d.files[path := content.value] else d.files - {path})
    case Pruned(keys) => d.(hashes := d.hashes - keys)
    case Migrated(ops, dirs) => var t := Moves.Until(TreeOf(d, dirs), ops); Installed(t.files, t.hashes)
  }

  function AfterAll(d: Installed, r: Rules, es: seq<Event>): Installed
    decreases |es|
  {
    if es == [] then d else AfterAll(After(d, r, es[0]), r, es[1..])
  }

  /** Official bytes that the event wrote to their path or found there. */
  ghost predicate Confirms(d: Installed, r: Rules, e: Event, p: Path, c: string)
  {
    match e
    case Updated(ts, choose) =>
      Template(p, c) in ts
      && (Look(d.files, p) == Some(c) || Template(p, c) in Written(d, r, ts, choose) || Look(After(d, r, e).files, p) == Some(c))
    case Switched(s) =>
      s.native && p == WORKFLOW && c == s.content && Look(After(d, r, e).files, p) == Some(c)
    case _ => false
  }

  ghost function ConfirmedBy(d: Installed, r: Rules, e: Event): iset<(Path, string)>
  {
    iset p: Path, c: string | Confirms(d, r, e, p, c) :: (p, c)
  }

  /** What was confirmed at a path is confirmed wherever a move takes that path. */
  ghost function Carried(t: Moves.Tree, ops: seq<Moves.Op>, past: iset<(Path, string)>): iset<(Path, string)>
    decreases |ops|
  {
    if ops == [] || Moves.Do(t, ops[0]).None? then past
    else Carried(Moves.Do(t, ops[0]).value, ops[1..], past + CarriedByOne(ops[0], past))
  }

  ghost function CarriedByOne(op: Moves.Op, past: iset<(Path, string)>): iset<(Path, string)>
  {
    iset p: Path, c: string | (p, c) in past && Moves.IsMove(op) && Moves.Takes(op, p) :: (Moves.Moved(op, p), c)
  }

  /** The official bytes confirmed at each path, or at a path that moves took there,
      when the event is over. */
  ghost function PastAfter(d: Installed, r: Rules, e: Event, past: iset<(Path, string)>): iset<(Path, string)>
  {
    (if e.Migrated? then Carried(TreeOf(d, e.dirs), e.ops, past) else past) + ConfirmedBy(d, r, e)
  }

  ghost function PastAfterAll(d: Installed, r: Rules, es: seq<Event>, past: iset<(Path, string)>): iset<(Path, string)>
    decreases |es|
  {
    if es == [] then past else PastAfterAll(After(d, r, es[0]), r, es[1..], PastAfter(d, r, es[0], past))
  }

  /** Every stored hash is that of official bytes confirmed for its path. */
  ghost predicate IsMeaningful(d: Installed, r: Rules, past: iset<(Path, string)>)
  {
    forall p :: p in d.hashes ==> exists c :: (p, c) in past && d.hashes[p] == Hash(r, c)
  }

  lemma {:induction false} RecordSource(hashes: map<Path, string>, r: Rules, ts: seq<Template>, p: Path)
    requires p in Record(hashes, r, ts)
    ensures (p in hashes && Record(hashes, r, ts)[p] == hashes[p])
         || exists t :: t in ts && t.path == p && Record(hashes, r, ts)[p] == Hash(r, t.content)
    decreases |ts|
  {
    if ts != [] {
      var n := |ts| - 1;
      if ts[n].path == p && !r.untracked(p) {
        assert ts[n] in ts;
      } else {
        RecordSource(hashes, r, ts[..n], p);
        assert forall t :: t in ts[..n] ==> t in ts;
      }
    }
  }

  lemma HashedIsConfirmed(d: Installed, r: Rules, ts: seq<Template>, choose: Path -> Choice, t: Template)
    requires t in Hashed(d, r, ts, choose)
    ensures Confirms(d, r, Updated(ts, choose), t.path, t.content)
  {
    hide Put, Record, ResolvedAll;
    assert t == Template(t.path, t.content);
  }

  lemma UpdateKeepsMeaning(d: Installed, r: Rules, ts: seq<Template>, choose: Path -> Choice, past: iset<(Path, string)>)
    requires IsMeaningful(d, r, past)
    ensures IsMeaningful(AfterUpdate(d, r, ts, choose), r, past + ConfirmedBy(d, r, Updated(ts, choose)))
  {
    hide Hashed, Written, Put, Record, Hash, Confirms;
    var d' := AfterUpdate(d, r, ts, choose);
    var now := past + ConfirmedBy(d, r, Updated(ts, choose));
    forall p | p in d'.hashes
      ensures exists c :: (p, c) in now && d'.hashes[p] == Hash(r, c)
    {
      RecordSource(d.hashes, r, Hashed(d, r, ts, choose), p);
      if t :| t in Hashed(d, r, ts, choose) && t.path == p && d'.hashes[p] == Hash(r, t.content) {
        HashedIsConfirmed(d, r, ts, choose, t);
        assert (p, t.content) in now;
      } else {
        var c :| (p, c) in past && d.hashes[p] == Hash(r, c);
        assert (p, c) in now;
      }
    }
  }

  lemma SwitchKeepsMeaning(d: Installed, r: Rules, s: Switch, past: iset<(Path, string)>)
    requires IsMeaningful(d, r, past)
    ensures IsMeaningful(AfterSwitch(d, r, s), r, past + ConfirmedBy(d, r, Switched(s)))
  {
    hide Hash, SwitchChoice;
    var d' := AfterSwitch(d, r, s);
    var now := past + ConfirmedBy(d, r, Switched(s));
    forall p | p in d'.hashes
      ensures exists c :: (p, c) in now && d'.hashes[p] == Hash(r, c)
    {
      if p in d.hashes && d'.hashes[p] == d.hashes[p] {
        var c :| (p, c) in past && d.hashes[p] == Hash(r, c);
        assert (p, c) in now;
      } else {
        assert Confirms(d, r, Switched(s), p, s.content);
        assert (p, s.content) in now;
      }
    }
  }

  /** An entry after a move is the one that was there, or it came with its file. */
  lemma EntrySource(t: Moves.Tree, op: Moves.Op, q: Path)
    requires Moves.Do(t, op).Some? && q in Moves.Do(t, op).value.hashes
    ensures var h := Moves.Do(t, op).value.hashes[q];
      || (q in t.hashes && h == t.hashes[q])
      || (exists p :: p in t.hashes && Moves.IsMove(op) && Moves.Takes(op, p) && q == Moves.Moved(op, p) && h == t.hashes[p])
  {
    if Moves.IsMove(op) {
      Moves.NewKeysHaveOrigin(t.hashes, op);
      if q in Moves.NewKeys(t.hashes, op) && Moves.Fills(op, q) {
        var p :| p in t.hashes && Moves.Takes(op, p) && q == Moves.Moved(op, p);
        Moves.MovedBack(op, p);
      }
    }
  }

  lemma MoveKeepsMeaning(t: Moves.Tree, r: Rules, op: Moves.Op, past: iset<(Path, string)>)
    requires IsMeaningful(Installed(t.files, t.hashes), r, past) && Moves.Do(t, op).Some?
    ensures var t' := Moves.Do(t, op).value;
      IsMeaningful(Installed(t'.files, t'.hashes), r, past + CarriedByOne(op, past))
  {
    hide Hash;
    var t', now := Moves.Do(t, op).value, past + CarriedByOne(op, past);
    forall q | q in t'.hashes
      ensures exists c :: (q, c) in now && t'.hashes[q] == Hash(r, c)
    {
      hide Moves.Do;
      EntrySource(t, op, q);
      if q in t.hashes && t'.hashes[q] == t.hashes[q] {
        var c :| (q, c) in past && t.hashes[q] == Hash(r, c);
        assert (q, c) in now;
      } else {
        var p :| p in t.hashes && Moves.IsMove(op) && Moves.Takes(op, p) && q == Moves.Moved(op, p) && t'.hashes[q] == t.hashes[p];
        var c :| (p, c) in past && t.hashes[p] == Hash(r, c);
        assert (q, c) in now;
      }
    }
  }

  lemma {:induction false} MigrationKeepsMeaning(t: Moves.Tree, r: Rules, ops: seq<Moves.Op>, past: iset<(Path, string)>)
    requires IsMeaningful(Installed(t.files, t.hashes), r, past)
    ensures IsMeaningful(Installed(Moves.Until(t, ops).files, Moves.Until(t, ops).hashes), r, Carried(t, ops, past))
    decreases |ops|
  {
    hide IsMeaningful, Moves.Do, CarriedByOne;
    if ops != [] {
      if Moves.Do(t, ops[0]).Some? {
        MoveKeepsMeaning(t, r, ops[0], past);
        MigrationKeepsMeaning(Moves.Do(t, ops[0]).value, r, ops[1..], past + CarriedByOne(ops[0], past));
      } else {
        RefusalKeepsMeaning(t, r, ops[0], past);
      }
    }
  }

  lemma RefusalKeepsMeaning(t: Moves.Tree, r: Rules, op: Moves.Op, past: iset<(Path, string)>)
    requires IsMeaningful(Installed(t.files, t.hashes), r, past)
    ensures IsMeaningful(Installed(Moves.Left(t, op).files, Moves.Left(t, op).hashes), r, past)
  {
    hide Hash;
  }

  lemma MoreIsMeaningful(d: Installed, r: Rules, past: iset<(Path, string)>, more: iset<(Path, string)>)
    requires IsMeaningful(d, r, past)
    ensures IsMeaningful(d, r, past + more)
  {
    hide Hash;
    forall p | p in d.hashes
      ensures exists c :: (p, c) in past + more && d.hashes[p] == Hash(r, c)
    {
      var c :| (p, c) in past && d.hashes[p] == Hash(r, c);
      assert (p, c) in past + more;
    }
  }

  lemma StepKeepsMeaning(d: Installed, r: Rules, e: Event, past: iset<(Path, string)>)
    requires IsMeaningful(d, r, past)
    ensures IsMeaningful(After(d, r, e), r, PastAfter(d, r, e, past))
  {
    hide ConfirmedBy, Carried, Moves.Until;
    match e
    case Updated(ts, choose) => UpdateKeepsMeaning(d, r, ts, choose, past);
    case Switched(s) => SwitchKeepsMeaning(d, r, s, past);
    case Migrated(ops, dirs) =>
      MigrationKeepsMeaning(TreeOf(d, dirs), r, ops, past);
      MoreIsMeaningful(After(d, r, e), r, Carried(TreeOf(d, dirs), ops, past), ConfirmedBy(d, r, e));
    case _ => MoreIsMeaningful(d, r, past, ConfirmedBy(d, r, e));
  }

  /** Over every run, each stored hash is the hash of official bytes that were once
      written to its path or found there, or were so at a path from which moves
      have led to it since. */
  lemma {:induction false} HashesStayMeaningful(d: Installed, r: Rules, es: seq<Event>, past: iset<(Path, string)>)
    requires IsMeaningful(d, r, past)
    ensures IsMeaningful(AfterAll(d, r, es), r, PastAfterAll(d, r, es, past))
    decreases |es|
  {
    hide IsMeaningful, After, PastAfter;
    if es != [] {
      StepKeepsMeaning(d, r, es[0], past);
      HashesStayMeaningful(After(d, r, es[0]), r, es[1..], PastAfter(d, r, es[0], past));
    }
  }

  const NOTHING := Installed(map[], map[])

  /** All that was confirmed since the installation, by the paths of today. */
  ghost function History(r: Rules, es: seq<Event>): iset<(Path, string)> { PastAfterAll(NOTHING, r, es, iset{}) }

  /** Whatever happened since the installation, migrations included, an update
      replaces a file without asking only when its bytes are, up to line endings,
      official ones, confirmed at its path or at one from which it was moved here. */
  lemma AutoUpdateReplacesOfficial(r: Rules, es: seq<Event>, t: Template)
    requires Injective(r) && ChangeOf(AfterAll(NOTHING, r, es), r, t).AutoUpdate?
    ensures exists c :: (t.path, c) in History(r, es)
                        && Lf(AfterAll(NOTHING, r, es).files[t.path]) == Lf(c)
  {
    hide AfterAll, PastAfterAll;
    HashesStayMeaningful(NOTHING, r, es, iset{});
    var d := AfterAll(NOTHING, r, es);
    var c :| (t.path, c) in History(r, es) && d.hashes[t.path] == Hash(r, c);
  }

  /** What an update decides about a file is the same before and after a migration
      that moves it, exactly unless the file had no entry and was renamed, as a
      single file, to a path whose left-over entry is that of its bytes. */
  lemma MigrationKeepsChange(d: Installed, r: Rules, ops: seq<Moves.Op>, dirs: set<Path>, p: Path, q: Path, shipped: string)
    requires Moves.IsPlan(ops) && Moves.Run(TreeOf(d, dirs), ops).Some? && p in d.files && Moves.EndsAt(ops, p, q)
    ensures ChangeOf(After(d, r, Migrated(ops, dirs)), r, Template(q, shipped)) == ChangeOf(d, r, Template(p, shipped))
       <==> d.files[p] == shipped
            || !(p !in d.hashes && Moves.MoveFile(p, q) in ops && Look(d.hashes, q) == Some(Hash(r, d.files[p])))
  {
    hide Hash, Moves.EndsAt, Moves.IsPlan, Moves.Run, Moves.Until;
    var t := TreeOf(d, dirs);
    Moves.RunIsUntil(t, ops);
    Moves.FateIsOneShot(ops, p, q);
    Moves.FileFollowsFate(t, ops, p);
    Moves.StatusKept(t, ops, p, q, c => Hash(r, c));
  }

  // ---- What the user wrote stays ----

  /** Nobody asks for the file at `p` to be replaced, moved, edited or used as the
      place of a copy. */
  ghost predicate Unasked(e: Event, p: Path)
  {
    match e
    case Updated(ts, choose) => !choose(p).Overwrite? && forall t :: t in ts ==> Beside(t.path) != p
    case Switched(s) => !s.force && !(s.asks && s.answer.Overwrite?) && p != Beside(WORKFLOW)
    case Edited(path, _) => path != p
    case Pruned(_) => true
    case Migrated(ops, _) => Moves.Untouched(ops, p)
  }

  /** Outside an explicit overwrite, neither an update nor a switch of the workflow,
      nor anything else, changes a file whose bytes were never official at its path
      or at one that moves took there. */
  lemma UserBytesStay(r: Rules, es: seq<Event>, e: Event, p: Path)
    requires Injective(r) && p in AfterAll(NOTHING, r, es).files && Unasked(e, p)
    requires forall c :: (p, c) in History(r, es) ==> Lf(c) != Lf(AfterAll(NOTHING, r, es).files[p])
    ensures Look(AfterAll(NOTHING, r, es + [e]).files, p) == Look(AfterAll(NOTHING, r, es).files, p)
  {
    var d := AfterAll(NOTHING, r, es);
    AfterOneMore(NOTHING, r, es, e);
    NeverOfficial(r, es, p);
    match e
    case Updated(ts, choose) => ModifiedFileStays(d, r, ts, choose, p);
    case Switched(s) => SwitchAt(d, r, s);
    case Migrated(ops, dirs) => Moves.UntouchedStays(TreeOf(d, dirs), ops, p);
    case _ =>
  }

  /** The entry of such a file, if it has one, is not its hash. */
  lemma NeverOfficial(r: Rules, es: seq<Event>, p: Path)
    requires Injective(r) && p in AfterAll(NOTHING, r, es).files
    requires forall c :: (p, c) in History(r, es) ==> Lf(c) != Lf(AfterAll(NOTHING, r, es).files[p])
    ensures Look(AfterAll(NOTHING, r, es).hashes, p) != Some(Hash(r, AfterAll(NOTHING, r, es).files[p]))
  {
    hide AfterAll, Lf, PastAfterAll;
    HashesStayMeaningful(NOTHING, r, es, iset{});
  }

  lemma ModifiedFileStays(d: Installed, r: Rules, ts: seq<Template>, choose: Path -> Choice, p: Path)
    requires p in d.files && Look(d.hashes, p) != Some(Hash(r, d.files[p])) && Unasked(Updated(ts, choose), p)
    ensures Look(AfterUpdate(d, r, ts, choose).files, p) == Some(d.files[p])
  {
    hide Hash, Beside, Written, Put, ResolvedAll;
    forall w | w in Written(d, r, ts, choose)
      ensures w.path != p
    {
      WrittenIs(d, r, ts, choose, w);
    }
    PutElsewhere(d.files, Written(d, r, ts, choose), p);
  }

  lemma {:induction false} AfterOneMore(d: Installed, r: Rules, es: seq<Event>, e: Event)
    ensures AfterAll(d, r, es + [e]) == After(AfterAll(d, r, es), r, e)
    decreases |es|
  {
    if es == [] {
      assert [e][1..] == [];
      assert es + [e] == [e];
    } else {
      assert (es + [e])[1..] == es[1..] + [e];
      AfterOneMore(After(d, r, es[0]), r, es[1..], e);
    }
  }

  // ---- A selected workflow that is not the native one ----

  /** Nobody asks to replace the workflow: no overwrite is chosen for it, no other
      workflow is selected, it is not edited, its entry is not pruned and no
      migration moves it or fills its place. */
  ghost predicate LeavesWorkflow(e: Event)
  {
    match e
    case Updated(ts, choose) => DistinctPaths(ts) && !choose(WORKFLOW).Overwrite?
    case Switched(s) => s.createNew
    case Edited(path, _) => path != WORKFLOW
    case Pruned(keys) => WORKFLOW !in keys
    case Migrated(ops, _) => Moves.Untouched(ops, WORKFLOW)
  }

  /** The update ships `content` as its workflow. */
  ghost predicate Ships(e: Event, content: string)
  {
    e.Updated? && Template(WORKFLOW, content) in e.ts
  }

  ghost predicate ShipsOther(e: Event, content: string)
  {
    exists other :: other != content && Ships(e, other)
  }

  /** The workflow has its selected bytes after every event. */
  ghost predicate Intact(d: Installed, r: Rules, es: seq<Event>, content: string)
    decreases |es|
  {
    Look(d.files, WORKFLOW) == Some(content) && (es == [] || Intact(After(d, r, es[0]), r, es[1..], content))
  }

  /** Some update ships exactly these bytes and a later one something else. */
  ghost predicate Betrayed(es: seq<Event>, content: string)
  {
    exists i, j :: 0 <= i < j < |es| && Ships(es[i], content) && ShipsOther(es[j], content)
  }

  ghost predicate LaterOther(es: seq<Event>, content: string)
  {
    exists j :: 0 <= j < |es| && ShipsOther(es[j], content)
  }

  /** The hash table takes the workflow for the template it equals. */
  predicate Adopted(d: Installed, r: Rules, content: string)
  {
    Look(d.hashes, WORKFLOW) == Some(Hash(r, content))
  }

  predicate IsTracked(r: Rules) { !r.untracked(WORKFLOW) && !r.projected(WORKFLOW) }

  lemma NewSuffixDiffers(path: Path)
    ensures Beside(path) != WORKFLOW
  {
    if |path| == 2 {
      var name := Beside(path)[1];
      assert name[|name| - 1] == 'w' && WORKFLOW[1][|WORKFLOW[1]| - 1] == 'd';
    }
  }

  lemma WrittenToWorkflow(d: Installed, r: Rules, ts: seq<Template>, choose: Path -> Choice, w: Template)
    requires w in Written(d, r, ts, choose) && w.path == WORKFLOW
    requires WORKFLOW in d.files && !choose(WORKFLOW).Overwrite?
    ensures w in ts && ChangeOf(d, r, w).AutoUpdate?
  {
    hide Hash;
    forall t: Template
      ensures Beside(t.path) != WORKFLOW
    {
      NewSuffixDiffers(t.path);
    }
    if w in ResolvedAll(Pick(d, r, ts, Changed), choose) {
      ResolvedSource(Pick(d, r, ts, Changed), choose, w);
    }
  }

  /** An update that ships no workflow, or another one while the selected one is
      not adopted, changes neither file nor hash. */
  lemma UpdatePasses(d: Installed, r: Rules, ts: seq<Template>, choose: Path -> Choice, content: string)
    requires Look(d.files, WORKFLOW) == Some(content) && LeavesWorkflow(Updated(ts, choose))
    requires forall t :: t in ts && t.path == WORKFLOW ==> ChangeOf(d, r, t).Changed?
    ensures Look(AfterUpdate(d, r, ts, choose).files, WORKFLOW) == Some(content)
    ensures Look(AfterUpdate(d, r, ts, choose).hashes, WORKFLOW) == Look(d.hashes, WORKFLOW)
  {
    hide Hash, ResolvedAll, Put, Record;
    forall w | w in Written(d, r, ts, choose)
      ensures w.path != WORKFLOW
    {
      if w.path == WORKFLOW {
        WrittenToWorkflow(d, r, ts, choose, w);
      }
    }
    PutElsewhere(d.files, Written(d, r, ts, choose), WORKFLOW);
    RecordElsewhere(d.hashes, r, Hashed(d, r, ts, choose), WORKFLOW);
  }

  /** An update that ships the very bytes adopts them. */
  lemma UpdateAdopts(d: Installed, r: Rules, ts: seq<Template>, choose: Path -> Choice, content: string)
    requires Look(d.files, WORKFLOW) == Some(content) && LeavesWorkflow(Updated(ts, choose))
    requires Template(WORKFLOW, content) in ts && (WORKFLOW in d.hashes ==> Adopted(d, r, content))
    ensures Look(AfterUpdate(d, r, ts, choose).files, WORKFLOW) == Some(content)
    ensures Look(AfterUpdate(d, r, ts, choose).hashes, WORKFLOW)
         == if IsTracked(r) then Some(Hash(r, content)) else Look(d.hashes, WORKFLOW)
  {
    hide Hash, ResolvedAll, Put, Record;
    var own := Template(WORKFLOW, content);
    assert forall w :: w in ts && w.path == WORKFLOW ==> w == own;
    forall w | w in Written(d, r, ts, choose)
      ensures w.path != WORKFLOW
    {
      if w.path == WORKFLOW {
        WrittenToWorkflow(d, r, ts, choose, w);
      }
    }
    PutElsewhere(d.files, Written(d, r, ts, choose), WORKFLOW);
    var hashed := Hashed(d, r, ts, choose);
    assert forall t :: t in hashed ==> t in ts;
    if IsTracked(r) && WORKFLOW !in d.hashes {
      assert own in hashed;
      RecordHere(d.hashes, r, hashed, own);
    } else {
      RecordElsewhere(d.hashes, r, hashed, WORKFLOW);
    }
  }

  /** An update that ships other bytes replaces an adopted workflow unasked. */
  lemma UpdateReplaces(d: Installed, r: Rules, ts: seq<Template>, choose: Path -> Choice, content: string, other: string)
    requires Look(d.files, WORKFLOW) == Some(content) && LeavesWorkflow(Updated(ts, choose))
    requires Template(WORKFLOW, other) in ts && other != content && Adopted(d, r, content)
    ensures Look(AfterUpdate(d, r, ts, choose).files, WORKFLOW) == Some(other)
  {
    hide Hash, ResolvedAll, Put, Record, Hashed;
    var shipped := Template(WORKFLOW, other);
    var written := Written(d, r, ts, choose);
    assert shipped in Pick(d, r, ts, AutoUpdate);
    forall w | w in written && w.path == WORKFLOW
      ensures w == shipped
    {
      WrittenToWorkflow(d, r, ts, choose, w);
    }
    PutHere(d.files, written, shipped);
  }

  /** One event: what becomes of the workflow and of its entry. */
  lemma StepOfWorkflow(d: Installed, r: Rules, e: Event, content: string)
    requires Look(d.files, WORKFLOW) == Some(content) && LeavesWorkflow(e)
    requires WORKFLOW in d.hashes ==> Adopted(d, r, content)
    ensures var d' := After(d, r, e);
      if Adopted(d, r, content) && ShipsOther(e, content) then Look(d'.files, WORKFLOW) != Some(content)
      else Look(d'.files, WORKFLOW) == Some(content)
           && Look(d'.hashes, WORKFLOW)
              == if Ships(e, content) && IsTracked(r) then Some(Hash(r, content)) else Look(d.hashes, WORKFLOW)
  {
    hide Hash, AfterUpdate;
    match e
    case Updated(ts, choose) =>
      if ShipsOther(e, content) && Adopted(d, r, content) {
        var other :| other != content && Ships(e, other);
        UpdateReplaces(d, r, ts, choose, content, other);
      } else if Ships(e, content) {
        UpdateAdopts(d, r, ts, choose, content);
      } else {
        forall t | t in ts && t.path == WORKFLOW
          ensures ChangeOf(d, r, t).Changed?
        {
          assert t == Template(WORKFLOW, t.content) && Ships(e, t.content);
        }
        UpdatePasses(d, r, ts, choose, content);
      }
    case Switched(s) => NewSuffixDiffers(WORKFLOW);
    case Migrated(ops, dirs) => Moves.UntouchedStays(TreeOf(d, dirs), ops, WORKFLOW);
    case _ =>
  }

  lemma BetrayedSplit(es: seq<Event>, content: string)
    requires es != []
    ensures Betrayed(es, content) <==> Betrayed(es[1..], content) || (Ships(es[0], content) && LaterOther(es[1..], content))
    ensures LaterOther(es, content) <==> LaterOther(es[1..], content) || ShipsOther(es[0], content)
  {
    hide Ships, ShipsOther;
    var rest := es[1..];
    assert forall i :: 0 < i < |es| ==> es[i] == rest[i - 1];
    if Betrayed(rest, content) {
      var i, j :| 0 <= i < j < |rest| && Ships(rest[i], content) && ShipsOther(rest[j], content);
      assert es[i + 1] == rest[i] && es[j + 1] == rest[j];
    }
    if LaterOther(rest, content) {
      var j :| 0 <= j < |rest| && ShipsOther(rest[j], content);
      assert es[j + 1] == rest[j];
    }
  }

  lemma {:induction false} WorkflowFate(d: Installed, r: Rules, es: seq<Event>, content: string)
    requires Look(d.files, WORKFLOW) == Some(content) && (WORKFLOW in d.hashes ==> Adopted(d, r, content))
    requires forall i :: 0 <= i < |es| ==> LeavesWorkflow(es[i])
    ensures Intact(d, r, es, content)
       <==> !(Adopted(d, r, content) && LaterOther(es, content)) && !(IsTracked(r) && Betrayed(es, content))
    decreases |es|
  {
    hide After, LeavesWorkflow, Ships, ShipsOther, Betrayed, LaterOther, Hash, IsTracked;
    if es == [] {
      NothingShipped(content);
    } else {
      StepOfWorkflow(d, r, es[0], content);
      BetrayedSplit(es, content);
      var d' := After(d, r, es[0]);
      if Look(d'.files, WORKFLOW) == Some(content) {
        WorkflowFate(d', r, es[1..], content);
      } else {
        assert !Intact(d', r, es[1..], content);
      }
    }
  }

  lemma NothingShipped(content: string)
    ensures !Betrayed([], content) && !LaterOther([], content)
  {
  }

  /** A selected workflow other than the native one survives every later update
      nobody overrides, exactly unless an update ships the same bytes, thereby
      adopting them, and a later one ships others. */
  lemma SelectedWorkflowSurvives(d: Installed, r: Rules, s: Switch, es: seq<Event>)
    requires !s.native && !s.createNew && (Look(d.files, WORKFLOW) == Some(s.content) || MayReplace(d, r, s))
    requires forall i :: 0 <= i < |es| ==> LeavesWorkflow(es[i])
    ensures Intact(AfterSwitch(d, r, s), r, es, s.content) <==> !(IsTracked(r) && Betrayed(es, s.content))
  {
    hide Intact, Betrayed, LeavesWorkflow, IsTracked, Hash, AfterSwitch;
    SwitchAt(d, r, s);
    WorkflowFate(AfterSwitch(d, r, s), r, es, s.content);
  }
}
