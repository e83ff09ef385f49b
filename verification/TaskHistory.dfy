/** How a child gets to its state: over every run of commands, nothing is integrated
    that was not reviewed, accepted and queued. */
module TaskHistory {
  import opened Options
  import opened TaskRelation
  import opened TaskInvariants

  /** The state of `c` in the map of `p`, if it has an entry there. */
  function StateOf(t: Tasks, p: Id, c: Id): Option<State>
  {
    if p !in t.maps || Find(t.maps[p].entries, c).None? then None else Some(Find(t.maps[p].entries, c).value.state)
  }

  /** A reported state may follow another one under these conditions; the room is that
      of the queue. */
  lemma TransitionsAre(t: Tasks, p: Id, c: Id, state: State, otherChecks: bool)
    requires IsLinked(t, p, c) && StateOf(t, p, c).Some?
    ensures var from, room := StateOf(t, p, c).value, CountIntegrating(t.maps[p].entries, c) < t.maps[p].mergeLimit;
      SetState(t, p, c, state, otherChecks).ok
      <==> otherChecks
           && match state
              case Accepted => from == Review
              case Changes => from == Review
              case Integrating => from == Accepted && room
              case Integrated => from == Integrating
              case _ => true
    ensures StateOf(SetState(t, p, c, state, otherChecks).tasks, p, c)
         == Some(if SetState(t, p, c, state, otherChecks).ok then state else StateOf(t, p, c).value)
  {
    hide CountIntegrating, Remove;
    FindAfterSet(t.maps[p].entries, c, state, c);
  }

  lemma {:induction false} FindAfterSet(entries: seq<Entry>, c: Id, state: State, d: Id)
    ensures Find(SetEntry(entries, c, state), d)
         == if d == c && Find(entries, c).Some? then Some(Entry(c, state)) else Find(entries, d)
    decreases |entries|
  {
    if entries != [] {
      FindAfterSet(entries[1..], c, state, d);
    }
  }

  lemma {:induction false} FindAppended(entries: seq<Entry>, e: Entry, d: Id)
    ensures Find(entries + [e], d)
         == if Find(entries, d).Some? then Find(entries, d) else if e.id == d then Some(e) else None
    decreases |entries|
  {
    if entries == [] {
      assert [] + [e] == [e] && [e][1..] == [];
    } else {
      assert (entries + [e])[1..] == entries[1..] + [e];
      FindAppended(entries[1..], e, d);
    }
  }

  lemma {:induction false} FindAfterAdd(entries: seq<Entry>, ids: seq<Id>, d: Id)
    ensures Find(AddMissing(entries, ids), d)
         == if Find(entries, d).Some? then Find(entries, d) else if d in ids then Some(Entry(d, Open)) else None
    decreases |ids|
  {
    hide Find;
    if ids != [] {
      var next := if HasEntry(entries, ids[0]) then entries else entries + [Entry(ids[0], Open)];
      FindAfterAdd(next, ids[1..], d);
      FindAppended(entries, Entry(ids[0], Open), d);
      assert d in ids <==> d == ids[0] || d in ids[1..];
      assert HasEntry(entries, ids[0]) ==> Find(entries, ids[0]).Some?;
    }
  }

  lemma {:induction false} FindAfterKeep(entries: seq<Entry>, ids: seq<Id>, d: Id)
    ensures Find(KeepOnly(entries, ids), d) == if d in ids then Find(entries, d) else None
    decreases |entries|
  {
    if entries != [] {
      FindAfterKeep(entries[1..], ids, d);
      var rest := KeepOnly(entries[1..], ids);
      assert ([entries[0]] + rest)[1..] == rest;
      assert [] + rest == rest;
    }
  }

  /** A command that is no accepted report on `c` leaves its state, opens a new entry
      or drops the entry. */
  lemma OtherCommands(t: Tasks, cmd: Command, p: Id, c: Id)
    requires forall mv :: mv in MoveOf(t, cmd, p) ==> mv.id != c
    ensures StateOf(Execute(t, cmd), p, c) in {StateOf(t, p, c), Some(Open), None}
  {
    hide SetEntry, AddMissing, KeepOnly, Remove, Dedup, Find, MayEnter, CountIntegrating;
    match cmd
    case DoLink(q, d, secondOk) =>
      if q in t.records {
        MapRepair(t, MapOf(t, q), p, q, c);
      }
    case DoUnlink(q, d) =>
      if q in t.records {
        MapRepair(t, MapOf(t, q), p, q, c);
      }
    case DoSetState(q, d, state, otherChecks) =>
      if q == p && q in t.maps {
        FindAfterSet(t.maps[p].entries, d, state, c);
        assert SetState(t, q, d, state, otherChecks).ok ==> MoveOf(t, cmd, p) == [Move(d, state)];
      }
    case _ =>
  }

  /** The repair of a map keeps the state of a child, or gives or takes its entry. */
  lemma MapRepair(t: Tasks, m: Option<TaskMap>, p: Id, q: Id, c: Id)
    requires m == MapOf(t, q)
    ensures forall children: seq<Id> ::
      var e := Find(EnsureMap(m, children).entries, c);
      e.None? || e.value.state.Open? || (q in t.maps && e == Find(t.maps[q].entries, c))
  {
    hide Find, AddMissing, KeepOnly;
    forall children: seq<Id>
      ensures var e := Find(EnsureMap(m, children).entries, c);
        e.None? || e.value.state.Open? || (q in t.maps && e == Find(t.maps[q].entries, c))
    {
      var base := m.GetOr(NEW_MAP);
      FindAfterAdd(base.entries, children, c);
      FindAfterKeep(AddMissing(base.entries, children), children, c);
      assert Find([], c) == None by { NothingFound(c); }
    }
  }

  lemma NothingFound(c: Id)
    ensures Find([], c) == None
  {
  }

  // ---- When a link can be made or undone ----

  /** A link is made exactly between two different tasks in planning of which the child
      has no other parent and neither is the parent's own parent; and then it is there,
      on both sides and in the map, and no other task has changed. */
  lemma LinksIff(t: Tasks, p: Id, c: Id)
    ensures var r := Link(t, p, c, true);
      && (r.ok <==> && p != c && {p, c} <= t.records.Keys && t.records[p].planning && t.records[c].planning
                    && t.records[c].parent in {None, Some(p)} && t.records[p].parent != Some(c) && p !in t.records[c].children)
      && (r.ok ==> IsLinked(r.tasks, p, c) && (IsLinked(t, p, c) || StateOf(r.tasks, p, c).Some?))
      && (forall q :: q in t.records && q !in {p, c} ==> q in r.tasks.records && r.tasks.records[q] == t.records[q])
      && (forall q :: q != p ==> MapOf(r.tasks, q) == MapOf(t, q))
  {
    hide EnsureMap;
    if MayLink(t, p, c) && !IsLinked(t, p, c) {
      var children := Dedup(t.records[p].children + [c]);
      ChildGetsEntry(MapOf(t, p), children, c);
    }
  }

  lemma ChildGetsEntry(m: Option<TaskMap>, children: seq<Id>, c: Id)
    ensures Find(EnsureMap(m, children).entries, c).Some? <==> c in children
  {
    hide Find, AddMissing, KeepOnly;
    var base := m.GetOr(NEW_MAP);
    FindAfterAdd(base.entries, children, c);
    FindAfterKeep(AddMissing(base.entries, children), children, c);
  }

  /** A link is undone exactly between tasks in planning whose child is still open; and
      then it is gone, on both sides and from the map, and no other task has changed. */
  lemma UnlinksIff(t: Tasks, p: Id, c: Id)
    ensures var r := Unlink(t, p, c, true);
      && (r.ok <==> IsLinked(t, p, c) && t.records[p].planning && t.records[c].planning
                    && StateOf(t, p, c) in {None, Some(Open)})
      && (r.ok ==> && {p, c} <= r.tasks.records.Keys && c !in r.tasks.records[p].children
                   && (p != c ==> r.tasks.records[c].parent == None) && StateOf(r.tasks, p, c) == None)
      && (forall q :: q in t.records && q !in {p, c} ==> q in r.tasks.records && r.tasks.records[q] == t.records[q])
      && (forall q :: q != p ==> MapOf(r.tasks, q) == MapOf(t, q))
  {
    hide EnsureMap;
    if MayUnlink(t, p, c) {
      ChildGetsEntry(MapOf(t, p), Remove(t.records[p].children, c), c);
    }
  }

  // ---- The trail of a child ----

  /** The states reported for `c`, in order. */
  function Trail(moves: seq<Move>, c: Id): seq<State>
  {
    if moves == [] then []
    else Trail(moves[..|moves| - 1], c) + if moves[|moves| - 1].id == c then [moves[|moves| - 1].state] else []
  }

  predicate EndsWith(trail: seq<State>, end: seq<State>) { |end| <= |trail| && trail[|trail| - |end|..] == end }

  /** The last reports are those that lead to `state`. */
  predicate Earned(state: State, trail: seq<State>)
  {
    match state
    case Review => EndsWith(trail, [Review])
    case Changes => EndsWith(trail, [Review, Changes])
    case Accepted => EndsWith(trail, [Review, Accepted])
    case Integrating => EndsWith(trail, [Review, Accepted, Integrating])
    case Integrated => EndsWith(trail, [Review, Accepted, Integrating, Integrated])
    case _ => true
  }

  lemma TrailOfAppend(front: seq<Move>, mv: Move, c: Id)
    ensures Trail(front + [mv], c) == Trail(front, c) + if mv.id == c then [mv.state] else []
  {
    assert (front + [mv])[..|front|] == front;
  }

  lemma EndsWithMore(trail: seq<State>, end: seq<State>, state: State)
    requires EndsWith(trail, end)
    ensures EndsWith(trail + [state], end + [state])
  {
  }

  /** A report is earned by the state it is accepted in. */
  lemma NextIsEarned(from: State, to: State, trail: seq<State>)
    requires Earned(from, trail)
    requires to.Accepted? || to.Changes? ==> from.Review?
    requires to.Integrating? ==> from.Accepted?
    requires to.Integrated? ==> from.Integrating?
    ensures Earned(to, trail + [to])
  {
    hide EndsWith;
    if to.Accepted? || to.Changes? {
      EndsWithMore(trail, [Review], to);
      assert [Review] + [to] == [Review, to];
    } else if to.Integrating? {
      EndsWithMore(trail, [Review, Accepted], to);
      assert [Review, Accepted] + [to] == [Review, Accepted, to];
    } else if to.Integrated? {
      EndsWithMore(trail, [Review, Accepted, Integrating], to);
      assert [Review, Accepted, Integrating] + [to] == [Review, Accepted, Integrating, to];
    } else if to.Review? {
      EndsWithLast(trail, to);
    }
  }

  lemma EndsWithLast(trail: seq<State>, state: State)
    ensures EndsWith(trail + [state], [state])
  {
  }

  predicate IsEarned(t: Tasks, p: Id, c: Id, past: seq<Move>)
  {
    StateOf(t, p, c).Some? ==> Earned(StateOf(t, p, c).value, Trail(past, c))
  }

  lemma CommandKeepsEarned(t: Tasks, cmd: Command, p: Id, c: Id, past: seq<Move>)
    requires IsEarned(t, p, c, past)
    ensures IsEarned(Execute(t, cmd), p, c, past + MoveOf(t, cmd, p))
  {
    hide Execute, Trail, Earned, SetState, StateOf;
    var moved := MoveOf(t, cmd, p);
    if moved == [] {
      assert past + moved == past;
      OtherCommands(t, cmd, p, c);
      OpenIsEarned(Trail(past, c));
    } else {
      var mv := moved[0];
      assert moved == [mv];
      TrailOfAppend(past, mv, c);
      if mv.id == c {
        ReportIsEarned(t, cmd, p, c, past);
      } else {
        OtherCommands(t, cmd, p, c);
        OpenIsEarned(Trail(past, c));
        assert Trail(past, c) + [] == Trail(past, c);
      }
    }
  }

  lemma OpenIsEarned(trail: seq<State>)
    ensures Earned(Open, trail)
  {
  }

  lemma ReportIsEarned(t: Tasks, cmd: Command, p: Id, c: Id, past: seq<Move>)
    requires IsEarned(t, p, c, past) && cmd.DoSetState? && MoveOf(t, cmd, p) == [Move(c, cmd.state)]
    ensures StateOf(Execute(t, cmd), p, c) == Some(cmd.state) && Earned(cmd.state, Trail(past, c) + [cmd.state])
  {
    hide Trail, Earned, SetEntry, NextQueue, CountIntegrating, Find;
    TransitionsAre(t, p, c, cmd.state, cmd.otherChecks);
    NextIsEarned(StateOf(t, p, c).value, cmd.state, Trail(past, c));
  }

  /** Over every run: a child that is integrated was last reported as under review,
      accepted, integrating and integrated, in that order with nothing in between;
      and likewise for the states on the way. */
  lemma {:induction false} NothingSkipsReview(t: Tasks, cs: seq<Command>, p: Id, c: Id, past: seq<Move>)
    requires IsEarned(t, p, c, past)
    ensures IsEarned(ExecuteAll(t, cs), p, c, past + MovesOf(t, cs, p))
    decreases |cs|
  {
    hide IsEarned, Execute, MoveOf;
    if cs == [] {
      assert past + [] == past;
    } else {
      var next := Execute(t, cs[0]);
      CommandKeepsEarned(t, cs[0], p, c, past);
      NothingSkipsReview(next, cs[1..], p, c, past + MoveOf(t, cs[0], p));
      assert past + MoveOf(t, cs[0], p) + MovesOf(next, cs[1..], p) == past + MovesOf(t, cs, p);
    }
  }

  /** Commands follow each other on what the earlier ones leave. */
  lemma {:induction false} CommandsFollow(t: Tasks, a: seq<Command>, b: seq<Command>, cmd: Command)
    ensures ExecuteAll(t, a + b) == ExecuteAll(ExecuteAll(t, a), b) && ExecuteAll(t, [cmd]) == Execute(t, cmd)
    decreases |a|
  {
    hide Execute;
    assert [cmd][1..] == [];
    if a == [] {
      assert a + b == b;
    } else {
      assert (a + b)[1..] == a[1..] + b;
      CommandsFollow(Execute(t, a[0]), a[1..], b, cmd);
    }
  }
}
