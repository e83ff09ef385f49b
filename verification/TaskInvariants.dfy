/** What every run of link, unlink and state commands keeps. */
module TaskInvariants {
  import opened Options
  import opened TaskRelation

  // ---- The two-sided relation ----

  /** `c` is listed by `p` exactly when it names `p` as its parent. */
  ghost predicate TwoSided(t: Tasks)
  {
    forall p, c :: p in t.records ==>
      (c in t.records[p].children <==> c in t.records && t.records[c].parent == Some(p))
  }

  ghost predicate NoShortCycle(t: Tasks)
  {
    forall p :: p in t.records && t.records[p].parent.Some? ==>
      var q := t.records[p].parent.value;
      q != p && q in t.records && t.records[q].parent != Some(p)
  }

  ghost predicate ListsAreSets(t: Tasks)
  {
    forall p :: p in t.records ==> DupFree(t.records[p].children)
  }

  ghost predicate IsRelation(t: Tasks) { TwoSided(t) && NoShortCycle(t) && ListsAreSets(t) }

  /** The records after a link. */
  lemma LinkedRecords(t: Tasks, p: Id, c: Id)
    requires IsRelation(t) && MayLink(t, p, c) && !IsLinked(t, p, c)
    ensures var r := Link(t, p, c, true);
      && r.ok && t.records[c].parent.None? && c !in t.records[p].children
      && r.tasks.records == t.records[p := t.records[p].(children := t.records[p].children + [c])]
                                     [c := t.records[c].(parent := Some(p))]
  {
    assert c !in t.records[p].children;
    assert DupFree(t.records[p].children + [c]);
  }

  /** A link keeps the relation whether or not its second write succeeds. */
  lemma LinkKeepsRelation(t: Tasks, p: Id, c: Id, secondOk: bool)
    requires IsRelation(t)
    ensures IsRelation(Link(t, p, c, secondOk).tasks)
    ensures !Link(t, p, c, secondOk).ok ==> Link(t, p, c, secondOk).tasks == t
  {
    hide EnsureMap, Dedup;
    if MayLink(t, p, c) && !IsLinked(t, p, c) {
      LinkedRecords(t, p, c);
      if secondOk {
        AddLink(t, p, c, Link(t, p, c, true).tasks);
      } else {
        RolledBack(t, p, Dedup(t.records[p].children + [c]));
      }
    }
  }

  lemma RolledBack(t: Tasks, p: Id, children: seq<Id>)
    requires p in t.records
    ensures WithChildren(WithChildren(t, p, children), p, t.records[p].children) == t
  {
  }

  lemma AddLink(t: Tasks, p: Id, c: Id, t': Tasks)
    requires IsRelation(t) && p != c && p in t.records && c in t.records
    requires t.records[c].parent.None? && t.records[p].parent != Some(c) && c !in t.records[p].children
    requires t'.records == t.records[p := t.records[p].(children := t.records[p].children + [c])]
                                    [c := t.records[c].(parent := Some(p))]
    ensures IsRelation(t')
  {
    AddLinkCycles(t, p, c, t');
    AddLinkSides(t, p, c, t');
    assert DupFree(t.records[p].children + [c]);
  }

  lemma AddLinkSides(t: Tasks, p: Id, c: Id, t': Tasks)
    requires TwoSided(t) && p != c && p in t.records && c in t.records && t.records[c].parent.None?
    requires t'.records == t.records[p := t.records[p].(children := t.records[p].children + [c])]
                                    [c := t.records[c].(parent := Some(p))]
    ensures TwoSided(t')
  {
    forall q, d | q in t'.records
      ensures d in t'.records[q].children <==> d in t'.records && t'.records[d].parent == Some(q)
    {
      assert t'.records[q].children == if q == p then t.records[p].children + [c] else t.records[q].children;
    }
  }

  lemma AddLinkCycles(t: Tasks, p: Id, c: Id, t': Tasks)
    requires TwoSided(t) && NoShortCycle(t) && p != c && p in t.records && c in t.records
    requires t.records[c].parent.None? && t.records[p].parent != Some(c)
    requires t'.records == t.records[p := t.records[p].(children := t.records[p].children + [c])]
                                    [c := t.records[c].(parent := Some(p))]
    ensures NoShortCycle(t')
  {
    forall q | q in t'.records
      ensures t'.records[q].parent == if q == c then Some(p) else t.records[q].parent
    {
    }
  }

  lemma DropLink(t: Tasks, p: Id, c: Id, t': Tasks)
    requires IsRelation(t) && IsLinked(t, p, c)
    requires t'.records == t.records[c := t.records[c].(parent := None)]
                                    [p := t.records[p].(children := Remove(t.records[p].children, c))]
    ensures IsRelation(t')
  {
  }

  /** An unlinking keeps the relation exactly when its second write succeeds: it
      is not rolled back. */
  lemma UnlinkKeepsRelationIff(t: Tasks, p: Id, c: Id, secondOk: bool)
    requires IsRelation(t)
    ensures IsRelation(Unlink(t, p, c, secondOk).tasks) <==> !MayUnlink(t, p, c) || secondOk
  {
    hide EnsureMap;
    if MayUnlink(t, p, c) {
      assert p != c;
      if secondOk {
        DropLink(t, p, c, Unlink(t, p, c, true).tasks);
      } else {
        var t' := Unlink(t, p, c, false).tasks;
        assert c in t'.records[p].children && t'.records[c].parent != Some(p);
      }
    }
  }

  // ---- The map follows the relation ----

  function Ids(entries: seq<Entry>): (ids: seq<Id>)
    ensures |ids| == |entries| && forall i :: 0 <= i < |entries| ==> ids[i] == entries[i].id
  {
    seq(|entries|, i requires 0 <= i < |entries| => entries[i].id)
  }

  predicate IsIntegrating(m: TaskMap, id: Id) { Entry(id, Integrating) in m.entries }

  /** One entry per child; the queue lists exactly the children being integrated,
      each once, and never more than the limit. */
  ghost predicate MapMatches(m: TaskMap, children: seq<Id>)
  {
    && DupFree(Ids(m.entries))
    && (forall id :: id in Ids(m.entries) <==> id in children)
    && DupFree(m.queue)
    && (forall id :: id in m.queue <==> IsIntegrating(m, id))
    && |m.queue| <= m.mergeLimit
  }

  ghost predicate MapsMatch(t: Tasks)
  {
    forall p :: p in t.maps ==> p in t.records && MapMatches(t.maps[p], t.records[p].children)
  }

  lemma HasEntryIff(entries: seq<Entry>, id: Id)
    ensures HasEntry(entries, id) <==> id in Ids(entries)
  {
    if HasEntry(entries, id) {
      var e :| e in entries && e.id == id;
      var i :| 0 <= i < |entries| && entries[i] == e;
      assert Ids(entries)[i] == id;
    }
  }

  lemma AppendIds(entries: seq<Entry>, e: Entry)
    ensures Ids(entries + [e]) == Ids(entries) + [e.id]
  {
  }

  lemma {:induction false} AddMissingAdds(entries: seq<Entry>, ids: seq<Id>)
    requires DupFree(Ids(entries))
    ensures var r := AddMissing(entries, ids);
      && DupFree(Ids(r)) && entries <= r
      && (forall id :: id in Ids(r) <==> id in Ids(entries) || id in ids)
      && (forall e :: e in r ==> e in entries || e.state.Open?)
    decreases |ids|
  {
    if ids != [] {
      HasEntryIff(entries, ids[0]);
      AppendIds(entries, Entry(ids[0], Open));
      var next := if HasEntry(entries, ids[0]) then entries else entries + [Entry(ids[0], Open)];
      AddMissingAdds(next, ids[1..]);
      assert ids == [ids[0]] + ids[1..];
    }
  }

  lemma DupFreeTail(e: Entry, rest: seq<Entry>)
    requires DupFree(Ids([e] + rest))
    ensures DupFree(Ids(rest)) && e.id !in Ids(rest)
  {
    IdsOfCons(e, rest);
    DupFreeCons(e.id, Ids(rest));
  }

  lemma IdsOfCons(e: Entry, rest: seq<Entry>)
    ensures Ids([e] + rest) == [e.id] + Ids(rest)
  {
  }

  lemma DupFreeCons(x: Id, s: seq<Id>)
    ensures DupFree([x] + s) <==> DupFree(s) && x !in s
  {
    var all := [x] + s;
    assert all[0] == x && forall i :: 0 < i < |all| ==> all[i] == s[i - 1];
    if DupFree(all) {
      forall i | 0 <= i < |s|
        ensures s[i] == all[i + 1] && s[i] != x
      {
      }
    }
  }

  lemma PrependId(e: Entry, tail: seq<Entry>)
    requires DupFree(Ids(tail)) && e.id !in Ids(tail)
    ensures DupFree(Ids([e] + tail))
    ensures forall id :: id in Ids([e] + tail) <==> id == e.id || id in Ids(tail)
  {
    IdsOfCons(e, tail);
    DupFreeCons(e.id, Ids(tail));
  }

  lemma {:induction false} KeepOnlyKeeps(entries: seq<Entry>, ids: seq<Id>)
    requires DupFree(Ids(entries))
    ensures var r := KeepOnly(entries, ids);
      && DupFree(Ids(r)) && (forall e :: e in r <==> e in entries && e.id in ids)
      && (forall id :: id in Ids(r) <==> id in Ids(entries) && id in ids)
    decreases |entries|
  {
    hide Ids, DupFree;
    if entries == [] {
      NoIds();
    } else {
      var rest := entries[1..];
      assert entries == [entries[0]] + rest;
      DupFreeTail(entries[0], rest);
      KeepOnlyKeeps(rest, ids);
      PrependId(entries[0], rest);
      var tail := KeepOnly(rest, ids);
      PrependId(entries[0], tail);
      assert [] + tail == tail;
    }
  }

  lemma NoIds()
    ensures Ids([]) == [] && DupFree(Ids([]))
  {
  }

  lemma {:induction false} KeepAll(entries: seq<Entry>, ids: seq<Id>)
    requires forall e :: e in entries ==> e.id in ids
    ensures KeepOnly(entries, ids) == entries
    decreases |entries|
  {
    if entries != [] {
      KeepAll(entries[1..], ids);
    }
  }

  // ---- Links and the map ----

  /** The map of a Parent that gained a child or kept its children. */
  lemma MapGrows(m: Option<TaskMap>, before: seq<Id>, children: seq<Id>)
    requires m.Some? ==> MapMatches(m.value, before) && forall id :: id in before ==> id in children
    ensures MapMatches(EnsureMap(m, children), children)
  {
    hide KeepOnly, AddMissing;
    var base := m.GetOr(NEW_MAP);
    NoIds();
    AddMissingAdds(base.entries, children);
    var grown := AddMissing(base.entries, children);
    KeepOnlyKeeps(grown, children);
    forall id
      ensures id in base.queue <==> IsIntegrating(EnsureMap(m, children), id)
    {
      if IsIntegrating(base, id) {
        EntryHasId(base.entries, Entry(id, Integrating));
      }
      assert Entry(id, Integrating) in base.entries ==> Entry(id, Integrating) in grown;
    }
  }

  lemma EntryHasId(entries: seq<Entry>, e: Entry)
    requires e in entries
    ensures e.id in Ids(entries)
  {
    var i :| 0 <= i < |entries| && entries[i] == e;
    assert Ids(entries)[i] == e.id;
  }

  /** The map of a Parent that lost a child that was not being integrated. */
  lemma MapShrinks(m: TaskMap, before: seq<Id>, c: Id)
    requires MapMatches(m, before) && !IsIntegrating(m, c)
    ensures MapMatches(EnsureMap(Some(m), Remove(before, c)), Remove(before, c))
  {
    hide KeepOnly, AddMissing;
    var children := Remove(before, c);
    AddMissingAdds(m.entries, children);
    var grown := AddMissing(m.entries, children);
    KeepOnlyKeeps(grown, children);
    forall id
      ensures id in m.queue <==> IsIntegrating(EnsureMap(Some(m), children), id)
    {
      if IsIntegrating(m, id) {
        EntryHasId(m.entries, Entry(id, Integrating));
      }
      assert Entry(id, Integrating) in m.entries ==> Entry(id, Integrating) in grown;
    }
  }

  // ---- States and the queue ----

  lemma {:induction false} SetEntrySets(entries: seq<Entry>, c: Id, state: State)
    requires DupFree(Ids(entries)) && c in Ids(entries)
    ensures Ids(SetEntry(entries, c, state)) == Ids(entries)
    ensures forall e :: e in SetEntry(entries, c, state) <==> e == Entry(c, state) || (e in entries && e.id != c)
    decreases |entries|
  {
    hide Ids, DupFree;
    var rest := entries[1..];
    NoIds();
    assert entries == [entries[0]] + rest by {
      if entries == [] {
        assert false;
      }
    }
    DupFreeTail(entries[0], rest);
    IdsOfCons(entries[0], rest);
    if entries[0].id == c {
      IdsOfCons(Entry(c, state), rest);
      forall e | e in rest
        ensures e.id != c
      {
        EntryHasId(rest, e);
      }
    } else {
      SetEntrySets(rest, c, state);
      IdsOfCons(entries[0], SetEntry(rest, c, state));
    }
  }

  /** The ids being integrated, but for `except`. */
  function Busy(entries: seq<Entry>, except: Id): set<Id>
  {
    set e | e in entries && e.state.Integrating? && e.id != except :: e.id
  }

  lemma {:induction false} CountIsSize(entries: seq<Entry>, except: Id)
    requires DupFree(Ids(entries))
    ensures CountIntegrating(entries, except) == |Busy(entries, except)|
    decreases |entries|
  {
    hide Ids, DupFree;
    if entries != [] {
      var e, rest := entries[0], entries[1..];
      assert entries == [e] + rest;
      DupFreeTail(e, rest);
      CountIsSize(rest, except);
      forall f | f in rest
        ensures f.id != e.id
      {
        EntryHasId(rest, f);
      }
      assert Busy(entries, except)
          == Busy(rest, except) + if e.state.Integrating? && e.id != except then {e.id} else {};
    }
  }

  lemma {:induction false} SizeOfQueue(queue: seq<Id>)
    requires DupFree(queue)
    ensures |(set id | id in queue)| == |queue|
    decreases |queue|
  {
    if queue != [] {
      var rest := queue[1..];
      assert queue == [queue[0]] + rest;
      DupFreeCons(queue[0], rest);
      SizeOfQueue(rest);
      assert (set id | id in queue) == (set id | id in rest) + {queue[0]};
    }
  }

  /** The limit leaves room in the queue. */
  lemma RoomInQueue(m: TaskMap, children: seq<Id>, c: Id)
    requires MapMatches(m, children) && !IsIntegrating(m, c)
    ensures CountIntegrating(m.entries, c) == |m.queue|
  {
    CountIsSize(m.entries, c);
    SizeOfQueue(m.queue);
    forall id
      ensures id in Busy(m.entries, c) <==> id in m.queue
    {
      if IsIntegrating(m, id) {
        assert Entry(id, Integrating) in m.entries;
      }
      if id in Busy(m.entries, c) {
        var e :| e in m.entries && e.state.Integrating? && e.id == id;
        assert e == Entry(id, Integrating);
      }
    }
    assert Busy(m.entries, c) == set id | id in m.queue;
  }

  /** A change of state keeps the queue in step with the states. */
  lemma StateKeepsMap(m: TaskMap, children: seq<Id>, c: Id, e: Entry, state: State)
    requires MapMatches(m, children) && Find(m.entries, c) == Some(e) && MayEnter(m, e, state)
    ensures MapMatches(m.(entries := SetEntry(m.entries, c, state), queue := NextQueue(m.queue, c, state)), children)
  {
    hide Ids, CountIntegrating, DupFree, SetEntry;
    EntryHasId(m.entries, e);
    SetEntrySets(m.entries, c, state);
    OneEntry(m.entries, e);
    if state.Integrating? {
      RoomInQueue(m, children, c);
    }
    NextQueueKeeps(m.queue, c, state);
  }

  lemma NextQueueKeeps(queue: seq<Id>, c: Id, state: State)
    requires DupFree(queue)
    ensures DupFree(NextQueue(queue, c, state))
    ensures forall id :: id in NextQueue(queue, c, state) <==> if id == c then state.Integrating? else id in queue
  {
    if state.Integrating? && c !in queue {
      assert DupFree(queue + [c]);
    }
  }

  lemma OneEntry(entries: seq<Entry>, e: Entry)
    requires DupFree(Ids(entries)) && e in entries
    ensures forall f :: f in entries && f.id == e.id ==> f == e
  {
    forall f | f in entries && f.id == e.id
      ensures f == e
    {
      var i :| 0 <= i < |entries| && entries[i] == e;
      var j :| 0 <= j < |entries| && entries[j] == f;
      assert Ids(entries)[i] == Ids(entries)[j];
    }
  }

  // ---- Every run ----

  datatype Command =
    | DoLink(p: Id, c: Id, secondOk: bool)
    | DoUnlink(p: Id, c: Id)
    | DoSetState(p: Id, c: Id, state: State, otherChecks: bool)
    | DoCreate(id: Id)
    | DoAdvance(id: Id, planning: bool)

  /** The commands above, a new task, and a task entering or leaving planning. */
  function Execute(t: Tasks, c: Command): Tasks
  {
    match c
    case DoLink(p, c, secondOk) => Link(t, p, c, secondOk).tasks
    case DoUnlink(p, c) => Unlink(t, p, c, true).tasks
    case DoSetState(p, c, state, otherChecks) => SetState(t, p, c, state, otherChecks).tasks
    case DoCreate(id) =>
      if id in t.records then t else t.(records := t.records[id := Record(None, [], true)])
    case DoAdvance(id, planning) =>
      if id !in t.records then t else t.(records := t.records[id := t.records[id].(planning := planning)])
  }

  function ExecuteAll(t: Tasks, cs: seq<Command>): Tasks
    decreases |cs|
  {
    if cs == [] then t else ExecuteAll(Execute(t, cs[0]), cs[1..])
  }

  ghost predicate IsConsistent(t: Tasks) { IsRelation(t) && MapsMatch(t) }

  lemma NoLinkNoChange(t: Tasks, p: Id, c: Id, secondOk: bool)
    requires !MayLink(t, p, c) || IsLinked(t, p, c) || !secondOk
    ensures Link(t, p, c, secondOk).tasks == t
  {
    hide Dedup, EnsureMap, MayLink;
    if MayLink(t, p, c) && !IsLinked(t, p, c) {
      assert p in t.records by { LinksRecords(t, p, c); }
      RolledBack(t, p, Dedup(t.records[p].children + [c]));
    }
  }

  lemma LinksRecords(t: Tasks, p: Id, c: Id)
    requires MayLink(t, p, c)
    ensures p in t.records && c in t.records
  {
  }

  lemma LinkKeepsMaps(t: Tasks, p: Id, c: Id, secondOk: bool)
    requires IsConsistent(t)
    ensures MapsMatch(Link(t, p, c, secondOk).tasks)
  {
    hide EnsureMap, MapMatches, Link, IsRelation;
    LinkKeepsRelation(t, p, c, secondOk);
    if MayLink(t, p, c) && !IsLinked(t, p, c) && secondOk {
      LinkedTasks(t, p, c);
      MapGrows(MapOf(t, p), t.records[p].children, t.records[p].children + [c]);
    } else {
      NoLinkNoChange(t, p, c, secondOk);
    }
  }

  lemma UnlinkKeepsMaps(t: Tasks, p: Id, c: Id)
    requires IsConsistent(t)
    ensures MapsMatch(Unlink(t, p, c, true).tasks)
  {
    hide EnsureMap, MapMatches;
    if MayUnlink(t, p, c) {
      assert p != c;
      if p in t.maps {
        OpenIsIdle(t.maps[p], t.records[p].children, c);
        MapShrinks(t.maps[p], t.records[p].children, c);
      } else {
        MapGrows(None, [], Remove(t.records[p].children, c));
      }
    }
  }

  lemma OpenIsIdle(m: TaskMap, children: seq<Id>, c: Id)
    requires MapMatches(m, children) && (Find(m.entries, c).Some? ==> Find(m.entries, c).value.state.Open?)
    ensures !IsIntegrating(m, c)
  {
    if Find(m.entries, c).Some? {
      OneEntry(m.entries, Find(m.entries, c).value);
    } else if IsIntegrating(m, c) {
      assert HasEntry(m.entries, c);
    }
  }

  lemma StateKeepsMaps(t: Tasks, p: Id, c: Id, state: State, otherChecks: bool)
    requires IsConsistent(t)
    ensures MapsMatch(SetState(t, p, c, state, otherChecks).tasks)
    ensures SetState(t, p, c, state, otherChecks).tasks.records == t.records
  {
    hide MapMatches, SetEntry, NextQueue, MayEnter;
    if IsLinked(t, p, c) && otherChecks && MapOf(t, p).Some? && Find(t.maps[p].entries, c).Some?
       && MayEnter(t.maps[p], Find(t.maps[p].entries, c).value, state) {
      StateKeepsMap(t.maps[p], t.records[p].children, c, Find(t.maps[p].entries, c).value, state);
    }
  }

  lemma ExecuteKeeps(t: Tasks, c: Command)
    requires IsConsistent(t)
    ensures IsConsistent(Execute(t, c))
  {
    hide Link, Unlink, SetState, MapMatches;
    match c
    case DoLink(p, c, secondOk) =>
      LinkKeepsRelation(t, p, c, secondOk);
      LinkKeepsMaps(t, p, c, secondOk);
    case DoUnlink(p, c) =>
      UnlinkKeepsRelationIff(t, p, c, true);
      UnlinkKeepsMaps(t, p, c);
    case DoSetState(p, c, state, otherChecks) =>
      StateKeepsMaps(t, p, c, state, otherChecks);
      SameRecords(t, SetState(t, p, c, state, otherChecks).tasks);
    case DoCreate(id) => NewTask(t, id);
    case DoAdvance(id, planning) =>
  }

  lemma SameRecords(t: Tasks, t': Tasks)
    requires IsRelation(t) && t'.records == t.records
    ensures IsRelation(t')
  {
  }

  lemma NewTask(t: Tasks, id: Id)
    requires IsConsistent(t)
    ensures IsConsistent(Execute(t, DoCreate(id)))
  {
    hide MapMatches;
    if id !in t.records {
      forall p | p in t.records
        ensures id !in t.records[p].children && t.records[p].parent != Some(id)
      {
      }
    }
  }

  /** Over every run, also with links whose second write fails: the relation stays
      two-sided, without self-links and two-cycles, and every map has one entry per
      child and a duplicate-free queue of exactly the children being integrated,
      within the merge limit. */
  lemma {:induction false} RunsKeepConsistency(t: Tasks, cs: seq<Command>)
    requires IsConsistent(t)
    ensures IsConsistent(ExecuteAll(t, cs))
    decreases |cs|
  {
    hide IsConsistent, Execute;
    if cs != [] {
      ExecuteKeeps(t, cs[0]);
      RunsKeepConsistency(Execute(t, cs[0]), cs[1..]);
    }
  }

  // ---- Undoing ----

  /** What a new link leaves behind. */
  lemma LinkedTasks(t: Tasks, p: Id, c: Id)
    requires IsRelation(t) && MayLink(t, p, c) && !IsLinked(t, p, c)
    ensures var linked, children := Link(t, p, c, true).tasks, t.records[p].children;
      && linked.records == t.records[p := t.records[p].(children := children + [c])][c := t.records[c].(parent := Some(p))]
      && linked.maps == t.maps[p := EnsureMap(MapOf(t, p), children + [c])]
  {
    hide Dedup, EnsureMap;
    LinkedRecords(t, p, c);
  }

  lemma EnsureThere(t: Tasks, p: Id, c: Id)
    requires IsConsistent(t) && p in t.records && c !in t.records[p].children
    ensures var m, children := EnsureMap(MapOf(t, p), t.records[p].children + [c]), t.records[p].children;
      && Find(m.entries, c) == Some(Entry(c, Open))
      && EnsureMap(Some(m), children) == EnsureMap(MapOf(t, p), children)
  {
    hide EnsureMap, IsRelation;
    if p in t.maps {
      AppendedEntry(t.maps[p], t.records[p].children, c);
    } else {
      AppendedToNew(t.records[p].children, c);
    }
  }

  /** Unlinking a new link restores every record; the map is the one a Parent with
      these children has. */
  lemma UnlinkUndoesLink(t: Tasks, p: Id, c: Id)
    requires IsConsistent(t) && MayLink(t, p, c) && !IsLinked(t, p, c)
    ensures var linked := Link(t, p, c, true).tasks;
      var r := Unlink(linked, p, c, true);
      && r.ok && r.tasks.records == t.records
      && r.tasks.maps == t.maps[p := EnsureMap(MapOf(t, p), t.records[p].children)]
  {
    hide EnsureMap, Link, MapsMatch, Find;
    var children := t.records[p].children;
    var linked := Link(t, p, c, true).tasks;
    LinkedRecords(t, p, c);
    LinkedTasks(t, p, c);
    EnsureThere(t, p, c);
    RemoveAppended(children, c);
    UnlinkedTasks(linked, t, p, c);
  }

  lemma UnlinkedTasks(linked: Tasks, t: Tasks, p: Id, c: Id)
    requires p != c && p in t.records && c in t.records && t.records[c].parent.None? && c !in t.records[p].children
    requires t.records[p].planning && t.records[c].planning
    requires linked.records == t.records[p := t.records[p].(children := t.records[p].children + [c])]
                                        [c := t.records[c].(parent := Some(p))]
    requires linked.maps == t.maps[p := EnsureMap(MapOf(t, p), t.records[p].children + [c])]
    requires Find(linked.maps[p].entries, c) == Some(Entry(c, Open))
    requires Remove(t.records[p].children + [c], c) == t.records[p].children
    ensures var r := Unlink(linked, p, c, true);
      && r.ok && r.tasks.records == t.records
      && r.tasks.maps == t.maps[p := EnsureMap(Some(linked.maps[p]), t.records[p].children)]
  {
    hide EnsureMap, Find, Remove;
    NewLinkMayGo(linked, t, p, c);
    hide MayUnlink;
    RecordsRestored(t.records, linked.records, p, c);
    assert MapOf(linked, p) == Some(linked.maps[p]);
  }

  lemma NewLinkMayGo(linked: Tasks, t: Tasks, p: Id, c: Id)
    requires p != c && p in t.records && c in t.records && t.records[p].planning && t.records[c].planning
    requires linked.records == t.records[p := t.records[p].(children := t.records[p].children + [c])]
                                        [c := t.records[c].(parent := Some(p))]
    requires p in linked.maps && Find(linked.maps[p].entries, c) == Some(Entry(c, Open))
    ensures MayUnlink(linked, p, c)
  {
    hide Find;
    assert c in linked.records[p].children;
  }

  lemma RecordsRestored(before: map<Id, Record>, linked: map<Id, Record>, p: Id, c: Id)
    requires p != c && p in before && c in before && before[c].parent.None?
    requires linked == before[p := before[p].(children := before[p].children + [c])][c := before[c].(parent := Some(p))]
    ensures linked[c := linked[c].(parent := None)][p := linked[p].(children := before[p].children)] == before
  {
  }

  lemma RemoveAppended(s: seq<Id>, c: Id)
    requires c !in s
    ensures Remove(s + [c], c) == s
  {
    assert (s + [c])[..|s|] == s;
  }

  lemma {:induction false} AddMissingConcat(entries: seq<Entry>, a: seq<Id>, b: seq<Id>)
    ensures AddMissing(entries, a + b) == AddMissing(AddMissing(entries, a), b)
    decreases |a|
  {
    if a == [] {
      assert a + b == b;
    } else {
      assert (a + b)[1..] == a[1..] + b;
      AddMissingConcat(if HasEntry(entries, a[0]) then entries else entries + [Entry(a[0], Open)], a[1..], b);
    }
  }

  lemma {:induction false} AddNothing(entries: seq<Entry>, ids: seq<Id>)
    requires forall id :: id in ids ==> HasEntry(entries, id)
    ensures AddMissing(entries, ids) == entries
    decreases |ids|
  {
    if ids != [] {
      AddNothing(entries, ids[1..]);
    }
  }

  /** Linking appends one open entry to a map that matches. */
  lemma EnsureAppends(entries: seq<Entry>, children: seq<Id>, c: Id)
    requires DupFree(Ids(entries)) && c !in children && forall id :: id in Ids(entries) <==> id in children
    ensures KeepOnly(AddMissing(entries, children + [c]), children + [c]) == entries + [Entry(c, Open)]
    ensures KeepOnly(AddMissing(entries, children), children) == entries
    ensures KeepOnly(AddMissing(entries + [Entry(c, Open)], children), children) == entries
    ensures Find(entries + [Entry(c, Open)], c) == Some(Entry(c, Open))
  {
    hide Ids, DupFree, KeepOnly;
    forall id
      ensures HasEntry(entries, id) <==> id in children
    {
      HasEntryIff(entries, id);
    }
    var grown := entries + [Entry(c, Open)];
    AddNothing(entries, children);
    AddMissingConcat(entries, children, [c]);
    assert [c][1..] == [];
    assert AddMissing(entries, children + [c]) == grown;
    forall e | e in grown
      ensures e.id in children + [c] && (e in entries ==> e.id in children)
    {
      if e in entries {
        EntryHasId(entries, e);
      }
    }
    KeepAll(grown, children + [c]);
    KeepAll(entries, children);
    forall id | id in children
      ensures HasEntry(grown, id)
    {
      var e :| e in entries && e.id == id;
      assert e in grown;
    }
    AddNothing(grown, children);
    KeepDropsLast(entries, Entry(c, Open), children);
    FindLast(entries, Entry(c, Open));
  }

  lemma {:induction false} KeepDropsLast(entries: seq<Entry>, e: Entry, ids: seq<Id>)
    requires e.id !in ids
    ensures KeepOnly(entries + [e], ids) == KeepOnly(entries, ids)
    decreases |entries|
  {
    if entries == [] {
      assert entries + [e] == [e] && [e][1..] == entries;
    } else {
      assert (entries + [e])[1..] == entries[1..] + [e];
      KeepDropsLast(entries[1..], e, ids);
    }
  }

  lemma {:induction false} FindLast(entries: seq<Entry>, e: Entry)
    requires !HasEntry(entries, e.id)
    ensures Find(entries + [e], e.id) == Some(e)
    decreases |entries|
  {
    if entries != [] {
      assert entries[0] in entries;
      assert (entries + [e])[1..] == entries[1..] + [e];
      assert !HasEntry(entries[1..], e.id);
      FindLast(entries[1..], e);
    }
  }

  lemma AppendedEntry(m: TaskMap, children: seq<Id>, c: Id)
    requires MapMatches(m, children) && c !in children
    ensures EnsureMap(Some(m), children + [c]) == m.(entries := m.entries + [Entry(c, Open)])
    ensures EnsureMap(Some(EnsureMap(Some(m), children + [c])), children) == m == EnsureMap(Some(m), children)
    ensures Find(EnsureMap(Some(m), children + [c]).entries, c) == Some(Entry(c, Open))
  {
    hide KeepOnly, AddMissing;
    EnsureAppends(m.entries, children, c);
  }

  lemma AppendedToNew(children: seq<Id>, c: Id)
    requires c !in children
    ensures var m := EnsureMap(None, children);
      && EnsureMap(None, children + [c]) == m.(entries := m.entries + [Entry(c, Open)])
      && EnsureMap(Some(EnsureMap(None, children + [c])), children) == m
      && Find(EnsureMap(None, children + [c]).entries, c) == Some(Entry(c, Open))
  {
    hide KeepOnly, AddMissing;
    NoIds();
    MapGrows(None, children, children);
    var m := EnsureMap(None, children);
    EnsureAppends(m.entries, children, c);
    GrowFromNew(children, c);
  }

  lemma GrowFromNew(children: seq<Id>, c: Id)
    requires c !in children
    ensures KeepOnly(AddMissing([], children + [c]), children + [c])
         == KeepOnly(AddMissing([], children), children) + [Entry(c, Open)]
  {
    hide KeepOnly, Ids, DupFree;
    NoIds();
    AddMissingAdds([], children);
    AddMissingConcat([], children, [c]);
    var all := AddMissing([], children);
    HasEntryIff(all, c);
    assert [c][1..] == [];
    forall e | e in all
      ensures e.id in children
    {
      EntryHasId(all, e);
    }
    KeepAll(all, children);
    KeepAll(all + [Entry(c, Open)], children + [c]);
  }

  // ---- The order of the queue ----

  datatype Move = Move(id: Id, state: State)

  /** One accepted change of state in a Parent's map. */
  function ApplyMove(m: TaskMap, mv: Move): Option<TaskMap>
  {
    var e :- Find(m.entries, mv.id);
    if MayEnter(m, e, mv.state)
    then Some(m.(entries := SetEntry(m.entries, mv.id, mv.state), queue := NextQueue(m.queue, mv.id, mv.state)))
    else None
  }

  /** The index of the last move of `id`, or -1. */
  function LastMove(moves: seq<Move>, id: Id): (k: int)
    ensures -1 <= k < |moves| && (k >= 0 ==> moves[k].id == id)
    decreases |moves|
  {
    if moves == [] then -1
    else if moves[|moves| - 1].id == id then |moves| - 1
    else LastMove(moves[..|moves| - 1], id)
  }

  lemma MoveKeepsMap(m: TaskMap, children: seq<Id>, mv: Move)
    requires MapMatches(m, children) && ApplyMove(m, mv).Some?
    ensures MapMatches(ApplyMove(m, mv).value, children)
    ensures mv.state.Integrating? ==> mv.id !in m.queue && ApplyMove(m, mv).value.queue == m.queue + [mv.id]
    ensures !mv.state.Integrating? ==> ApplyMove(m, mv).value.queue == Remove(m.queue, mv.id)
  {
    hide MapMatches, SetEntry;
    var e := Find(m.entries, mv.id).value;
    StateKeepsMap(m, children, mv.id, e, mv.state);
    if mv.state.Integrating? {
      AcceptedIsIdle(m, children, e);
    }
  }

  lemma AcceptedIsIdle(m: TaskMap, children: seq<Id>, e: Entry)
    requires MapMatches(m, children) && e in m.entries && e.state.Accepted?
    ensures e.id !in m.queue
  {
    OneEntry(m.entries, e);
  }

  predicate InEntryOrder(queue: seq<Id>, moves: seq<Move>)
  {
    && (forall id :: id in queue ==> LastMove(moves, id) >= 0 && moves[LastMove(moves, id)].state.Integrating?)
    && (forall i, j :: 0 <= i < j < |queue| ==> LastMove(moves, queue[i]) < LastMove(moves, queue[j]))
  }

  lemma OrderedPrefix(queue: seq<Id>, moves: seq<Move>)
    requires queue != [] && InEntryOrder(queue, moves)
    ensures var n := |queue| - 1;
      && InEntryOrder(queue[..n], moves)
      && LastMove(moves, queue[n]) >= 0 && moves[LastMove(moves, queue[n])].state.Integrating?
      && forall y :: y in queue[..n] ==> LastMove(moves, y) < LastMove(moves, queue[n])
  {
    hide LastMove;
    var n := |queue| - 1;
    assert forall y :: y in queue[..n] ==> y in queue;
    assert queue[n] in queue;
  }

  lemma OrderedAppend(queue: seq<Id>, x: Id, moves: seq<Move>)
    requires InEntryOrder(queue, moves)
    requires LastMove(moves, x) >= 0 && moves[LastMove(moves, x)].state.Integrating?
    requires forall y :: y in queue ==> LastMove(moves, y) < LastMove(moves, x)
    ensures InEntryOrder(queue + [x], moves)
  {
    hide LastMove;
  }

  lemma {:induction false} RemoveKeepsOrder(queue: seq<Id>, x: Id, moves: seq<Move>)
    requires InEntryOrder(queue, moves)
    ensures InEntryOrder(Remove(queue, x), moves)
    decreases |queue|
  {
    hide InEntryOrder, LastMove;
    if queue != [] {
      var n := |queue| - 1;
      OrderedPrefix(queue, moves);
      RemoveKeepsOrder(queue[..n], x, moves);
      if queue[n] != x {
        OrderedAppend(Remove(queue[..n], x), queue[n], moves);
      }
    }
  }

  lemma LastMoveOfAppend(front: seq<Move>, mv: Move, id: Id)
    ensures LastMove(front + [mv], id) == if id == mv.id then |front| else LastMove(front, id)
    ensures forall k :: 0 <= k < |front| ==> (front + [mv])[k] == front[k]
  {
    assert (front + [mv])[..|front|] == front;
  }

  lemma OrderElsewhere(queue: seq<Id>, front: seq<Move>, mv: Move)
    requires InEntryOrder(queue, front) && mv.id !in queue
    ensures InEntryOrder(queue, front + [mv])
  {
    hide LastMove;
    forall id | id in queue
      ensures LastMove(front + [mv], id) == LastMove(front, id)
    {
      LastMoveOfAppend(front, mv, id);
    }
    LastMoveOfAppend(front, mv, mv.id);
  }

  lemma OrderAfterMove(queue: seq<Id>, front: seq<Move>, mv: Move)
    requires InEntryOrder(queue, front)
    ensures mv.state.Integrating? && mv.id !in queue ==> InEntryOrder(queue + [mv.id], front + [mv])
    ensures !mv.state.Integrating? ==> InEntryOrder(Remove(queue, mv.id), front + [mv])
  {
    hide LastMove, InEntryOrder;
    if mv.state.Integrating? && mv.id !in queue {
      OrderElsewhere(queue, front, mv);
      LastMoveOfAppend(front, mv, mv.id);
      forall y | y in queue
        ensures LastMove(front + [mv], y) < |front|
      {
        LastMoveOfAppend(front, mv, y);
      }
      OrderedAppend(queue, mv.id, front + [mv]);
    } else {
      RemoveKeepsOrder(queue, mv.id, front);
      OrderElsewhere(Remove(queue, mv.id), front, mv);
    }
  }

  function QueueOf(t: Tasks, p: Id): seq<Id> { if p in t.maps then t.maps[p].queue else [] }

  /** The change of state that a command makes in the map of `p`, if it makes one. */
  function MoveOf(t: Tasks, c: Command, p: Id): seq<Move>
  {
    if c.DoSetState? && c.p == p && SetState(t, c.p, c.c, c.state, c.otherChecks).ok then [Move(c.c, c.state)] else []
  }

  /** All changes of state that a run makes in the map of `p`. */
  function MovesOf(t: Tasks, cs: seq<Command>, p: Id): seq<Move>
    decreases |cs|
  {
    if cs == [] then [] else MoveOf(t, cs[0], p) + MovesOf(Execute(t, cs[0]), cs[1..], p)
  }

  /** Links, unlinkings and the repair of a map leave every queue as it is. */
  lemma OtherCommandsKeepQueue(t: Tasks, c: Command, p: Id)
    requires !c.DoSetState?
    ensures QueueOf(Execute(t, c), p) == QueueOf(t, p)
  {
    hide Dedup, Remove, AddMissing, KeepOnly, MayUnlink, MayLink;
    if c.DoLink? {
      if MayLink(t, c.p, c.c) {
        LinksRecords(t, c.p, c.c);
      }
    } else if c.DoUnlink? && MayUnlink(t, c.p, c.c) {
      UnlinksRecords(t, c.p, c.c);
    }
  }

  lemma UnlinksRecords(t: Tasks, p: Id, c: Id)
    requires MayUnlink(t, p, c)
    ensures p in t.records && c in t.records
  {
  }

  lemma StateMovesQueue(t: Tasks, c: Command, p: Id)
    requires IsConsistent(t) && c.DoSetState?
    ensures var moved, queue := MoveOf(t, c, p), QueueOf(t, p);
      && QueueOf(Execute(t, c), p) == (if moved == [] then queue else NextQueue(queue, moved[0].id, moved[0].state))
      && (moved != [] && moved[0].state.Integrating? ==> moved[0].id !in queue)
  {
    hide MapMatches, SetEntry, NextQueue, IsRelation;
    if MoveOf(t, c, p) != [] {
      var e := Find(t.maps[p].entries, c.c).value;
      if c.state.Integrating? {
        AcceptedIsIdle(t.maps[p], t.records[p].children, e);
      }
    }
  }

  /** Over every run, the children in a Parent's queue stand in the order in which
      they last entered it; `past` are the changes of state before the run. */
  lemma {:induction false} QueueInEntryOrder(t: Tasks, cs: seq<Command>, p: Id, past: seq<Move>)
    requires IsConsistent(t) && InEntryOrder(QueueOf(t, p), past)
    ensures InEntryOrder(QueueOf(ExecuteAll(t, cs), p), past + MovesOf(t, cs, p))
    decreases |cs|
  {
    hide IsConsistent, Execute, InEntryOrder, QueueOf, MoveOf;
    if cs == [] {
      assert past + [] == past;
    } else {
      var next := Execute(t, cs[0]);
      ExecuteKeeps(t, cs[0]);
      CommandKeepsOrder(t, cs[0], p, past);
      QueueInEntryOrder(next, cs[1..], p, past + MoveOf(t, cs[0], p));
      assert past + MoveOf(t, cs[0], p) + MovesOf(next, cs[1..], p) == past + MovesOf(t, cs, p);
    }
  }

  lemma CommandKeepsOrder(t: Tasks, c: Command, p: Id, past: seq<Move>)
    requires IsConsistent(t) && InEntryOrder(QueueOf(t, p), past)
    ensures InEntryOrder(QueueOf(Execute(t, c), p), past + MoveOf(t, c, p))
  {
    hide IsConsistent, Execute, InEntryOrder, QueueOf, SetState;
    var moved := MoveOf(t, c, p);
    if c.DoSetState? {
      StateMovesQueue(t, c, p);
    } else {
      OtherCommandsKeepQueue(t, c, p);
    }
    if moved == [] {
      assert past + moved == past;
    } else {
      assert moved == [moved[0]];
      OrderAfterMove(QueueOf(t, p), past, moved[0]);
    }
  }

  /** `integrate-through`: accepted, integrating, integrated, as far as it gets. */
  function Through(m: TaskMap, c: Id): Option<TaskMap>
  {
    var a :- ApplyMove(m, Move(c, Accepted));
    var b :- ApplyMove(a, Move(c, Integrating));
    ApplyMove(b, Move(c, Integrated))
  }

  /** It goes all the way exactly for a child under review with room in the queue,
      and then leaves the queue as it was. */
  lemma ThroughIff(m: TaskMap, children: seq<Id>, c: Id)
    requires MapMatches(m, children) && c in children
    ensures Through(m, c).Some? <==> Entry(c, Review) in m.entries && |m.queue| < m.mergeLimit
    ensures Through(m, c).Some? ==> Through(m, c).value.queue == m.queue
                                    && Entry(c, Integrated) in Through(m, c).value.entries
  {
    hide MapMatches, CountIntegrating, SetEntry, Ids;
    ChildHasEntry(m, children, c);
    var e := Find(m.entries, c).value;
    TheEntry(m, children, e);
    if e.state.Review? {
      MoveSets(m, children, c, Accepted);
      var a := ApplyMove(m, Move(c, Accepted)).value;
      MoveKeepsMap(m, children, Move(c, Accepted));
      ReviewIsIdle(m, children, e);
      assert a.queue == m.queue;
      AcceptedIsIdle(a, children, Entry(c, Accepted));
      IdleHasRoom(a, children, c);
      if ApplyMove(a, Move(c, Integrating)).Some? {
        MoveSets(a, children, c, Integrating);
        MoveKeepsMap(a, children, Move(c, Integrating));
        var b := ApplyMove(a, Move(c, Integrating)).value;
        MoveSets(b, children, c, Integrated);
        MoveKeepsMap(b, children, Move(c, Integrated));
        RemoveAppended(a.queue, c);
      }
    }
  }

  lemma ChildHasEntry(m: TaskMap, children: seq<Id>, c: Id)
    requires MapMatches(m, children) && c in children
    ensures Find(m.entries, c).Some?
  {
    HasEntryIff(m.entries, c);
  }

  lemma TheEntry(m: TaskMap, children: seq<Id>, e: Entry)
    requires MapMatches(m, children) && e in m.entries
    ensures forall state :: Entry(e.id, state) in m.entries <==> state == e.state
  {
    OneEntry(m.entries, e);
    assert e == Entry(e.id, e.state);
  }

  lemma ReviewIsIdle(m: TaskMap, children: seq<Id>, e: Entry)
    requires MapMatches(m, children) && e in m.entries && e.state.Review?
    ensures e.id !in m.queue
  {
    OneEntry(m.entries, e);
  }

  lemma IdleHasRoom(m: TaskMap, children: seq<Id>, c: Id)
    requires MapMatches(m, children) && c !in m.queue
    ensures CountIntegrating(m.entries, c) == |m.queue|
  {
    RoomInQueue(m, children, c);
  }

  /** After a move the child has the new state. */
  lemma MoveSets(m: TaskMap, children: seq<Id>, c: Id, state: State)
    requires MapMatches(m, children) && c in children && Find(m.entries, c).Some?
    ensures ApplyMove(m, Move(c, state)).Some? <==> MayEnter(m, Find(m.entries, c).value, state)
    ensures ApplyMove(m, Move(c, state)).Some? ==>
      Entry(c, state) in ApplyMove(m, Move(c, state)).value.entries
      && Find(ApplyMove(m, Move(c, state)).value.entries, c) == Some(Entry(c, state))
  {
    hide Ids, MayEnter, NextQueue;
    EntryHasId(m.entries, Find(m.entries, c).value);
    SetEntrySets(m.entries, c, state);
    var after := SetEntry(m.entries, c, state);
    assert Entry(c, state) in after;
    FindsOnly(after, Entry(c, state));
  }

  lemma FindsOnly(entries: seq<Entry>, e: Entry)
    requires DupFree(Ids(entries)) && e in entries
    ensures Find(entries, e.id) == Some(e)
  {
    OneEntry(entries, e);
    assert HasEntry(entries, e.id);
  }
}
