/** Parent and Child tasks: the link recorded on both sides, and the Parent's map
    of its children's states with the queue of those being integrated. */
module TaskRelation {
  import opened Options

  type Id = string

  datatype State =
    Open | Working | Blocked | Review | Changes | Accepted | Integrating | Integrated | Cancelled

  datatype Record = Record(parent: Option<Id>, children: seq<Id>, planning: bool)

  datatype Entry = Entry(id: Id, state: State)

  datatype TaskMap = TaskMap(entries: seq<Entry>, queue: seq<Id>, mergeLimit: nat)

  datatype Tasks = Tasks(records: map<Id, Record>, maps: map<Id, TaskMap>)

  // ---- Lists ----

  predicate DupFree<T(==)>(s: seq<T>) { forall i, j :: 0 <= i < j < |s| ==> s[i] != s[j] }

  function Remove(s: seq<Id>, x: Id): (r: seq<Id>)
    ensures forall y :: y in r <==> y in s && y != x
    ensures DupFree(s) ==> DupFree(r)
    ensures |r| <= |s| && (x !in s ==> r == s)
  {
    if s == [] then []
    else
      var n := |s| - 1;
      assert s == s[..n] + [s[n]];
      assert DupFree(s) ==> DupFree(s[..n]) && s[n] !in s[..n];
      if s[n] == x then Remove(s[..n], x) else Remove(s[..n], x) + [s[n]]
  }

  /** `[...new Set(s)]` */
  function Dedup(s: seq<Id>): (r: seq<Id>)
    ensures forall y :: y in r <==> y in s
    ensures DupFree(r) && (DupFree(s) ==> r == s)
  {
    if s == [] then []
    else
      var n := |s| - 1;
      assert s == s[..n] + [s[n]];
      if s[n] in s[..n] then Dedup(s[..n]) else Dedup(s[..n]) + [s[n]]
  }

  // ---- The map ----

  predicate HasEntry(entries: seq<Entry>, id: Id) { exists e :: e in entries && e.id == id }

  function Find(entries: seq<Entry>, id: Id): (e: Option<Entry>)
    ensures e.Some? ==> e.value in entries && e.value.id == id
    ensures e.None? ==> !HasEntry(entries, id)
  {
    if entries == [] then None else if entries[0].id == id then Some(entries[0]) else Find(entries[1..], id)
  }

  function AddMissing(entries: seq<Entry>, ids: seq<Id>): seq<Entry>
    decreases |ids|
  {
    if ids == [] then entries
    else AddMissing(if HasEntry(entries, ids[0]) then entries else entries + [Entry(ids[0], Open)], ids[1..])
  }

  function KeepOnly(entries: seq<Entry>, ids: seq<Id>): seq<Entry>
  {
    if entries == [] then [] else (if entries[0].id in ids then [entries[0]] else []) + KeepOnly(entries[1..], ids)
  }

  const NEW_MAP := TaskMap([], [], 1)

  /** `ensureTaskMap` */
  function EnsureMap(m: Option<TaskMap>, children: seq<Id>): TaskMap
  {
    var base := m.GetOr(NEW_MAP);
    base.(entries := KeepOnly(AddMissing(base.entries, children), children))
  }

  function MapOf(t: Tasks, p: Id): Option<TaskMap> { if p in t.maps then Some(t.maps[p]) else None }

  // ---- The commands ----

  datatype Result = Result(tasks: Tasks, ok: bool)

  function WithChildren(t: Tasks, p: Id, children: seq<Id>): Tasks
    requires p in t.records
  {
    t.(records := t.records[p := t.records[p].(children := children)])
  }

  function WithParent(t: Tasks, c: Id, parent: Option<Id>): Tasks
    requires c in t.records
  {
    t.(records := t.records[c := t.records[c].(parent := parent)])
  }

  function WithMap(t: Tasks, p: Id): Tasks
    requires p in t.records
  {
    t.(maps := t.maps[p := EnsureMap(MapOf(t, p), t.records[p].children)])
  }

  predicate IsLinked(t: Tasks, p: Id, c: Id)
  {
    p in t.records && c in t.records && c in t.records[p].children && t.records[c].parent == Some(p)
  }

  predicate MayLink(t: Tasks, p: Id, c: Id)
  {
    && p != c && p in t.records && c in t.records
    && (t.records[c].parent.None? || t.records[c].parent == Some(p))
    && t.records[p].parent != Some(c) && p !in t.records[c].children
    && t.records[p].planning && t.records[c].planning
  }

  /** `linkChild`; `secondOk` says whether the write to the child succeeds. */
  function Link(t: Tasks, p: Id, c: Id, secondOk: bool): Result
  {
    if !MayLink(t, p, c) then Result(t, false)
    else if IsLinked(t, p, c) then Result(t, true)
    else
      var first := WithChildren(t, p, Dedup(t.records[p].children + [c]));
      if !secondOk then Result(WithChildren(first, p, t.records[p].children), false)
      else Result(WithMap(WithParent(first, c, Some(p)), p), true)
  }

  predicate MayUnlink(t: Tasks, p: Id, c: Id)
  {
    && IsLinked(t, p, c) && t.records[p].planning && t.records[c].planning
    && (MapOf(t, p).Some? && Find(t.maps[p].entries, c).Some? ==> Find(t.maps[p].entries, c).value.state.Open?)
  }

  /** `unlinkChild`; here the write to the parent comes second, and nothing is
      rolled back when it fails. */
  function Unlink(t: Tasks, p: Id, c: Id, secondOk: bool): Result
  {
    if !MayUnlink(t, p, c) then Result(t, false)
    else
      var first := WithParent(t, c, None);
      if !secondOk then Result(first, false)
      else Result(WithMap(WithChildren(first, p, Remove(first.records[p].children, c)), p), true)
  }

  function CountIntegrating(entries: seq<Entry>, except: Id): nat
  {
    if entries == [] then 0
    else (if entries[0].id != except && entries[0].state.Integrating? then 1 else 0) + CountIntegrating(entries[1..], except)
  }

  /** The part of `childStateErrors` that looks at the map. */
  predicate MayEnter(m: TaskMap, e: Entry, state: State)
  {
    && (state.Accepted? || state.Changes? ==> e.state.Review?)
    && (state.Integrating? ==> e.state.Accepted? && CountIntegrating(m.entries, e.id) < m.mergeLimit)
    && (state.Integrated? ==> e.state.Integrating?)
  }

  function SetEntry(entries: seq<Entry>, id: Id, state: State): (r: seq<Entry>)
    ensures |r| == |entries|
  {
    if entries == [] then []
    else if entries[0].id == id then [Entry(id, state)] + entries[1..]
    else [entries[0]] + SetEntry(entries[1..], id, state)
  }

  function NextQueue(queue: seq<Id>, id: Id, state: State): seq<Id>
  {
    if !state.Integrating? then Remove(queue, id) else if id in queue then queue else queue + [id]
  }

  /** `updateChildState`; `otherChecks` stands for evidence, references and
      dependencies. */
  function SetState(t: Tasks, p: Id, c: Id, state: State, otherChecks: bool): Result
  {
    if !IsLinked(t, p, c) || !otherChecks || MapOf(t, p).None? then Result(t, false)
    else
      var m := t.maps[p];
      match Find(m.entries, c)
      case None => Result(t, false)
      case Some(e) =>
        if !MayEnter(m, e, state) then Result(t, false)
        else
          Result(t.(maps := t.maps[p := m.(entries := SetEntry(m.entries, c, state),
                                           queue := NextQueue(m.queue, c, state))]), true)
  }

  // ---- The program ----

  class TaskStore {
    var records: map<Id, Record>
    var maps: map<Id, TaskMap>

    constructor ()
      ensures Snapshot() == Tasks(map[], map[])
    {
      records, maps := map[], map[];
    }

    function Snapshot(): Tasks
      reads this
    {
      Tasks(records, maps)
    }

    method PatchChildren(p: Id, children: seq<Id>)
      requires p in records
      modifies this
      ensures Snapshot() == WithChildren(old(Snapshot()), p, children)
    {
      records := records[p := records[p].(children := children)];
    }

    method PatchParent(c: Id, parent: Option<Id>)
      requires c in records
      modifies this
      ensures Snapshot() == WithParent(old(Snapshot()), c, parent)
    {
      records := records[c := records[c].(parent := parent)];
    }

    /** `ensureTaskMap` */
    method EnsureTaskMap(p: Id)
      requires p in records
      modifies this
      ensures Snapshot() == WithMap(old(Snapshot()), p)
    {
      var next := if p in maps then maps[p] else NEW_MAP;
      var children := records[p].children;
      var entries := next.entries;
      for i := 0 to |children|
        invariant records == old(records) && maps == old(maps)
        invariant AddMissing(entries, children[i..]) == AddMissing(next.entries, children)
      {
        if !HasEntry(entries, children[i]) {
          entries := entries + [Entry(children[i], Open)];
        }
        assert children[i..][1..] == children[i + 1..];
      }
      maps := maps[p := next.(entries := KeepOnly(entries, children))];
    }

    /** `linkChild`: a failing second write undoes the first. */
    method LinkChild(p: Id, c: Id, secondOk: bool) returns (ok: bool)
      modifies this
      ensures Result(Snapshot(), ok) == Link(old(Snapshot()), p, c, secondOk)
    {
      if !MayLink(Snapshot(), p, c) {
        return false;
      }
      if IsLinked(Snapshot(), p, c) {
        return true;
      }
      var before := records[p].children;
      PatchChildren(p, Dedup(before + [c]));
      if !secondOk {
        PatchChildren(p, before);
        return false;
      }
      PatchParent(c, Some(p));
      EnsureTaskMap(p);
      ok := true;
    }

    /** `unlinkChild`: a failing second write undoes nothing. */
    method UnlinkChild(p: Id, c: Id, secondOk: bool) returns (ok: bool)
      modifies this
      ensures Result(Snapshot(), ok) == Unlink(old(Snapshot()), p, c, secondOk)
    {
      if !MayUnlink(Snapshot(), p, c) {
        return false;
      }
      PatchParent(c, None);
      if !secondOk {
        return false;
      }
      PatchChildren(p, Remove(records[p].children, c));
      EnsureTaskMap(p);
      ok := true;
    }

    /** The part of `updateChildState` that changes the map. */
    method UpdateChildState(p: Id, c: Id, state: State, otherChecks: bool) returns (ok: bool)
      modifies this
      ensures Result(Snapshot(), ok) == SetState(old(Snapshot()), p, c, state, otherChecks)
    {
      if !IsLinked(Snapshot(), p, c) || !otherChecks || p !in maps {
        return false;
      }
      var data := maps[p];
      var entry := Find(data.entries, c);
      if entry.None? || !MayEnter(data, entry.value, state) {
        return false;
      }
      var queue := data.queue;
      if state.Integrating? && c !in queue {
        queue := queue + [c];
      } else if !state.Integrating? {
        queue := Remove(queue, c);
      }
      maps := maps[p := data.(entries := SetEntry(data.entries, c, state), queue := queue)];
      ok := true;
    }
  }
}
