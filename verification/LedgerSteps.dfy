/** What one update and one workflow switch do to every path. */
module LedgerSteps {
  import opened Options
  import opened Ledger

  // ---- Sequences of writes ----

  lemma {:induction false} PutElsewhere(files: map<Path, string>, ts: seq<Template>, p: Path)
    requires forall t :: t in ts ==> t.path != p
    ensures Look(Put(files, ts), p) == Look(files, p)
    decreases |ts|
  {
    if ts != [] {
      PutElsewhere(files, ts[..|ts| - 1], p);
    }
  }

  lemma {:induction false} PutHere(files: map<Path, string>, ts: seq<Template>, t: Template)
    requires t in ts && forall u :: u in ts && u.path == t.path ==> u == t
    ensures Look(Put(files, ts), t.path) == Some(t.content)
    decreases |ts|
  {
    var n := |ts| - 1;
    assert forall u :: u in ts[..n] ==> u in ts;
    if ts[n] != t {
      assert ts == ts[..n] + [ts[n]];
      PutHere(files, ts[..n], t);
    }
  }

  lemma {:induction false} RecordElsewhere(hashes: map<Path, string>, r: Rules, ts: seq<Template>, p: Path)
    requires forall t :: t in ts ==> t.path != p
    ensures Look(Record(hashes, r, ts), p) == Look(hashes, p)
    decreases |ts|
  {
    if ts != [] {
      RecordElsewhere(hashes, r, ts[..|ts| - 1], p);
    }
  }

  lemma {:induction false} RecordHere(hashes: map<Path, string>, r: Rules, ts: seq<Template>, t: Template)
    requires t in ts && !r.untracked(t.path) && forall u :: u in ts && u.path == t.path ==> u == t
    ensures Look(Record(hashes, r, ts), t.path) == Some(Hash(r, t.content))
    decreases |ts|
  {
    hide Hash;
    var n := |ts| - 1;
    assert forall u :: u in ts[..n] ==> u in ts;
    if ts[n] != t {
      assert ts == ts[..n] + [ts[n]];
      RecordHere(hashes, r, ts[..n], t);
    }
  }

  lemma {:induction false} ResolvedSource(ts: seq<Template>, choose: Path -> Choice, w: Template)
    requires w in ResolvedAll(ts, choose)
    ensures (w in ts && choose(w.path).Overwrite?)
         || exists t :: t in ts && w.path == Beside(t.path)
    decreases |ts|
  {
    var n := |ts| - 1;
    if w in ResolvedAll(ts[..n], choose) {
      ResolvedSource(ts[..n], choose, w);
      assert forall t :: t in ts[..n] ==> t in ts;
    } else {
      assert w in Resolved(ts[n], choose(ts[n].path)) && ts[n] in ts;
    }
  }

  // ---- Line ends ----

  /** The hash sees a Windows line end as a plain one, wherever it stands. */
  lemma {:induction false} LfJoins(a: string, b: string)
    ensures Lf(a + "\r\n" + b) == Lf(a) + "\n" + Lf(b)
    decreases |a|
  {
    var t := a + "\r\n" + b;
    assert |t| == |a| + 2 + |b| && t[|a|] == '\r' && t[|a| + 1] == '\n';
    if a == [] {
      assert t[2..] == b;
      assert Lf(t) == ['\n'] + Lf(b);
    } else if |a| >= 2 && a[0] == '\r' && a[1] == '\n' {
      assert t[2..] == a[2..] + "\r\n" + b;
      LfJoins(a[2..], b);
    } else {
      assert t[1..] == a[1..] + "\r\n" + b;
      LfJoins(a[1..], b);
      assert |a| == 1 ==> t[1] == '\r';
    }
  }

  /** And nothing else: a text without Windows line ends is hashed as it is. */
  lemma {:induction false} LfKeeps(a: string)
    requires forall i :: 0 <= i < |a| - 1 ==> !(a[i] == '\r' && a[i + 1] == '\n')
    ensures Lf(a) == a
    decreases |a|
  {
    if a != [] {
      assert !(|a| >= 2 && a[0] == '\r' && a[1] == '\n');
      LfKeeps(a[1..]);
    }
  }

  // ---- One update ----

  /** Template paths are the keys of a map. */
  ghost predicate DistinctPaths(ts: seq<Template>)
  {
    forall t, u :: t in ts && u in ts && t.path == u.path ==> t == u
  }

  /** Distinct paths, none of which is that of a copy beside another. */
  ghost predicate IsRelease(ts: seq<Template>)
  {
    && DistinctPaths(ts)
    && (forall t :: t in ts ==> t.path != [])
    && (forall t, u :: t in ts && u in ts ==> Beside(t.path) != u.path)
  }

  lemma BesideTellsApart(p: Path, q: Path)
    requires p != [] && q != [] && Beside(p) == Beside(q)
    ensures p == q
  {
    var n := |p| - 1;
    assert Beside(p)[..n] == p[..n] && Beside(q)[..n] == q[..n];
    assert p[n] == Beside(p)[n][..|Beside(p)[n]| - |NEW_SUFFIX|] && q[n] == Beside(q)[n][..|Beside(q)[n]| - |NEW_SUFFIX|];
    assert p == p[..n] + [p[n]] && q == q[..n] + [q[n]];
  }

  lemma {:induction false} ResolvedHas(ts: seq<Template>, choose: Path -> Choice, w: Template)
    ensures w in ResolvedAll(ts, choose)
       <==> exists t :: t in ts && w in Resolved(t, choose(t.path))
    decreases |ts|
  {
    if ts != [] {
      var n := |ts| - 1;
      ResolvedHas(ts[..n], choose, w);
      assert ts == ts[..n] + [ts[n]];
    }
  }

  /** Where a write of an update comes from. */
  lemma WrittenIs(d: Installed, r: Rules, ts: seq<Template>, choose: Path -> Choice, w: Template)
    ensures w in Written(d, r, ts, choose)
       <==> || (w in ts && ChangeOf(d, r, w) in {New, AutoUpdate})
            || (exists t :: t in ts && ChangeOf(d, r, t).Changed? && w in Resolved(t, choose(t.path)))
  {
    hide ChangeOf, ResolvedAll, Resolved;
    ResolvedHas(Pick(d, r, ts, Changed), choose, w);
  }

  /** At the path of a template only that template is ever written, and beside it
      only its copy. */
  lemma WrittenAt(d: Installed, r: Rules, ts: seq<Template>, choose: Path -> Choice, t: Template, w: Template)
    requires IsRelease(ts) && t in ts && w in Written(d, r, ts, choose)
    ensures w.path == t.path ==>
      w == t && (ChangeOf(d, r, t) in {New, AutoUpdate} || (ChangeOf(d, r, t).Changed? && choose(t.path).Overwrite?))
    ensures w.path == Beside(t.path) ==>
      w.content == t.content && ChangeOf(d, r, t).Changed? && choose(t.path).CreateNew?
  {
    hide ChangeOf, Beside, Written;
    WrittenIs(d, r, ts, choose, w);
    if u :| u in ts && ChangeOf(d, r, u).Changed? && w in Resolved(u, choose(u.path)) {
      if w.path == Beside(t.path) && w.path == Beside(u.path) {
        BesideTellsApart(t.path, u.path);
      }
    }
  }

  /** Writes are found where they were made. */
  lemma PutFound(files: map<Path, string>, ts: seq<Template>, p: Path, c: string)
    requires exists w :: w in ts && w.path == p
    requires forall w :: w in ts && w.path == p ==> w.content == c
    ensures Look(Put(files, ts), p) == Some(c)
  {
    var w :| w in ts && w.path == p;
    assert forall u :: u in ts && u.path == p ==> u == w;
    PutHere(files, ts, w);
  }

  /** What becomes of the file and of its copy. */
  lemma FileAt(d: Installed, r: Rules, ts: seq<Template>, choose: Path -> Choice, t: Template)
    requires IsRelease(ts) && t in ts
    ensures var change, d' := ChangeOf(d, r, t), AfterUpdate(d, r, ts, choose);
      && Look(d'.files, t.path)
         == (if change in {New, AutoUpdate} || (change.Changed? && choose(t.path).Overwrite?) then Some(t.content)
             else Look(d.files, t.path))
      && Look(d'.files, Beside(t.path))
         == (if change.Changed? && choose(t.path).CreateNew? then Some(t.content) else Look(d.files, Beside(t.path)))
  {
    hide ChangeOf, Beside, Written, Put, Record, Hashed;
    var ws, change := Written(d, r, ts, choose), ChangeOf(d, r, t);
    forall w | w in ws
      ensures w.path == t.path ==> w == t && (change in {New, AutoUpdate} || (change.Changed? && choose(t.path).Overwrite?))
      ensures w.path == Beside(t.path) ==> w.content == t.content && change.Changed? && choose(t.path).CreateNew?
    {
      WrittenAt(d, r, ts, choose, t, w);
    }
    WrittenIs(d, r, ts, choose, t);
    if t in ws {
      PutFound(d.files, ws, t.path, t.content);
    } else {
      PutElsewhere(d.files, ws, t.path);
    }
    var copy := Template(Beside(t.path), t.content);
    WrittenIs(d, r, ts, choose, copy);
    if change.Changed? && choose(t.path).CreateNew? {
      assert copy in Resolved(t, choose(t.path));
      PutFound(d.files, ws, copy.path, t.content);
    } else {
      PutElsewhere(d.files, ws, copy.path);
    }
  }

  /** What becomes of the entry. */
  lemma EntryAt(d: Installed, r: Rules, ts: seq<Template>, choose: Path -> Choice, t: Template)
    requires IsRelease(ts) && t in ts
    ensures var change, d' := ChangeOf(d, r, t), AfterUpdate(d, r, ts, choose);
      Look(d'.hashes, t.path)
      == if !r.untracked(t.path)
            && (|| change in {New, AutoUpdate}
                || (change.Changed? && choose(t.path).Overwrite?)
                || (change.Unchanged? && !r.projected(t.path) && t.path !in d.hashes))
         then Some(Hash(r, t.content)) else Look(d.hashes, t.path)
  {
    hide Beside, Written, Put, Record, Hash;
    var hashed, change := Hashed(d, r, ts, choose), ChangeOf(d, r, t);
    FileAt(d, r, ts, choose, t);
    assert forall u :: u in hashed ==> u in ts;
    if r.untracked(t.path) {
      UntrackedStays(d.hashes, r, hashed, t.path);
    } else if t in hashed {
      RecordHere(d.hashes, r, hashed, t);
    } else {
      RecordElsewhere(d.hashes, r, hashed, t.path);
    }
  }

  lemma {:induction false} UntrackedStays(hashes: map<Path, string>, r: Rules, ts: seq<Template>, p: Path)
    requires r.untracked(p)
    ensures Look(Record(hashes, r, ts), p) == Look(hashes, p)
    decreases |ts|
  {
    if ts != [] {
      UntrackedStays(hashes, r, ts[..|ts| - 1], p);
    }
  }

  /** The entry of `p` becomes that of `content`, unless `p` is never hashed. */
  predicate Entered(d: Installed, r: Rules, p: Path, content: string, d': Installed)
  {
    Look(d'.hashes, p) == if r.untracked(p) then Look(d.hashes, p) else Some(Hash(r, content))
  }

  /** Neither the file at `p` nor its entry has changed. */
  predicate Stays(d: Installed, p: Path, d': Installed)
  {
    Look(d'.files, p) == Look(d.files, p) && Look(d'.hashes, p) == Look(d.hashes, p)
  }

  /** One update, path by path. A file that the user deleted stays away; one that
      was never there is installed; an untouched one is brought up to date; what
      happens to a modified one is for the user to choose. */
  lemma UpdateAt(d: Installed, r: Rules, ts: seq<Template>, choose: Path -> Choice, t: Template)
    requires IsRelease(ts) && t in ts
    ensures var p, d' := t.path, AfterUpdate(d, r, ts, choose);
      var file, entry := Look(d.files, p), Look(d.hashes, p);
      && (file.None? && entry.Some? ==> Stays(d, p, d'))
      && (file.None? && entry.None? ==> Look(d'.files, p) == Some(t.content) && Entered(d, r, p, t.content, d'))
      && (file == Some(t.content) ==>
            Look(d'.files, p) == file
            && (if entry.None? && !r.projected(p) then Entered(d, r, p, t.content, d') else Look(d'.hashes, p) == entry))
      && (file.Some? && file.value != t.content ==>
            if entry == Some(Hash(r, file.value)) || choose(p).Overwrite?
            then Look(d'.files, p) == Some(t.content) && Entered(d, r, p, t.content, d')
            else Stays(d, p, d'))
      && (Look(d'.files, Beside(p))
          == if file.Some? && file.value != t.content && entry != Some(Hash(r, file.value)) && choose(p).CreateNew?
             then Some(t.content) else Look(d.files, Beside(p)))
  {
    hide AfterUpdate, Hash, Beside;
    FileAt(d, r, ts, choose, t);
    EntryAt(d, r, ts, choose, t);
  }

  /** Every other path is left alone. */
  lemma UpdateElsewhere(d: Installed, r: Rules, ts: seq<Template>, choose: Path -> Choice, p: Path)
    requires forall t :: t in ts ==> t.path != p && Beside(t.path) != p
    ensures Stays(d, p, AfterUpdate(d, r, ts, choose))
  {
    hide ChangeOf, Beside, Written, Put, Record, Hash, ResolvedAll;
    forall w | w in Written(d, r, ts, choose)
      ensures w.path != p
    {
      WrittenIs(d, r, ts, choose, w);
    }
    PutElsewhere(d.files, Written(d, r, ts, choose), p);
    RecordElsewhere(d.hashes, r, Hashed(d, r, ts, choose), p);
  }

  // ---- One workflow switch ----

  /** The user allowed the workflow to be replaced, or has nothing to lose by it. */
  predicate MayReplace(d: Installed, r: Rules, s: Switch)
  {
    || Look(d.files, WORKFLOW).None?
    || Look(d.hashes, WORKFLOW) == Some(Hash(r, d.files[WORKFLOW]))
    || s.force
    || (s.asks && s.answer.Overwrite?)
  }

  /** A switch installs the selected workflow exactly when it may replace what is
      there, and then settles its entry; otherwise it touches neither. A copy is
      put beside it exactly when one was asked for. */
  lemma SwitchAt(d: Installed, r: Rules, s: Switch)
    ensures var d' := AfterSwitch(d, r, s);
      var before, after := Look(d.files, WORKFLOW), Look(d'.files, WORKFLOW);
      && (after == Some(s.content) <==> before == Some(s.content) || (!s.createNew && MayReplace(d, r, s)))
      && (if !s.createNew && after == Some(s.content)
          then Look(d'.hashes, WORKFLOW)
               == (if !s.native then None else if r.untracked(WORKFLOW) then Look(d.hashes, WORKFLOW)
                   else Some(Hash(r, s.content)))
          else Stays(d, WORKFLOW, d'))
      && (Look(d'.files, Beside(WORKFLOW))
          == if s.createNew || (after != Some(s.content) && s.asks && s.answer.CreateNew?)
             then Some(s.content) else Look(d.files, Beside(WORKFLOW)))
      && forall p :: p !in {WORKFLOW, Beside(WORKFLOW)} ==> Stays(d, p, d')
  {
    hide Hash;
  }
}
