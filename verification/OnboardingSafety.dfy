/** Safety of `pactile init` over every sequence of runs cut off by crashes. */
module OnboardingSafety {
  import opened JsText
  import opened InitMarker
  import opened Options
  import opened Onboarding

  /** When a write may be made: no file of a user is overwritten, an intent or a
      finished task backs every identity of a joiner, and only finished tasks
      are published. */
  ghost predicate Allowed(d: Disk, w: Write, slug: Text -> Text)
  {
    match w
    case WriteMarker(task, content) =>
      && ReadMarker(task, content, slug).Some?
      && (task in d.markers ==> MarkerAt(d, task, slug) == Some(Anonymous))
    case RemoveMarker(task) => HasMarker(d, task, slug) && IsComplete(d, task)
    case WriteIdentity(content, origin) =>
      && d.identity.None?
      && (origin.WrittenByJoiner? ==> HasMarker(d, Join(slug(origin.name)), slug))
    case MakeStagingRoot => !d.stagingRoot
    case MakeStaging(id) => id == d.temp
    case FillStaging(id, _) => id in d.staging
    case Publish(id, task) => id in d.staging && d.staging[id].Complete? && task !in d.tasks
    case _ => true
  }

  predicate IsComplete(d: Disk, task: TaskName) { task in d.tasks && d.tasks[task].Complete? }

  ghost predicate AllAllowed(d: Disk, ws: seq<Write>, slug: Text -> Text)
    decreases |ws|
  {
    ws == [] || (Allowed(d, ws[0], slug) && AllAllowed(Step(d, ws[0]), ws[1..], slug))
  }

  lemma {:induction false} AllAllowedConcat(d: Disk, a: seq<Write>, b: seq<Write>, slug: Text -> Text)
    ensures AllAllowed(d, a + b, slug) <==> AllAllowed(d, a, slug) && AllAllowed(Apply(d, a), b, slug)
    decreases |a|
  {
    if a == [] {
      assert a + b == b;
    } else {
      assert (a + b)[1..] == a[1..] + b;
      AllAllowedConcat(Step(d, a[0]), a[1..], b, slug);
    }
  }

  lemma Sequenced(d: Disk, a: seq<Write>, b: seq<Write>, slug: Text -> Text)
    requires AllAllowed(d, a, slug) && AllAllowed(Apply(d, a), b, slug)
    ensures AllAllowed(d, a + b, slug)
    ensures Apply(d, a + b) == Apply(Apply(d, a), b)
  {
    AllAllowedConcat(d, a, b, slug);
    ApplyConcat(d, a, b);
  }

  /** mkdtemp never returns a name in use. */
  predicate FreshTemp(d: Disk) { forall id :: id in d.staging ==> id < d.temp }

  // ---- Each step of a run makes only allowed writes ----

  lemma NoWrites(d: Disk, slug: Text -> Text)
    ensures AllAllowed(d, [], slug) && Apply(d, []) == d
  {
  }

  lemma OneWrite(d: Disk, w: Write, slug: Text -> Text)
    ensures AllAllowed(d, [w], slug) == Allowed(d, w, slug)
    ensures Apply(d, [w]) == Step(d, w)
  {
    assert [w][1..] == [];
  }

  /** Announcing writes at most the marker of that task. */
  lemma EnsureMarkerWrites(d: Disk, task: TaskName, developer: Text, slug: Text -> Text)
    ensures var e := EnsureMarker(d, task, developer, slug);
      e.writes == [] || e.writes == [WriteMarker(task, MarkerContent(task, developer, slug))]
    ensures Apply(d, EnsureMarker(d, task, developer, slug).writes)
         == d.(markers := if EnsureMarker(d, task, developer, slug).writes == [] then d.markers
                          else d.markers[task := MarkerContent(task, developer, slug)])
  {
    OneWrite(d, WriteMarker(task, MarkerContent(task, developer, slug)), slug);
  }

  /** It never replaces a marker that is not the anonymous one. */
  lemma EnsureMarkerAllowed(d: Disk, task: TaskName, developer: Text, slug: Text -> Text)
    ensures AllAllowed(d, EnsureMarker(d, task, developer, slug).writes, slug)
  {
    EnsureMarkerWrites(d, task, developer, slug);
    MarkerRoundTrip(task, developer, slug);
    OneWrite(d, WriteMarker(task, MarkerContent(task, developer, slug)), slug);
  }

  /** What an announcement leaves: after success a marker for `developer`, named
      if the format can carry the name; a valid marker stays valid. */
  lemma EnsureMarkerEffect(d: Disk, task: TaskName, developer: Text, slug: Text -> Text)
    ensures var e := EnsureMarker(d, task, developer, slug);
      e.ok ==> HasMarker(Apply(d, e.writes), task, slug)
    ensures var e := EnsureMarker(d, task, developer, slug);
      e.ok && developer != [] && NameFits(Trim(developer), task, slug)
      ==> MarkerAt(Apply(d, e.writes), task, slug) == Some(Named(Trim(developer)))
    ensures HasMarker(d, task, slug)
      ==> HasMarker(Apply(d, EnsureMarker(d, task, developer, slug).writes), task, slug)
    ensures HasMarker(d, task, slug) && developer == []
      ==> EnsureMarker(d, task, developer, slug) == Effect(true, [])
  {
    EnsureMarkerWrites(d, task, developer, slug);
    MarkerRoundTrip(task, developer, slug);
  }

  lemma ClearMarkerEffect(d: Disk, task: TaskName, slug: Text -> Text)
    requires IsComplete(d, task)
    ensures AllAllowed(d, ClearMarker(d, task, slug), slug)
    ensures Apply(d, ClearMarker(d, task, slug))
         == if HasMarker(d, task, slug) then d.(markers := d.markers - {task}) else d
  {
    OneWrite(d, RemoveMarker(task), slug);
    NoWrites(d, slug);
  }

  lemma InitializeEffect(d: Disk, developer: Text, origin: Origin, stamp: Text, writable: bool, slug: Text -> Text)
    requires d.identity.Some? ==> Persisted(d).Some? || !IsSegment(Trim(developer))
    requires origin.WrittenByJoiner? && d.identity.None? ==> HasMarker(d, Join(slug(origin.name)), slug)
    ensures var ws := InitializeDeveloper(d, developer, origin, stamp, writable);
            && AllAllowed(d, ws, slug)
            && Apply(d, ws) == d.(identity := Apply(d, ws).identity)
            && (d.identity.Some? ==> ws == [])
            && (d.identity.None? && IsSegment(Trim(developer)) && writable
                ==> Apply(d, ws).identity == Some(Identity(IdentityText(Trim(developer), stamp), origin)))
  {
    OneWrite(d, WriteIdentity(IdentityText(Trim(developer), stamp), origin), slug);
    NoWrites(d, slug);
  }

  /** The disk with a task half built aside. */
  function Staged(d: Disk): Disk
  {
    d.(stagingRoot := true, staging := d.staging[d.temp := PrdOnly], temp := d.temp + 1)
  }

  lemma StageEffect(d: Disk, slug: Text -> Text)
    requires FreshTemp(d)
    ensures AllAllowed(d, StageWrites(d), slug)
    ensures Apply(d, StageWrites(d)) == Staged(d)
  {
    var root := if d.stagingRoot then [] else [MakeStagingRoot];
    var d0 := d.(stagingRoot := true);
    OneWrite(d, MakeStagingRoot, slug);
    NoWrites(d, slug);
    TwoWrites(d0, MakeStaging(d.temp), FillStaging(d.temp, PrdOnly), slug);
    AllAllowedConcat(d, root, [MakeStaging(d.temp), FillStaging(d.temp, PrdOnly)], slug);
    ApplyConcat(d, root, [MakeStaging(d.temp), FillStaging(d.temp, PrdOnly)]);
  }

  lemma TwoWrites(d: Disk, v: Write, w: Write, slug: Text -> Text)
    ensures AllAllowed(d, [v, w], slug) <==> Allowed(d, v, slug) && Allowed(Step(d, v), w, slug)
    ensures Apply(d, [v, w]) == Step(Step(d, v), w)
  {
    assert [v, w][1..] == [w];
    OneWrite(Step(d, v), w, slug);
  }

  lemma TidyEffect(d: Disk, d': Disk, slug: Text -> Text)
    ensures AllAllowed(d', TidyWrites(d), slug)
    ensures Apply(d', TidyWrites(d)) == d'.(stagingRoot := d'.stagingRoot && TidyWrites(d) == [])
  {
    OneWrite(d', RemoveStagingRoot, slug);
    NoWrites(d', slug);
  }

  lemma PublishEffect(d: Disk, task: TaskName, slug: Text -> Text)
    requires FreshTemp(d) && task !in d.tasks
    ensures AllAllowed(Staged(d), PublishWrites(d, task, slug), slug)
    ensures Apply(Staged(d), PublishWrites(d, task, slug))
         == d.(stagingRoot := true, temp := d.temp + 1, tasks := d.tasks[task := Complete],
               markers := if HasMarker(d, task, slug) then d.markers - {task} else d.markers)
  {
    var s := Staged(d);
    var v, w := FillStaging(d.temp, Complete), Publish(d.temp, task);
    var d' := Step(Step(s, v), w);
    TwoWrites(s, v, w, slug);
    assert s.staging[d.temp := Complete] - {d.temp} == d.staging;
    assert d'.markers == d.markers;
    ClearMarkerEffect(d', task, slug);
    AllAllowedConcat(s, [v, w], ClearMarker(d, task, slug), slug);
    ApplyConcat(s, [v, w], ClearMarker(d, task, slug));
  }

  lemma EnsureMarkerSeesMarkersOnly(d: Disk, d': Disk, task: TaskName, developer: Text, slug: Text -> Text)
    requires d.markers == d'.markers
    ensures EnsureMarker(d, task, developer, slug) == EnsureMarker(d', task, developer, slug)
  {
  }

  lemma AbandonAllowed(d: Disk, task: TaskName, slug: Text -> Text)
    ensures AllAllowed(Staged(d), AbandonWrites(d, task, slug), slug)
    ensures Apply(Staged(d), AbandonWrites(d, task, slug))
         == Step(Apply(Staged(d), EnsureMarker(d, task, [], slug).writes), RemoveStaging(d.temp))
  {
    EnsureMarkerSeesMarkersOnly(Staged(d), d, task, [], slug);
    EnsureMarkerAllowed(Staged(d), task, [], slug);
    AppendRemoval(Staged(d), EnsureMarker(d, task, [], slug).writes, d.temp, slug);
  }

  lemma StagingLeavesNoTrace(d: Disk, ws: seq<Write>, task: TaskName, content: Text)
    requires FreshTemp(d)
    requires ws == [] || ws == [WriteMarker(task, content)]
    ensures Step(Apply(Staged(d), ws), RemoveStaging(d.temp))
         == Apply(d, ws).(stagingRoot := true, temp := d.temp + 1)
  {
    assert Staged(d).staging - {d.temp} == d.staging;
    if ws != [] {
      assert ws[1..] == [];
    }
  }

  lemma AbandonEffect(d: Disk, task: TaskName, slug: Text -> Text)
    requires FreshTemp(d)
    ensures Apply(Staged(d), AbandonWrites(d, task, slug))
         == Apply(d, EnsureMarker(d, task, [], slug).writes).(stagingRoot := true, temp := d.temp + 1)
  {
    AbandonAllowed(d, task, slug);
    EnsureMarkerWrites(d, task, [], slug);
    StagingLeavesNoTrace(d, EnsureMarker(d, task, [], slug).writes, task, MarkerContent(task, [], slug));
  }

  lemma AppendRemoval(d: Disk, ws: seq<Write>, id: nat, slug: Text -> Text)
    requires AllAllowed(d, ws, slug)
    ensures AllAllowed(d, ws + [RemoveStaging(id)], slug)
    ensures Apply(d, ws + [RemoveStaging(id)]) == Step(Apply(d, ws), RemoveStaging(id))
  {
    OneWrite(Apply(d, ws), RemoveStaging(id), slug);
    AllAllowedConcat(d, ws, [RemoveStaging(id)], slug);
    ApplyConcat(d, ws, [RemoveStaging(id)]);
  }

  /** The disk after `writeTaskSkeleton`, uninterrupted. */
  function AfterSkeleton(d: Disk, task: TaskName, kernelOk: bool, slug: Text -> Text): Disk
  {
    if IsComplete(d, task) || (task !in d.tasks && kernelOk) then
      d.(tasks := d.tasks[task := Complete],
         markers := if HasMarker(d, task, slug) then d.markers - {task} else d.markers)
    else Apply(d, EnsureMarker(d, task, [], slug).writes)
  }

  lemma StagedThenTidied(d: Disk, rest: seq<Write>, slug: Text -> Text)
    requires FreshTemp(d) && AllAllowed(Staged(d), rest, slug)
    ensures var ws := StageWrites(d) + (rest + TidyWrites(d));
      var d' := Apply(Staged(d), rest);
      && AllAllowed(d, ws, slug)
      && Apply(d, ws) == d'.(stagingRoot := d'.stagingRoot && TidyWrites(d) == [])
  {
    StageEffect(d, slug);
    TidyEffect(d, Apply(Staged(d), rest), slug);
    Sequenced(Staged(d), rest, TidyWrites(d), slug);
    Sequenced(d, StageWrites(d), rest + TidyWrites(d), slug);
  }

  /** What a run of `writeTaskSkeleton` changes besides its own staging area. */
  ghost predicate SkeletonResult(d: Disk, task: TaskName, kernelOk: bool, slug: Text -> Text, d': Disk)
  {
    && d' == AfterSkeleton(d, task, kernelOk, slug).(stagingRoot := d'.stagingRoot, temp := d'.temp)
    && d.temp <= d'.temp
  }

  lemma NewTaskEffect(d: Disk, task: TaskName, kernelOk: bool, slug: Text -> Text)
    requires FreshTemp(d) && task !in d.tasks
    ensures var ws := Skeleton(d, task, kernelOk, slug).writes;
      AllAllowed(d, ws, slug) && SkeletonResult(d, task, kernelOk, slug, Apply(d, ws))
  {
    if kernelOk {
      PublishEffect(d, task, slug);
      StagedThenTidied(d, PublishWrites(d, task, slug), slug);
    } else {
      AbandonAllowed(d, task, slug);
      AbandonEffect(d, task, slug);
      EnsureMarkerWrites(d, task, [], slug);
      StagedThenTidied(d, AbandonWrites(d, task, slug), slug);
    }
  }

  lemma SkeletonEffect(d: Disk, task: TaskName, kernelOk: bool, slug: Text -> Text)
    requires FreshTemp(d)
    ensures var ws := Skeleton(d, task, kernelOk, slug).writes;
      AllAllowed(d, ws, slug) && SkeletonResult(d, task, kernelOk, slug, Apply(d, ws))
  {
    if task !in d.tasks {
      NewTaskEffect(d, task, kernelOk, slug);
    } else if IsComplete(d, task) {
      ClearMarkerEffect(d, task, slug);
      assert d.tasks[task := Complete] == d.tasks;
    } else {
      EnsureMarkerAllowed(d, task, [], slug);
      EnsureMarkerWrites(d, task, [], slug);
    }
  }

  // ---- Whole runs make only allowed writes ----

  /** Rewriting an identity file that names nobody is out of reach. */
  ghost predicate IdentityGuard(d: Disk, developer: Text)
  {
    d.identity.Some? ==> Persisted(d).Some? || !IsSegment(Trim(developer))
  }

  lemma JoinAllowed(d: Disk, developer: Text, req: Request, out: Outcome, slug: Text -> Text)
    requires IsSlugger(slug) && FreshTemp(d) && IdentityGuard(d, developer)
    requires HasMarker(d, Join(slug(developer)), slug)
    ensures AllAllowed(d, JoinWrites(d, developer, req, out, slug), slug)
  {
    var origin := WrittenByJoiner(Trim(developer));
    assert slug(Trim(developer)) == slug(developer);
    InitializeEffect(d, developer, origin, req.stamp, out.identityWritable, slug);
    var identity := InitializeDeveloper(d, developer, origin, req.stamp, out.identityWritable);
    var d' := Apply(d, identity);
    SkeletonEffect(d', Join(slug(developer)), out.kernelOk, slug);
    Sequenced(d, identity, Skeleton(d', Join(slug(developer)), out.kernelOk, slug).writes, slug);
  }

  lemma AnnounceAndJoinAllowed(d: Disk, developer: Text, req: Request, out: Outcome, slug: Text -> Text)
    requires IsSlugger(slug) && FreshTemp(d) && IdentityGuard(d, developer)
    ensures AllAllowed(d, AnnounceAndJoin(d, developer, req, out, slug), slug)
  {
    var task := Join(slug(developer));
    var intent := EnsureMarker(d, task, developer, slug);
    EnsureMarkerAllowed(d, task, developer, slug);
    EnsureMarkerEffect(d, task, developer, slug);
    EnsureMarkerWrites(d, task, developer, slug);
    if intent.ok {
      var d' := Apply(d, intent.writes);
      JoinAllowed(d', developer, req, out, slug);
      Sequenced(d, intent.writes, JoinWrites(d', developer, req, out, slug), slug);
    }
  }

  lemma BootstrapAllowed(d: Disk, developer: Text, req: Request, out: Outcome, slug: Text -> Text)
    requires FreshTemp(d) && IdentityGuard(d, developer)
    ensures AllAllowed(d, BootstrapWrites(d, developer, req, out, slug), slug)
  {
    InitializeEffect(d, developer, Written, req.stamp, out.identityWritable, slug);
    var identity := InitializeDeveloper(d, developer, Written, req.stamp, out.identityWritable);
    var d' := Apply(d, identity);
    SkeletonEffect(d', Bootstrap, out.kernelOk, slug);
    Sequenced(d, identity, Skeleton(d', Bootstrap, out.kernelOk, slug).writes, slug);
  }

  lemma RootEffect(d: Disk, out: Outcome, slug: Text -> Text)
    ensures AllAllowed(d, RootWrites(d, out), slug)
    ensures Apply(d, RootWrites(d, out)) == d.(root := d.root || !out.lifecycle.Failed?)
  {
    OneWrite(d, CreateRoot, slug);
    NoWrites(d, slug);
  }

  lemma FullAllowed(d: Disk, req: Request, developer: Text, out: Outcome, slug: Text -> Text)
    requires IsSlugger(slug) && FreshTemp(d) && IdentityGuard(d, developer)
    ensures AllAllowed(d, FullWrites(d, req, developer, out, slug), slug)
  {
    var start := RootWrites(d, out);
    var d' := Apply(d, start);
    RootEffect(d, out, slug);
    if !out.lifecycle.Committed? || developer == [] {
    } else if CreatesBootstrap(d, developer, slug) {
      BootstrapAllowed(d', developer, req, out, slug);
      Sequenced(d, start, BootstrapWrites(d', developer, req, out, slug), slug);
    } else if CreatesJoiner(d, developer, slug) {
      AnnounceAndJoinAllowed(d', developer, req, out, slug);
      Sequenced(d, start, AnnounceAndJoin(d', developer, req, out, slug), slug);
    } else {
      var identity := InitializeDeveloper(d', developer, Written, req.stamp, out.identityWritable);
      InitializeEffect(d', developer, Written, req.stamp, out.identityWritable, slug);
      Sequenced(d, start, identity, slug);
    }
  }

  lemma ReinitAllowed(d: Disk, req: Request, developer: Text, out: Outcome, slug: Text -> Text)
    requires IsSlugger(slug) && FreshTemp(d) && IdentityGuard(d, developer)
    ensures AllAllowed(d, ReinitWrites(d, req, developer, out, slug), slug)
  {
    if (req.platforms && !out.lifecycle.Committed?) || req.user == [] {
    } else if d.identity.Some? {
      InitializeEffect(d, developer, Written, req.stamp, out.identityWritable, slug);
    } else {
      AnnounceAndJoinAllowed(d, developer, req, out, slug);
    }
  }

  /** Every write of every run is allowed. */
  lemma RunAllowed(d: Disk, req: Request, out: Outcome, slug: Text -> Text)
    requires IsSlugger(slug) && FreshTemp(d)
    ensures AllAllowed(d, RunWrites(d, req, out, slug), slug)
  {
    if Resolve(d, req, slug).Go? {
      var developer := Resolve(d, req, slug).developer;
      if TakesReinit(d, req, developer, slug) {
        ReinitAllowed(d, req, developer, out, slug);
      } else {
        FullAllowed(d, req, developer, out, slug);
      }
    }
  }

  // ---- What allowed writes keep ----

  /** An identity written by a joiner run is backed by a valid marker or by the
      finished onboarding task. */
  ghost predicate Backed(d: Disk, slug: Text -> Text)
  {
    d.identity.Some? && d.identity.value.origin.WrittenByJoiner? ==>
      var task := Join(slug(d.identity.value.origin.name));
      HasMarker(d, task, slug) || IsComplete(d, task)
  }

  /** Every unfinished task directory was already there, unfinished, in `d0`. */
  ghost predicate NoNewPartial(d0: Disk, d: Disk)
  {
    forall task :: task in d.tasks && !d.tasks[task].Complete? ==> task in d0.tasks && d0.tasks[task] == d.tasks[task]
  }

  /** No identity and no task directory that was there is lost or changed. */
  ghost predicate KeepsUserFiles(d0: Disk, d: Disk)
  {
    && (d0.identity.Some? ==> d.identity == d0.identity)
    && (forall task :: task in d0.tasks ==> task in d.tasks && d.tasks[task] == d0.tasks[task])
  }

  /** A marker that does not read as one stays as it is; one that names somebody
      stays until the task is finished. */
  ghost predicate KeepsMarkers(d0: Disk, d: Disk, slug: Text -> Text)
  {
    forall task :: task in d0.markers && MarkerAt(d0, task, slug) != Some(Anonymous) ==>
      || (task in d.markers && d.markers[task] == d0.markers[task])
      || (HasMarker(d0, task, slug) && IsComplete(d, task))
  }

  lemma StepKeepsTemp(d: Disk, w: Write, slug: Text -> Text)
    requires Allowed(d, w, slug) && FreshTemp(d)
    ensures FreshTemp(Step(d, w))
  {
  }

  lemma StepKeepsBacked(d: Disk, w: Write, slug: Text -> Text)
    requires Allowed(d, w, slug) && Backed(d, slug)
    ensures Backed(Step(d, w), slug)
  {
  }

  lemma StepKeepsUserFiles(d0: Disk, d: Disk, w: Write, slug: Text -> Text)
    requires Allowed(d, w, slug) && KeepsUserFiles(d0, d)
    ensures KeepsUserFiles(d0, Step(d, w))
  {
  }

  lemma StepKeepsMarkers(d0: Disk, d: Disk, w: Write, slug: Text -> Text)
    requires Allowed(d, w, slug) && KeepsMarkers(d0, d, slug)
    ensures KeepsMarkers(d0, Step(d, w), slug)
  {
    var d' := Step(d, w);
    forall task | task in d0.markers && MarkerAt(d0, task, slug) != Some(Anonymous)
      ensures (task in d'.markers && d'.markers[task] == d0.markers[task])
           || (HasMarker(d0, task, slug) && IsComplete(d', task))
    {
      assert IsComplete(d, task) ==> IsComplete(d', task);
      if task in d.markers && d.markers[task] == d0.markers[task] {
        assert MarkerAt(d, task, slug) == MarkerAt(d0, task, slug);
      }
    }
  }

  /** All that allowed writes keep, relative to a starting disk `d0`. */
  ghost predicate Kept(d0: Disk, d: Disk, slug: Text -> Text)
  {
    FreshTemp(d) && Backed(d, slug) && NoNewPartial(d0, d) && KeepsUserFiles(d0, d) && KeepsMarkers(d0, d, slug)
  }

  lemma {:induction false} WritesKeep(d0: Disk, d: Disk, ws: seq<Write>, slug: Text -> Text)
    requires AllAllowed(d, ws, slug) && Kept(d0, d, slug)
    ensures Kept(d0, Apply(d, ws), slug)
    decreases |ws|
  {
    if ws != [] {
      StepKeepsTemp(d, ws[0], slug);
      StepKeepsBacked(d, ws[0], slug);
      StepKeepsUserFiles(d0, d, ws[0], slug);
      StepKeepsMarkers(d0, d, ws[0], slug);
      WritesKeep(d0, Step(d, ws[0]), ws[1..], slug);
    }
  }

  lemma CutAllowed(d: Disk, ws: seq<Write>, n: nat, slug: Text -> Text)
    requires AllAllowed(d, ws, slug)
    ensures AllAllowed(d, Cut(ws, n), slug)
  {
    if n <= |ws| {
      assert ws == ws[..n] + ws[n..];
      AllAllowedConcat(d, ws[..n], ws[n..], slug);
    }
  }

  /** Crash safety: after any sequence of runs, each cut off between any two
      writes and with any outcome of its external steps, an identity that a
      joiner run wrote is backed by its marker or its finished task, no task
      directory was published unfinished, and no identity, task, foreign or
      malformed marker that was there before has been touched. */
  lemma CrashSafety(d: Disk, runs: seq<CutRun>, slug: Text -> Text)
    requires IsSlugger(slug) && FreshTemp(d) && Backed(d, slug)
    ensures Backed(AfterRuns(d, runs, slug), slug)
    ensures NoNewPartial(d, AfterRuns(d, runs, slug))
    ensures KeepsUserFiles(d, AfterRuns(d, runs, slug))
    ensures KeepsMarkers(d, AfterRuns(d, runs, slug), slug)
  {
    CrashSafetyFrom(d, d, runs, slug);
  }

  lemma {:induction false} CrashSafetyFrom(d0: Disk, d: Disk, runs: seq<CutRun>, slug: Text -> Text)
    requires IsSlugger(slug) && Kept(d0, d, slug)
    ensures Kept(d0, AfterRuns(d, runs, slug), slug)
    decreases |runs|
  {
    if runs != [] {
      var ws := RunWrites(d, runs[0].req, runs[0].out, slug);
      RunAllowed(d, runs[0].req, runs[0].out, slug);
      CutAllowed(d, ws, runs[0].writes, slug);
      WritesKeep(d0, d, Cut(ws, runs[0].writes), slug);
      CrashSafetyFrom(d0, AfterRun(d, runs[0], slug), runs[1..], slug);
    }
  }

  // ---- One name per run ----

  /** `name` contradicts neither a readable identity nor a marker that names somebody. */
  ghost predicate NameAgrees(d: Disk, name: Text, slug: Text -> Text)
  {
    && (Persisted(d).Some? ==> Persisted(d).value == name)
    && forall task, other ::
         task in d.markers && task.Join? && MarkerAt(d, task, slug) == Some(Named(other)) ==> other == name
  }

  /** The sources a run may take its name from. */
  ghost predicate NameSource(d: Disk, req: Request, name: Text, slug: Text -> Text)
  {
    || name == Requested(req)
    || Persisted(d) == Some(name)
    || (Persisted(d).None? && PendingName(d, slug) == Some(name))
  }

  lemma SourcedNameAgrees(d: Disk, req: Request, name: Text, slug: Text -> Text)
    requires !Irreconcilable(d, req, slug) && NameSource(d, req, name, slug)
    requires name != [] && (req.user == [] || Trim(req.user) != [])
    ensures NameAgrees(d, Trim(name), slug)
  {
    if name == Requested(req) {
      RequestedIsNotBlank(req);
      NoConflictAgrees(d, Trim(name), slug);
    } else if Persisted(d).Some? {
      ReadDeveloperIsTrimmed(d.identity.value.content);
      NoConflictAgrees(d, name, slug);
    } else {
      PendingNameAgrees(d, slug);
    }
  }

  lemma RequestedIsNotBlank(req: Request)
    requires Requested(req) != [] && (req.user == [] || Trim(req.user) != [])
    ensures Trim(Requested(req)) != []
  {
    TrimOfTrimmed(req.gitName);
  }

  /** Neither the identity nor a joiner's marker names anybody. */
  ghost predicate NobodyNamed(d: Disk, slug: Text -> Text)
  {
    && Persisted(d).None?
    && forall task :: task in d.markers && task.Join? && HasMarker(d, task, slug)
                      ==> MarkerAt(d, task, slug) == Some(Anonymous)
  }

  /** The name a run goes on with agrees with all that is on disk exactly when it
      was not given a name of white space only, or nobody is named there. */
  lemma OneName(d: Disk, req: Request, slug: Text -> Text)
    requires Resolve(d, req, slug).Go? && Resolve(d, req, slug).developer != []
    ensures NameAgrees(d, Trim(Resolve(d, req, slug).developer), slug)
       <==> req.user == [] || Trim(req.user) != [] || NobodyNamed(d, slug)
  {
    if req.user == [] || Trim(req.user) != [] {
      hide *;
      SourcedNameAgrees(d, req, ChooseName(d, req, slug), slug);
    } else {
      BlankAgrees(d, slug);
    }
  }

  function NameIn(marker: Marker): Text
  {
    match marker
    case Named(name) => name
    case Anonymous => []
  }

  lemma BlankAgrees(d: Disk, slug: Text -> Text)
    ensures NameAgrees(d, [], slug) <==> NobodyNamed(d, slug)
  {
    hide ReadMarker, ReadDeveloper;
    if d.identity.Some? {
      ReadDeveloperIsTrimmed(d.identity.value.content);
    }
    forall task | task in d.markers && task.Join?
      ensures MarkerAt(d, task, slug) != Some(Named([]))
    {
      MarkerNamesFit(task, d.markers[task], slug);
    }
    if NameAgrees(d, [], slug) {
      forall task | task in d.markers && task.Join? && HasMarker(d, task, slug)
        ensures MarkerAt(d, task, slug) == Some(Anonymous)
      {
        var other := NameIn(MarkerAt(d, task, slug).value);
        assert MarkerAt(d, task, slug) == Some(Named(other)) ==> other == [];
      }
    }
  }

  lemma MarkerNamesFit(task: TaskName, content: Text, slug: Text -> Text)
    ensures ReadMarker(task, content, slug).Some? && ReadMarker(task, content, slug).value.Named?
            ==> ReadMarker(task, content, slug).value.name != []
                && Trim(ReadMarker(task, content, slug).value.name) == ReadMarker(task, content, slug).value.name
  {
  }

  lemma NoConflictAgrees(d: Disk, name: Text, slug: Text -> Text)
    requires !MarkersConflict(d, name, slug)
    requires Persisted(d).Some? ==> Persisted(d).value == name
    ensures NameAgrees(d, name, slug)
  {
  }

  lemma PendingNameAgrees(d: Disk, slug: Text -> Text)
    requires Persisted(d).None? && PendingName(d, slug).Some?
    ensures NameAgrees(d, Trim(PendingName(d, slug).value), slug)
  {
    hide ReadMarker, ReadDeveloper;
    SingletonIsUnique(PendingJoiners(d));
    var only := Only(PendingJoiners(d));
    MarkerNamesFit(only, d.markers[only], slug);
    forall task | task in d.markers && task.Join?
      ensures task == only
    {
      assert task in PendingJoiners(d);
    }
  }
}
