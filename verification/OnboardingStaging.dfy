/** The staging area of `pactile init`: what a run takes from it, and what a run
    cut off anywhere leaves in it. */
module OnboardingStaging {
  import opened JsText
  import opened InitMarker
  import opened Onboarding
  import opened OnboardingSafety

  /** Left-overs of earlier runs lie in the staging root. */
  predicate Housed(d: Disk) { d.staging != map[] ==> d.stagingRoot }

  /** The left-overs found at the start are all there, unchanged, and beside them
      at most the directory of this run. */
  ghost predicate StagingKept(d0: Disk, d: Disk)
  {
    && Housed(d)
    && (forall id :: id in d0.staging ==> id in d.staging && d.staging[id] == d0.staging[id])
    && (forall id :: id in d.staging ==> id in d0.staging || id == d0.temp)
  }

  ghost function KeptFrom(d0: Disk): Disk -> bool { d => StagingKept(d0, d) }

  predicate SameStaging(a: Disk, b: Disk)
  {
    a.staging == b.staging && a.stagingRoot == b.stagingRoot && a.temp == b.temp
  }

  /** Between any two writes the left-overs are kept, and in the end the staging
      area is as it was. */
  ghost predicate Tidies(d0: Disk, d: Disk, ws: seq<Write>)
  {
    && Throughout(KeptFrom(d0), d, ws)
    && Apply(d, ws).staging == d0.staging && Apply(d, ws).stagingRoot == d0.stagingRoot
  }

  predicate Neutral(w: Write) { w.CreateRoot? || w.WriteMarker? || w.RemoveMarker? || w.WriteIdentity? }

  predicate AllNeutral(ws: seq<Write>) { forall w :: w in ws ==> Neutral(w) }

  lemma {:induction false} NeutralStays(d0: Disk, d: Disk, ws: seq<Write>)
    requires AllNeutral(ws) && StagingKept(d0, d)
    ensures Throughout(KeptFrom(d0), d, ws) && SameStaging(Apply(d, ws), d)
    decreases |ws|
  {
    if ws != [] {
      assert ws[0] in ws;
      assert forall w :: w in ws[1..] ==> w in ws;
      NeutralStays(d0, Step(d, ws[0]), ws[1..]);
    }
  }

  lemma NeutralTidies(d0: Disk, d: Disk, ws: seq<Write>)
    requires AllNeutral(ws) && SameStaging(d, d0) && Housed(d0)
    ensures Tidies(d0, d, ws) && SameStaging(Apply(d, ws), d0)
  {
    NeutralStays(d0, d, ws);
  }

  lemma NeutralThen(d0: Disk, d: Disk, a: seq<Write>, b: seq<Write>)
    requires AllNeutral(a) && SameStaging(d, d0) && Housed(d0) && Tidies(d0, Apply(d, a), b)
    ensures Tidies(d0, d, a + b)
  {
    hide Throughout;
    NeutralStays(d0, d, a);
    ThroughoutConcat(KeptFrom(d0), d, a, b);
  }

  // ---- The staged task ----

  lemma ThroughoutOne(p: Disk -> bool, d: Disk, w: Write)
    requires p(d) && p(Step(d, w))
    ensures Throughout(p, d, [w]) && Apply(d, [w]) == Step(d, w)
  {
    assert [w][1..] == [];
  }

  lemma ThroughoutTwo(p: Disk -> bool, d: Disk, v: Write, w: Write)
    requires p(d) && p(Step(d, v)) && p(Step(Step(d, v), w))
    ensures Throughout(p, d, [v, w]) && Apply(d, [v, w]) == Step(Step(d, v), w)
  {
    assert [v, w][1..] == [w];
    ThroughoutOne(p, Step(d, v), w);
  }

  lemma StagingBegins(d0: Disk, d: Disk)
    requires FreshTemp(d0) && SameStaging(d, d0) && Housed(d0)
    ensures Throughout(KeptFrom(d0), d, StageWrites(d)) && Apply(d, StageWrites(d)) == Staged(d)
  {
    var made := d.(stagingRoot := true);
    var empty := Step(made, MakeStaging(d.temp));
    var rest := [MakeStaging(d.temp), FillStaging(d.temp, PrdOnly)];
    assert empty.staging == d0.staging[d0.temp := Empty] && Staged(d).staging == d0.staging[d0.temp := PrdOnly];
    assert Step(empty, FillStaging(d.temp, PrdOnly)) == Staged(d);
    ThroughoutTwo(KeptFrom(d0), made, rest[0], rest[1]);
    assert [] + rest == rest;
    assert ([MakeStagingRoot] + rest)[1..] == rest;
    assert d.stagingRoot ==> made == d;
  }

  lemma ClearingIsNeutral(d: Disk, task: TaskName, slug: Text -> Text)
    ensures AllNeutral(ClearMarker(d, task, slug))
  {
    hide HasMarker;
  }

  lemma EnsuringIsNeutral(d: Disk, task: TaskName, developer: Text, slug: Text -> Text)
    ensures AllNeutral(EnsureMarker(d, task, developer, slug).writes)
  {
    hide EnsureMarker;
    EnsureMarkerWrites(d, task, developer, slug);
  }

  lemma PublishingKeeps(d0: Disk, d: Disk, task: TaskName, slug: Text -> Text)
    requires FreshTemp(d0) && SameStaging(d, d0)
    ensures var ws := PublishWrites(d, task, slug);
      && Throughout(KeptFrom(d0), Staged(d), ws)
      && Apply(Staged(d), ws).staging == d0.staging && Apply(Staged(d), ws).stagingRoot
  {
    hide ClearMarker;
    var a := [FillStaging(d.temp, Complete), Publish(d.temp, task)];
    var filled := Step(Staged(d), a[0]);
    var published := Step(filled, a[1]);
    assert filled.staging == d0.staging[d0.temp := Complete] && published.staging == d0.staging;
    ThroughoutTwo(KeptFrom(d0), Staged(d), a[0], a[1]);
    ClearingIsNeutral(d, task, slug);
    NeutralStays(d0, published, ClearMarker(d, task, slug));
    ThroughoutConcat(KeptFrom(d0), Staged(d), a, ClearMarker(d, task, slug));
  }

  lemma AbandoningKeeps(d0: Disk, d: Disk, task: TaskName, slug: Text -> Text)
    requires FreshTemp(d0) && SameStaging(d, d0)
    ensures var ws := AbandonWrites(d, task, slug);
      && Throughout(KeptFrom(d0), Staged(d), ws)
      && Apply(Staged(d), ws).staging == d0.staging && Apply(Staged(d), ws).stagingRoot
  {
    hide EnsureMarker;
    var a := EnsureMarker(d, task, [], slug).writes;
    EnsuringIsNeutral(d, task, [], slug);
    assert Staged(d).staging == d0.staging[d0.temp := PrdOnly];
    NeutralStays(d0, Staged(d), a);
    var noted := Apply(Staged(d), a);
    assert noted.staging - {d.temp} == d0.staging;
    ThroughoutOne(KeptFrom(d0), noted, RemoveStaging(d.temp));
    ThroughoutConcat(KeptFrom(d0), Staged(d), a, [RemoveStaging(d.temp)]);
  }

  lemma TidyingKeeps(d0: Disk, d: Disk, d': Disk)
    requires SameStaging(d, d0) && Housed(d0) && d'.staging == d0.staging && d'.stagingRoot
    ensures Tidies(d0, d', TidyWrites(d))
  {
    if TidyWrites(d) != [] {
      ThroughoutOne(KeptFrom(d0), d', RemoveStagingRoot);
    }
  }

  lemma NewTaskTidies(d0: Disk, d: Disk, rest: seq<Write>)
    requires FreshTemp(d0) && SameStaging(d, d0) && Housed(d0) && Throughout(KeptFrom(d0), Staged(d), rest)
    requires Apply(Staged(d), rest).staging == d0.staging && Apply(Staged(d), rest).stagingRoot
    ensures Tidies(d0, d, StageWrites(d) + (rest + TidyWrites(d)))
  {
    hide Throughout, StageWrites, TidyWrites;
    StagingBegins(d0, d);
    TidyingKeeps(d0, d, Apply(Staged(d), rest));
    ThroughoutConcat(KeptFrom(d0), Staged(d), rest, TidyWrites(d));
    ThroughoutConcat(KeptFrom(d0), d, StageWrites(d), rest + TidyWrites(d));
  }

  lemma SkeletonTidies(d0: Disk, d: Disk, task: TaskName, kernelOk: bool, slug: Text -> Text)
    requires FreshTemp(d0) && SameStaging(d, d0) && Housed(d0)
    ensures Tidies(d0, d, Skeleton(d, task, kernelOk, slug).writes)
  {
    hide Throughout, StageWrites, TidyWrites, PublishWrites, AbandonWrites, ClearMarker, EnsureMarker;
    if task in d.tasks {
      ClearingIsNeutral(d, task, slug);
      EnsuringIsNeutral(d, task, [], slug);
      NeutralTidies(d0, d, Skeleton(d, task, kernelOk, slug).writes);
    } else if kernelOk {
      PublishingKeeps(d0, d, task, slug);
      NewTaskTidies(d0, d, PublishWrites(d, task, slug));
    } else {
      AbandoningKeeps(d0, d, task, slug);
      NewTaskTidies(d0, d, AbandonWrites(d, task, slug));
    }
  }

  // ---- Whole runs ----

  /** The identity, then a task. */
  lemma IdentityThenTask(d0: Disk, d: Disk, identity: seq<Write>, task: TaskName, kernelOk: bool, slug: Text -> Text)
    requires FreshTemp(d0) && SameStaging(d, d0) && Housed(d0) && AllNeutral(identity)
    ensures Tidies(d0, d, identity + Skeleton(Apply(d, identity), task, kernelOk, slug).writes)
  {
    hide Skeleton, Tidies;
    NeutralTidies(d0, d, identity);
    SkeletonTidies(d0, Apply(d, identity), task, kernelOk, slug);
    NeutralThen(d0, d, identity, Skeleton(Apply(d, identity), task, kernelOk, slug).writes);
  }

  lemma IdentityIsNeutral(d: Disk, developer: Text, origin: Origin, stamp: Text, writable: bool)
    ensures AllNeutral(InitializeDeveloper(d, developer, origin, stamp, writable))
  {
    hide Persisted, IsSegment, Trim, IdentityText;
  }

  lemma AnnounceTidies(d0: Disk, d: Disk, developer: Text, req: Request, out: Outcome, slug: Text -> Text)
    requires FreshTemp(d0) && SameStaging(d, d0) && Housed(d0)
    ensures Tidies(d0, d, AnnounceAndJoin(d, developer, req, out, slug))
  {
    hide Tidies, EnsureMarker, InitializeDeveloper, Skeleton;
    var intent := EnsureMarker(d, Join(slug(developer)), developer, slug);
    EnsuringIsNeutral(d, Join(slug(developer)), developer, slug);
    NeutralTidies(d0, d, intent.writes);
    if intent.ok {
      var d', origin := Apply(d, intent.writes), WrittenByJoiner(Trim(developer));
      var identity := InitializeDeveloper(d', developer, origin, req.stamp, out.identityWritable);
      IdentityIsNeutral(d', developer, origin, req.stamp, out.identityWritable);
      IdentityThenTask(d0, d', identity, Join(slug(developer)), out.kernelOk, slug);
      NeutralThen(d0, d, intent.writes, JoinWrites(d', developer, req, out, slug));
    }
  }

  lemma FullTidies(d: Disk, req: Request, developer: Text, out: Outcome, slug: Text -> Text)
    requires FreshTemp(d) && Housed(d)
    ensures Tidies(d, d, FullWrites(d, req, developer, out, slug))
  {
    hide Tidies, AnnounceAndJoin, InitializeDeveloper, Skeleton, CreatesBootstrap, CreatesJoiner;
    var start := RootWrites(d, out);
    var d' := Apply(d, start);
    NeutralTidies(d, d, start);
    var identity := InitializeDeveloper(d', developer, Written, req.stamp, out.identityWritable);
    IdentityIsNeutral(d', developer, Written, req.stamp, out.identityWritable);
    if !out.lifecycle.Committed? || developer == [] {
    } else if CreatesBootstrap(d, developer, slug) {
      IdentityThenTask(d, d', identity, Bootstrap, out.kernelOk, slug);
      NeutralThen(d, d, start, BootstrapWrites(d', developer, req, out, slug));
    } else if CreatesJoiner(d, developer, slug) {
      AnnounceTidies(d, d', developer, req, out, slug);
      NeutralThen(d, d, start, AnnounceAndJoin(d', developer, req, out, slug));
    } else {
      NeutralTidies(d, d', identity);
      NeutralThen(d, d, start, identity);
    }
  }

  lemma RunTidiesUp(d: Disk, req: Request, out: Outcome, slug: Text -> Text)
    requires FreshTemp(d) && Housed(d)
    ensures Tidies(d, d, RunWrites(d, req, out, slug))
  {
    hide Tidies, Resolve, TakesReinit, FullWrites, AnnounceAndJoin, InitializeDeveloper;
    NeutralTidies(d, d, []);
    if Resolve(d, req, slug).Go? {
      var developer := Resolve(d, req, slug).developer;
      if !TakesReinit(d, req, developer, slug) {
        FullTidies(d, req, developer, out, slug);
      } else if d.identity.Some? {
        IdentityIsNeutral(d, developer, Written, req.stamp, out.identityWritable);
        NeutralTidies(d, d, InitializeDeveloper(d, developer, Written, req.stamp, out.identityWritable));
      } else {
        AnnounceTidies(d, d, developer, req, out, slug);
      }
    }
  }

  /** A run that nothing interrupts leaves the staging area as it found it: what it
      staged is published or removed, and so is a staging root it had to make,
      while one that was there stays with all that lies in it. */
  lemma UncutRunTidies(d: Disk, req: Request, out: Outcome, slug: Text -> Text)
    requires FreshTemp(d) && Housed(d)
    ensures var d' := Apply(d, RunWrites(d, req, out, slug));
      d'.stagingRoot == d.stagingRoot && d'.staging == d.staging
  {
    hide Throughout;
    RunTidiesUp(d, req, out, slug);
  }

  /** After any runs, each cut off between any two writes, every left-over found at
      the start is still there, and each run has added at most one. */
  lemma {:induction false} LeftOversStay(d: Disk, runs: seq<CutRun>, slug: Text -> Text)
    requires IsSlugger(slug) && FreshTemp(d) && Housed(d)
    ensures var d' := AfterRuns(d, runs, slug);
      && Housed(d') && |d'.staging| <= |d.staging| + |runs|
      && forall id :: id in d.staging ==> id in d'.staging && d'.staging[id] == d.staging[id]
    decreases |runs|
  {
    hide RunWrites, IsSlugger;
    if runs != [] {
      var ws, d1 := RunWrites(d, runs[0].req, runs[0].out, slug), AfterRun(d, runs[0], slug);
      RunTidiesUp(d, runs[0].req, runs[0].out, slug);
      ThroughoutCut(KeptFrom(d), d, ws, runs[0].writes);
      assert d1.staging.Keys <= d.staging.Keys + {d.temp};
      SubsetIsNoLarger(d1.staging.Keys, d.staging.Keys + {d.temp});
      CutKeepsTemp(d, runs[0], slug);
      LeftOversStay(d1, runs[1..], slug);
    }
  }

  lemma SubsetIsNoLarger<T>(a: set<T>, b: set<T>)
    requires a <= b
    ensures |a| <= |b|
  {
    assert b == a + (b - a);
  }

  lemma CutKeepsTemp(d: Disk, run: CutRun, slug: Text -> Text)
    requires IsSlugger(slug) && FreshTemp(d)
    ensures FreshTemp(AfterRun(d, run, slug))
  {
    var ws := RunWrites(d, run.req, run.out, slug);
    RunAllowed(d, run.req, run.out, slug);
    CutAllowed(d, ws, run.writes, slug);
    AllowedKeepTemp(d, Cut(ws, run.writes), slug);
  }

  lemma {:induction false} AllowedKeepTemp(d: Disk, ws: seq<Write>, slug: Text -> Text)
    requires AllAllowed(d, ws, slug) && FreshTemp(d)
    ensures FreshTemp(Apply(d, ws))
    decreases |ws|
  {
    hide Allowed;
    if ws != [] {
      StepKeepsTemp(d, ws[0], slug);
      AllowedKeepTemp(Step(d, ws[0]), ws[1..], slug);
    }
  }
}
