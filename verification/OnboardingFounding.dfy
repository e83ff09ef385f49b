/** Convergence of the first `pactile init` of a project: which interrupted runs a
    later run completes. Until the bootstrap task is there, an existing root with
    no tasks sends the next run back to the bootstrap. A bootstrap task that was
    published without an identity makes every later run a joiner's. */
module OnboardingFounding {
  import opened JsText
  import opened InitMarker
  import opened Options
  import opened Onboarding
  import opened OnboardingSafety
  import opened OnboardingProgress

  /** Nothing but the founding of the project is under way, and a run can still
      finish it: a bootstrap task comes with an identity or with its marker. */
  predicate Founding(d: Disk, slug: Text -> Text)
  {
    && FreshTemp(d) && PendingJoiners(d) == {}
    && (d.identity.Some? ==> Persisted(d).Some?)
    && (Bootstrap in d.markers ==> HasMarker(d, Bootstrap, slug))
    && (d.tasks == map[]
        || (d.tasks == map[Bootstrap := Complete] && d.root && (d.identity.Some? || Bootstrap in d.markers)))
  }

  /** The project stands: root, the founder's identity and the bootstrap task, and no marker. */
  predicate Founded(d: Disk, name: Text, slug: Text -> Text)
  {
    Founding(d, slug) && d.tasks == map[Bootstrap := Complete] && Bootstrap !in d.markers && Persisted(d) == Some(name)
  }

  /** The bootstrap task was published without an identity and its marker is gone;
      since then, at most joiners have been at work. */
  ghost predicate Strayed(d: Disk, slug: Text -> Text)
  {
    && Orderly(d, slug) && IsComplete(d, Bootstrap)
    && (d.identity.Some? ==> exists s: Text :: Join(s) in d.markers || Join(s) in d.tasks)
  }

  /** A strayed disk is never one from which the founding can be finished. */
  lemma StrayedIsNotFounding(d: Disk, slug: Text -> Text)
    ensures !(Strayed(d, slug) && Founding(d, slug))
  {
    hide ReadMarker, ReadDeveloper, FreshTemp;
    if Strayed(d, slug) && d.identity.Some? {
      var s: Text :| Join(s) in d.markers || Join(s) in d.tasks;
      assert Join(s) in d.markers ==> Join(s) in PendingJoiners(d);
    }
  }

  // ---- The steps of a founding run ----

  /** Writes of a founding run before its task is published. */
  predicate Preparing(w: Write)
  {
    match w
    case WriteMarker(task, _) => task == Bootstrap
    case WriteIdentity(content, _) => ReadDeveloper(content).Some?
    case CreateRoot => true
    case _ => Quiet(w)
  }

  /** Writes of a founding run that publishes its task or has published it. */
  predicate Publishing(w: Write)
  {
    match w
    case Publish(_, task) => task == Bootstrap
    case RemoveMarker(task) => task == Bootstrap
    case _ => Quiet(w)
  }

  lemma NoNewJoiner(d: Disk, d': Disk)
    requires forall t: Text :: Join(t) in d'.markers ==> Join(t) in d.markers
    ensures PendingJoiners(d') <= PendingJoiners(d)
  {
    forall t | t in PendingJoiners(d')
      ensures t in PendingJoiners(d)
    {
      assert t == Join(t.slug);
    }
  }

  lemma PreparingStep(d: Disk, w: Write, slug: Text -> Text)
    requires Founding(d, slug) && Allowed(d, w, slug) && Preparing(w)
    ensures Founding(Step(d, w), slug) && (d.root ==> Step(d, w).root)
  {
    hide ReadMarker, ReadDeveloper, PendingJoiners;
    StepKeepsTemp(d, w, slug);
    NoNewJoiner(d, Step(d, w));
  }

  lemma {:induction false} PreparingWrites(d: Disk, ws: seq<Write>, slug: Text -> Text)
    requires Founding(d, slug) && AllAllowed(d, ws, slug) && forall w :: w in ws ==> Preparing(w)
    ensures Founding(Apply(d, ws), slug) && (d.root ==> Apply(d, ws).root)
    decreases |ws|
  {
    hide Founding, Allowed, Preparing;
    if ws != [] {
      assert Preparing(ws[0]);
      PreparingStep(d, ws[0], slug);
      PreparingWrites(Step(d, ws[0]), ws[1..], slug);
    }
  }

  /** Publishing a task without identity and marker, or taking the marker away
      before there is an identity, is where a founding goes astray. */
  lemma PublishingStep(d: Disk, w: Write, slug: Text -> Text)
    requires (Founding(d, slug) && d.root) || Strayed(d, slug)
    requires Allowed(d, w, slug) && Publishing(w)
    ensures (Founding(Step(d, w), slug) && Step(d, w).root) || Strayed(Step(d, w), slug)
  {
    hide ReadMarker, ReadDeveloper, PendingJoiners, Orderly;
    var d' := Step(d, w);
    if Strayed(d, slug) {
      StrayedStep(d, w, slug);
    } else {
      StepKeepsTemp(d, w, slug);
      NoNewJoiner(d, d');
      if d'.tasks != map[] && d'.identity.None? && Bootstrap !in d'.markers {
        StraysHere(d', slug);
      }
    }
  }

  lemma StrayedStep(d: Disk, w: Write, slug: Text -> Text)
    requires Strayed(d, slug) && Allowed(d, w, slug) && Publishing(w)
    ensures Strayed(Step(d, w), slug)
  {
    hide ReadMarker, ReadDeveloper, Within;
    var s :| Within(d, s, slug);
    NoBootstrapMarker(d, s, slug);
    StepStaysWithin(d, w, s, slug);
  }

  lemma NoBootstrapMarker(d: Disk, s: Text, slug: Text -> Text)
    requires Within(d, s, slug)
    ensures !HasMarker(d, Bootstrap, slug)
  {
    hide ReadMarker, ReadDeveloper;
  }

  lemma StraysHere(d: Disk, slug: Text -> Text)
    requires FreshTemp(d) && PendingJoiners(d) == {} && d.root && d.identity.None?
    requires d.tasks == map[Bootstrap := Complete] && Bootstrap !in d.markers
    ensures Strayed(d, slug) && Idle(d, slug)
  {
    hide ReadMarker, ReadDeveloper;
    assert Bootstrap in d.tasks;
    IdleIsOrderly(d, slug);
  }

  lemma {:induction false} PublishingWrites(d: Disk, ws: seq<Write>, slug: Text -> Text)
    requires (Founding(d, slug) && d.root) || Strayed(d, slug)
    requires AllAllowed(d, ws, slug) && forall w :: w in ws ==> Publishing(w)
    ensures (Founding(Apply(d, ws), slug) && Apply(d, ws).root) || Strayed(Apply(d, ws), slug)
    decreases |ws|
  {
    hide Founding, Strayed, Allowed, Publishing;
    if ws != [] {
      assert Publishing(ws[0]);
      PublishingStep(d, ws[0], slug);
      PublishingWrites(Step(d, ws[0]), ws[1..], slug);
    }
  }

  /** A founding run cut off anywhere: `a` comes before the task, `b` from there on. */
  lemma CutFounding(d: Disk, a: seq<Write>, b: seq<Write>, n: nat, slug: Text -> Text)
    requires Founding(d, slug) && AllAllowed(d, a + b, slug)
    requires (forall w :: w in a ==> Preparing(w)) && (forall w :: w in b ==> Publishing(w))
    requires b != [] ==> Apply(d, a).root
    ensures Founding(Apply(d, Cut(a + b, n)), slug) || Strayed(Apply(d, Cut(a + b, n)), slug)
  {
    hide Founding, Strayed, Allowed, Preparing, Publishing;
    AllAllowedConcat(d, a, b, slug);
    if n <= |a| {
      assert (a + b)[..n] == a[..n];
      CutAllowed(d, a, n, slug);
      PreparingWrites(d, a[..n], slug);
    } else {
      assert Cut(a + b, n) == a + Cut(b, n - |a|);
      PreparingWrites(d, a, slug);
      CutAllowed(Apply(d, a), b, n - |a|, slug);
      ApplyConcat(d, a, Cut(b, n - |a|));
      if b != [] {
        PublishingWrites(Apply(d, a), Cut(b, n - |a|), slug);
      }
    }
  }

  // ---- Whole runs ----

  /** What there is to do for a developer who may found the project. */
  predicate Founds(d: Disk, req: Request, out: Outcome)
  {
    && Requested(req) != [] && out.lifecycle.Committed?
    && (d.identity.Some? ==> Persisted(d) == Some(Trim(Requested(req))))
    && (d.tasks == map[] || Bootstrap in d.markers)
  }

  lemma FoundingResolves(d: Disk, req: Request, slug: Text -> Text)
    requires Founding(d, slug) && Resolve(d, req, slug).Go?
    ensures Resolve(d, req, slug).developer == Requested(req)
    ensures d.identity.Some? && Trim(Requested(req)) != [] ==> Persisted(d) == Some(Trim(Requested(req)))
  {
    hide MarkersConflict, AnyValidJoiner, ReadMarker, PendingName, Trim, PendingJoiners, ReadDeveloper, HasMarker, FreshTemp;
    NoJoinerNoConflict(d, Trim(Requested(req)), slug);
    if d.identity.Some? {
      NoJoinerNoConflict(d, Persisted(d).value, slug);
      assert !HasMarker(d, Join(slug(Persisted(d).value)), slug) by {
        NoMarker(d, Persisted(d).value, slug);
      }
    }
  }

  lemma NoMarker(d: Disk, name: Text, slug: Text -> Text)
    requires PendingJoiners(d) == {}
    ensures !HasMarker(d, Join(slug(name)), slug)
  {
    hide ReadMarker;
    assert Join(slug(name)) in d.markers ==> Join(slug(name)) in PendingJoiners(d);
  }

  lemma FoundingGoes(d: Disk, req: Request, slug: Text -> Text)
    requires Founding(d, slug) && Trim(Requested(req)) != []
    requires d.identity.Some? ==> Persisted(d) == Some(Trim(Requested(req)))
    ensures Resolve(d, req, slug).Go?
  {
    hide MarkersConflict, AnyValidJoiner, ReadMarker, PendingName, Trim, PendingJoiners, ReadDeveloper, HasMarker, FreshTemp;
    NoJoinerNoConflict(d, Trim(Requested(req)), slug);
  }

  lemma FoundingDispatch(d: Disk, req: Request, out: Outcome, slug: Text -> Text)
    requires Founding(d, slug) && Resolve(d, req, slug) == Go(Requested(req))
    ensures !PendingJoiner(d, Requested(req), slug) ==>
      RunWrites(d, req, out, slug)
      == RootWrites(d, out)
         + if Requested(req) != [] && out.lifecycle.Committed? && (d.tasks == map[] || Bootstrap in d.markers)
           then BootstrapWrites(Apply(d, RootWrites(d, out)), Requested(req), req, out, slug) else []
  {
    hide Resolve, PendingJoiner, ReadMarker, PendingJoiners, Trim, ReadDeveloper, BootstrapWrites, FreshTemp, Requested,
      Apply, InitializeDeveloper;
    assert d.tasks != map[] ==> RootWrites(d, out) == [] && Apply(d, []) == d by {
      if d.root {
        RootIsThere(d, out);
      }
    }
    IdentityIsThere(d, Requested(req), req.stamp, out.identityWritable);
  }

  /** A run founds the project, or does no more than create its root. */
  lemma FoundingRun(d: Disk, req: Request, out: Outcome, slug: Text -> Text)
    requires Founding(d, slug) && NotBlank(req)
    ensures Founds(d, req, out) ==>
      RunWrites(d, req, out, slug)
      == RootWrites(d, out) + BootstrapWrites(Apply(d, RootWrites(d, out)), Requested(req), req, out, slug)
    ensures !Founds(d, req, out) ==> RunWrites(d, req, out, slug) in {[], RootWrites(d, out)}
  {
    hide Founding, Resolve, RunWrites, RootWrites, BootstrapWrites, Trim, NotBlank, Requested, PendingJoiner, Persisted, Apply;
    RequestedFacts(req);
    var start := RootWrites(d, out);
    assert start + [] == start;
    if Resolve(d, req, slug).Go? {
      FoundingResolves(d, req, slug);
      FoundingDispatch(d, req, out, slug);
      NoPendingJoiner(d, req, slug);
    } else {
      StoppedRun(d, req, out, slug);
    }
    if Founds(d, req, out) {
      FoundingGoes(d, req, slug);
    }
  }

  lemma NoPendingJoiner(d: Disk, req: Request, slug: Text -> Text)
    requires Founding(d, slug)
    ensures !PendingJoiner(d, Requested(req), slug)
  {
    hide ReadMarker, ReadDeveloper, PendingJoiners, Requested, FreshTemp;
    NoMarker(d, Requested(req), slug);
  }

  lemma IdentityPrepares(d: Disk, developer: Text, stamp: Text, writable: bool)
    ensures forall w :: w in InitializeDeveloper(d, developer, Written, stamp, writable) ==> Preparing(w)
  {
    hide ReadDeveloper, IdentityText, IsSegment, Trim;
    if IsSegment(Trim(developer)) {
      IdentityRoundTrip(Trim(developer), stamp);
    }
  }

  lemma SkeletonKinds(d: Disk, kernelOk: bool, slug: Text -> Text)
    ensures var ws := Skeleton(d, Bootstrap, kernelOk, slug).writes;
      (forall w :: w in ws ==> Preparing(w)) || (forall w :: w in ws ==> Publishing(w))
  {
    hide ReadMarker, StageWrites, PublishWrites, AbandonWrites, TidyWrites, ClearMarker, EnsureMarker;
    StagingIsQuiet(d);
    BootstrapKinds(d, slug);
  }

  lemma StagingIsQuiet(d: Disk)
    ensures forall w :: w in StageWrites(d) ==> Quiet(w)
    ensures forall w :: w in TidyWrites(d) ==> Quiet(w)
  {
  }

  lemma BootstrapKinds(d: Disk, slug: Text -> Text)
    ensures forall w :: w in ClearMarker(d, Bootstrap, slug) ==> Publishing(w)
    ensures forall w :: w in PublishWrites(d, Bootstrap, slug) ==> Publishing(w)
    ensures forall w :: w in EnsureMarker(d, Bootstrap, [], slug).writes ==> Preparing(w)
    ensures forall w :: w in AbandonWrites(d, Bootstrap, slug) ==> Preparing(w)
  {
    hide ReadMarker, MarkerContent, NameFits, EnsureMarker;
    EnsureMarkerWrites(d, Bootstrap, [], slug);
  }

  lemma RootPrepares(d: Disk, out: Outcome)
    ensures forall w :: w in RootWrites(d, out) ==> Preparing(w)
  {
  }

  /** A run cut off anywhere leaves a disk from which the founding can be finished,
      or one that has gone astray. */
  lemma RunFounds(d: Disk, run: CutRun, slug: Text -> Text)
    requires IsSlugger(slug) && NotBlank(run.req) && Founding(d, slug)
    ensures Founding(AfterRun(d, run, slug), slug) || Strayed(AfterRun(d, run, slug), slug)
  {
    hide RunWrites, RootWrites, BootstrapWrites, Preparing, Publishing, NotBlank, IsSlugger, Allowed, Strayed, Founds, Cut;
    var ws, start := RunWrites(d, run.req, run.out, slug), RootWrites(d, run.out);
    FoundingRun(d, run.req, run.out, slug);
    RunAllowed(d, run.req, run.out, slug);
    RootPrepares(d, run.out);
    if Founds(d, run.req, run.out) {
      FoundsIsCommitted(d, run.req, run.out);
      BootstrapRun(d, run, slug);
    } else {
      assert ws + [] == ws;
      CutFounding(d, ws, [], run.writes, slug);
    }
  }

  lemma FoundsIsCommitted(d: Disk, req: Request, out: Outcome)
    requires Founds(d, req, out)
    ensures out.lifecycle.Committed?
  {
  }

  lemma BootstrapRun(d: Disk, run: CutRun, slug: Text -> Text)
    requires Founding(d, slug) && run.out.lifecycle.Committed?
    requires AllAllowed(d, RunWrites(d, run.req, run.out, slug), slug)
    requires RunWrites(d, run.req, run.out, slug)
          == RootWrites(d, run.out)
             + BootstrapWrites(Apply(d, RootWrites(d, run.out)), Requested(run.req), run.req, run.out, slug)
    ensures Founding(AfterRun(d, run, slug), slug) || Strayed(AfterRun(d, run, slug), slug)
  {
    hide RunWrites, RootWrites, InitializeDeveloper, Skeleton, Preparing, Publishing, Allowed, Strayed, Founding, Cut;
    var start := RootWrites(d, run.out);
    var d1 := Apply(d, start);
    var identity := InitializeDeveloper(d1, Requested(run.req), Written, run.req.stamp, run.out.identityWritable);
    var skeleton := Skeleton(Apply(d1, identity), Bootstrap, run.out.kernelOk, slug).writes;
    RootPrepares(d, run.out);
    IdentityPrepares(d1, Requested(run.req), run.req.stamp, run.out.identityWritable);
    SkeletonKinds(Apply(d1, identity), run.out.kernelOk, slug);
    ConcatAssociates(start, identity, skeleton);
    if forall w :: w in skeleton ==> Preparing(w) {
      assert start + identity + skeleton + [] == start + identity + skeleton;
      CutFounding(d, start + identity + skeleton, [], run.writes, slug);
    } else {
      RootEffect(d, run.out, slug);
      AllAllowedConcat(d, start + identity, skeleton, slug);
      AllAllowedConcat(d, start, identity, slug);
      PreparingWrites(d, start, slug);
      PreparingWrites(d1, identity, slug);
      ApplyConcat(d, start, identity);
      CutFounding(d, start + identity, skeleton, run.writes, slug);
    }
  }

  // ---- A disk gone astray stays so ----

  lemma JoiningStep(d: Disk, w: Write, s: Text, slug: Text -> Text)
    requires Strayed(d, slug) && Within(d, s, slug) && Allowed(d, w, slug) && About(w, s)
    ensures Strayed(Step(d, w), slug) && Within(Step(d, w), s, slug)
  {
    hide ReadMarker, ReadDeveloper, Standing;
    StepStaysWithin(d, w, s, slug);
    var d' := Step(d, w);
    if w.WriteIdentity? {
      assert Join(slug(w.origin.name)) in d'.markers;
    } else if d.identity.Some? {
      var t: Text :| Join(t) in d.markers || Join(t) in d.tasks;
      assert Join(t) in d'.markers || Join(t) in d'.tasks;
    }
  }

  lemma {:induction false} JoiningWrites(d: Disk, ws: seq<Write>, s: Text, slug: Text -> Text)
    requires Strayed(d, slug) && Within(d, s, slug) && AllAllowed(d, ws, slug) && AllAbout(ws, s)
    ensures Strayed(Apply(d, ws), slug)
    decreases |ws|
  {
    hide Strayed, Within, Allowed, About;
    if ws != [] {
      JoiningStep(d, ws[0], s, slug);
      JoiningWrites(Step(d, ws[0]), ws[1..], s, slug);
    }
  }

  lemma StrayedRun(d: Disk, run: CutRun, slug: Text -> Text)
    requires IsSlugger(slug) && NotBlank(run.req) && Strayed(d, slug)
    ensures Strayed(AfterRun(d, run, slug), slug)
  {
    hide Within, RunWrites, NotBlank, IsSlugger, About, Allowed;
    var s := RunIsAbout(d, run.req, run.out, slug);
    WithinIsFresh(d, s, slug);
    RunAllowed(d, run.req, run.out, slug);
    CutAllowed(d, RunWrites(d, run.req, run.out, slug), run.writes, slug);
    JoiningWrites(d, Cut(RunWrites(d, run.req, run.out, slug), run.writes), s, slug);
  }

  lemma {:induction false} RunsFound(d: Disk, runs: seq<CutRun>, slug: Text -> Text)
    requires IsSlugger(slug) && forall i :: 0 <= i < |runs| ==> NotBlank(runs[i].req)
    requires Founding(d, slug) || Strayed(d, slug)
    ensures Founding(AfterRuns(d, runs, slug), slug) || Strayed(AfterRuns(d, runs, slug), slug)
    decreases |runs|
  {
    hide Founding, Strayed, NotBlank, IsSlugger, AfterRun;
    if runs != [] {
      if Founding(d, slug) {
        RunFounds(d, runs[0], slug);
      } else {
        StrayedRun(d, runs[0], slug);
      }
      RunsFound(AfterRun(d, runs[0], slug), runs[1..], slug);
    }
  }

  // ---- What a founding run achieves ----

  /** The disk after a founding run whose kernel and lifecycle steps succeed. */
  lemma BootstrapEffect(d: Disk, req: Request, out: Outcome, slug: Text -> Text)
    requires IsSlugger(slug) && NotBlank(req) && Founding(d, slug) && Founds(d, req, out) && out.kernelOk
    ensures var d', name := Apply(d, RunWrites(d, req, out, slug)), Trim(Requested(req));
      && FreshTemp(d') && d'.root && d'.tasks == map[Bootstrap := Complete] && d'.markers == d.markers - {Bootstrap}
      && (if d.identity.None? && IsSegment(name) && out.identityWritable
          then d'.identity == Some(Identity(IdentityText(name, req.stamp), Written)) else d'.identity == d.identity)
  {
    hide RunWrites, RootWrites, InitializeDeveloper, Skeleton, ReadMarker, ReadDeveloper, IdentityText, IsSegment, Trim, Requested;
    var start := RootWrites(d, out);
    FoundingRun(d, req, out, slug);
    RootEffect(d, out, slug);
    var d1 := Apply(d, start);
    var identity := InitializeDeveloper(d1, Requested(req), Written, req.stamp, out.identityWritable);
    InitializeEffect(d1, Requested(req), Written, req.stamp, out.identityWritable, slug);
    WriteIsFresh(d1, Requested(req), req.stamp, out.identityWritable);
    var d2 := Apply(d1, identity);
    SkeletonEffect(d2, Bootstrap, true, slug);
    var skeleton := Skeleton(d2, Bootstrap, true, slug).writes;
    ApplyConcat(d1, identity, skeleton);
    ApplyConcat(d, start, identity + skeleton);
    BootstrapStands(d2, Apply(d2, skeleton), slug);
  }

  /** A published bootstrap task stands alone, and its marker goes. */
  lemma BootstrapStands(d: Disk, d': Disk, slug: Text -> Text)
    requires FreshTemp(d) && SkeletonResult(d, Bootstrap, true, slug, d')
    requires d.tasks == map[] || d.tasks == map[Bootstrap := Complete]
    requires Bootstrap in d.markers ==> HasMarker(d, Bootstrap, slug)
    ensures FreshTemp(d') && d'.root == d.root && d'.identity == d.identity
    ensures d'.tasks == map[Bootstrap := Complete] && d'.markers == d.markers - {Bootstrap}
  {
    hide ReadMarker;
    assert map[Bootstrap := Complete][Bootstrap := Complete] == map[Bootstrap := Complete];
    assert Bootstrap !in d.markers ==> d.markers - {Bootstrap} == d.markers;
  }

  lemma WriteIsFresh(d: Disk, developer: Text, stamp: Text, writable: bool)
    ensures var d' := Apply(d, InitializeDeveloper(d, developer, Written, stamp, writable));
      d' == d.(identity := d'.identity)
      && (!(IsSegment(Trim(developer)) && writable) ==> d' == d)
  {
    hide ReadDeveloper, IdentityText, IsSegment, Trim;
  }

  lemma NoJoinerLeft(d: Disk, d': Disk)
    requires PendingJoiners(d) == {} && d'.markers == d.markers - {Bootstrap}
    ensures PendingJoiners(d') == {} && Bootstrap !in d'.markers
  {
    NoNewJoiner(d, d');
  }

  /** A good run that names the founder finishes the founding, exactly when the
      identity is the founder's or can be. */
  lemma GoodFounding(d: Disk, last: Request, out: Outcome, slug: Text -> Text)
    requires IsSlugger(slug) && NotBlank(last) && AllGood(out) && Founding(d, slug) && Requested(last) != []
    ensures var name := Trim(Requested(last));
      Founded(Apply(d, RunWrites(d, last, out, slug)), name, slug)
      <==> if d.identity.Some? then Persisted(d) == Some(name) else Keepable(name)
  {
    hide RunWrites, ReadMarker, ReadDeveloper, IdentityText, IsSegment, ReadsBack, Trim, Requested, PendingJoiners, FreshTemp, NotBlank, IsSlugger;
    var name := Trim(Requested(last));
    var d' := Apply(d, RunWrites(d, last, out, slug));
    if Founds(d, last, out) {
      BootstrapEffect(d, last, out, slug);
      NoJoinerLeft(d, d');
      if IsSegment(name) {
        IdentityRoundTrip(name, last.stamp);
      }
    } else {
      FoundingRun(d, last, out, slug);
      UnfoundedStays(d, last, out, slug);
    }
  }

  /** With nothing left to found, or for somebody else, the run changes nothing. */
  lemma UnfoundedStays(d: Disk, req: Request, out: Outcome, slug: Text -> Text)
    requires Founding(d, slug) && !Founds(d, req, out)
    requires RunWrites(d, req, out, slug) in {[], RootWrites(d, out)}
    ensures var d' := Apply(d, RunWrites(d, req, out, slug));
      d' == d.(root := d'.root) && (d.tasks != map[] ==> d' == d)
  {
    hide RunWrites, ReadMarker, ReadDeveloper, PendingJoiners, FreshTemp, Requested, Trim;
    RootEffect(d, out, slug);
  }

  /** Convergence of the first init: whatever runs, for whatever developers and
      with whatever outcomes, were cut off, the disk is one from which the founding
      can be finished or one gone astray. A good run that names somebody ends with
      that founder's project standing exactly when the disk has not gone astray and
      the identity is that founder's or, with none there, can be; a run that names
      nobody finishes nothing. */
  lemma FoundingConverges(d: Disk, runs: seq<CutRun>, last: Request, out: Outcome, slug: Text -> Text)
    requires IsSlugger(slug) && Founding(d, slug) && forall i :: 0 <= i < |runs| ==> NotBlank(runs[i].req)
    requires NotBlank(last) && AllGood(out)
    ensures var crashed, name := AfterRuns(d, runs, slug), Trim(Requested(last));
      var d' := Apply(crashed, RunWrites(crashed, last, out, slug));
      && (Founding(crashed, slug) <==> !Strayed(crashed, slug))
      && (Requested(last) != [] ==>
            (Founded(d', name, slug) <==>
               !Strayed(crashed, slug)
               && if crashed.identity.Some? then Persisted(crashed) == Some(name) else Keepable(name)))
      && (Requested(last) == [] ==> forall n :: Founded(d', n, slug) <==> Founded(crashed, n, slug))
  {
    hide Founding, Founded, Strayed, RunWrites, NotBlank, IsSlugger, AllGood, Requested, Keepable, Persisted, Trim;
    RunsFound(d, runs, slug);
    var crashed := AfterRuns(d, runs, slug);
    StrayedIsNotFounding(crashed, slug);
    if Strayed(crashed, slug) {
      NeverFounded(crashed, last, out, slug);
    } else if Requested(last) != [] {
      GoodFounding(crashed, last, out, slug);
    } else {
      NobodyFounds(crashed, last, out, slug);
    }
  }

  lemma NeverFounded(d: Disk, last: Request, out: Outcome, slug: Text -> Text)
    requires IsSlugger(slug) && NotBlank(last) && Strayed(d, slug)
    ensures forall n :: !Founded(d, n, slug) && !Founded(Apply(d, RunWrites(d, last, out, slug)), n, slug)
  {
    hide Founding, Strayed, RunWrites, NotBlank, IsSlugger;
    var ws := RunWrites(d, last, out, slug);
    StrayedRun(d, CutRun(last, out, |ws|), slug);
    assert ws[..|ws|] == ws;
    StrayedIsNotFounding(d, slug);
    StrayedIsNotFounding(Apply(d, ws), slug);
  }

  lemma NobodyFounds(d: Disk, last: Request, out: Outcome, slug: Text -> Text)
    requires NotBlank(last) && Founding(d, slug) && Requested(last) == []
    ensures forall n :: Founded(Apply(d, RunWrites(d, last, out, slug)), n, slug) <==> Founded(d, n, slug)
  {
    hide RunWrites, ReadMarker, ReadDeveloper, PendingJoiners, FreshTemp, Trim, NotBlank;
    FoundingRun(d, last, out, slug);
    UnfoundedStays(d, last, out, slug);
    var d' := Apply(d, RunWrites(d, last, out, slug));
    assert forall n :: Founded(d', n, slug) ==> d'.tasks != map[] by {
      assert Bootstrap in map[Bootstrap := Complete];
    }
  }

  /** A founding run that publishes its task goes astray exactly when it leaves no
      identity: it could not be written or is not a path segment. The project is
      then one which its own founder has to join. */
  lemma UnidentifiedFounderMustJoin(d: Disk, req: Request, out: Outcome, slug: Text -> Text)
    requires IsSlugger(slug) && NotBlank(req) && Founding(d, slug) && d.identity.None?
    requires Founds(d, req, out) && out.kernelOk
    ensures var d' := Apply(d, RunWrites(d, req, out, slug));
      && (Strayed(d', slug) <==> !(out.identityWritable && IsSegment(Trim(Requested(req)))))
      && (Strayed(d', slug) ==> Idle(d', slug))
  {
    hide RunWrites, ReadMarker, ReadDeveloper, IdentityText, IsSegment, Trim, Requested, PendingJoiners, Strayed, FreshTemp;
    var name := Trim(Requested(req));
    var d' := Apply(d, RunWrites(d, req, out, slug));
    BootstrapEffect(d, req, out, slug);
    NoJoinerLeft(d, d');
    if out.identityWritable && IsSegment(name) {
      IdentityRoundTrip(name, req.stamp);
      StrayedIsNotFounding(d', slug);
    } else {
      StraysHere(d', slug);
    }
  }
}
