/** Convergence of `pactile init`: which interrupted runs a later run completes. */
module OnboardingProgress {
  import opened JsText
  import opened InitMarker
  import opened Options
  import opened Onboarding
  import opened OnboardingSafety

  // ---- Requests ----

  /** The run names `name`, or nobody. */
  predicate Compatible(req: Request, name: Text) { Requested(req) == [] || Trim(Requested(req)) == name }

  /** The run was not given a name of white space only. */
  predicate NotBlank(req: Request) { req.user == [] || Trim(req.user) != [] }

  /** The run is given a name that it will act on when nothing is pending. */
  predicate Asks(req: Request)
  {
    req.user != [] || (Trim(req.gitName) != [] && (req.force || req.skipExisting))
  }

  /** Every step outside this model succeeds. */
  predicate AllGood(out: Outcome)
  {
    out.lifecycle.Committed? && out.identityWritable && out.kernelOk
  }

  lemma RequestedFacts(req: Request)
    requires NotBlank(req)
    ensures Requested(req) == [] <==> Trim(Requested(req)) == []
    ensures req.user == [] ==> Trim(Requested(req)) == Requested(req)
  {
    TrimOfTrimmed(req.gitName);
  }

  // ---- Disks on which at most one developer is joining ----

  /** An existing project: its own bootstrap is over. */
  predicate Standing(d: Disk, slug: Text -> Text)
  {
    && FreshTemp(d) && d.root && d.tasks != map[] && !HasMarker(d, Bootstrap, slug)
    && (d.identity.Some? ==> Persisted(d).Some?)
  }

  /** Only the onboarding below `s` may be under way, and its marker is valid. */
  ghost predicate Within(d: Disk, s: Text, slug: Text -> Text)
  {
    && Standing(d, slug)
    && (forall t: Text :: Join(t) in d.markers ==> t == s)
    && (Join(s) in d.markers ==> HasMarker(d, Join(s), slug))
  }

  ghost predicate Orderly(d: Disk, slug: Text -> Text) { exists s :: Within(d, s, slug) }

  /** `name` has joined: identity and finished task on disk, marker gone. */
  ghost predicate Joined(d: Disk, name: Text, slug: Text -> Text)
  {
    && Standing(d, slug) && PendingJoiners(d) == {}
    && Persisted(d) == Some(name) && IsComplete(d, Join(slug(name)))
  }

  /** An unfinished directory stands where the task of `name` belongs. */
  predicate Blocked(d: Disk, name: Text, slug: Text -> Text)
  {
    Join(slug(name)) in d.tasks && !IsComplete(d, Join(slug(name)))
  }

  lemma PendingIs(d: Disk, s: Text, slug: Text -> Text)
    requires Within(d, s, slug)
    ensures PendingJoiners(d) == if Join(s) in d.markers then {Join(s)} else {}
  {
    hide ReadMarker, ReadDeveloper;
    assert forall t :: t in PendingJoiners(d) ==> t == Join(t.slug);
  }

  // ---- Writes that concern one onboarding ----

  /** Writes that only concern the staging area. */
  predicate Quiet(w: Write)
  {
    w.MakeStagingRoot? || w.RemoveStagingRoot? || w.MakeStaging? || w.FillStaging? || w.RemoveStaging?
  }

  predicate About(w: Write, s: Text)
  {
    match w
    case WriteMarker(task, _) => task == Join(s)
    case RemoveMarker(task) => task == Join(s)
    case WriteIdentity(content, origin) => ReadDeveloper(content).Some? && origin.WrittenByJoiner?
    case Publish(_, task) => task == Join(s)
    case _ => Quiet(w)
  }

  predicate AllAbout(ws: seq<Write>, s: Text) { forall w :: w in ws ==> About(w, s) }

  lemma StepStaysWithin(d: Disk, w: Write, s: Text, slug: Text -> Text)
    requires Within(d, s, slug) && Allowed(d, w, slug) && About(w, s)
    ensures Within(Step(d, w), s, slug)
  {
    hide ReadMarker, ReadDeveloper;
    StepKeepsTemp(d, w, slug);
    assert MarkerAt(Step(d, w), Bootstrap, slug) == MarkerAt(d, Bootstrap, slug);
  }

  lemma {:induction false} WritesStayWithin(d: Disk, ws: seq<Write>, s: Text, slug: Text -> Text)
    requires Within(d, s, slug) && AllAllowed(d, ws, slug) && AllAbout(ws, s)
    ensures Within(Apply(d, ws), s, slug)
    decreases |ws|
  {
    hide Within, Allowed, About;
    if ws != [] {
      StepStaysWithin(d, ws[0], s, slug);
      WritesStayWithin(Step(d, ws[0]), ws[1..], s, slug);
    }
  }

  lemma SkeletonIsAbout(d: Disk, s: Text, kernelOk: bool, slug: Text -> Text)
    ensures AllAbout(Skeleton(d, Join(s), kernelOk, slug).writes, s)
  {
    hide ReadMarker, NameFits, MarkerContent;
    EnsureMarkerWrites(d, Join(s), [], slug);
  }

  lemma InitializeIsAbout(d: Disk, developer: Text, stamp: Text, writable: bool, s: Text)
    ensures AllAbout(InitializeDeveloper(d, developer, WrittenByJoiner(Trim(developer)), stamp, writable), s)
  {
    hide ReadDeveloper, IdentityText, IsSegment, Trim;
    if IsSegment(Trim(developer)) {
      IdentityRoundTrip(Trim(developer), stamp);
    }
  }

  lemma AnnounceAndJoinIsAbout(d: Disk, developer: Text, req: Request, out: Outcome, slug: Text -> Text)
    ensures AllAbout(AnnounceAndJoin(d, developer, req, out, slug), slug(developer))
  {
    hide EnsureMarker, InitializeDeveloper, Skeleton, Trim;
    var s := slug(developer);
    var intent := EnsureMarker(d, Join(s), developer, slug);
    EnsureMarkerWrites(d, Join(s), developer, slug);
    var d' := Apply(d, intent.writes);
    InitializeIsAbout(d', developer, req.stamp, out.identityWritable, s);
    var identity := InitializeDeveloper(d', developer, WrittenByJoiner(Trim(developer)), req.stamp, out.identityWritable);
    SkeletonIsAbout(Apply(d', identity), s, out.kernelOk, slug);
  }

  // ---- Whom a run acts for ----

  /** Whom the identity names, or else the marker, or else the request. */
  function NamedBy(d: Disk, req: Request, slug: Text -> Text): Text
  {
    Persisted(d).GetOr(PendingName(d, slug).GetOr(Trim(Requested(req))))
  }

  /** The developer a run acts for. With nothing pending it is whoever is asked
      for, unless there is an identity; with a marker there, the request and the
      marker have to agree with the one who is named. */
  function Intent(d: Disk, req: Request, slug: Text -> Text): Option<Text>
  {
    var requested := Trim(Requested(req));
    if PendingJoiners(d) == {} then
      if d.identity.None? && Asks(req) then Some(requested) else None
    else
      var named := NamedBy(d, req, slug);
      if named == [] || (requested != [] && requested != named) || MarkersConflict(d, named, slug) then None
      else Some(named)
  }

  /** The name as the run spells it. */
  function Spelled(req: Request, name: Text): Text { if req.user != [] then req.user else name }

  /** The run's spelling means `name`. */
  predicate SpelledRight(req: Request, name: Text, slug: Text -> Text)
  {
    && name != [] && Trim(name) == name && Spelled(req, name) != []
    && Trim(Spelled(req, name)) == name && slug(Spelled(req, name)) == slug(name)
  }

  /** The marker of `name`, with or without the name. */
  predicate OwnMarker(d: Disk, s: Text, name: Text, slug: Text -> Text)
  {
    slug(name) == s && (MarkerAt(d, Join(s), slug) == Some(Named(name)) || MarkerAt(d, Join(s), slug) == Some(Anonymous))
  }

  /** Does the run get to the point where it acts? */
  predicate GoesAhead(d: Disk, req: Request, out: Outcome)
  {
    out.lifecycle.Committed? || (PendingJoiners(d) == {} && !(req.platforms || req.force || req.skipExisting))
  }

  lemma NoJoinerNoConflict(d: Disk, name: Text, slug: Text -> Text)
    requires PendingJoiners(d) == {}
    ensures !MarkersConflict(d, name, slug) && !AnyValidJoiner(d, slug) && PendingName(d, slug) == None
    ensures !PendingJoiner(d, name, slug)
  {
    hide ReadMarker;
    assert forall task :: task in d.markers && task.Join? ==> task in PendingJoiners(d);
  }

  /** The one marker that is there. */
  lemma OneJoiner(d: Disk, s: Text, slug: Text -> Text)
    requires Within(d, s, slug) && Join(s) in d.markers
    ensures PendingJoiners(d) == {Join(s)} && AnyValidJoiner(d, slug)
    ensures forall name :: MarkersConflict(d, name, slug) <==> ConflictsWith(Join(s), MarkerAt(d, Join(s), slug).value, name, slug)
    ensures PendingName(d, slug)
         == match MarkerAt(d, Join(s), slug).value case Named(name) => Some(name) case Anonymous => None
  {
    hide ReadMarker, ReadDeveloper;
    PendingIs(d, s, slug);
    forall task | task in d.markers && task.Join?
      ensures task == Join(s)
    {
      assert task == Join(task.slug);
    }
  }

  lemma MarkerNameFits(task: TaskName, content: Text, slug: Text -> Text)
    ensures ReadMarker(task, content, slug).Some? && ReadMarker(task, content, slug).value.Named?
            ==> NameFits(ReadMarker(task, content, slug).value.name, task, slug)
  {
    hide NameFits;
  }

  /** What a run does in an existing project, by the name it goes on with. */
  lemma StandingRun(d: Disk, req: Request, out: Outcome, slug: Text -> Text)
    requires Standing(d, slug) && Resolve(d, req, slug).Go?
    ensures var developer := Resolve(d, req, slug).developer;
      RunWrites(d, req, out, slug)
      == if PendingJoiner(d, developer, slug) then
           if out.lifecycle.Committed? then AnnounceAndJoin(d, developer, req, out, slug) else []
         else if d.identity.None? && developer != [] && (req.user != [] || req.force || req.skipExisting)
                 && (out.lifecycle.Committed? || !(req.platforms || req.force || req.skipExisting))
         then AnnounceAndJoin(d, developer, req, out, slug) else []
  {
    hide Resolve, HasMarker, AnnounceAndJoin, InitializeDeveloper, Trim, ReadDeveloper, FreshTemp, RootWrites;
    var developer := Resolve(d, req, slug).developer;
    UserIsName(d, req, slug);
    RootIsThere(d, out);
    IdentityIsThere(d, developer, req.stamp, out.identityWritable);
    var ws := AnnounceAndJoin(d, developer, req, out, slug);
    assert [] + ws == ws;
  }

  lemma RootIsThere(d: Disk, out: Outcome)
    requires d.root
    ensures RootWrites(d, out) == [] && Apply(d, []) == d
  {
  }

  lemma IdentityIsThere(d: Disk, developer: Text, stamp: Text, writable: bool)
    ensures Persisted(d).Some? ==> InitializeDeveloper(d, developer, Written, stamp, writable) == []
  {
  }

  lemma UserIsName(d: Disk, req: Request, slug: Text -> Text)
    requires Resolve(d, req, slug).Go?
    ensures req.user != [] ==> Resolve(d, req, slug).developer == req.user
  {
    hide Irreconcilable, Trim, PendingName, HasMarker;
  }

  /** The name on which a run with nothing pending goes on. */
  lemma IdleResolves(d: Disk, req: Request, slug: Text -> Text)
    requires PendingJoiners(d) == {} && d.identity.None?
    ensures Resolve(d, req, slug) == Go(Requested(req))
  {
    hide MarkersConflict, AnyValidJoiner, PendingName, Trim, PendingJoiners;
    NoJoinerNoConflict(d, Trim(Requested(req)), slug);
  }

  lemma SpelledFacts(req: Request, name: Text, slug: Text -> Text)
    requires IsSlugger(slug) && NotBlank(req) && Trim(name) == name
    requires if req.user != [] then Trim(req.user) == name else true
    ensures Trim(Spelled(req, name)) == name && slug(Spelled(req, name)) == slug(name)
  {
    hide Trim;
    assert slug(Trim(req.user)) == slug(req.user);
  }

  /** Nothing pending: the run joins whom it is asked to join, if anybody. */
  lemma IdleRun(d: Disk, req: Request, out: Outcome, slug: Text -> Text)
    requires Standing(d, slug) && NotBlank(req) && PendingJoiners(d) == {}
    ensures var intent := Intent(d, req, slug);
      RunWrites(d, req, out, slug)
      == if intent.Some? && GoesAhead(d, req, out)
         then AnnounceAndJoin(d, Spelled(req, intent.value), req, out, slug) else []
  {
    hide Standing, Resolve, Trim, AnnounceAndJoin, PendingJoiner, PendingJoiners, RunWrites;
    RequestedFacts(req);
    if d.identity.None? {
      IdleResolves(d, req, slug);
    }
    if Resolve(d, req, slug).Go? {
      NoJoinerNoConflict(d, Resolve(d, req, slug).developer, slug);
      StandingRun(d, req, out, slug);
    } else {
      StoppedRun(d, req, out, slug);
    }
  }

  lemma StoppedRun(d: Disk, req: Request, out: Outcome, slug: Text -> Text)
    requires Resolve(d, req, slug).Stop?
    ensures RunWrites(d, req, out, slug) == []
  {
    hide Resolve;
  }

  /** Who is named agrees with the request and with the marker, or the run stops or
      has nobody to act for. */
  lemma PendingResolves(d: Disk, s: Text, req: Request, slug: Text -> Text)
    requires Within(d, s, slug) && NotBlank(req) && Join(s) in d.markers
    ensures var named := NamedBy(d, req, slug);
      if Intent(d, req, slug).Some? then Resolve(d, req, slug) == Go(Spelled(req, named))
      else Resolve(d, req, slug) in {Stop, Go([])}
  {
    hide ReadMarker, ReadDeveloper, Trim, MarkersConflict, AnyValidJoiner, PendingName, PendingJoiners, FreshTemp, IsSpaceCode;
    RequestedFacts(req);
    OneJoiner(d, s, slug);
    MarkerNameFits(Join(s), d.markers[Join(s)], slug);
  }

  /** Whom a run acts for with a marker there: the marker is that developer's own
      or the anonymous one of the same task. */
  lemma PendingIntent(d: Disk, s: Text, req: Request, slug: Text -> Text)
    requires Within(d, s, slug) && Join(s) in d.markers && Intent(d, req, slug).Some?
    ensures var name, marker := Intent(d, req, slug).value, MarkerAt(d, Join(s), slug).value;
      && name != [] && slug(name) == s && (marker == Named(name) || marker == Anonymous)
      && (Persisted(d).Some? ==> Persisted(d).value == name)
      && Trim(name) == name
      && (Requested(req) != [] && Trim(Requested(req)) != [] ==> Trim(Requested(req)) == name)
  {
    hide ReadMarker, ReadDeveloper, Trim, MarkersConflict, AnyValidJoiner, PendingName, PendingJoiners, FreshTemp;
    OneJoiner(d, s, slug);
    MarkerNameFits(Join(s), d.markers[Join(s)], slug);
    NamedIsTrimmed(d, s, req, slug);
  }

  lemma NamedIsTrimmed(d: Disk, s: Text, req: Request, slug: Text -> Text)
    requires Within(d, s, slug) && Join(s) in d.markers
    ensures Trim(NamedBy(d, req, slug)) == NamedBy(d, req, slug)
  {
    hide ReadMarker, ReadDeveloper, Trim, MarkersConflict, PendingName, PendingJoiners, FreshTemp;
    OneJoiner(d, s, slug);
    MarkerNameFits(Join(s), d.markers[Join(s)], slug);
    TrimOfTrimmed(Requested(req));
    if d.identity.Some? {
      ReadDeveloperIsTrimmed(d.identity.value.content);
    }
  }

  /** A run writes nothing or joins the developer it acts for. */
  lemma RunActs(d: Disk, s: Text, req: Request, out: Outcome, slug: Text -> Text)
    requires IsSlugger(slug) && Within(d, s, slug) && NotBlank(req)
    ensures var intent := Intent(d, req, slug);
      RunWrites(d, req, out, slug)
      == if intent.Some? && GoesAhead(d, req, out)
         then AnnounceAndJoin(d, Spelled(req, intent.value), req, out, slug) else []
    ensures Intent(d, req, slug).Some? ==>
      var name := Intent(d, req, slug).value;
      SpelledRight(req, name, slug) && (Join(s) in d.markers ==> OwnMarker(d, s, name, slug))
  {
    hide Standing, Resolve, Trim, AnnounceAndJoin, PendingJoiners, RunWrites, Intent, NotBlank, IsSlugger, OwnMarker, SpelledRight, GoesAhead;
    PendingIs(d, s, slug);
    if Join(s) in d.markers {
      PendingRun(d, s, req, out, slug);
    } else {
      IdleRun(d, req, out, slug);
      if Intent(d, req, slug).Some? {
        IdleIntent(d, req, slug);
      }
    }
  }

  lemma IdleIntent(d: Disk, req: Request, slug: Text -> Text)
    requires IsSlugger(slug) && NotBlank(req) && PendingJoiners(d) == {} && Intent(d, req, slug).Some?
    ensures SpelledRight(req, Intent(d, req, slug).value, slug)
  {
    hide Trim, PendingJoiners;
    RequestedFacts(req);
    TrimOfTrimmed(Requested(req));
    SpelledFacts(req, Trim(Requested(req)), slug);
  }

  lemma PendingRun(d: Disk, s: Text, req: Request, out: Outcome, slug: Text -> Text)
    requires IsSlugger(slug) && Within(d, s, slug) && NotBlank(req) && Join(s) in d.markers
    ensures var intent := Intent(d, req, slug);
      RunWrites(d, req, out, slug)
      == if intent.Some? && GoesAhead(d, req, out)
         then AnnounceAndJoin(d, Spelled(req, intent.value), req, out, slug) else []
    ensures Intent(d, req, slug).Some? ==>
      var name := Intent(d, req, slug).value;
      SpelledRight(req, name, slug) && OwnMarker(d, s, name, slug)
  {
    hide Resolve, Trim, AnnounceAndJoin, PendingJoiners, RunWrites, ReadMarker, MarkersConflict, PendingName, Persisted;
    PendingResolves(d, s, req, slug);
    RequestedFacts(req);
    OneJoiner(d, s, slug);
    var intent := Intent(d, req, slug);
    if intent.Some? {
      PendingIntent(d, s, req, slug);
      SpelledFacts(req, intent.value, slug);
    }
    if Resolve(d, req, slug).Go? {
      StandingRun(d, req, out, slug);
    } else {
      StoppedRun(d, req, out, slug);
    }
  }

  // ---- What a joining run achieves ----

  lemma NobodyPending(d: Disk, s: Text, s': Text, slug: Text -> Text)
    requires Within(d, s, slug) && Join(s) !in d.markers
    ensures Within(d, s', slug)
  {
    hide ReadMarker, ReadDeveloper;
  }

  /** The intent is on disk. */
  lemma AnnounceEffect(d: Disk, developer: Text, name: Text, slug: Text -> Text)
    requires developer != [] && Trim(developer) == name && slug(developer) == slug(name) && Within(d, slug(name), slug)
    requires Join(slug(name)) in d.markers ==> OwnMarker(d, slug(name), name, slug)
    ensures var e := EnsureMarker(d, Join(slug(developer)), developer, slug);
      var d' := Apply(d, e.writes);
      e.ok && d' == d.(markers := d'.markers) && Within(d', slug(name), slug) && Join(slug(name)) in d'.markers
  {
    hide ReadMarker, ReadDeveloper, Trim, NameFits, MarkerContent, Allowed, About, Within;
    var task := Join(slug(name));
    var e := EnsureMarker(d, task, developer, slug);
    MarkerRoundTrip(task, developer, slug);
    EnsureMarkerEffect(d, task, developer, slug);
    EnsureMarkerWrites(d, task, developer, slug);
    EnsureMarkerAllowed(d, task, developer, slug);
    if task in d.markers {
      MarkerNameFits(task, d.markers[task], slug);
    }
    assert AllAbout(e.writes, slug(name)) by {
      MarkerIsAbout(MarkerContent(task, developer, slug), slug(name));
    }
    WritesStayWithin(d, e.writes, slug(name), slug);
  }

  lemma MarkerIsAbout(content: Text, s: Text)
    ensures About(WriteMarker(Join(s), content), s)
  {
  }

  /** With the intent on disk, identity and task follow. */
  lemma JoinEffect(d: Disk, developer: Text, req: Request, out: Outcome, slug: Text -> Text)
    requires IsSlugger(slug) && AllGood(out) && Within(d, slug(developer), slug) && Join(slug(developer)) in d.markers
    ensures var d', task := Apply(d, JoinWrites(d, developer, req, out, slug)), Join(slug(developer));
      && Within(d', slug(developer), slug)
      && (if d.identity.Some? || !IsSegment(Trim(developer)) then d'.identity == d.identity
          else d'.identity.Some? && d'.identity.value.content == IdentityText(Trim(developer), req.stamp))
      && (if task in d.tasks && !IsComplete(d, task) then task in d'.markers
          else task !in d'.markers && IsComplete(d', task))
  {
    hide ReadMarker, ReadDeveloper, Trim, IsSegment, Skeleton, Allowed, About, IdentityText, EnsureMarker;
    var task := Join(slug(developer));
    var identity := InitializeDeveloper(d, developer, WrittenByJoiner(Trim(developer)), req.stamp, true);
    var d' := Apply(d, identity);
    assert slug(Trim(developer)) == slug(developer);
    InitializeEffect(d, developer, WrittenByJoiner(Trim(developer)), req.stamp, true, slug);
    InitializeIsAbout(d, developer, req.stamp, true, slug(developer));
    WritesStayWithin(d, identity, slug(developer), slug);
    SkeletonEffect(d', task, true, slug);
    SkeletonIsAbout(d', slug(developer), true, slug);
    var ws := Skeleton(d', task, true, slug).writes;
    WritesStayWithin(d', ws, slug(developer), slug);
    EnsureMarkerEffect(d', task, [], slug);
    ApplyConcat(d, identity, ws);
  }

  /** The identity file can carry the name. */
  predicate Keepable(name: Text) { IsSegment(name) && ReadsBack(name) }

  /** What is left to check once it is clear for whom the run acts. */
  predicate CanJoin(d: Disk, name: Text, slug: Text -> Text)
  {
    (d.identity.Some? || Keepable(name)) && !Blocked(d, name, slug)
  }

  lemma ActEffect(d: Disk, req: Request, out: Outcome, name: Text, slug: Text -> Text)
    requires IsSlugger(slug) && AllGood(out) && Within(d, slug(name), slug) && SpelledRight(req, name, slug)
    requires Join(slug(name)) in d.markers ==> OwnMarker(d, slug(name), name, slug)
    requires d.identity.Some? ==> Persisted(d) == Some(name)
    ensures Joined(Apply(d, AnnounceAndJoin(d, Spelled(req, name), req, out, slug)), name, slug) <==> CanJoin(d, name, slug)
  {
    hide ReadMarker, ReadDeveloper, Trim, EnsureMarker, JoinWrites, IsSlugger, OwnMarker, AllGood, IsSegment, ReadsBack, IdentityText, Spelled, PendingJoiners;
    var developer := Spelled(req, name);
    var intent := EnsureMarker(d, Join(slug(name)), developer, slug);
    AnnounceEffect(d, developer, name, slug);
    var d1 := Apply(d, intent.writes);
    JoinEffect(d1, developer, req, out, slug);
    var rest := JoinWrites(d1, developer, req, out, slug);
    ApplyConcat(d, intent.writes, rest);
    PendingIs(Apply(d1, rest), slug(name), slug);
    if IsSegment(name) {
      IdentityRoundTrip(name, req.stamp);
    }
  }

  /** A good run joins exactly the developer it acts for, if the identity file can
      carry the name or does so already, and nothing stands in the way of the task;
      without such a developer it writes nothing. */
  lemma GoodRun(d: Disk, req: Request, out: Outcome, slug: Text -> Text)
    requires IsSlugger(slug) && Orderly(d, slug) && NotBlank(req) && AllGood(out)
    ensures var d', intent := Apply(d, RunWrites(d, req, out, slug)), Intent(d, req, slug);
      match intent
      case None => RunWrites(d, req, out, slug) == []
      case Some(name) => Joined(d', name, slug) <==> CanJoin(d, name, slug)
  {
    hide Within, RunWrites, AnnounceAndJoin, Joined, CanJoin, Intent, SpelledRight, OwnMarker, NotBlank, IsSlugger, Persisted;
    var s :| Within(d, s, slug);
    RunActs(d, s, req, out, slug);
    var intent := Intent(d, req, slug);
    if intent.Some? {
      IntentMeetsIdentity(d, s, req, slug);
      if Join(s) !in d.markers {
        NobodyPending(d, s, slug(intent.value), slug);
        OnlyWithin(d, s, slug(intent.value), slug);
      } else {
        OwnMarkerSlug(d, s, intent.value, slug);
      }
      ActEffect(d, req, out, intent.value, slug);
    }
  }

  lemma OnlyWithin(d: Disk, s: Text, s': Text, slug: Text -> Text)
    requires Within(d, s, slug) && Join(s) !in d.markers
    ensures Join(s') !in d.markers
  {
    hide ReadMarker, ReadDeveloper;
  }

  lemma OwnMarkerSlug(d: Disk, s: Text, name: Text, slug: Text -> Text)
    requires OwnMarker(d, s, name, slug)
    ensures slug(name) == s
  {
  }

  lemma IntentMeetsIdentity(d: Disk, s: Text, req: Request, slug: Text -> Text)
    requires Within(d, s, slug) && Intent(d, req, slug).Some?
    ensures d.identity.Some? ==> Persisted(d) == Some(Intent(d, req, slug).value)
  {
    hide ReadMarker, ReadDeveloper, Trim, PendingName, MarkersConflict, PendingJoiners, FreshTemp;
  }

  // ---- Whole runs keep the disk orderly ----

  /** All that a run writes concerns one onboarding, the one under way if there is one. */
  lemma RunIsAbout(d: Disk, req: Request, out: Outcome, slug: Text -> Text) returns (s: Text)
    requires IsSlugger(slug) && Orderly(d, slug) && NotBlank(req)
    ensures Within(d, s, slug) && AllAbout(RunWrites(d, req, out, slug), s)
  {
    hide Within, RunWrites, AnnounceAndJoin, Intent, SpelledRight, OwnMarker, NotBlank, IsSlugger, About;
    s :| Within(d, s, slug);
    RunActs(d, s, req, out, slug);
    var intent := Intent(d, req, slug);
    if intent.Some? && GoesAhead(d, req, out) {
      var developer := Spelled(req, intent.value);
      SpelledSlug(req, intent.value, slug);
      AnnounceAndJoinIsAbout(d, developer, req, out, slug);
      if Join(s) !in d.markers {
        NobodyPending(d, s, slug(developer), slug);
        s := slug(developer);
      } else {
        OwnMarkerSlug(d, s, intent.value, slug);
      }
    }
  }

  /** Whoever a run is for, and wherever it is cut off. */
  lemma RunStaysOrderly(d: Disk, run: CutRun, slug: Text -> Text)
    requires IsSlugger(slug) && Orderly(d, slug) && NotBlank(run.req)
    ensures Orderly(AfterRun(d, run, slug), slug)
  {
    hide Within, RunWrites, NotBlank, IsSlugger, About, Allowed;
    var s := RunIsAbout(d, run.req, run.out, slug);
    WithinIsFresh(d, s, slug);
    RunAllowed(d, run.req, run.out, slug);
    CutAllowed(d, RunWrites(d, run.req, run.out, slug), run.writes, slug);
    WritesStayWithin(d, Cut(RunWrites(d, run.req, run.out, slug), run.writes), s, slug);
  }

  lemma SpelledSlug(req: Request, name: Text, slug: Text -> Text)
    requires SpelledRight(req, name, slug)
    ensures slug(Spelled(req, name)) == slug(name)
  {
  }

  lemma WithinIsFresh(d: Disk, s: Text, slug: Text -> Text)
    requires Within(d, s, slug)
    ensures FreshTemp(d)
  {
  }

  lemma {:induction false} RunsStayOrderly(d: Disk, runs: seq<CutRun>, slug: Text -> Text)
    requires IsSlugger(slug) && Orderly(d, slug) && forall i :: 0 <= i < |runs| ==> NotBlank(runs[i].req)
    ensures Orderly(AfterRuns(d, runs, slug), slug)
    decreases |runs|
  {
    hide Orderly, RunWrites, NotBlank, IsSlugger, AfterRun;
    if runs != [] {
      RunStaysOrderly(d, runs[0], slug);
      RunsStayOrderly(AfterRun(d, runs[0], slug), runs[1..], slug);
    }
  }

  /** Convergence: whatever runs, for whatever developers, were cut off, and
      wherever, one more run whose steps all succeed joins the developer it acts
      for exactly when the identity file carries the name and no unfinished
      directory is in the way; and it writes nothing when it acts for nobody. */
  lemma Convergence(d: Disk, runs: seq<CutRun>, last: Request, out: Outcome, slug: Text -> Text)
    requires IsSlugger(slug) && Orderly(d, slug) && forall i :: 0 <= i < |runs| ==> NotBlank(runs[i].req)
    requires NotBlank(last) && AllGood(out)
    ensures var crashed := AfterRuns(d, runs, slug);
      && Orderly(crashed, slug)
      && match Intent(crashed, last, slug)
         case None => RunWrites(crashed, last, out, slug) == []
         case Some(name) =>
           Joined(Apply(crashed, RunWrites(crashed, last, out, slug)), name, slug) <==> CanJoin(crashed, name, slug)
  {
    hide Orderly, RunWrites, NotBlank, IsSlugger, AllGood, Joined, CanJoin, Intent;
    RunsStayOrderly(d, runs, slug);
    GoodRun(AfterRuns(d, runs, slug), last, out, slug);
  }

  // ---- Once somebody is recorded ----

  /** The marker names `name`, and the identity, if there is one, does too. */
  ghost predicate Recorded(d: Disk, name: Text, slug: Text -> Text)
  {
    && Within(d, slug(name), slug) && MarkerAt(d, Join(slug(name)), slug) == Some(Named(name))
    && (d.identity.Some? ==> Persisted(d) == Some(name))
  }

  lemma RecordedIntent(d: Disk, req: Request, name: Text, slug: Text -> Text)
    requires Recorded(d, name, slug) && NotBlank(req)
    ensures Intent(d, req, slug) == if Compatible(req, name) then Some(name) else None
  {
    hide ReadMarker, ReadDeveloper, Trim, MarkersConflict, PendingName, PendingJoiners, FreshTemp, NameFits;
    OneJoiner(d, slug(name), slug);
    MarkerNameFits(Join(slug(name)), d.markers[Join(slug(name))], slug);
    FittingName(name, slug);
    RequestedFacts(req);
  }

  lemma FittingName(name: Text, slug: Text -> Text)
    requires NameFits(name, Join(slug(name)), slug)
    ensures name != [] && Trim(name) == name
  {
  }

  /** From a recorded intent a good run ends the onboarding exactly when it names
      that developer or nobody, the identity file can carry the name and nothing
      stands in the way of the task. */
  lemma RecordedConverges(d: Disk, last: Request, out: Outcome, name: Text, slug: Text -> Text)
    requires IsSlugger(slug) && Recorded(d, name, slug) && AllGood(out)
    ensures Joined(Apply(d, RunWrites(d, last, out, slug)), name, slug)
       <==> Compatible(last, name) && CanJoin(d, name, slug)
  {
    hide Within, RunWrites, Joined, CanJoin, Intent, Persisted, ReadMarker, Trim, Compatible, IsSlugger, AllGood;
    MarkerNameFits(Join(slug(name)), d.markers[Join(slug(name))], slug);
    FittingName(name, slug);
    MarkerIsPending(d, name, slug);
    if NotBlank(last) {
      RecordedIntent(d, last, name, slug);
      GoodRun(d, last, out, slug);
    } else {
      BlankIsNobody(last, name);
      BlankLeavesMarker(d, last, out, name, slug);
      MarkerIsPending(Apply(d, RunWrites(d, last, out, slug)), name, slug);
    }
  }

  lemma MarkerIsPending(d: Disk, name: Text, slug: Text -> Text)
    ensures Join(slug(name)) in d.markers ==> !Joined(d, name, slug)
  {
    hide Standing, Persisted;
    assert Join(slug(name)) in d.markers ==> Join(slug(name)) in PendingJoiners(d);
  }

  lemma BlankIsNobody(req: Request, name: Text)
    requires !NotBlank(req) && name != []
    ensures !Compatible(req, name)
  {
  }

  lemma {:induction false} OthersMarkersStay(d: Disk, ws: seq<Write>, s: Text, t: Text)
    requires AllAbout(ws, s) && t != s
    ensures Join(t) in Apply(d, ws).markers <==> Join(t) in d.markers
    decreases |ws|
  {
    hide ReadDeveloper;
    if ws != [] {
      assert About(ws[0], s) && AllAbout(ws[1..], s);
      OthersMarkersStay(Step(d, ws[0]), ws[1..], s, t);
    }
  }

  lemma BlankLeavesMarker(d: Disk, req: Request, out: Outcome, name: Text, slug: Text -> Text)
    requires IsSlugger(slug) && Recorded(d, name, slug) && !NotBlank(req)
    ensures Join(slug(name)) in Apply(d, RunWrites(d, req, out, slug)).markers
  {
    hide RunWrites, ReadDeveloper, ReadMarker, Resolve, NameFits, PendingJoiners, Trim, AnnounceAndJoin, PendingJoiner;
    BlankActs(d, req, out, name, slug);
    AnnounceAndJoinIsAbout(d, req.user, req, out, slug);
    if slug(req.user) != slug(name) {
      OthersMarkersStay(d, AnnounceAndJoin(d, req.user, req, out, slug), slug(req.user), slug(name));
    }
  }

  lemma BlankActs(d: Disk, req: Request, out: Outcome, name: Text, slug: Text -> Text)
    requires Recorded(d, name, slug) && !NotBlank(req)
    ensures RunWrites(d, req, out, slug) in {[], AnnounceAndJoin(d, req.user, req, out, slug)}
    ensures slug(req.user) == slug(name) ==> AnnounceAndJoin(d, req.user, req, out, slug) == []
  {
    hide RunWrites, ReadDeveloper, ReadMarker, Resolve, PendingJoiners, PendingJoiner, JoinWrites;
    BlankIsRefused(d, req.user, name, slug);
    if Resolve(d, req, slug).Go? {
      UserIsName(d, req, slug);
      StandingRun(d, req, out, slug);
    } else {
      StoppedRun(d, req, out, slug);
    }
  }

  lemma BlankIsRefused(d: Disk, user: Text, name: Text, slug: Text -> Text)
    requires MarkerAt(d, Join(slug(name)), slug) == Some(Named(name)) && user != [] && Trim(user) == []
    ensures slug(user) == slug(name) ==> EnsureMarker(d, Join(slug(user)), user, slug) == Effect(false, [])
  {
    hide ReadMarker, MarkerContent;
  }

  /** Whoever else is asked for, a run leaves a recorded intent, and a finished
      onboarding, exactly as they are. */
  lemma StrangersWriteNothing(d: Disk, req: Request, out: Outcome, name: Text, slug: Text -> Text)
    requires IsSlugger(slug) && NotBlank(req) && !Compatible(req, name)
    requires Recorded(d, name, slug) || Joined(d, name, slug)
    ensures RunWrites(d, req, out, slug) == []
  {
    hide RunWrites, Intent, Compatible, NotBlank, IsSlugger, ReadMarker, ReadDeveloper, AnnounceAndJoin, PendingJoiners, Trim;
    if Recorded(d, name, slug) {
      RecordedIntent(d, req, name, slug);
      RunActs(d, slug(name), req, out, slug);
    } else {
      JoinedIntent(d, req, name, slug);
      IdleRun(d, req, out, slug);
    }
  }

  lemma JoinedIntent(d: Disk, req: Request, name: Text, slug: Text -> Text)
    requires Joined(d, name, slug)
    ensures Intent(d, req, slug) == None
  {
    hide ReadMarker, ReadDeveloper, Trim;
  }

  // ---- One developer at a time ----

  /** A name that marker and identity file both give back. */
  predicate Durable(name: Text, slug: Text -> Text) { NameFits(name, Join(slug(name)), slug) && Keepable(name) }

  /** Nothing is recorded at all. */
  predicate Idle(d: Disk, slug: Text -> Text) { Standing(d, slug) && PendingJoiners(d) == {} && d.identity.None? }

  /** `name` is recorded or has joined, or nothing is recorded. */
  ghost predicate On(d: Disk, name: Text, slug: Text -> Text)
  {
    && Within(d, slug(name), slug)
    && (Join(slug(name)) in d.markers ==> MarkerAt(d, Join(slug(name)), slug) == Some(Named(name)))
    && (d.identity.Some? ==> Persisted(d) == Some(name))
    && (d.identity.Some? && Join(slug(name)) !in d.markers ==> IsComplete(d, Join(slug(name))))
  }

  lemma OnMeans(d: Disk, name: Text, slug: Text -> Text)
    ensures On(d, name, slug) <==> Idle(d, slug) || Recorded(d, name, slug) || Joined(d, name, slug)
  {
    hide ReadMarker, ReadDeveloper, FreshTemp;
    forall t: Text
      ensures Join(t) in d.markers <==> Join(t) in PendingJoiners(d)
    {
    }
    if Within(d, slug(name), slug) {
      PendingIs(d, slug(name), slug);
    }
  }

  predicate AboutName(w: Write, name: Text, slug: Text -> Text)
  {
    && About(w, slug(name))
    && (w.WriteMarker? ==> ReadMarker(Join(slug(name)), w.content, slug) == Some(Named(name)))
    && (w.WriteIdentity? ==> ReadDeveloper(w.content) == Some(name))
  }

  predicate AllAboutName(ws: seq<Write>, name: Text, slug: Text -> Text) { forall w :: w in ws ==> AboutName(w, name, slug) }

  lemma StepStaysOn(d: Disk, w: Write, name: Text, slug: Text -> Text)
    requires On(d, name, slug) && Allowed(d, w, slug) && AboutName(w, name, slug)
    ensures On(Step(d, w), name, slug)
  {
    hide ReadMarker, ReadDeveloper, Standing;
    StepStaysWithin(d, w, slug(name), slug);
    assert w.WriteIdentity? ==> Join(slug(w.origin.name)) in d.markers;
  }

  lemma {:induction false} WritesStayOn(d: Disk, ws: seq<Write>, name: Text, slug: Text -> Text)
    requires On(d, name, slug) && AllAllowed(d, ws, slug) && AllAboutName(ws, name, slug)
    ensures On(Apply(d, ws), name, slug)
    decreases |ws|
  {
    hide On, Allowed, AboutName;
    if ws != [] {
      StepStaysOn(d, ws[0], name, slug);
      WritesStayOn(Step(d, ws[0]), ws[1..], name, slug);
    }
  }

  lemma IdentityIsAboutName(d: Disk, developer: Text, stamp: Text, writable: bool, name: Text, slug: Text -> Text)
    requires Keepable(name) && Trim(developer) == name
    ensures AllAboutName(InitializeDeveloper(d, developer, WrittenByJoiner(name), stamp, writable), name, slug)
  {
    hide ReadDeveloper, ReadMarker, IdentityText, IsSegment, ReadsBack, Trim;
    IdentityRoundTrip(name, stamp);
  }

  /** With a marker there, giving up the task does not write one. */
  lemma SkeletonIsAboutName(d: Disk, kernelOk: bool, name: Text, slug: Text -> Text)
    requires HasMarker(d, Join(slug(name)), slug)
    ensures AllAboutName(Skeleton(d, Join(slug(name)), kernelOk, slug).writes, name, slug)
  {
    hide ReadDeveloper, ReadMarker, EnsureMarker;
    EnsureMarkerEffect(d, Join(slug(name)), [], slug);
    SkeletonIsAbout(d, slug(name), kernelOk, slug);
  }

  lemma MarkerIsAboutName(d: Disk, developer: Text, name: Text, slug: Text -> Text)
    requires NameFits(name, Join(slug(name)), slug) && developer != [] && Trim(developer) == name && slug(developer) == slug(name)
    ensures AllAboutName(EnsureMarker(d, Join(slug(developer)), developer, slug).writes, name, slug)
  {
    hide ReadDeveloper, ReadMarker, EnsureMarker, MarkerContent, NameFits, Trim;
    EnsureMarkerWrites(d, Join(slug(developer)), developer, slug);
    MarkerRoundTrip(Join(slug(developer)), developer, slug);
  }

  lemma AnnounceAndJoinIsAboutName(d: Disk, developer: Text, req: Request, out: Outcome, name: Text, slug: Text -> Text)
    requires Durable(name, slug) && developer != [] && Trim(developer) == name && slug(developer) == slug(name)
    ensures AllAboutName(AnnounceAndJoin(d, developer, req, out, slug), name, slug)
  {
    hide EnsureMarker, InitializeDeveloper, Skeleton, Trim, AboutName, ReadMarker, Keepable, NameFits;
    var task := Join(slug(name));
    var intent := EnsureMarker(d, task, developer, slug);
    MarkerIsAboutName(d, developer, name, slug);
    EnsureMarkerEffect(d, task, developer, slug);
    var d' := Apply(d, intent.writes);
    IdentityIsAboutName(d', developer, req.stamp, out.identityWritable, name, slug);
    var identity := InitializeDeveloper(d', developer, WrittenByJoiner(name), req.stamp, out.identityWritable);
    if intent.ok {
      IdentityKeepsMarkers(d', developer, req.stamp, out.identityWritable, name);
      SkeletonIsAboutName(Apply(d', identity), out.kernelOk, name, slug);
    }
  }

  lemma IdentityKeepsMarkers(d: Disk, developer: Text, stamp: Text, writable: bool, name: Text)
    ensures Apply(d, InitializeDeveloper(d, developer, WrittenByJoiner(name), stamp, writable)).markers == d.markers
  {
    hide ReadDeveloper, IdentityText, IsSegment, Trim;
  }

  /** A run that acts for `name`, or for nobody, keeps the disk on `name`. */
  lemma RunStaysOn(d: Disk, run: CutRun, name: Text, slug: Text -> Text)
    requires IsSlugger(slug) && NotBlank(run.req) && Durable(name, slug) && On(d, name, slug)
    requires Intent(d, run.req, slug) in {None, Some(name)}
    ensures On(AfterRun(d, run, slug), name, slug)
  {
    hide Within, On, RunWrites, AnnounceAndJoin, Intent, NotBlank, IsSlugger, Durable, AboutName, Allowed, OwnMarker;
    OnIsWithin(d, name, slug);
    RunActs(d, slug(name), run.req, run.out, slug);
    var intent := Intent(d, run.req, slug);
    var ws := RunWrites(d, run.req, run.out, slug);
    RunAllowed(d, run.req, run.out, slug);
    CutAllowed(d, ws, run.writes, slug);
    if intent.Some? {
      AnnounceAndJoinIsAboutName(d, Spelled(run.req, name), run.req, run.out, name, slug);
    }
    WritesStayOn(d, Cut(ws, run.writes), name, slug);
  }

  lemma OnIsWithin(d: Disk, name: Text, slug: Text -> Text)
    requires On(d, name, slug)
    ensures Within(d, slug(name), slug) && FreshTemp(d)
  {
    hide ReadMarker, ReadDeveloper;
  }

  /** Only with nothing recorded can a run turn to another developer. */
  lemma OnIntent(d: Disk, req: Request, name: Text, slug: Text -> Text)
    requires NotBlank(req) && On(d, name, slug)
    ensures Intent(d, req, slug) in {None, Some(name)}
         || (Idle(d, slug) && Intent(d, req, slug) == Some(Trim(Requested(req))) && Requested(req) != [])
  {
    hide On, Recorded, Joined, Within, ReadMarker, ReadDeveloper, Trim;
    OnMeans(d, name, slug);
    RequestedFacts(req);
    if Recorded(d, name, slug) {
      RecordedIntent(d, req, name, slug);
    } else if Joined(d, name, slug) {
      JoinedIntent(d, req, name, slug);
    }
  }

  /** However many runs, for whatever developers, are cut off: at any time nothing
      is recorded, or there is one developer who is recorded or has joined. */
  lemma {:induction false} OneAtATime(d: Disk, runs: seq<CutRun>, name: Text, slug: Text -> Text)
    requires IsSlugger(slug) && Durable(name, slug) && On(d, name, slug)
    requires forall i :: 0 <= i < |runs| ==> NotBlank(runs[i].req)
    requires forall i :: 0 <= i < |runs| ==> Requested(runs[i].req) == [] || Durable(Trim(Requested(runs[i].req)), slug)
    ensures exists n :: Durable(n, slug) && On(AfterRuns(d, runs, slug), n, slug)
    decreases |runs|
  {
    hide On, Durable, NotBlank, IsSlugger, AfterRun, Intent, Trim, Requested;
    if runs != [] {
      var req := runs[0].req;
      OnIntent(d, req, name, slug);
      var next := if Intent(d, req, slug) in {None, Some(name)} then name else Trim(Requested(req));
      OnMeans(d, next, slug);
      RunStaysOn(d, runs[0], next, slug);
      OneAtATime(AfterRun(d, runs[0], slug), runs[1..], next, slug);
    }
  }

  // ---- Anonymous markers, and first runs ----

  /** From a marker without a name, as older versions and names the format cannot
      carry leave it: the run joins the developer whom the identity or else the
      request names, exactly when the marker stands where that developer's does. */
  lemma AnonymousConverges(d: Disk, s: Text, last: Request, out: Outcome, slug: Text -> Text)
    requires IsSlugger(slug) && Within(d, s, slug) && MarkerAt(d, Join(s), slug) == Some(Anonymous)
    requires NotBlank(last) && AllGood(out)
    ensures var name := Persisted(d).GetOr(Trim(Requested(last)));
      Joined(Apply(d, RunWrites(d, last, out, slug)), name, slug)
      <==> name != [] && slug(name) == s && Compatible(last, name) && CanJoin(d, name, slug)
  {
    hide Within, RunWrites, Joined, CanJoin, Intent, Persisted, ReadMarker, Trim, Compatible, IsSlugger, AllGood, NotBlank;
    var name := Persisted(d).GetOr(Trim(Requested(last)));
    AnonymousIntent(d, s, last, slug);
    GoodRun(d, last, out, slug);
    NotWhilePending(d, s, name, slug);
  }

  lemma NotWhilePending(d: Disk, s: Text, name: Text, slug: Text -> Text)
    ensures Join(s) in d.markers ==> !Joined(d, name, slug)
  {
    hide Standing, Persisted;
    assert Join(s) in d.markers ==> Join(s) in PendingJoiners(d);
  }

  lemma AnonymousIntent(d: Disk, s: Text, req: Request, slug: Text -> Text)
    requires Within(d, s, slug) && MarkerAt(d, Join(s), slug) == Some(Anonymous) && NotBlank(req)
    ensures var name := Persisted(d).GetOr(Trim(Requested(req)));
      Intent(d, req, slug)
      == if name != [] && slug(name) == s && Compatible(req, name) then Some(name) else None
  {
    hide ReadMarker, ReadDeveloper, Trim, MarkersConflict, PendingName, PendingJoiners, FreshTemp;
    OneJoiner(d, s, slug);
    RequestedFacts(req);
  }

  /** With nothing recorded, a good run joins the developer it is asked to join
      exactly when the identity file can carry the name and no unfinished directory
      is in the way: whether or not the marker can carry it. */
  lemma UncutJoin(d: Disk, req: Request, out: Outcome, slug: Text -> Text)
    requires IsSlugger(slug) && Idle(d, slug) && NotBlank(req) && AllGood(out)
    ensures var name := Trim(Requested(req));
      Joined(Apply(d, RunWrites(d, req, out, slug)), name, slug)
      <==> Asks(req) && Keepable(name) && !Blocked(d, name, slug)
  {
    hide RunWrites, Joined, Standing, Trim, IsSlugger, AllGood, NotBlank, PendingJoiners, Asks, Keepable, Blocked;
    IdleIsOrderly(d, slug);
    GoodRun(d, req, out, slug);
    NotWithoutIdentity(d, Trim(Requested(req)), slug);
  }

  lemma IdleIsOrderly(d: Disk, slug: Text -> Text)
    requires Idle(d, slug)
    ensures Orderly(d, slug)
  {
    hide Standing;
    assert forall t: Text :: Join(t) in d.markers ==> Join(t) in PendingJoiners(d);
    assert Within(d, [], slug);
  }

  lemma NotWithoutIdentity(d: Disk, name: Text, slug: Text -> Text)
    ensures d.identity.None? ==> !Joined(d, name, slug)
  {
    hide Standing, PendingJoiners;
  }

  /** Identity and marker name different people: no run ever writes again. */
  lemma ContradictionIsFinal(d: Disk, req: Request, out: Outcome, name: Text, slug: Text -> Text)
    requires MarkerAt(d, Join(slug(name)), slug) == Some(Named(name))
    requires Persisted(d).Some? && Persisted(d).value != name
    ensures RunWrites(d, req, out, slug) == []
  {
    hide ReadMarker, ReadDeveloper, Trim;
    assert HasMarker(d, Join(slug(name)), slug);
    assert MarkersConflict(d, Persisted(d).value, slug);
  }

  // ---- A crash between identity and task ----

  /** The disk after intent and identity of a first joiner run. */
  function Identified(d: Disk, stamp: Text, name: Text, slug: Text -> Text): Disk
  {
    var announced := Step(d, WriteMarker(Join(slug(name)), MarkerContent(Join(slug(name)), name, slug)));
    Step(announced, WriteIdentity(IdentityText(name, stamp), WrittenByJoiner(name)))
  }

  lemma FirstWrites(d: Disk, req: Request, out: Outcome, name: Text, slug: Text -> Text)
    requires IsSlugger(slug) && Idle(d, slug) && AllGood(out)
    requires req.user != [] && Trim(req.user) == name && name != []
    ensures var w := WriteMarker(Join(slug(name)), MarkerContent(Join(slug(name)), name, slug));
      RunWrites(d, req, out, slug) == [w] + JoinWrites(Step(d, w), req.user, req, out, slug)
  {
    hide RunWrites, JoinWrites, Trim, MarkerContent, NameFits, Standing;
    assert slug(Trim(req.user)) == slug(req.user);
    IdleRun(d, req, out, slug);
    NoJoinerNoConflict(d, name, slug);
    assert Join(slug(name)) !in d.markers by {
      assert Join(slug(name)) !in PendingJoiners(d);
    }
    SameMarkerContent(Join(slug(name)), req.user, slug);
    OneWrite(d, WriteMarker(Join(slug(name)), MarkerContent(Join(slug(name)), name, slug)), slug);
  }

  lemma SameMarkerContent(task: TaskName, developer: Text, slug: Text -> Text)
    requires developer != []
    ensures MarkerContent(task, Trim(developer), slug) == MarkerContent(task, developer, slug)
  {
    hide Trim;
    TrimOfTrimmed(developer);
  }

  lemma AfterTwoWrites(d: Disk, req: Request, out: Outcome, name: Text, slug: Text -> Text)
    requires IsSlugger(slug) && Idle(d, slug) && AllGood(out) && IsSegment(name)
    requires req.user != [] && Trim(req.user) == name && name != []
    ensures AfterRun(d, CutRun(req, out, 2), slug) == Identified(d, req.stamp, name, slug)
  {
    hide RunWrites, Trim, Standing, IsSegment, Skeleton, ReadDeveloper, IdentityText, MarkerContent;
    FirstWrites(d, req, out, name, slug);
    var v := WriteMarker(Join(slug(name)), MarkerContent(Join(slug(name)), name, slug));
    var w := WriteIdentity(IdentityText(name, req.stamp), WrittenByJoiner(name));
    var d' := Step(d, v);
    assert InitializeDeveloper(d', req.user, WrittenByJoiner(name), req.stamp, true) == [w];
    var rest := Skeleton(Apply(d', [w]), Join(slug(req.user)), out.kernelOk, slug).writes;
    assert ([v] + ([w] + rest))[..2] == [v, w];
    TwoWrites(d, v, w, slug);
  }

  lemma IdentifiedFacts(d: Disk, stamp: Text, name: Text, slug: Text -> Text)
    requires Idle(d, slug) && IsSegment(name)
    ensures var d' := Identified(d, stamp, name, slug);
      && Within(d', slug(name), slug) && OwnMarker(d', slug(name), name, slug)
      && (NameFits(name, Join(slug(name)), slug) ==> MarkerAt(d', Join(slug(name)), slug) == Some(Named(name)))
      && Persisted(d').Some? && (Persisted(d') == Some(name) <==> ReadsBack(name))
      && (Blocked(d', name, slug) <==> Blocked(d, name, slug))
  {
    hide ReadMarker, IdentityText, ReadDeveloper, Trim, MarkerContent, NameFits, ReadsBack, Utf8Length;
    assert name != [] && Trim(name) == name;
    MarkerRoundTrip(Join(slug(name)), name, slug);
    IdentityRoundTrip(name, stamp);
    assert forall t: Text :: Join(t) in d.markers ==> Join(t) in PendingJoiners(d);
  }

  lemma {:induction false} IdentityStays(d: Disk, ws: seq<Write>, slug: Text -> Text)
    requires AllAllowed(d, ws, slug) && d.identity.Some?
    ensures Apply(d, ws).identity == d.identity
    decreases |ws|
  {
    hide ReadMarker;
    if ws != [] {
      IdentityStays(Step(d, ws[0]), ws[1..], slug);
    }
  }

  /** A crash right after the identity was written is recovered from by a run that
      names the developer or nobody, exactly when the name holds no U+2028 or
      U+2029 and no unfinished directory is in the way. With such a character and
      a marker that carries the name, every later run, whatever it asks for,
      refuses to go on. */
  lemma CrashAfterIdentity(d: Disk, req: Request, out: Outcome, next: Request, name: Text, slug: Text -> Text)
    requires IsSlugger(slug) && Idle(d, slug) && IsSegment(name)
    requires req.user != [] && Trim(req.user) == name && AllGood(out) && NotBlank(next)
    ensures var crashed := AfterRun(d, CutRun(req, out, 2), slug);
      && (Joined(Apply(crashed, RunWrites(crashed, next, out, slug)), name, slug)
          <==> ReadsBack(name) && Compatible(next, name) && !Blocked(d, name, slug))
      && (NameFits(name, Join(slug(name)), slug) && !ReadsBack(name) ==> RunWrites(crashed, next, out, slug) == [])
  {
    hide RunWrites, Trim, Idle, AllGood, IsSegment, ReadsBack, NameFits, Joined, Compatible, IsSlugger, AfterRun,
      NotBlank, Identified, Persisted, Blocked, ReadMarker, Within;
    SegmentIsSomething(name);
    AfterTwoWrites(d, req, out, name, slug);
    IdentifiedFacts(d, req.stamp, name, slug);
    var crashed := Identified(d, req.stamp, name, slug);
    if ReadsBack(name) {
      if MarkerAt(crashed, Join(slug(name)), slug) == Some(Anonymous) {
        AnonymousConverges(crashed, slug(name), next, out, slug);
      } else {
        RecordedConverges(crashed, next, out, name, slug);
      }
    } else {
      WithinIsFresh(crashed, slug(name), slug);
      TruncatedStays(crashed, next, out, name, slug);
      if NameFits(name, Join(slug(name)), slug) {
        ContradictionIsFinal(crashed, next, out, name, slug);
      }
    }
  }

  lemma SegmentIsSomething(name: Text)
    requires IsSegment(name)
    ensures name != [] && Trim(name) == name
  {
  }

  lemma TruncatedStays(d: Disk, req: Request, out: Outcome, name: Text, slug: Text -> Text)
    requires IsSlugger(slug) && FreshTemp(d) && Persisted(d).Some? && Persisted(d).value != name
    ensures !Joined(Apply(d, RunWrites(d, req, out, slug)), name, slug)
  {
    hide RunWrites, ReadDeveloper, Standing, PendingJoiners, IsSlugger;
    RunAllowed(d, req, out, slug);
    IdentityStays(d, RunWrites(d, req, out, slug), slug);
  }

  // ---- A concrete project that a bare second run does not finish ----

  const ALICE: Text := Ascii("alice")
  const GIT_NAME: Text := Ascii("Smith")
  const BY_OPTION := Request(ALICE, [], false, false, false, [])
  const BY_GIT := Request([], GIT_NAME, false, false, false, [])
  const GOOD := Outcome(Committed, true, true)
  const PROJECT := Disk(true, map[], None, map[Bootstrap := Complete], false, map[], 0)

  /** A short word is a name the marker can carry. */
  lemma WordFits(name: Text, slug: Text -> Text)
    requires 2 < |name| < 80 && forall i :: 0 <= i < |name| ==> 0x41 <= name[i] < 0x7B
    ensures NameFits(name, Join(slug(name)), slug) && Trim(name) == name
  {
    hide Utf8Length;
    assert !IsSpace(name[0]) && !IsSpace(name[|name| - 1]);
    TrimOfTrimmed(name);
    Utf8LengthBound(name);
  }

  /** Alice starts with her name as an option and is interrupted right after her
      intent is on disk. Without the option, git names her otherwise, and from then
      on a run without the option does nothing. */
  lemma GitNameBlocks(slug: Text -> Text)
    requires IsSlugger(slug)
    ensures var crashed := AfterRun(PROJECT, CutRun(BY_OPTION, GOOD, 1), slug);
      && Recorded(crashed, ALICE, slug) && RunWrites(crashed, BY_GIT, GOOD, slug) == []
      && !Joined(crashed, ALICE, slug)
  {
    hide RunWrites, NameFits, ReadMarker, MarkerContent, JoinWrites, Trim, Joined;
    WordFits(ALICE, slug);
    WordFits(GIT_NAME, slug);
    assert ALICE[0] == 0x61 && GIT_NAME[0] == 0x53;
    assert Bootstrap in PROJECT.tasks;
    var w := WriteMarker(Join(slug(ALICE)), MarkerContent(Join(slug(ALICE)), ALICE, slug));
    assert Idle(PROJECT, slug);
    FirstWrites(PROJECT, BY_OPTION, GOOD, ALICE, slug);
    assert ([w] + JoinWrites(Step(PROJECT, w), BY_OPTION.user, BY_OPTION, GOOD, slug))[..1] == [w];
    OneWrite(PROJECT, w, slug);
    MarkerRoundTrip(Join(slug(ALICE)), ALICE, slug);
    var crashed := AfterRun(PROJECT, CutRun(BY_OPTION, GOOD, 1), slug);
    assert crashed == Step(PROJECT, w);
    StrangersWriteNothing(crashed, BY_GIT, GOOD, ALICE, slug);
    MarkerIsPending(crashed, ALICE, slug);
  }

  lemma JoinWritesIdentity(d: Disk, developer: Text, req: Request, out: Outcome, slug: Text -> Text)
    requires FreshTemp(d) && d.identity.None? && out.identityWritable
    ensures Apply(d, JoinWrites(d, developer, req, out, slug)).identity
         == if IsSegment(Trim(developer))
            then Some(Identity(IdentityText(Trim(developer), req.stamp), WrittenByJoiner(Trim(developer))))
            else None
  {
    hide Skeleton, Trim, IsSegment, HasMarker;
    var identity := InitializeDeveloper(d, developer, WrittenByJoiner(Trim(developer)), req.stamp, true);
    var d' := Apply(d, identity);
    WriteIdentityOnly(d, IdentityText(Trim(developer), req.stamp), WrittenByJoiner(Trim(developer)));
    SkeletonKeepsIdentity(d', Join(slug(developer)), out.kernelOk, slug);
    ApplyConcat(d, identity, Skeleton(d', Join(slug(developer)), out.kernelOk, slug).writes);
  }

  lemma WriteIdentityOnly(d: Disk, content: Text, origin: Origin)
    ensures Apply(d, [WriteIdentity(content, origin)]) == d.(identity := Some(Identity(content, origin)))
    ensures Apply(d, []) == d
  {
  }

  lemma SkeletonKeepsIdentity(d: Disk, task: TaskName, kernelOk: bool, slug: Text -> Text)
    requires FreshTemp(d)
    ensures Apply(d, Skeleton(d, task, kernelOk, slug).writes).identity == d.identity
  {
    hide HasMarker, ReadMarker, Skeleton;
    SkeletonEffect(d, task, kernelOk, slug);
    EnsureMarkerWrites(d, task, [], slug);
  }

  /** A name of white space only slips past the reconciliation: whoever the
      markers name, a task is published under no name at all. */
  lemma BlankNamePublishes(d: Disk, req: Request, out: Outcome, slug: Text -> Text)
    requires req.user != [] && Trim(req.user) == [] && AllGood(out)
    requires FreshTemp(d) && d.root && d.identity.None? && d.tasks != map[] && !HasMarker(d, Bootstrap, slug)
    requires Join(slug(req.user)) !in d.tasks && Join(slug(req.user)) !in d.markers
    ensures var d' := Apply(d, RunWrites(d, req, out, slug));
      IsComplete(d', Join(slug(req.user))) && d'.identity.None?
  {
    hide RunWrites, JoinWrites, Trim, MarkerContent, ReadMarker, IsComplete, HasMarker;
    var task := Join(slug(req.user));
    var w := WriteMarker(task, MarkerContent(task, req.user, slug));
    BlankRun(d, req, out, slug);
    var d' := Step(d, w);
    OneWrite(d, w, slug);
    ApplyConcat(d, [w], JoinWrites(d', req.user, req, out, slug));
    JoinWritesIdentity(d', req.user, req, out, slug);
    BlankJoin(d', req, out, slug);
  }

  lemma BlankRun(d: Disk, req: Request, out: Outcome, slug: Text -> Text)
    requires req.user != [] && Trim(req.user) == [] && AllGood(out)
    requires FreshTemp(d) && d.root && d.identity.None? && d.tasks != map[] && !HasMarker(d, Bootstrap, slug)
    requires Join(slug(req.user)) !in d.markers
    ensures var w := WriteMarker(Join(slug(req.user)), MarkerContent(Join(slug(req.user)), req.user, slug));
      RunWrites(d, req, out, slug) == [w] + JoinWrites(Step(d, w), req.user, req, out, slug)
  {
    hide RunWrites, JoinWrites, Trim, MarkerContent, MarkersConflict, AnyValidJoiner, ReadMarker;
    var task := Join(slug(req.user));
    StandingRun(d, req, out, slug);
    OneWrite(d, WriteMarker(task, MarkerContent(task, req.user, slug)), slug);
  }

  lemma BlankJoin(d: Disk, req: Request, out: Outcome, slug: Text -> Text)
    requires Trim(req.user) == [] && out.kernelOk && FreshTemp(d) && Join(slug(req.user)) !in d.tasks
    ensures IsComplete(Apply(d, JoinWrites(d, req.user, req, out, slug)), Join(slug(req.user)))
  {
    hide Trim, Skeleton, HasMarker, ReadMarker;
    SkeletonEffect(d, Join(slug(req.user)), true, slug);
    assert InitializeDeveloper(d, req.user, WrittenByJoiner([]), req.stamp, out.identityWritable) == [];
    assert [] + Skeleton(d, Join(slug(req.user)), true, slug).writes == Skeleton(d, Join(slug(req.user)), true, slug).writes;
  }
}
