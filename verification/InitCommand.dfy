/** `pactile init` as the program it is: methods that change the project step by
    step, each shown to make exactly the writes its specification lists. */
module InitCommand {
  import opened JsText
  import opened InitMarker
  import opened Options
  import opened Onboarding
  import opened OnboardingSafety
  import opened OnboardingProgress

  /** The directory being initialised. `log` records every write in order. */
  class Project {
    const slug: Text -> Text
    var root: bool
    var markers: map<TaskName, Text>
    var identity: Option<Identity>
    var tasks: map<TaskName, TaskState>
    var stagingRoot: bool
    var staging: map<nat, TaskState>
    var temp: nat
    ghost var log: seq<Write>

    constructor (slug: Text -> Text)
      ensures this.slug == slug
      ensures Snapshot() == Disk(false, map[], None, map[], false, map[], 0) && log == []
    {
      this.slug := slug;
      root, markers, identity, tasks := false, map[], None, map[];
      stagingRoot, staging, temp := false, map[], 0;
      log := [];
    }

    function Snapshot(): Disk
      reads this
    {
      Disk(root, markers, identity, tasks, stagingRoot, staging, temp)
    }

    /** Since the project looked like `d` and had the log `before`, exactly the
        writes `ws` were made. */
    ghost predicate Made(d: Disk, before: seq<Write>, ws: seq<Write>)
      reads this
    {
      log == before + ws && Snapshot() == Apply(d, ws)
    }

    lemma MadeBoth(d: Disk, before: seq<Write>, a: seq<Write>, b: seq<Write>)
      requires Made(Apply(d, a), before + a, b)
      ensures Made(d, before, a + b)
    {
      ApplyConcat(d, a, b);
      ConcatAssociates(before, a, b);
    }

    // ---- Single writes ----

    method MakeRoot()
      modifies this
      ensures Made(old(Snapshot()), old(log), [CreateRoot])
      ensures Snapshot() == Step(old(Snapshot()), CreateRoot)
    {
      root := true;
      log := log + [CreateRoot];
    }

    method PutMarker(task: TaskName, content: Text)
      modifies this
      ensures Made(old(Snapshot()), old(log), [WriteMarker(task, content)])
      ensures Snapshot() == Step(old(Snapshot()), WriteMarker(task, content))
    {
      markers := markers[task := content];
      log := log + [WriteMarker(task, content)];
    }

    method PutIdentity(content: Text, origin: Origin)
      modifies this
      ensures Made(old(Snapshot()), old(log), [WriteIdentity(content, origin)])
      ensures Snapshot() == Step(old(Snapshot()), WriteIdentity(content, origin))
    {
      identity := Some(Identity(content, origin));
      log := log + [WriteIdentity(content, origin)];
    }

    method PutStaged(id: nat, state: TaskState)
      modifies this
      ensures Made(old(Snapshot()), old(log), [FillStaging(id, state)])
      ensures Snapshot() == Step(old(Snapshot()), FillStaging(id, state))
    {
      staging := staging[id := state];
      log := log + [FillStaging(id, state)];
    }

    method Rename(id: nat, task: TaskName)
      requires id in staging
      modifies this
      ensures Made(old(Snapshot()), old(log), [Publish(id, task)])
      ensures Snapshot() == Step(old(Snapshot()), Publish(id, task))
    {
      tasks := tasks[task := staging[id]];
      staging := staging - {id};
      log := log + [Publish(id, task)];
    }

    // ---- Markers and identity ----

    /** `ensureInitTaskMarker`, asking in the order in which the program asks. */
    method EnsureInitTaskMarker(task: TaskName, developer: Text) returns (ok: bool)
      modifies this
      ensures var e := EnsureMarker(old(Snapshot()), task, developer, slug);
        ok == e.ok && Made(old(Snapshot()), old(log), e.writes)
    {
      hide ReadMarker, NameFits, MarkerContent;
      var content := MarkerContent(task, developer, slug);
      if task !in markers {
        PutMarker(task, content);
        return true;
      }
      var existing := ReadMarker(task, markers[task], slug);
      if existing.None? {
        return false;
      }
      if developer == [] {
        return true;
      }
      var name := Trim(developer);
      if !NameFits(name, task, slug) {
        return existing.value.Anonymous?;
      }
      if existing.value == Named(name) {
        return true;
      }
      if existing.value.Named? {
        return false;
      }
      PutMarker(task, content);
      ok := ReadMarker(task, markers[task], slug) == Some(Named(name));
    }

    /** `clearInitTaskMarker` */
    method ClearInitTaskMarker(task: TaskName)
      modifies this
      ensures Made(old(Snapshot()), old(log), ClearMarker(old(Snapshot()), task, slug))
    {
      hide ReadMarker;
      if HasMarker(Snapshot(), task, slug) {
        ghost var d := Snapshot();
        markers := markers - {task};
        log := log + [RemoveMarker(task)];
        OneWrite(d, RemoveMarker(task), slug);
      }
    }

    /** `readDeveloper` and `initializeDeveloper` together, errors swallowed. */
    method InitializeIdentity(developer: Text, origin: Origin, stamp: Text, writable: bool)
      modifies this
      ensures Made(old(Snapshot()), old(log),
                   InitializeDeveloper(old(Snapshot()), developer, origin, stamp, writable))
    {
      hide IdentityText, ReadDeveloper;
      if Persisted(Snapshot()).Some? || !IsSegment(Trim(developer)) || !writable {
        return;
      }
      PutIdentity(IdentityText(Trim(developer), stamp), origin);
    }

    // ---- The task skeleton ----

    method BeginStaging() returns (id: nat, createdRoot: bool)
      requires FreshTemp(Snapshot())
      modifies this
      ensures Made(old(Snapshot()), old(log), StageWrites(old(Snapshot())))
      ensures id == old(temp) && createdRoot == !old(stagingRoot)
    {
      id, createdRoot := temp, !stagingRoot;
      ghost var d, before := Snapshot(), log;
      if createdRoot {
        stagingRoot := true;
        log := log + [MakeStagingRoot];
      }
      staging, temp := staging[id := Empty], temp + 1;
      staging := staging[id := PrdOnly];
      log := log + [MakeStaging(id), FillStaging(id, PrdOnly)];
      StageEffect(d, slug);
    }

    method PublishStaged(id: nat, task: TaskName)
      requires id in staging
      modifies this
      ensures Made(old(Snapshot()), old(log),
                   [FillStaging(id, Complete), Publish(id, task)] + ClearMarker(old(Snapshot()), task, slug))
    {
      hide ReadMarker;
      ghost var d, before := Snapshot(), log;
      PutStaged(id, Complete);
      Rename(id, task);
      assert ClearMarker(Snapshot(), task, slug) == ClearMarker(d, task, slug);
      ghost var a := [FillStaging(id, Complete), Publish(id, task)];
      MadeBoth(d, before, [FillStaging(id, Complete)], [Publish(id, task)]);
      assert [FillStaging(id, Complete)] + [Publish(id, task)] == a;
      ClearInitTaskMarker(task);
      MadeBoth(d, before, a, ClearMarker(d, task, slug));
    }

    method AbandonStaged(id: nat, task: TaskName)
      modifies this
      ensures Made(old(Snapshot()), old(log),
                   EnsureMarker(old(Snapshot()), task, [], slug).writes + [RemoveStaging(id)])
    {
      hide EnsureMarker;
      ghost var d, before := Snapshot(), log;
      var _ := EnsureInitTaskMarker(task, []);
      ghost var a := EnsureMarker(d, task, [], slug).writes;
      staging := staging - {id};
      log := log + [RemoveStaging(id)];
      MadeBoth(d, before, a, [RemoveStaging(id)]);
    }

    method TidyStaging(createdRoot: bool)
      modifies this
      ensures Made(old(Snapshot()), old(log),
                   if createdRoot && old(staging) == map[] then [RemoveStagingRoot] else [])
    {
      if createdRoot && staging == map[] {
        stagingRoot := false;
        log := log + [RemoveStagingRoot];
      }
    }

    /** Publishes the staged task or takes the staging directory away again. */
    method FinishStaged(id: nat, task: TaskName, kernelOk: bool, ghost d: Disk)
      requires FreshTemp(d) && id == d.temp && Snapshot() == Staged(d)
      modifies this
      ensures Made(old(Snapshot()), old(log),
                   if kernelOk then PublishWrites(d, task, slug) else AbandonWrites(d, task, slug))
      ensures staging == d.staging
    {
      hide ReadMarker, EnsureMarker;
      if kernelOk {
        PublishStaged(id, task);
        PublishedStaging(d, task);
      } else {
        AbandonStaged(id, task);
        AbandonEffect(d, task, slug);
        EnsureMarkerWrites(d, task, [], slug);
        EnsureMarkerSeesMarkersOnly(d, Staged(d), task, [], slug);
      }
    }

    lemma PublishedStaging(d: Disk, task: TaskName)
      requires FreshTemp(d)
      ensures ClearMarker(Staged(d), task, slug) == ClearMarker(d, task, slug)
      ensures Apply(Staged(d), PublishWrites(d, task, slug)).staging == d.staging
    {
      hide ReadMarker;
      var a := [FillStaging(d.temp, Complete), Publish(d.temp, task)];
      TwoWrites(Staged(d), a[0], a[1], slug);
      var d' := Apply(Staged(d), a);
      assert d'.staging == d.staging;
      OneWrite(d', RemoveMarker(task), slug);
      ApplyConcat(Staged(d), a, ClearMarker(d, task, slug));
    }

    /** `writeTaskSkeleton`: nothing appears under its own name before it is complete. */
    method WriteTaskSkeleton(task: TaskName, kernelOk: bool) returns (ok: bool)
      requires FreshTemp(Snapshot())
      modifies this
      ensures var e := Skeleton(old(Snapshot()), task, kernelOk, slug);
        ok == e.ok && Made(old(Snapshot()), old(log), e.writes)
    {
      hide ReadMarker, EnsureMarker, ClearMarker, StageWrites, PublishWrites, AbandonWrites;
      ghost var d, before := Snapshot(), log;
      if task in tasks {
        if tasks[task].Complete? {
          ClearInitTaskMarker(task);
          return true;
        }
        var _ := EnsureInitTaskMarker(task, []);
        return false;
      }
      var id, createdRoot := BeginStaging();
      StageEffect(d, slug);
      ghost var staged := log;
      FinishStaged(id, task, kernelOk, d);
      ghost var finish := if kernelOk then PublishWrites(d, task, slug) else AbandonWrites(d, task, slug);
      TidyStaging(createdRoot);
      MadeBoth(Staged(d), staged, finish, TidyWrites(d));
      MadeBoth(d, before, StageWrites(d), finish + TidyWrites(d));
      ok := kernelOk;
    }

    // ---- Whole runs ----

    method Join(developer: Text, req: Request, out: Outcome)
      requires FreshTemp(Snapshot())
      modifies this
      ensures Made(old(Snapshot()), old(log), JoinWrites(old(Snapshot()), developer, req, out, slug))
    {
      hide Skeleton, InitializeDeveloper, Trim;
      ghost var d, before := Snapshot(), log;
      InitializeIdentity(developer, WrittenByJoiner(Trim(developer)), req.stamp, out.identityWritable);
      ghost var a := InitializeDeveloper(d, developer, WrittenByJoiner(Trim(developer)), req.stamp, out.identityWritable);
      ghost var d' := Snapshot();
      IdentityKeepsTemp(d, developer, WrittenByJoiner(Trim(developer)), req.stamp, out.identityWritable);
      var _ := WriteTaskSkeleton(TaskName.Join(slug(developer)), out.kernelOk);
      MadeBoth(d, before, a, Skeleton(d', TaskName.Join(slug(developer)), out.kernelOk, slug).writes);
    }

    lemma IdentityKeepsTemp(d: Disk, developer: Text, origin: Origin, stamp: Text, writable: bool)
      ensures FreshTemp(Apply(d, InitializeDeveloper(d, developer, origin, stamp, writable))) == FreshTemp(d)
    {
      hide Trim, IdentityText, ReadDeveloper;
      OneWrite(d, WriteIdentity(IdentityText(Trim(developer), stamp), origin), slug);
    }

    method AnnounceThenJoin(developer: Text, req: Request, out: Outcome)
      requires FreshTemp(Snapshot())
      modifies this
      ensures Made(old(Snapshot()), old(log), AnnounceAndJoin(old(Snapshot()), developer, req, out, slug))
    {
      hide EnsureMarker, JoinWrites;
      ghost var d, before := Snapshot(), log;
      var ready := EnsureInitTaskMarker(TaskName.Join(slug(developer)), developer);
      EnsureMarkerWrites(d, TaskName.Join(slug(developer)), developer, slug);
      ghost var intent := EnsureMarker(d, TaskName.Join(slug(developer)), developer, slug).writes;
      ghost var d' := Snapshot();
      if ready {
        Join(developer, req, out);
        MadeBoth(d, before, intent, JoinWrites(d', developer, req, out, slug));
      }
    }

    method CreateBootstrap(developer: Text, req: Request, out: Outcome)
      requires FreshTemp(Snapshot())
      modifies this
      ensures Made(old(Snapshot()), old(log), BootstrapWrites(old(Snapshot()), developer, req, out, slug))
    {
      hide Skeleton, InitializeDeveloper;
      ghost var d, before := Snapshot(), log;
      InitializeIdentity(developer, Written, req.stamp, out.identityWritable);
      ghost var a := InitializeDeveloper(d, developer, Written, req.stamp, out.identityWritable);
      ghost var d' := Snapshot();
      IdentityKeepsTemp(d, developer, Written, req.stamp, out.identityWritable);
      var _ := WriteTaskSkeleton(Bootstrap, out.kernelOk);
      MadeBoth(d, before, a, Skeleton(d', Bootstrap, out.kernelOk, slug).writes);
    }

    /** The developer part of `handleReinit`. */
    method HandleReinit(req: Request, developer: Text, out: Outcome)
      requires FreshTemp(Snapshot())
      modifies this
      ensures Made(old(Snapshot()), old(log), ReinitWrites(old(Snapshot()), req, developer, out, slug))
    {
      hide AnnounceAndJoin, InitializeDeveloper;
      if (req.platforms && !out.lifecycle.Committed?) || req.user == [] {
        return;
      }
      if identity.Some? {
        InitializeIdentity(developer, Written, req.stamp, out.identityWritable);
      } else {
        AnnounceThenJoin(developer, req, out);
      }
    }

    /** The flow after the fast path; the flags are those of the start of the run. */
    method RunFull(req: Request, developer: Text, out: Outcome)
      requires FreshTemp(Snapshot())
      modifies this
      ensures Made(old(Snapshot()), old(log), FullWrites(old(Snapshot()), req, developer, out, slug))
    {
      hide AnnounceAndJoin, InitializeDeveloper, BootstrapWrites, HasMarker;
      ghost var d, before := Snapshot(), log;
      var isFirstInit, hadIdentity := !root, identity.Some?;
      var pendingBootstrap := HasMarker(Snapshot(), Bootstrap, slug);
      var pendingJoiner := PendingJoiner(Snapshot(), developer, slug);
      if !root && !out.lifecycle.Failed? {
        MakeRoot();
      }
      RootEffect(d, out, slug);
      ghost var start, d' := RootWrites(d, out), Snapshot();
      if !out.lifecycle.Committed? || developer == [] {
        return;
      }
      var createsBootstrap := isFirstInit || pendingBootstrap || (tasks == map[] && !pendingJoiner);
      if createsBootstrap {
        CreateBootstrap(developer, req, out);
        MadeBoth(d, before, start, BootstrapWrites(d', developer, req, out, slug));
      } else if !hadIdentity || pendingJoiner {
        AnnounceThenJoin(developer, req, out);
        MadeBoth(d, before, start, AnnounceAndJoin(d', developer, req, out, slug));
      } else {
        InitializeIdentity(developer, Written, req.stamp, out.identityWritable);
        MadeBoth(d, before, start, InitializeDeveloper(d', developer, Written, req.stamp, out.identityWritable));
      }
    }

    /** A whole run makes exactly the writes of `RunWrites`, so all that is proved
        about its prefixes holds of the project after a crash of this method. */
    method Init(req: Request, out: Outcome)
      requires FreshTemp(Snapshot())
      modifies this
      ensures Made(old(Snapshot()), old(log), RunWrites(old(Snapshot()), req, out, slug))
    {
      hide Resolve, TakesReinit, ReinitWrites, FullWrites;
      match Resolve(Snapshot(), req, slug) {
        case Stop =>
        case Go(developer) =>
          if TakesReinit(Snapshot(), req, developer, slug) {
            HandleReinit(req, developer, out);
          } else {
            RunFull(req, developer, out);
          }
      }
    }
  }
}
