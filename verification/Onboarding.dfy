/** The disk protocol of `pactile init` (non-interactive runs): what each run
    writes, in which order, as a function of what it found on disk. */
module Onboarding {
  import opened JsText
  import opened InitMarker
  import opened Options

  // ---- The disk ----

  /** What a task directory holds so far; only the last one is a usable task. */
  datatype TaskState = Empty | PrdOnly | Complete

  /** Who wrote `.developer`. Not on disk: recorded here to state what joiner runs do. */
  datatype Origin = Preexisting | Written | WrittenByJoiner(name: Text)

  datatype Identity = Identity(content: Text, origin: Origin)

  /** `.pactile`: `root` is its existence, `markers` the `.pending-*` files,
      `staging` the directories below `.creating`, `temp` a bound on their names. */
  datatype Disk = Disk(
    root: bool,
    markers: map<TaskName, Text>,
    identity: Option<Identity>,
    tasks: map<TaskName, TaskState>,
    stagingRoot: bool,
    staging: map<nat, TaskState>,
    temp: nat)

  datatype Write =
    | CreateRoot
    | WriteMarker(task: TaskName, content: Text)
    | RemoveMarker(task: TaskName)
    | WriteIdentity(content: Text, origin: Origin)
    | MakeStagingRoot
    | RemoveStagingRoot
    | MakeStaging(id: nat)
    | FillStaging(id: nat, state: TaskState)
    | RemoveStaging(id: nat)
    | Publish(id: nat, task: TaskName)

  /** One atomic write. */
  function Step(d: Disk, w: Write): Disk
  {
    match w
    case CreateRoot => d.(root := true)
    case WriteMarker(task, content) => d.(markers := d.markers[task := content])
    case RemoveMarker(task) => d.(markers := d.markers - {task})
    case WriteIdentity(content, origin) => d.(identity := Some(Identity(content, origin)))
    case MakeStagingRoot => d.(stagingRoot := true)
    case RemoveStagingRoot => d.(stagingRoot := false)
    case MakeStaging(id) => d.(staging := d.staging[id := Empty], temp := d.temp + 1)
    case FillStaging(id, state) => d.(staging := d.staging[id := state])
    case RemoveStaging(id) => d.(staging := d.staging - {id})
    case Publish(id, task) =>
      d.(staging := d.staging - {id},
         tasks := d.tasks[task := if id in d.staging then d.staging[id] else Empty])
  }

  function Apply(d: Disk, ws: seq<Write>): Disk
    decreases |ws|
  {
    if ws == [] then d else Apply(Step(d, ws[0]), ws[1..])
  }

  lemma {:induction false} ApplyConcat(d: Disk, a: seq<Write>, b: seq<Write>)
    ensures Apply(d, a + b) == Apply(Apply(d, a), b)
    decreases |a|
  {
    if a == [] {
      assert a + b == b;
    } else {
      assert (a + b)[1..] == a[1..] + b;
      ApplyConcat(Step(d, a[0]), a[1..], b);
    }
  }

  // ---- The steps of a run ----

  /** Whether a step succeeded, and what it wrote before it returned. */
  datatype Effect = Effect(ok: bool, writes: seq<Write>)

  function MarkerAt(d: Disk, task: TaskName, slug: Text -> Text): Option<Marker>
  {
    if task in d.markers then ReadMarker(task, d.markers[task], slug) else None
  }

  predicate HasMarker(d: Disk, task: TaskName, slug: Text -> Text)
  {
    MarkerAt(d, task, slug).Some?
  }

  /** `ensureInitTaskMarker`; an empty `developer` is an absent one. */
  function EnsureMarker(d: Disk, task: TaskName, developer: Text, slug: Text -> Text): Effect
  {
    var content := MarkerContent(task, developer, slug);
    if task !in d.markers then Effect(true, [WriteMarker(task, content)])
    else
      var existing := ReadMarker(task, d.markers[task], slug);
      if existing.None? then Effect(false, [])
      else if developer == [] then Effect(true, [])
      else if !NameFits(Trim(developer), task, slug) then Effect(existing.value.Anonymous?, [])
      else if existing.value == Named(Trim(developer)) then Effect(true, [])
      else if existing.value.Named? then Effect(false, [])
      else Effect(ReadMarker(task, content, slug) == Some(Named(Trim(developer))),
                  [WriteMarker(task, content)])
  }

  /** `clearInitTaskMarker` */
  function ClearMarker(d: Disk, task: TaskName, slug: Text -> Text): seq<Write>
  {
    if HasMarker(d, task, slug) then [RemoveMarker(task)] else []
  }

  function Persisted(d: Disk): Option<Text>
  {
    if d.identity.Some? then ReadDeveloper(d.identity.value.content) else None
  }

  /** `initializeDeveloper`, whose exceptions every caller swallows. */
  function InitializeDeveloper(d: Disk, developer: Text, origin: Origin, stamp: Text, writable: bool): seq<Write>
  {
    if IsSegment(Trim(developer)) && Persisted(d).None? && writable
    then [WriteIdentity(IdentityText(Trim(developer), stamp), origin)]
    else []
  }

  /** The new task is built aside; `d` is the disk before the first of these. */
  function StageWrites(d: Disk): seq<Write>
  {
    (if d.stagingRoot then [] else [MakeStagingRoot])
    + [MakeStaging(d.temp), FillStaging(d.temp, PrdOnly)]
  }

  /** The Kernel is created and read back, then one rename publishes the task. */
  function PublishWrites(d: Disk, task: TaskName, slug: Text -> Text): seq<Write>
  {
    [FillStaging(d.temp, Complete), Publish(d.temp, task)] + ClearMarker(d, task, slug)
  }

  /** The Kernel could not be created. */
  function AbandonWrites(d: Disk, task: TaskName, slug: Text -> Text): seq<Write>
  {
    EnsureMarker(d, task, [], slug).writes + [RemoveStaging(d.temp)]
  }

  /** A staging root made by this run goes away again when it is empty. */
  function TidyWrites(d: Disk): seq<Write>
  {
    if !d.stagingRoot && d.staging == map[] then [RemoveStagingRoot] else []
  }

  /** `writeTaskSkeleton` */
  function Skeleton(d: Disk, task: TaskName, kernelOk: bool, slug: Text -> Text): Effect
  {
    if task in d.tasks then
      if d.tasks[task].Complete? then Effect(true, ClearMarker(d, task, slug))
      else Effect(false, EnsureMarker(d, task, [], slug).writes)
    else if kernelOk then
      Effect(true, StageWrites(d) + (PublishWrites(d, task, slug) + TidyWrites(d)))
    else
      Effect(false, StageWrites(d) + (AbandonWrites(d, task, slug) + TidyWrites(d)))
  }

  // ---- Who is initialising ----

  /** The options of a `--yes` run. An empty name is an absent one. */
  datatype Request = Request(
    user: Text, gitName: Text, force: bool, skipExisting: bool, platforms: bool, stamp: Text)

  /** `runLifecycleCommand` and what surrounds it, as one step. */
  datatype Lifecycle = Committed | Failed | FailedLeavingRoot

  /** How the steps outside this model end. */
  datatype Outcome = Outcome(lifecycle: Lifecycle, identityWritable: bool, kernelOk: bool)

  datatype Resolution = Stop | Go(developer: Text)

  predicate ConflictsWith(task: TaskName, marker: Marker, name: Text, slug: Text -> Text)
  {
    match marker
    case Named(other) => other != name
    case Anonymous => task != Join(slug(name))
  }

  /** Some valid pending joiner marker cannot belong to `name`. */
  predicate MarkersConflict(d: Disk, name: Text, slug: Text -> Text)
  {
    exists task :: task in d.markers && task.Join? && HasMarker(d, task, slug)
                   && ConflictsWith(task, MarkerAt(d, task, slug).value, name, slug)
  }

  predicate AnyValidJoiner(d: Disk, slug: Text -> Text)
  {
    exists task :: task in d.markers && task.Join? && HasMarker(d, task, slug)
  }

  function PendingJoiners(d: Disk): set<TaskName>
  {
    set task | task in d.markers && task.Join?
  }

  function Only<T>(s: set<T>): T
    requires |s| == 1
  {
    SingletonIsUnique(s);
    var x :| x in s;
    x
  }

  lemma SingletonIsUnique<T>(s: set<T>)
    requires |s| == 1
    ensures forall x, y :: x in s && y in s ==> x == y
  {
    forall x, y | x in s && y in s
      ensures x == y
    {
      assert |s - {x}| == 0;
    }
  }

  /** `readPendingJoinerDeveloperName` */
  function PendingName(d: Disk, slug: Text -> Text): Option<Text>
  {
    if |PendingJoiners(d)| != 1 then None
    else
      match MarkerAt(d, Only(PendingJoiners(d)), slug)
      case Some(Named(name)) => Some(name)
      case _ => None
  }

  /** The name the options and git give, before anything on disk is consulted. */
  function Requested(req: Request): Text
  {
    if req.user != [] then req.user else Trim(req.gitName)
  }

  /** Request, identity and markers cannot all be about one developer. */
  predicate Irreconcilable(d: Disk, req: Request, slug: Text -> Text)
  {
    var requested := Trim(Requested(req));
    var persisted := Persisted(d);
    || (persisted.Some?
        && ((requested != [] && requested != persisted.value) || MarkersConflict(d, persisted.value, slug)))
    || (requested != [] && MarkersConflict(d, requested, slug))
    || (d.identity.Some? && persisted.None? && (requested != [] || AnyValidJoiner(d, slug)))
  }

  /** The name a run goes on with. */
  function ChooseName(d: Disk, req: Request, slug: Text -> Text): Text
  {
    var persisted := Persisted(d);
    if req.user != [] then req.user
    else if persisted.Some? then
      if HasMarker(d, Join(slug(persisted.value)), slug) then persisted.value else Requested(req)
    else PendingName(d, slug).GetOr(Requested(req))
  }

  function Resolve(d: Disk, req: Request, slug: Text -> Text): Resolution
  {
    if Irreconcilable(d, req, slug) then Stop else Go(ChooseName(d, req, slug))
  }

  // ---- A whole run ----

  /** From identity to published task, once the intent to join is on disk. */
  function JoinWrites(d: Disk, developer: Text, req: Request, out: Outcome, slug: Text -> Text): seq<Write>
  {
    var identity := InitializeDeveloper(d, developer, WrittenByJoiner(Trim(developer)), req.stamp, out.identityWritable);
    identity + Skeleton(Apply(d, identity), Join(slug(developer)), out.kernelOk, slug).writes
  }

  /** Intent first; without it nothing else is written. */
  function AnnounceAndJoin(d: Disk, developer: Text, req: Request, out: Outcome, slug: Text -> Text): seq<Write>
  {
    var intent := EnsureMarker(d, Join(slug(developer)), developer, slug);
    if intent.ok
    then intent.writes + JoinWrites(Apply(d, intent.writes), developer, req, out, slug)
    else intent.writes
  }

  function BootstrapWrites(d: Disk, developer: Text, req: Request, out: Outcome, slug: Text -> Text): seq<Write>
  {
    var identity := InitializeDeveloper(d, developer, Written, req.stamp, out.identityWritable);
    identity + Skeleton(Apply(d, identity), Bootstrap, out.kernelOk, slug).writes
  }

  predicate PendingJoiner(d: Disk, developer: Text, slug: Text -> Text)
  {
    developer != [] && HasMarker(d, Join(slug(developer)), slug)
  }

  /** The test that sends a run to `handleReinit`. */
  predicate TakesReinit(d: Disk, req: Request, developer: Text, slug: Text -> Text)
  {
    && d.root && !req.force && !req.skipExisting
    && d.tasks != map[]
    && !HasMarker(d, Bootstrap, slug)
    && !PendingJoiner(d, developer, slug)
  }

  /** `handleReinit` with `--yes`; an exception of the lifecycle ends the run. */
  function ReinitWrites(d: Disk, req: Request, developer: Text, out: Outcome, slug: Text -> Text): seq<Write>
  {
    if (req.platforms && !out.lifecycle.Committed?) || req.user == [] then []
    else if d.identity.Some? then InitializeDeveloper(d, developer, Written, req.stamp, out.identityWritable)
    else AnnounceAndJoin(d, developer, req, out, slug)
  }

  function RootWrites(d: Disk, out: Outcome): seq<Write>
  {
    if d.root || out.lifecycle.Failed? then [] else [CreateRoot]
  }

  predicate CreatesBootstrap(d: Disk, developer: Text, slug: Text -> Text)
  {
    || !d.root
    || HasMarker(d, Bootstrap, slug)
    || (d.tasks == map[] && !PendingJoiner(d, developer, slug))
  }

  predicate CreatesJoiner(d: Disk, developer: Text, slug: Text -> Text)
  {
    !CreatesBootstrap(d, developer, slug) && (d.identity.None? || PendingJoiner(d, developer, slug))
  }

  /** Everything after the fast path. The dispatch uses what was found at the
      start; creating the root changes none of it. */
  function FullWrites(d: Disk, req: Request, developer: Text, out: Outcome, slug: Text -> Text): seq<Write>
  {
    var start := RootWrites(d, out);
    var d' := Apply(d, start);
    if !out.lifecycle.Committed? || developer == [] then start
    else if CreatesBootstrap(d, developer, slug) then start + BootstrapWrites(d', developer, req, out, slug)
    else if CreatesJoiner(d, developer, slug) then start + AnnounceAndJoin(d', developer, req, out, slug)
    else start + InitializeDeveloper(d', developer, Written, req.stamp, out.identityWritable)
  }

  /** `init`: all that a run writes when nothing interrupts it. */
  function RunWrites(d: Disk, req: Request, out: Outcome, slug: Text -> Text): seq<Write>
  {
    match Resolve(d, req, slug)
    case Stop => []
    case Go(developer) =>
      if TakesReinit(d, req, developer, slug)
      then ReinitWrites(d, req, developer, out, slug)
      else FullWrites(d, req, developer, out, slug)
  }

  /** A run and the number of writes after which the process died. */
  datatype CutRun = CutRun(req: Request, out: Outcome, writes: nat)

  function Cut(ws: seq<Write>, n: nat): seq<Write>
  {
    if n <= |ws| then ws[..n] else ws
  }

  function AfterRun(d: Disk, run: CutRun, slug: Text -> Text): Disk
  {
    Apply(d, Cut(RunWrites(d, run.req, run.out, slug), run.writes))
  }

  function AfterRuns(d: Disk, runs: seq<CutRun>, slug: Text -> Text): Disk
    decreases |runs|
  {
    if runs == [] then d else AfterRuns(AfterRun(d, runs[0], slug), runs[1..], slug)
  }

  /** Runs follow each other on the disk the earlier ones leave. */
  lemma {:induction false} RunsFollow(d: Disk, a: seq<CutRun>, b: seq<CutRun>, run: CutRun, slug: Text -> Text)
    ensures AfterRuns(d, a + b, slug) == AfterRuns(AfterRuns(d, a, slug), b, slug)
    ensures AfterRuns(d, [run], slug) == AfterRun(d, run, slug)
    ensures run.writes >= |RunWrites(d, run.req, run.out, slug)|
      ==> AfterRun(d, run, slug) == Apply(d, RunWrites(d, run.req, run.out, slug))
    decreases |a|
  {
    hide RunWrites;
    assert [run][1..] == [];
    if a == [] {
      assert a + b == b;
    } else {
      assert (a + b)[1..] == a[1..] + b;
      RunsFollow(AfterRun(d, a[0], slug), a[1..], b, run, slug);
    }
    if run.writes == |RunWrites(d, run.req, run.out, slug)| {
      assert Cut(RunWrites(d, run.req, run.out, slug), run.writes) == RunWrites(d, run.req, run.out, slug);
    }
  }

  // ---- What holds between any two writes ----

  /** `p` holds of the disk after every prefix of `ws`. */
  ghost predicate Throughout(p: Disk -> bool, d: Disk, ws: seq<Write>)
    decreases |ws|
  {
    p(d) && (ws == [] || Throughout(p, Step(d, ws[0]), ws[1..]))
  }

  lemma {:induction false} ThroughoutConcat(p: Disk -> bool, d: Disk, a: seq<Write>, b: seq<Write>)
    requires Throughout(p, d, a) && Throughout(p, Apply(d, a), b)
    ensures Throughout(p, d, a + b) && Apply(d, a + b) == Apply(Apply(d, a), b)
    decreases |a|
  {
    if a == [] {
      assert a + b == b;
    } else {
      assert (a + b)[1..] == a[1..] + b;
      ThroughoutConcat(p, Step(d, a[0]), a[1..], b);
    }
  }

  lemma {:induction false} ThroughoutCut(p: Disk -> bool, d: Disk, ws: seq<Write>, n: nat)
    requires Throughout(p, d, ws)
    ensures p(Apply(d, Cut(ws, n))) && p(d)
    ensures n >= |ws| ==> Cut(ws, n) == ws
    decreases |ws|
  {
    if n > 0 && ws != [] {
      ThroughoutCut(p, Step(d, ws[0]), ws[1..], n - 1);
      assert Cut(ws, n)[1..] == Cut(ws[1..], n - 1);
    }
  }

}
