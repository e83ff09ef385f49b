/** The table of template hashes that `pactile update` and `pactile workflow`
    keep, and what a stored hash means over every sequence of their runs. */
module Ledger {
  import Moves
  import opened Options

  type Path = Moves.Path

  /** A shipped template and the path it is installed at. */
  datatype Template = Template(path: Path, content: string)

  datatype Installed = Installed(files: map<Path, string>, hashes: map<Path, string>)

  datatype Change = New | Unchanged | AutoUpdate | Changed | UserDeleted

  datatype Choice = Overwrite | CreateNew | Leave

  /** `digest` is SHA-256, taken to be injective; `untracked` are the paths that
      are never hashed, `projected` those whose hash is not back-filled. */
  datatype Rules = Rules(digest: string -> string, untracked: Path -> bool, projected: Path -> bool)

  ghost predicate Injective(r: Rules) { forall a, b :: r.digest(a) == r.digest(b) ==> a == b }

  /** Line endings as the hash sees them. */
  function Lf(s: string): string
  {
    if |s| >= 2 && s[0] == '\r' && s[1] == '\n' then ['\n'] + Lf(s[2..])
    else if s == [] then []
    else [s[0]] + Lf(s[1..])
  }

  /** `computeHash` */
  function Hash(r: Rules, content: string): string { r.digest(Lf(content)) }

  // ---- One update ----

  function ChangeOf(d: Installed, r: Rules, t: Template): Change
  {
    if t.path !in d.files then if t.path in d.hashes then UserDeleted else New
    else if d.files[t.path] == t.content then Unchanged
    else if t.path in d.hashes && d.hashes[t.path] == Hash(r, d.files[t.path]) then AutoUpdate
    else Changed
  }

  function Pick(d: Installed, r: Rules, ts: seq<Template>, kind: Change): (picked: seq<Template>)
    ensures forall t :: t in picked <==> t in ts && ChangeOf(d, r, t) == kind
  {
    if ts == [] then []
    else
      var last := ts[|ts| - 1];
      assert ts == ts[..|ts| - 1] + [last];
      Pick(d, r, ts[..|ts| - 1], kind) + if ChangeOf(d, r, last) == kind then [last] else []
  }

  const NEW_SUFFIX := ".new"

  /** The path of the copy that is put beside a modified file. */
  function Beside(p: Path): Path
  {
    if p == [] then [NEW_SUFFIX] else p[..|p| - 1] + [p[|p| - 1] + NEW_SUFFIX]
  }

  /** What is written for a template whose file the user modified. */
  function Resolved(t: Template, choice: Choice): seq<Template>
  {
    match choice
    case Overwrite => [t]
    case CreateNew => [Template(Beside(t.path), t.content)]
    case Leave => []
  }

  function ResolvedAll(ts: seq<Template>, choose: Path -> Choice): seq<Template>
  {
    if ts == [] then []
    else ResolvedAll(ts[..|ts| - 1], choose) + Resolved(ts[|ts| - 1], choose(ts[|ts| - 1].path))
  }

  function Put(files: map<Path, string>, ts: seq<Template>): map<Path, string>
  {
    if ts == [] then files else Put(files, ts[..|ts| - 1])[ts[|ts| - 1].path := ts[|ts| - 1].content]
  }

  /** `updateHashes` */
  function Record(hashes: map<Path, string>, r: Rules, ts: seq<Template>): map<Path, string>
  {
    if ts == [] then hashes
    else
      var before, last := Record(hashes, r, ts[..|ts| - 1]), ts[|ts| - 1];
      if r.untracked(last.path) then before else before[last.path := Hash(r, last.content)]
  }

  /** `collectMissingTemplateHashes` */
  function Missing(d: Installed, r: Rules, same: seq<Template>): (m: seq<Template>)
    ensures forall t :: t in m <==>
              t in same && !r.untracked(t.path) && !r.projected(t.path) && t.path !in d.hashes
  {
    if same == [] then []
    else
      var n := |same| - 1;
      assert same == same[..n] + [same[n]];
      Missing(d, r, same[..n])
      + if r.untracked(same[n].path) || r.projected(same[n].path) || same[n].path in d.hashes then []
        else [same[n]]
  }

  /** The templates of `ts` whose bytes are now installed. */
  function InPlace(files: map<Path, string>, ts: seq<Template>): (m: seq<Template>)
    ensures forall t :: t in m <==> t in ts && t.path in files && files[t.path] == t.content
  {
    if ts == [] then []
    else
      var n := |ts| - 1;
      assert ts == ts[..n] + [ts[n]];
      InPlace(files, ts[..n]) + if ts[n].path in files && files[ts[n].path] == ts[n].content then [ts[n]] else []
  }

  function Written(d: Installed, r: Rules, ts: seq<Template>, choose: Path -> Choice): seq<Template>
  {
    Pick(d, r, ts, New) + Pick(d, r, ts, AutoUpdate) + ResolvedAll(Pick(d, r, ts, Changed), choose)
  }

  function Hashed(d: Installed, r: Rules, ts: seq<Template>, choose: Path -> Choice): seq<Template>
  {
    Missing(d, r, Pick(d, r, ts, Unchanged)) + Pick(d, r, ts, New) + Pick(d, r, ts, AutoUpdate)
    + InPlace(Put(d.files, Written(d, r, ts, choose)), Pick(d, r, ts, Changed))
  }

  function AfterUpdate(d: Installed, r: Rules, ts: seq<Template>, choose: Path -> Choice): Installed
  {
    Installed(Put(d.files, Written(d, r, ts, choose)), Record(d.hashes, r, Hashed(d, r, ts, choose)))
  }

  // ---- One workflow switch ----

  const WORKFLOW: Path := [".pactile", "workflow.md"]

  datatype Kind = NoFile | Identical | Pristine | Edited

  /** `options` of the command and the answer to its prompt. */
  datatype Switch = Switch(native: bool, content: string, createNew: bool, force: bool, asks: bool, answer: Choice)

  /** `classifyExistingWorkflow` */
  function KindOf(d: Installed, r: Rules, content: string): Kind
  {
    if WORKFLOW !in d.files then NoFile
    else if d.files[WORKFLOW] == content then Identical
    else if WORKFLOW in d.hashes && d.hashes[WORKFLOW] == Hash(r, d.files[WORKFLOW]) then Pristine
    else Edited
  }

  /** What the command does with the template once it is allowed to. */
  function SwitchChoice(d: Installed, r: Rules, s: Switch): Choice
  {
    if s.createNew then CreateNew
    else if KindOf(d, r, s.content).Edited? && !s.force then if s.asks then s.answer else Leave
    else Overwrite
  }

  /** `applyHashContract` */
  function Contract(d: Installed, r: Rules, native: bool): map<Path, string>
    requires WORKFLOW in d.files
  {
    if !native then d.hashes - {WORKFLOW}
    else if r.untracked(WORKFLOW) then d.hashes
    else d.hashes[WORKFLOW := Hash(r, d.files[WORKFLOW])]
  }

  /** `writeWorkflow` */
  function AfterSwitch(d: Installed, r: Rules, s: Switch): Installed
  {
    match SwitchChoice(d, r, s)
    case Leave => d
    case CreateNew => d.(files := d.files[Beside(WORKFLOW) := s.content])
    case Overwrite =>
      var d' := d.(files := d.files[WORKFLOW := s.content]);
      d'.(hashes := Contract(d', r, s.native))
  }

  // ---- The program ----

  class Installation {
    const rules: Rules
    var files: map<Path, string>
    var hashes: map<Path, string>

    constructor (rules: Rules)
      ensures this.rules == rules && Snapshot() == Installed(map[], map[])
    {
      this.rules := rules;
      files, hashes := map[], map[];
    }

    function Snapshot(): Installed
      reads this
    {
      Installed(files, hashes)
    }

    /** `analyzeChanges` */
    method AnalyzeChanges(ts: seq<Template>)
        returns (added: seq<Template>, same: seq<Template>, auto: seq<Template>, changed: seq<Template>, deleted: seq<Template>)
      ensures added == Pick(Snapshot(), rules, ts, New)
      ensures same == Pick(Snapshot(), rules, ts, Unchanged)
      ensures auto == Pick(Snapshot(), rules, ts, AutoUpdate)
      ensures changed == Pick(Snapshot(), rules, ts, Changed)
      ensures deleted == Pick(Snapshot(), rules, ts, UserDeleted)
    {
      added, same, auto, changed, deleted := [], [], [], [], [];
      for i := 0 to |ts|
        invariant added == Pick(Snapshot(), rules, ts[..i], New)
        invariant same == Pick(Snapshot(), rules, ts[..i], Unchanged)
        invariant auto == Pick(Snapshot(), rules, ts[..i], AutoUpdate)
        invariant changed == Pick(Snapshot(), rules, ts[..i], Changed)
        invariant deleted == Pick(Snapshot(), rules, ts[..i], UserDeleted)
      {
        assert ts[..i + 1][..i] == ts[..i];
        if ts[i].path !in files {
          if ts[i].path in hashes {
            deleted := deleted + [ts[i]];
          } else {
            added := added + [ts[i]];
          }
        } else if files[ts[i].path] == ts[i].content {
          same := same + [ts[i]];
        } else if ts[i].path in hashes && hashes[ts[i].path] == Hash(rules, files[ts[i].path]) {
          auto := auto + [ts[i]];
        } else {
          changed := changed + [ts[i]];
        }
      }
      assert ts[..|ts|] == ts;
    }

    method WriteAll(ts: seq<Template>)
      modifies this`files
      ensures files == Put(old(files), ts)
    {
      for i := 0 to |ts|
        invariant files == Put(old(files), ts[..i])
      {
        assert ts[..i + 1][..i] == ts[..i];
        files := files[ts[i].path := ts[i].content];
      }
      assert ts[..|ts|] == ts;
    }

    method ResolveConflicts(ts: seq<Template>, choose: Path -> Choice)
      modifies this`files
      ensures files == Put(old(files), ResolvedAll(ts, choose))
    {
      for i := 0 to |ts|
        invariant files == Put(old(files), ResolvedAll(ts[..i], choose))
      {
        assert ts[..i + 1][..i] == ts[..i];
        PutConcat(old(files), ResolvedAll(ts[..i], choose), Resolved(ts[i], choose(ts[i].path)));
        match choose(ts[i].path) {
          case Overwrite => files := files[ts[i].path := ts[i].content];
          case CreateNew => files := files[Beside(ts[i].path) := ts[i].content];
          case Leave =>
        }
      }
      assert ts[..|ts|] == ts;
    }

    /** `updateHashes` */
    method UpdateHashes(ts: seq<Template>)
      modifies this`hashes
      ensures hashes == Record(old(hashes), rules, ts)
    {
      for i := 0 to |ts|
        invariant hashes == Record(old(hashes), rules, ts[..i])
      {
        assert ts[..i + 1][..i] == ts[..i];
        if !rules.untracked(ts[i].path) {
          hashes := hashes[ts[i].path := Hash(rules, ts[i].content)];
        }
      }
      assert ts[..|ts|] == ts;
    }

    /** One update: all decisions are made on what was there before it. */
    method Update(ts: seq<Template>, choose: Path -> Choice)
      modifies this
      ensures Snapshot() == AfterUpdate(old(Snapshot()), rules, ts, choose)
    {
      ghost var d := Snapshot();
      var added, same, auto, changed, _ := AnalyzeChanges(ts);
      var missing := Missing(Snapshot(), rules, same);
      WriteAll(added);
      WriteAll(auto);
      ResolveConflicts(changed, choose);
      PutConcat(d.files, added, auto);
      PutConcat(d.files, added + auto, ResolvedAll(changed, choose));
      UpdateHashes(missing + added + auto + InPlace(files, changed));
    }

    /** `writeWorkflow` and `applyHashContract` */
    method WriteWorkflow(s: Switch)
      modifies this
      ensures Snapshot() == AfterSwitch(old(Snapshot()), rules, s)
    {
      if s.createNew {
        files := files[Beside(WORKFLOW) := s.content];
        return;
      }
      var kind := KindOf(Snapshot(), rules, s.content);
      if kind.Identical? {
        hashes := Contract(Snapshot(), rules, s.native);
        assert files[WORKFLOW := s.content] == files;
        return;
      }
      if kind.Edited? && !s.force {
        if !s.asks || s.answer.Leave? {
          return;
        }
        if s.answer.CreateNew? {
          files := files[Beside(WORKFLOW) := s.content];
          return;
        }
      }
      files := files[WORKFLOW := s.content];
      hashes := Contract(Snapshot(), rules, s.native);
    }
  }

  lemma {:induction false} PutConcat(files: map<Path, string>, a: seq<Template>, b: seq<Template>)
    ensures Put(files, a + b) == Put(Put(files, a), b)
    decreases |b|
  {
    if b == [] {
      assert a + b == a;
    } else {
      var n := |b| - 1;
      assert (a + b)[..|a + b| - 1] == a + b[..n];
      PutConcat(files, a, b[..n]);
    }
  }
}
