/** The two phases of a release: packing and sealing the package, and publishing
    it later from a directory that anything may have happened to. */
module SealedPublish {
  import opened JsText
  import opened Options
  import opened Versions

  // ---- Commits ----

  type Commit = Text

  /** The parents of every commit. */
  type History = map<Commit, set<Commit>>

  /** From `p[0]` back to its ancestor at the end. */
  predicate IsPath(h: History, p: seq<Commit>)
  {
    p != [] && forall i :: 0 <= i < |p| - 1 ==> p[i] in h && p[i + 1] in h[p[i]]
  }

  /** `git merge-base --is-ancestor` */
  ghost predicate IsAncestor(h: History, ancestor: Commit, descendant: Commit)
  {
    exists p :: IsPath(h, p) && p[0] == descendant && p[|p| - 1] == ancestor
  }

  /** No commit is a proper ancestor of itself. */
  ghost predicate IsAcyclic(h: History)
  {
    forall p :: IsPath(h, p) && |p| > 1 ==> p[0] != p[|p| - 1]
  }

  lemma PathsJoin(h: History, p: seq<Commit>, q: seq<Commit>)
    requires IsPath(h, p) && IsPath(h, q) && p[|p| - 1] == q[0]
    ensures IsPath(h, p + q[1..]) && (p + q[1..])[|p + q[1..]| - 1] == q[|q| - 1]
  {
    var r := p + q[1..];
    forall i | 0 <= i < |r| - 1
      ensures r[i] in h && r[i + 1] in h[r[i]]
    {
      if i >= |p| - 1 {
        assert r[i] == q[i - |p| + 1] && r[i + 1] == q[i - |p| + 2];
      }
    }
  }

  /** `requireSameCommit` in an acyclic history: the commits are the same. */
  lemma MutualAncestryIsEquality(h: History, a: Commit, b: Commit)
    requires IsAcyclic(h)
    ensures IsAncestor(h, a, b) && IsAncestor(h, b, a) <==> a == b
  {
    if IsAncestor(h, a, b) && IsAncestor(h, b, a) && a != b {
      var p :| IsPath(h, p) && p[0] == b && p[|p| - 1] == a;
      var q :| IsPath(h, q) && q[0] == a && q[|q| - 1] == b;
      PathsJoin(h, p, q);
    }
    if a == b {
      assert IsPath(h, [a]);
    }
  }

  // ---- The pieces of a release ----

  type Bytes = seq<nat>

  /** The artifact directory: its files by name. */
  type Directory = map<Text, Bytes>

  datatype Artifact = Artifact(key: Text, name: Text, version: Text, filename: Text, size: nat, sha: Text)

  datatype Manifest = Manifest(
    schema: nat, version: Text, npmTag: Text, releaseTag: Option<Text>, commit: Commit, packages: seq<Artifact>)

  /** What the scripts rely on: SHA-256, JSON, the tarball checks, the file name
      `pnpm pack` gives a package, and what a receipt and a hash look like. */
  datatype Tools = Tools(
    sha: Bytes -> Text,
    encode: Manifest -> Bytes,
    decode: Bytes -> Option<Manifest>,
    inspects: (Bytes, Text, Text) -> bool,
    tarballName: (Text, Text) -> Text,
    isHash: Text -> bool)

  ghost predicate AreSound(t: Tools)
  {
    && (forall a, b :: t.sha(a) == t.sha(b) ==> a == b)
    && (forall m :: t.decode(t.encode(m)) == Some(m))
    && (forall b :: t.isHash(t.sha(b)))
    && (forall name, version :: t.tarballName(name, version) != MANIFEST_FILE)
  }

  const MANIFEST_FILE: Text := Ascii("release-artifacts-v1.json")
  const PACKAGE_NAME: Text := Ascii("@blxzer/pactile")
  const PACKAGE_KEY: Text := Ascii("cli")
  const TAG_PREFIX: Text := Ascii("pactile-v")
  const CANDIDATE: Text := Ascii("candidate")

  /** `computeNpmTag` for an accepted version; none when it throws. */
  function NpmTag(version: Text): Option<Text>
  {
    var v :- Parse(version);
    match v.channel
    case Beta => Some(BETA)
    case Stable => Some(CANDIDATE)
    case _ => None
  }

  /** `resolveNpmTag`; an empty or absent tag asks for the default. */
  function ResolveNpmTag(version: Text, explicit: Text): Option<Text>
  {
    var tag :- NpmTag(version);
    if explicit == [] || explicit == tag then Some(tag) else None
  }

  /** `parseReleaseTag` */
  function ParseTag(tag: Text): Option<Text>
  {
    if TAG_PREFIX < tag && Parse(tag[|TAG_PREFIX|..]).Some? then Some(tag[|TAG_PREFIX|..]) else None
  }

  /** The repository as a phase finds it. */
  datatype Repo = Repo(
    clean: bool, head: Commit, tags: map<Text, Commit>, develop: Commit, main: Commit, branch: Text,
    name: Text, version: Text)

  const DEVELOP_BRANCH: Text := Ascii("develop")
  const MAIN_BRANCH: Text := Ascii("main")

  predicate IsPrerelease(version: Text)
  {
    Parse(version).Some? && !Parse(version).value.channel.Stable?
  }

  /** The remote branch a version is released from. */
  function ReleaseTip(r: Repo): Commit { if IsPrerelease(r.version) then r.develop else r.main }

  function ReleaseBranch(r: Repo): Text { if IsPrerelease(r.version) then DEVELOP_BRANCH else MAIN_BRANCH }

  ghost predicate SameCommit(h: History, a: Commit, b: Commit) { IsAncestor(h, a, b) && IsAncestor(h, b, a) }

  /** `inspectPublishRelease` lets a real release pass. */
  ghost predicate TagProves(h: History, r: Repo, tag: Text)
  {
    && r.clean && ParseTag(tag) == Some(r.version)
    && tag in r.tags && r.tags[tag] == r.head && SameCommit(h, r.head, ReleaseTip(r))
  }

  /** `inspectLocalRelease` lets a rehearsal pass. */
  ghost predicate BranchProves(h: History, r: Repo)
  {
    r.clean && r.branch == ReleaseBranch(r) && SameCommit(h, r.head, ReleaseTip(r))
  }

  // ---- Preparation ----

  /** `tag` is absent in a rehearsal. */
  datatype Plan = Plan(tag: Option<Text>, npmTag: Text)

  ghost predicate ProvenanceHolds(h: History, r: Repo, plan: Plan)
  {
    && r.name == PACKAGE_NAME && Parse(r.version).Some?
    && match plan.tag case Some(tag) => TagProves(h, r, tag) case None => BranchProves(h, r)
  }

  function SealedManifest(t: Tools, r: Repo, plan: Plan, tarball: Bytes, npmTag: Text): Manifest
  {
    Manifest(2, r.version, npmTag, plan.tag, r.head,
             [Artifact(PACKAGE_KEY, r.name, r.version, t.tarballName(r.name, r.version), |tarball|, t.sha(tarball))])
  }

  datatype Sealed = Sealed(dir: Directory, manifest: Manifest, receipt: Text)

  /** `runCandidatePreparation` once the provenance holds and validation passed;
      `tarball` is what `pnpm pack` produced. None when it throws. */
  function Prepare(t: Tools, r: Repo, plan: Plan, dir: Directory, tarball: Bytes): Option<Sealed>
  {
    var npmTag :- ResolveNpmTag(r.version, plan.npmTag);
    var file := t.tarballName(r.name, r.version);
    if tarball == [] || !t.inspects(tarball, r.name, r.version) then None
    else
      var manifest := SealedManifest(t, r, plan, tarball, npmTag);
      var bytes := t.encode(manifest);
      Some(Sealed(dir[file := tarball][MANIFEST_FILE := bytes], manifest, t.sha(bytes)))
  }

  // ---- Publication ----

  /** `validateArtifactRecord` and the second inspection: the bytes to publish. */
  function Validate(t: Tools, r: Repo, a: Artifact, dir: Directory): Option<Bytes>
  {
    if a.key != PACKAGE_KEY || a.name != r.name || a.version != r.version then None
    else if a.filename != t.tarballName(r.name, r.version) || !t.isHash(a.sha) || a.size < 1 then None
    else if a.filename !in dir then None
    else
      var bytes := dir[a.filename];
      if |bytes| == a.size && t.sha(bytes) == a.sha && t.inspects(bytes, r.name, r.version) then Some(bytes) else None
  }

  /** `readPreparedReleaseArtifacts`: the manifest and the bytes of its package. */
  function Reopen(t: Tools, r: Repo, plan: Plan, dir: Directory, receipt: Text): Option<(Manifest, Bytes)>
  {
    if !t.isHash(receipt) || MANIFEST_FILE !in dir || t.sha(dir[MANIFEST_FILE]) != receipt then None
    else
      var m :- t.decode(dir[MANIFEST_FILE]);
      if m.schema != 2 || m.version != r.version || ResolveNpmTag(m.version, m.npmTag) != Some(m.npmTag) then None
      else if plan.tag.Some? && m.releaseTag != plan.tag then None
      else if |m.packages| != 1 then None
      else
        var bytes :- Validate(t, r, m.packages[0], dir);
        Some((m, bytes))
  }

  /** What reaches `npm publish`. */
  datatype Published = Published(bytes: Bytes, npmTag: Text, commit: Commit)

  /** `runPreparedPublish` up to the publish command; none when it throws. */
  function Publish(t: Tools, r: Repo, plan: Plan, dir: Directory, receipt: Text): Option<Published>
  {
    if r.name != PACKAGE_NAME || Parse(r.version).None? then None
    else if plan.tag.Some? && ParseTag(plan.tag.value) != Some(r.version) then None
    else
      var reopened :- Reopen(t, r, plan, dir, receipt);
      var requested :- if plan.npmTag == [] then Some(reopened.0.npmTag) else ResolveNpmTag(r.version, plan.npmTag);
      if reopened.0.npmTag != requested || reopened.0.commit != r.head then None
      else Some(Published(reopened.1, reopened.0.npmTag, r.head))
  }

  /** The program: a directory that preparation writes and publication only reads. */
  class ArtifactDirectory {
    const tools: Tools
    var files: Directory

    constructor (tools: Tools, files: Directory)
      ensures this.tools == tools && this.files == files
    {
      this.tools, this.files := tools, files;
    }

    /** `prepareReleaseArtifacts`; the tarball is written before it is inspected. */
    method PrepareReleaseArtifacts(r: Repo, plan: Plan, tarball: Bytes) returns (receipt: Option<Text>)
      modifies this
      ensures var p := Prepare(tools, r, plan, old(files), tarball);
        if p.Some? then receipt == Some(p.value.receipt) && files == p.value.dir else receipt == None
    {
      var npmTag := ResolveNpmTag(r.version, plan.npmTag);
      if npmTag.None? {
        return None;
      }
      var file := tools.tarballName(r.name, r.version);
      files := files[file := tarball];
      if tarball == [] || !tools.inspects(tarball, r.name, r.version) {
        return None;
      }
      var record := Artifact(PACKAGE_KEY, r.name, r.version, file, |tarball|, tools.sha(tarball));
      var manifest := Manifest(2, r.version, npmTag.value, plan.tag, r.head, [record]);
      files := files[MANIFEST_FILE := tools.encode(manifest)];
      receipt := Some(tools.sha(files[MANIFEST_FILE]));
    }

    /** `runPreparedPublish` up to the publish command. */
    method RunPreparedPublish(r: Repo, plan: Plan, receipt: Text) returns (published: Option<Published>)
      ensures published == Publish(tools, r, plan, files, receipt)
    {
      if r.name != PACKAGE_NAME || Parse(r.version).None? {
        return None;
      }
      if plan.tag.Some? && ParseTag(plan.tag.value) != Some(r.version) {
        return None;
      }
      var reopened := Reopen(tools, r, plan, files, receipt);
      if reopened.None? {
        return None;
      }
      var (manifest, bytes) := reopened.value;
      var requested := manifest.npmTag;
      if plan.npmTag != [] {
        var resolved := ResolveNpmTag(r.version, plan.npmTag);
        if resolved.None? {
          return None;
        }
        requested := resolved.value;
      }
      if manifest.npmTag != requested || manifest.commit != r.head {
        return None;
      }
      return Some(Published(bytes, manifest.npmTag, r.head));
    }
  }

  // ---- What the seal guarantees ----

  lemma PreparedFacts(t: Tools, r: Repo, plan: Plan, dir: Directory, tarball: Bytes)
    requires AreSound(t) && Prepare(t, r, plan, dir, tarball).Some?
    ensures var p := Prepare(t, r, plan, dir, tarball).value;
      var file := t.tarballName(r.name, r.version);
      && NpmTag(r.version) == Some(p.manifest.npmTag)
      && p.manifest == SealedManifest(t, r, plan, tarball, p.manifest.npmTag)
      && p.receipt == t.sha(t.encode(p.manifest))
      && MANIFEST_FILE in p.dir && p.dir[MANIFEST_FILE] == t.encode(p.manifest)
      && file in p.dir && p.dir[file] == tarball
      && tarball != [] && t.inspects(tarball, r.name, r.version)
  {
    hide Parse;
  }

  /** A directory whose manifest matches the receipt holds the sealed manifest,
      whatever else was done to it. */
  lemma ReceiptFixesManifest(t: Tools, p: Sealed, dir: Directory)
    requires AreSound(t) && p.receipt == t.sha(t.encode(p.manifest))
    requires MANIFEST_FILE in dir && t.sha(dir[MANIFEST_FILE]) == p.receipt
    ensures dir[MANIFEST_FILE] == t.encode(p.manifest) && t.decode(dir[MANIFEST_FILE]) == Some(p.manifest)
  {
  }

  /** Whatever happened in between, what publication accepts is what preparation sealed. */
  lemma ReopenedIsSealed(t: Tools, r: Repo, plan: Plan, dir: Directory, tarball: Bytes,
                         r': Repo, plan': Plan, dir': Directory)
    requires AreSound(t) && Prepare(t, r, plan, dir, tarball).Some?
    requires Reopen(t, r', plan', dir', Prepare(t, r, plan, dir, tarball).value.receipt).Some?
    ensures var p := Prepare(t, r, plan, dir, tarball).value;
      && Reopen(t, r', plan', dir', p.receipt) == Some((p.manifest, tarball))
      && (plan'.tag.Some? ==> plan'.tag == plan.tag)
  {
    hide Parse, Prepare, ResolveNpmTag;
    PreparedFacts(t, r, plan, dir, tarball);
    ReceiptFixesManifest(t, Prepare(t, r, plan, dir, tarball).value, dir');
  }

  /** The channel of a version decides where it comes from and where it goes: betas
      from `develop` to the npm tag `beta`, stable versions from `main` to
      `candidate`, and no others are released. */
  ghost predicate OnChannel(r: Repo, commit: Commit, npmTag: Text)
  {
    && Parse(r.version).Some?
    && match Parse(r.version).value.channel
       case Beta => npmTag == Ascii("beta") && commit == r.develop
       case Stable => npmTag == Ascii("candidate") && commit == r.main
       case _ => false
  }

  lemma ChannelOf(r: Repo)
    requires NpmTag(r.version).Some?
    ensures OnChannel(r, ReleaseTip(r), NpmTag(r.version).value)
  {
    hide Parse;
  }

  /** A rehearsal is made on the branch that the version is released from. */
  lemma RehearsesOnItsBranch(h: History, r: Repo)
    requires IsAcyclic(h) && BranchProves(h, r) && NpmTag(r.version).Some?
    ensures r.clean && OnChannel(r, r.head, NpmTag(r.version).value)
    ensures r.branch == if Parse(r.version).value.channel.Stable? then Ascii("main") else Ascii("develop")
  {
    hide Parse, IsAncestor, IsAcyclic;
    MutualAncestryIsEquality(h, r.head, ReleaseTip(r));
    ChannelOf(r);
  }

  /** Sealed publishing: whatever was done to the artifact directory, and to the
      checkout, between the phases, what reaches `npm publish` is the very tarball
      inspected at preparation, under the sealed npm tag and commit: the tag and the
      remote branch tip that belong to the version's channel, and for a real release
      the commit of the tag that names the version. */
  lemma PublishesWhatWasSealed(t: Tools, h: History, r: Repo, plan: Plan, dir: Directory, tarball: Bytes,
                               r': Repo, plan': Plan, dir': Directory)
    requires AreSound(t) && IsAcyclic(h) && ProvenanceHolds(h, r, plan)
    requires Prepare(t, r, plan, dir, tarball).Some?
    requires Publish(t, r', plan', dir', Prepare(t, r, plan, dir, tarball).value.receipt).Some?
    ensures var p, out := Prepare(t, r, plan, dir, tarball).value,
                          Publish(t, r', plan', dir', Prepare(t, r, plan, dir, tarball).value.receipt).value;
      && out == Published(tarball, p.manifest.npmTag, r.head) && t.inspects(out.bytes, r.name, r.version)
      && OnChannel(r, out.commit, out.npmTag) && r'.head == r.head && r'.version == r.version
      && (plan.tag.Some? ==> plan.tag.value == Ascii("pactile-v") + r.version
                             && plan.tag.value in r.tags && r.tags[plan.tag.value] == out.commit)
      && (plan'.tag.Some? ==> plan'.tag == plan.tag)
  {
    hide Parse, Prepare, Reopen, ResolveNpmTag, NpmTag, OnChannel, IsAncestor, IsAcyclic, AreSound;
    PreparedFacts(t, r, plan, dir, tarball);
    ChannelOf(r);
    ReopenedIsSealed(t, r, plan, dir, tarball, r', plan', dir');
    ReopenedVersion(t, r', plan', dir', Prepare(t, r, plan, dir, tarball).value.receipt);
    MutualAncestryIsEquality(h, r.head, ReleaseTip(r));
  }

  lemma ReopenedVersion(t: Tools, r: Repo, plan: Plan, dir: Directory, receipt: Text)
    requires Reopen(t, r, plan, dir, receipt).Some?
    ensures Reopen(t, r, plan, dir, receipt).value.0.version == r.version
  {
    hide Parse, ResolveNpmTag, Validate;
  }

  /** Preparation seals exactly a package that passes inspection, on a channel that is
      released, under the channel's npm tag; another one may not be asked for. */
  lemma PreparesIff(t: Tools, r: Repo, plan: Plan, dir: Directory, tarball: Bytes)
    ensures Prepare(t, r, plan, dir, tarball).Some?
       <==> && tarball != [] && t.inspects(tarball, r.name, r.version)
            && (exists npmTag :: OnChannel(r, ReleaseTip(r), npmTag) && plan.npmTag in {[], npmTag})
    ensures Prepare(t, r, plan, dir, tarball).Some? ==>
      var p, file := Prepare(t, r, plan, dir, tarball).value, t.tarballName(r.name, r.version);
      && OnChannel(r, ReleaseTip(r), p.manifest.npmTag)
      && p.manifest == Manifest(2, r.version, p.manifest.npmTag, plan.tag, r.head,
                                [Artifact(Ascii("cli"), r.name, r.version, file, |tarball|, t.sha(tarball))])
      && p.dir == dir[file := tarball][Ascii("release-artifacts-v1.json") := t.encode(p.manifest)]
      && p.receipt == t.sha(t.encode(p.manifest))
  {
    hide Parse;
    if NpmTag(r.version).Some? {
      ChannelOf(r);
    } else {
      assert forall npmTag :: !OnChannel(r, ReleaseTip(r), npmTag);
    }
    ChannelTagIsOne(r);
  }

  lemma ChannelTagIsOne(r: Repo)
    ensures forall a, b :: OnChannel(r, ReleaseTip(r), a) && OnChannel(r, ReleaseTip(r), b) ==> a == b
  {
    hide Parse;
  }

  /** Publication goes through exactly for the checkout, the tag and the npm tag that
      were sealed, and with both sealed files intact: everything else in the directory
      may have changed. */
  lemma PublishesIff(t: Tools, r: Repo, plan: Plan, dir: Directory, tarball: Bytes, r': Repo, plan': Plan, dir': Directory)
    requires AreSound(t) && Prepare(t, r, plan, dir, tarball).Some?
    ensures var p, file := Prepare(t, r, plan, dir, tarball).value, t.tarballName(r.name, r.version);
      Publish(t, r', plan', dir', p.receipt).Some?
      <==> && r'.name == r.name == Ascii("@blxzer/pactile") && r'.version == r.version && r'.head == r.head
           && (plan'.tag.Some? ==> plan'.tag == plan.tag == Some(Ascii("pactile-v") + r.version))
           && plan'.npmTag in {[], p.manifest.npmTag}
           && MANIFEST_FILE in dir' && dir'[MANIFEST_FILE] == p.dir[MANIFEST_FILE] && file in dir' && dir'[file] == tarball
  {
    hide Parse, Prepare, ResolveNpmTag, ParseTag, Validate;
    var p := Prepare(t, r, plan, dir, tarball).value;
    PreparedFacts(t, r, plan, dir, tarball);
    PlannedTag(t, r, plan, dir, tarball);
    if MANIFEST_FILE in dir' && t.sha(dir'[MANIFEST_FILE]) == p.receipt {
      ReceiptFixesManifest(t, p, dir');
      assert p.manifest.packages[0]
          == Artifact(PACKAGE_KEY, r.name, r.version, t.tarballName(r.name, r.version), |tarball|, t.sha(tarball));
      ValidatesIff(t, r', r, tarball, dir');
    }
    TagNames(r.version);
    ResolvesIff(r.version, plan'.npmTag, p.manifest.npmTag);
    ResolvesIff(r.version, p.manifest.npmTag, p.manifest.npmTag);
    if plan'.tag.Some? {
      ParsedTag(plan'.tag.value, r'.version);
    }
  }

  lemma ResolvesIff(version: Text, explicit: Text, npmTag: Text)
    requires NpmTag(version) == Some(npmTag)
    ensures ResolveNpmTag(version, explicit) == (if explicit in {[], npmTag} then Some(npmTag) else None)
    ensures npmTag != [] && Parse(version).Some?
  {
    hide Parse;
    assert BETA[0] == 0x62 && CANDIDATE[0] == 0x63;
  }

  lemma ParsedTag(tag: Text, version: Text)
    ensures ParseTag(tag) == Some(version) ==> tag == Ascii("pactile-v") + version
  {
    hide Parse;
  }

  lemma TagNames(version: Text)
    ensures Parse(version).Some? ==> ParseTag(Ascii("pactile-v") + version) == Some(version)
  {
    hide Parse;
    var tag := TAG_PREFIX + version;
    assert tag[|TAG_PREFIX|..] == version;
    if Parse(version).Some? {
      ParsedIsSomething(version);
      assert TAG_PREFIX < tag;
    }
  }

  lemma ParsedIsSomething(version: Text)
    requires Parse(version).Some?
    ensures version != []
  {
    PrintOfParse(version);
  }

  /** The record of a sealed tarball is accepted exactly with that tarball in place. */
  lemma ValidatesIff(t: Tools, r': Repo, r: Repo, tarball: Bytes, dir': Directory)
    requires AreSound(t) && tarball != [] && t.inspects(tarball, r.name, r.version)
    ensures var file := t.tarballName(r.name, r.version);
      var record := Artifact(PACKAGE_KEY, r.name, r.version, file, |tarball|, t.sha(tarball));
      Validate(t, r', record, dir')
      == if r'.name == r.name && r'.version == r.version && file in dir' && dir'[file] == tarball then Some(tarball) else None
  {
  }

  /** From the same checkout, publication goes through exactly when both sealed
      files still hold their sealed bytes. */
  lemma PublishesIffUntouched(t: Tools, h: History, r: Repo, plan: Plan, dir: Directory, tarball: Bytes, dir': Directory)
    requires AreSound(t) && ProvenanceHolds(h, r, plan) && Prepare(t, r, plan, dir, tarball).Some?
    ensures var p, file := Prepare(t, r, plan, dir, tarball).value, t.tarballName(r.name, r.version);
      Publish(t, r, plan, dir', p.receipt).Some?
      <==> MANIFEST_FILE in dir' && dir'[MANIFEST_FILE] == p.dir[MANIFEST_FILE] && file in dir' && dir'[file] == tarball
  {
    hide Parse, Prepare, IsAncestor;
    PreparedFacts(t, r, plan, dir, tarball);
    var p := Prepare(t, r, plan, dir, tarball).value;
    if MANIFEST_FILE in dir' && t.sha(dir'[MANIFEST_FILE]) == p.receipt {
      ReceiptFixesManifest(t, p, dir');
    }
    PlannedTag(t, r, plan, dir, tarball);
    if Publish(t, r, plan, dir', p.receipt).Some? {
      ReopenedIsSealed(t, r, plan, dir, tarball, r, plan, dir');
      ReopenedBytes(t, r, plan, dir', p.receipt);
    }
  }

  lemma PlannedTag(t: Tools, r: Repo, plan: Plan, dir: Directory, tarball: Bytes)
    requires Prepare(t, r, plan, dir, tarball).Some?
    ensures ResolveNpmTag(r.version, plan.npmTag) == Some(Prepare(t, r, plan, dir, tarball).value.manifest.npmTag)
  {
    hide Parse;
  }

  lemma ReopenedBytes(t: Tools, r: Repo, plan: Plan, dir: Directory, receipt: Text)
    requires Reopen(t, r, plan, dir, receipt).Some?
    ensures var file := t.tarballName(r.name, r.version);
      MANIFEST_FILE in dir && t.sha(dir[MANIFEST_FILE]) == receipt
      && file in dir && dir[file] == Reopen(t, r, plan, dir, receipt).value.1
  {
    hide Parse, ResolveNpmTag;
  }
}
