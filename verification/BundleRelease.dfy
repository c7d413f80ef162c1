/**
 * The release protocol rendered by scripts/build-runtime-bundle-workflow.ts: any number of workflow
 * runs classify, assemble, recheck, publish, pin, rebase and push, while other people push commits to
 * main and create tags and releases.
 *
 * Each action is one indivisible remote read or write. Creating a release is an atomic test-and-set,
 * `git push` is a compare-and-swap on main, main only grows, and neither tags nor releases change once
 * they exist. `git rebase` merges the one-line version file as a whole and the manifest field by field,
 * each field having a line of its own; where git finds neighbouring lines in conflict the run stops.
 */
module BundleRelease {
  import opened Prelude
  import opened BundleManifest

  datatype SourceList = SourceList(version: string, pins: string)

  /** The files of a commit that the protocol reads or writes. */
  datatype Tree = Tree(sources: SourceList, versionFile: string, manifest: Manifest)

  datatype Commit = Commit(id: nat, tree: Tree)

  datatype Release = Release(published: bool, target: nat, assets: map<string, string>)

  datatype Phase =
    | Started
    | TagRead(tag: Option<Commit>)
    | PublishNew
    | RecoverPin
    | Assembled(staging: map<string, string>)
    | TagRechecked(staging: map<string, string>)
    | Rechecked(staging: map<string, string>)
    | Staged(staging: map<string, string>)
    | Committed(staging: map<string, string>)
    | Rebased(staging: map<string, string>, base: nat, tree: Tree)
    | Pushed(staging: map<string, string>, at: nat)
    | Stopped

  /** A workflow run works on one commit of main throughout. */
  datatype Run = Run(commit: Commit, phase: Phase)

  datatype World = World(main: seq<Commit>, tags: map<string, Commit>, releases: map<string, Release>, runs: map<nat, Run>)

  datatype Env = Env(site: Site, sourcesSha: SourceList -> string)

  datatype Action =
    | ForeignPush(commit: Commit)
    | ForeignTag(tag: string, commit: Commit)
    | ForeignRelease(tag: string, release: Release)
    | Trigger(run: nat, index: nat)
    | Stop(run: nat)
    | ReadTag(run: nat)
    | ReadRelease(run: nat)
    | Assemble(run: nat, assets: map<string, string>)
    | RecheckTag(run: nat)
    | RecheckRelease(run: nat)
    | CreateRelease(run: nat)
    | Download(run: nat)
    | CommitPin(run: nat)
    | Rebase(run: nat, manifest: Manifest)
    | PushPin(run: nat, id: nat)

  function Version(run: Run): string {
    run.commit.tree.sources.version
  }

  function Tag(run: Run): string {
    "runtime-v" + Version(run)
  }

  function VersionLine(run: Run): string {
    Version(run) + "\n"
  }

  // ---------------------------------------------------------------- the steps of a run

  /** The classify job, after the tag was read: the release is read and the state is decided. */
  function Classify(env: Env, run: Run, tag: Option<Commit>, release: Option<Release>): Phase
    requires env.site.Valid()
  {
    var tree := run.commit.tree;
    if !SafeVersion(Version(run)) then Stopped
    else if tag.None? && release.None? then
      if StripSpace(tree.versionFile) == Version(run) then Stopped else PublishNew
    else if tag.None? || release.None? then Stopped
    else if env.sourcesSha(tag.value.tree.sources) != env.sourcesSha(tree.sources) then Stopped
    else if !release.value.published || release.value.target != tag.value.id then Stopped
    else if release.value.assets.Keys != env.site.ExpectedAssets() then Stopped
    else if exists name | name in release.value.assets :: release.value.assets[name] == "" then Stopped
    else if StripSpace(tree.versionFile) == Version(run) then Stopped
    else RecoverPin
  }

  /** The pin commit: the built manifest is checked, and a commit that changes nothing is not made. */
  function MakePin(env: Env, run: Run, staging: map<string, string>): Phase
    requires env.site.Valid()
  {
    var manifest, tree := Built(env.site, Version(run), staging), run.commit.tree;
    if !PassesCheck(env.site, VersionLine(run), manifest) then Stopped
    else if VersionLine(run) == tree.versionFile && manifest == tree.manifest then Stopped
    else Committed(staging)
  }

  /** The manifests the rebase can leave: none when a field is in conflict. */
  ghost predicate RebasesTo(env: Env, run: Run, staging: map<string, string>, main: seq<Commit>, manifest: Manifest)
    requires env.site.Valid()
  {
    main != [] && Merges(run.commit.tree.manifest, Built(env.site, Version(run), staging), main[|main| - 1].tree.manifest, manifest)
  }

  /** Rebase onto main as fetched, then recheck the source identity and the manifest. */
  function RebasePin(env: Env, run: Run, staging: map<string, string>, main: seq<Commit>, manifest: Manifest): Phase
    requires env.site.Valid() && main != []
  {
    var base, head := run.commit.tree, main[|main| - 1].tree;
    var line := Merge(base.versionFile, VersionLine(run), head.versionFile);
    if line.None? then Stopped else
    var tree := Tree(head.sources, line.value, manifest);
    if env.sourcesSha(tree.sources) != env.sourcesSha(base.sources) then Stopped
    else if !PassesCheck(env.site, tree.versionFile, tree.manifest) then Stopped
    else Rebased(staging, |main|, tree)
  }

  function Lookup<T>(m: map<string, T>, key: string): Option<T> {
    if key in m then Some(m[key]) else None
  }

  /** The files a run downloads from its release. */
  function Downloaded(release: Release): map<string, string> {
    map name | name in release.assets && StartsWith(name, "lando-runtime-") :: release.assets[name]
  }

  ghost predicate Enabled(env: Env, w: World, a: Action)
    requires env.site.Valid()
  {
    match a
    case ForeignPush(_) => true
    case ForeignTag(tag, _) => tag !in w.tags
    case ForeignRelease(tag, _) => tag !in w.releases
    case Trigger(r, index) => r !in w.runs && index < |w.main|
    case Stop(r) => r in w.runs && !w.runs[r].phase.Pushed?
    case ReadTag(r) => r in w.runs && w.runs[r].phase.Started?
    case ReadRelease(r) => r in w.runs && w.runs[r].phase.TagRead?
    case Assemble(r, assets) => r in w.runs && w.runs[r].phase.PublishNew? && assets.Keys == env.site.ExpectedAssets()
    case RecheckTag(r) => r in w.runs && w.runs[r].phase.Assembled?
    case RecheckRelease(r) => r in w.runs && w.runs[r].phase.TagRechecked?
    case CreateRelease(r) => r in w.runs && w.runs[r].phase.Rechecked?
    case Download(r) => r in w.runs && w.runs[r].phase.RecoverPin? && Tag(w.runs[r]) in w.releases
    case CommitPin(r) => r in w.runs && w.runs[r].phase.Staged?
    case Rebase(r, manifest) =>
      r in w.runs && w.runs[r].phase.Committed? && RebasesTo(env, w.runs[r], w.runs[r].phase.staging, w.main, manifest)
    case PushPin(r, _) => r in w.runs && w.runs[r].phase.Rebased? && w.main != []
  }

  function Moved(w: World, r: nat, phase: Phase): World
    requires r in w.runs
  {
    w.(runs := w.runs[r := w.runs[r].(phase := phase)])
  }

  function Apply(env: Env, w: World, a: Action): World
    requires env.site.Valid() && Enabled(env, w, a)
  {
    match a
    case ForeignPush(commit) => w.(main := w.main + [commit])
    case ForeignTag(tag, commit) => w.(tags := w.tags[tag := commit])
    case ForeignRelease(tag, release) => w.(releases := w.releases[tag := release])
    case Trigger(r, index) => w.(runs := w.runs[r := Run(w.main[index], Started)])
    case Stop(r) => Moved(w, r, Stopped)
    case ReadTag(r) => Moved(w, r, TagRead(Lookup(w.tags, Tag(w.runs[r]))))
    case ReadRelease(r) =>
      var run := w.runs[r];
      Moved(w, r, Classify(env, run, run.phase.tag, Lookup(w.releases, Tag(run))))
    case Assemble(r, assets) => Moved(w, r, Assembled(assets))
    case RecheckTag(r) =>
      Moved(w, r, if Tag(w.runs[r]) in w.tags then Stopped else TagRechecked(w.runs[r].phase.staging))
    case RecheckRelease(r) =>
      Moved(w, r, if Tag(w.runs[r]) in w.releases then Stopped else Rechecked(w.runs[r].phase.staging))
    case CreateRelease(r) =>
      var run, tag := w.runs[r], Tag(w.runs[r]);
      if tag in w.releases then Moved(w, r, Stopped) else
      Moved(w, r, Staged(run.phase.staging)).(
        releases := w.releases[tag := Release(true, run.commit.id, run.phase.staging)],
        tags := if tag in w.tags then w.tags else w.tags[tag := run.commit])
    case Download(r) => Moved(w, r, Staged(Downloaded(w.releases[Tag(w.runs[r])])))
    case CommitPin(r) => Moved(w, r, MakePin(env, w.runs[r], w.runs[r].phase.staging))
    case Rebase(r, manifest) => Moved(w, r, RebasePin(env, w.runs[r], w.runs[r].phase.staging, w.main, manifest))
    case PushPin(r, id) =>
      var phase, n := w.runs[r].phase, |w.main|;
      if n != phase.base || phase.tree == w.main[n - 1].tree then Moved(w, r, Stopped) else
      Moved(w, r, Pushed(phase.staging, n)).(main := w.main + [Commit(id, phase.tree)])
  }

  /** Before any run: whatever history, tags and releases the repository already has. */
  predicate Init(w: World) {
    w.main != [] && w.runs == map[]
  }

  /** `actions` is a run of the system from `w` to `last`. */
  ghost predicate Execution(env: Env, w: World, actions: seq<Action>, last: World)
    requires env.site.Valid()
    decreases |actions|
  {
    if actions == [] then w == last
    else Enabled(env, w, actions[0]) && Execution(env, Apply(env, w, actions[0]), actions[1..], last)
  }

  ghost predicate Reachable(env: Env, w: World)
    requires env.site.Valid()
  {
    exists first, actions :: Init(first) && Execution(env, first, actions, w)
  }

  // ---------------------------------------------------------------- the invariant

  /** The run was classified as needing a pin. */
  predicate NeedsPin(run: Run) {
    SafeVersion(Version(run)) && StripSpace(run.commit.tree.versionFile) != Version(run)
  }

  /** The published release was made from the run's source list: at its commit, or at a tag with the same list. */
  predicate MadeFromSources(env: Env, w: World, run: Run) {
    && Tag(run) in w.releases && w.releases[Tag(run)].published
    && (|| w.releases[Tag(run)].target == run.commit.id
        || (Tag(run) in w.tags && w.releases[Tag(run)].target == w.tags[Tag(run)].id
            && env.sourcesSha(w.tags[Tag(run)].tree.sources) == env.sourcesSha(run.commit.tree.sources)))
  }

  /** The run's release holds exactly the expected assets, made from its sources, and they are the staged ones. */
  predicate HoldsRelease(env: Env, w: World, run: Run, staging: map<string, string>)
    requires env.site.Valid()
  {
    && NeedsPin(run) && MadeFromSources(env, w, run)
    && w.releases[Tag(run)].assets == staging && staging.Keys == env.site.ExpectedAssets()
  }

  predicate NoneEmpty(assets: map<string, string>) {
    forall name | name in assets :: assets[name] != ""
  }

  /** Main still has the run's old value of this field, or the pin changes it. */
  predicate Survives(env: Env, run: Run, staging: map<string, string>, main: Manifest, f: Field)
    requires env.site.Valid()
  {
    FieldSurvives(run.commit.tree.manifest, Built(env.site, Version(run), staging), main, f)
  }

  /** No field that the pin leaves alone was changed on main meanwhile. */
  ghost predicate ManifestSurvives(env: Env, run: Run, staging: map<string, string>, main: Manifest)
    requires env.site.Valid()
  {
    forall f :: Survives(env, run, staging, main, f)
  }

  /** `tree` is the run's pin on top of main's first `base` commits. */
  ghost predicate PinsOver(env: Env, run: Run, staging: map<string, string>, main: seq<Commit>, base: nat, tree: Tree)
    requires env.site.Valid()
  {
    && 0 < base <= |main|
    && tree.sources == main[base - 1].tree.sources
    && env.sourcesSha(tree.sources) == env.sourcesSha(run.commit.tree.sources)
    && tree.versionFile == VersionLine(run)
    && Merges(run.commit.tree.manifest, Built(env.site, Version(run), staging), main[base - 1].tree.manifest, tree.manifest)
    && PassesCheck(env.site, tree.versionFile, tree.manifest)
  }

  ghost predicate RunOk(env: Env, w: World, run: Run)
    requires env.site.Valid()
  {
    match run.phase
    case TagRead(tag) => tag.Some? ==> Tag(run) in w.tags && w.tags[Tag(run)] == tag.value
    case PublishNew => NeedsPin(run)
    case RecoverPin =>
      && Tag(run) in w.releases && HoldsRelease(env, w, run, w.releases[Tag(run)].assets)
      && NoneEmpty(w.releases[Tag(run)].assets)
    case Assembled(staging) => NeedsPin(run) && staging.Keys == env.site.ExpectedAssets()
    case TagRechecked(staging) => NeedsPin(run) && staging.Keys == env.site.ExpectedAssets()
    case Rechecked(staging) => NeedsPin(run) && staging.Keys == env.site.ExpectedAssets()
    case Staged(staging) => HoldsRelease(env, w, run, staging)
    case Committed(staging) => HoldsRelease(env, w, run, staging) && NoneEmpty(staging)
    case Rebased(staging, base, tree) =>
      HoldsRelease(env, w, run, staging) && NoneEmpty(staging) && PinsOver(env, run, staging, w.main, base, tree)
    case Pushed(staging, at) =>
      && HoldsRelease(env, w, run, staging) && NoneEmpty(staging) && at < |w.main|
      && PinsOver(env, run, staging, w.main, at, w.main[at].tree)
    case _ => true
  }

  ghost predicate Inv(env: Env, w: World)
    requires env.site.Valid()
  {
    w.main != [] && forall r | r in w.runs :: RunOk(env, w, w.runs[r])
  }

  /** Main, the tags and the releases only grow. */
  predicate Grows(w: World, later: World) {
    && |w.main| <= |later.main| && later.main[..|w.main|] == w.main
    && (forall tag | tag in w.tags :: tag in later.tags && later.tags[tag] == w.tags[tag])
    && forall tag | tag in w.releases :: tag in later.releases && later.releases[tag] == w.releases[tag]
  }

  lemma RunStaysOk(env: Env, w: World, later: World, run: Run)
    requires env.site.Valid() && RunOk(env, w, run) && Grows(w, later)
    ensures RunOk(env, later, run)
  {
  }

  lemma VersionLineWins(run: Run, theirs: string)
    requires NeedsPin(run) && Merge(run.commit.tree.versionFile, VersionLine(run), theirs).Some?
    ensures Merge(run.commit.tree.versionFile, VersionLine(run), theirs).value == VersionLine(run)
  {
    StripSafe(Version(run), "\n");
    assert StripSpace("\n") == "";
    assert StripSpace(VersionLine(run)) == Version(run);
  }

  lemma RebaseKeepsPin(env: Env, w: World, run: Run, staging: map<string, string>, manifest: Manifest)
    requires env.site.Valid() && HoldsRelease(env, w, run, staging) && NoneEmpty(staging)
    requires RebasesTo(env, run, staging, w.main, manifest)
    ensures RunOk(env, w, run.(phase := RebasePin(env, run, staging, w.main, manifest)))
  {
    var base, head := run.commit.tree, w.main[|w.main| - 1].tree;
    if RebasePin(env, run, staging, w.main, manifest).Rebased? {
      VersionLineWins(run, head.versionFile);
    }
  }

  lemma DownloadIsAll(env: Env, w: World, run: Run)
    requires env.site.Valid() && Tag(run) in w.releases
    requires w.releases[Tag(run)].assets.Keys == env.site.ExpectedAssets()
    ensures Downloaded(w.releases[Tag(run)]) == w.releases[Tag(run)].assets
  {
  }

  lemma ClassifyOk(env: Env, w: World, run: Run, tag: Option<Commit>)
    requires env.site.Valid() && (tag.Some? ==> Tag(run) in w.tags && w.tags[Tag(run)] == tag.value)
    ensures RunOk(env, w, run.(phase := Classify(env, run, tag, Lookup(w.releases, Tag(run)))))
  {
  }

  lemma PushOk(env: Env, w: World, r: nat, id: nat)
    requires env.site.Valid() && Inv(env, w) && Enabled(env, w, PushPin(r, id))
    ensures RunOk(env, Apply(env, w, PushPin(r, id)), Apply(env, w, PushPin(r, id)).runs[r])
  {
    assert RunOk(env, w, w.runs[r]);
  }

  lemma PublishingRunOk(env: Env, w: World, a: Action, r: nat)
    requires env.site.Valid() && Inv(env, w) && Enabled(env, w, a)
    requires a.Assemble? || a.RecheckTag? || a.RecheckRelease? || a.CreateRelease? || a.CommitPin?
    requires a.run == r
    ensures r in Apply(env, w, a).runs && RunOk(env, Apply(env, w, a), Apply(env, w, a).runs[r])
  {
    assert RunOk(env, w, w.runs[r]);
    if a.CommitPin? && Apply(env, w, a).runs[r].phase.Committed? {
      PassingIsFull(env.site, Version(w.runs[r]), VersionLine(w.runs[r]), w.runs[r].phase.staging);
    }
  }

  /** The phase a run is moved to is a good one. */
  lemma ActingRunOk(env: Env, w: World, a: Action, r: nat)
    requires env.site.Valid() && Inv(env, w) && Enabled(env, w, a)
    requires r in Apply(env, w, a).runs && (r in w.runs ==> Apply(env, w, a).runs[r] != w.runs[r])
    ensures RunOk(env, Apply(env, w, a), Apply(env, w, a).runs[r])
  {
    match a
    case Download(_) =>
      assert RunOk(env, w, w.runs[r]);
      DownloadIsAll(env, w, w.runs[r]);
    case Rebase(_, manifest) =>
      assert RunOk(env, w, w.runs[r]);
      RebaseKeepsPin(env, w, w.runs[r], w.runs[r].phase.staging, manifest);
    case ReadRelease(_) =>
      assert RunOk(env, w, w.runs[r]);
      ClassifyOk(env, w, w.runs[r], w.runs[r].phase.tag);
    case PushPin(_, id) => PushOk(env, w, r, id);
    case CommitPin(_) => PublishingRunOk(env, w, a, r);
    case Assemble(_, _) => PublishingRunOk(env, w, a, r);
    case RecheckTag(_) => PublishingRunOk(env, w, a, r);
    case RecheckRelease(_) => PublishingRunOk(env, w, a, r);
    case CreateRelease(_) => PublishingRunOk(env, w, a, r);
    case ForeignPush(_) => assert false;
    case ForeignTag(_, _) => assert false;
    case ForeignRelease(_, _) => assert false;
    case Trigger(_, _) =>
    case Stop(_) =>
    case ReadTag(_) =>
  }

  lemma ActionKeepsInv(env: Env, w: World, a: Action)
    requires env.site.Valid() && Inv(env, w) && Enabled(env, w, a)
    ensures Inv(env, Apply(env, w, a))
  {
    var later := Apply(env, w, a);
    forall r | r in later.runs ensures RunOk(env, later, later.runs[r]) {
      if r in w.runs && later.runs[r] == w.runs[r] {
        RunStaysOk(env, w, later, w.runs[r]);
      } else {
        ActingRunOk(env, w, a, r);
      }
    }
  }

  lemma {:induction false} ExecutionKeepsInv(env: Env, w: World, actions: seq<Action>, last: World)
    requires env.site.Valid() && Inv(env, w) && Execution(env, w, actions, last)
    ensures Inv(env, last)
    decreases |actions|
  {
    if actions != [] {
      ActionKeepsInv(env, w, actions[0]);
      ExecutionKeepsInv(env, Apply(env, w, actions[0]), actions[1..], last);
    }
  }

  lemma ReachableInv(env: Env, w: World)
    requires env.site.Valid() && Reachable(env, w)
    ensures Inv(env, w)
  {
    var first, actions :| Init(first) && Execution(env, first, actions, w);
    ExecutionKeepsInv(env, first, actions, w);
  }

  // ---------------------------------------------------------------- the guarantee

  /**
   * In every reachable state, a pushed pin names a version whose release holds exactly the expected
   * assets, sits on the source list that was on main at the push, has the built value in exactly the
   * manifest fields that survived the rebase, and so records the checksums of those same assets exactly
   * when every field survived.
   */
  lemma PushedPin(env: Env, w: World, r: nat)
    requires env.site.Valid() && Reachable(env, w) && r in w.runs && w.runs[r].phase.Pushed?
    ensures var run, at := w.runs[r], w.runs[r].phase.at;
            && 0 < at < |w.main| && Tag(run) in w.releases
            && var tree, before, assets := w.main[at].tree, w.main[at - 1].tree, w.releases[Tag(run)].assets;
            && assets.Keys == env.site.ExpectedAssets() && NoneEmpty(assets) && MadeFromSources(env, w, run)
            && StripSpace(tree.versionFile) == Version(run) && PassesCheck(env.site, tree.versionFile, tree.manifest)
            && tree.sources == before.sources
            && env.sourcesSha(tree.sources) == env.sourcesSha(run.commit.tree.sources)
            && (forall f :: At(tree.manifest, f) == At(Built(env.site, Version(run), assets), f)
                            <==> Survives(env, run, assets, before.manifest, f))
            && (Records(env.site, Version(run), assets, tree.manifest)
                <==> ManifestSurvives(env, run, assets, before.manifest))
  {
    ReachableInv(env, w);
    var run, at := w.runs[r], w.runs[r].phase.at;
    assert RunOk(env, w, run);
    var assets, before, tree := w.releases[Tag(run)].assets, w.main[at - 1].tree, w.main[at].tree;
    StripSafe(Version(run), "\n");
    assert StripSpace("\n") == "";
    BuiltRecords(env.site, Version(run), assets, tree.manifest);
    MergeKeeps(run.commit.tree.manifest, Built(env.site, Version(run), assets), before.manifest, tree.manifest);
  }

  /** The field of a pushed pin survived its rebase. */
  predicate PinSurvived(env: Env, w: World, r: nat, f: Field)
    requires env.site.Valid() && r in w.runs && w.runs[r].phase.Pushed?
  {
    var run := w.runs[r];
    0 < run.phase.at <= |w.main| && Survives(env, run, run.phase.staging, w.main[run.phase.at - 1].tree.manifest, f)
  }

  /** Where a pin survived it has the value built from its release. */
  lemma PinFields(env: Env, w: World, r: nat)
    requires env.site.Valid() && Reachable(env, w) && r in w.runs && w.runs[r].phase.Pushed?
    ensures var run, at := w.runs[r], w.runs[r].phase.at;
            && at < |w.main| && Tag(run) in w.releases
            && w.main[at].tree.versionFile == VersionLine(run)
            && forall f | PinSurvived(env, w, r, f) ::
                 At(w.main[at].tree.manifest, f) == At(Built(env.site, Version(run), w.releases[Tag(run)].assets), f)
  {
    ReachableInv(env, w);
    var run, at := w.runs[r], w.runs[r].phase.at;
    assert RunOk(env, w, run);
    MergeKeeps(run.commit.tree.manifest, Built(env.site, Version(run), run.phase.staging), w.main[at - 1].tree.manifest,
               w.main[at].tree.manifest);
  }

  /** Two pins of one version agree wherever both survived: what a version pins is never repinned differently. */
  lemma PinsAgree(env: Env, w: World, r: nat, s: nat)
    requires env.site.Valid() && Reachable(env, w)
    requires r in w.runs && w.runs[r].phase.Pushed? && s in w.runs && w.runs[s].phase.Pushed?
    requires Version(w.runs[r]) == Version(w.runs[s])
    ensures w.runs[r].phase.at < |w.main| && w.runs[s].phase.at < |w.main|
    ensures var m, m' := w.main[w.runs[r].phase.at].tree, w.main[w.runs[s].phase.at].tree;
            && m.versionFile == m'.versionFile
            && (forall f | PinSurvived(env, w, r, f) && PinSurvived(env, w, s, f) :: At(m.manifest, f) == At(m'.manifest, f))
  {
    PinFields(env, w, r);
    PinFields(env, w, s);
  }

  /** Two pins of one version all of whose fields survived are the same pin. */
  lemma SurvivingPinsAgree(env: Env, w: World, r: nat, s: nat)
    requires env.site.Valid() && Reachable(env, w)
    requires r in w.runs && w.runs[r].phase.Pushed? && s in w.runs && w.runs[s].phase.Pushed?
    requires Version(w.runs[r]) == Version(w.runs[s])
    requires forall f :: PinSurvived(env, w, r, f) && PinSurvived(env, w, s, f)
    ensures w.runs[r].phase.at < |w.main| && w.runs[s].phase.at < |w.main|
    ensures w.main[w.runs[r].phase.at].tree.manifest == w.main[w.runs[s].phase.at].tree.manifest
  {
    PinsAgree(env, w, r, s);
    var m, m' := w.main[w.runs[r].phase.at].tree.manifest, w.main[w.runs[s].phase.at].tree.manifest;
    forall f ensures At(m, f) == At(m', f) {
      assert PinSurvived(env, w, r, f) && PinSurvived(env, w, s, f);
    }
    SameFields(m, m');
  }

  // ---------------------------------------------------------------- extending an execution

  lemma {:induction false} ExecutionExtends(env: Env, w: World, actions: seq<Action>, last: World, a: Action)
    requires env.site.Valid() && Execution(env, w, actions, last) && Enabled(env, last, a)
    ensures Execution(env, w, actions + [a], Apply(env, last, a))
    decreases |actions|
  {
    if actions == [] {
      assert actions + [a] == [a] && [a][1..] == [];
    } else {
      ExecutionExtends(env, Apply(env, w, actions[0]), actions[1..], last, a);
      assert (actions + [a])[1..] == actions[1..] + [a];
    }
  }

  lemma ReachableStep(env: Env, w: World, a: Action)
    requires env.site.Valid() && Reachable(env, w) && Enabled(env, w, a)
    ensures Reachable(env, Apply(env, w, a))
  {
    var first, actions :| Init(first) && Execution(env, first, actions, w);
    ExecutionExtends(env, first, actions, w, a);
  }
}
