/**
 * What a run of the release protocol achieves when no one interferes: it publishes or recovers the release
 * and pushes a pin that records it. The steps are those of BundleRelease, for any site and any history.
 */
module PinRuns {
  import opened Prelude
  import opened BundleManifest
  import opened BundleRelease

  /** The world with run `r` in this phase. */
  function AtPhase(w: World, r: nat, commit: Commit, phase: Phase): World {
    w.(runs := w.runs[r := Run(commit, phase)])
  }

  /** A step that only moves the run. */
  lemma Move(env: Env, w: World, r: nat, commit: Commit, phase: Phase, a: Action, next: Phase)
    requires env.site.Valid() && Reachable(env, AtPhase(w, r, commit, phase))
    requires Enabled(env, AtPhase(w, r, commit, phase), a)
    requires Apply(env, AtPhase(w, r, commit, phase), a) == Moved(AtPhase(w, r, commit, phase), r, next)
    ensures Reachable(env, AtPhase(w, r, commit, next))
  {
    ReachableStep(env, AtPhase(w, r, commit, phase), a);
    assert w.runs[r := Run(commit, phase)][r := Run(commit, next)] == w.runs[r := Run(commit, next)];
  }

  /** The run declares a clean version that the version file does not name yet. */
  predicate DeclaresNew(commit: Commit) {
    && SafeVersion(commit.tree.sources.version) && (forall c | c in commit.tree.sources.version :: !IsSpace(c))
    && StripSpace(commit.tree.versionFile) != commit.tree.sources.version
  }

  lemma Starts(env: Env, w: World, r: nat, index: nat)
    requires env.site.Valid() && Reachable(env, w) && r !in w.runs && index < |w.main|
    ensures var commit := w.main[index];
            Reachable(env, AtPhase(w, r, commit, TagRead(Lookup(w.tags, "runtime-v" + commit.tree.sources.version))))
  {
    var commit := w.main[index];
    ReachableStep(env, w, Trigger(r, index));
    assert Apply(env, w, Trigger(r, index)) == AtPhase(w, r, commit, Started);
    Move(env, w, r, commit, Started, ReadTag(r), TagRead(Lookup(w.tags, "runtime-v" + commit.tree.sources.version)));
  }

  /** The pin is committed for any staged files the manifest can be built from. */
  lemma Commits(env: Env, w: World, r: nat, commit: Commit, staging: map<string, string>)
    requires env.site.Valid() && Reachable(env, AtPhase(w, r, commit, Staged(staging)))
    requires DeclaresNew(commit) && staging.Keys == env.site.ExpectedAssets() && NoneEmpty(staging)
    ensures Reachable(env, AtPhase(w, r, commit, Committed(staging)))
  {
    var version := commit.tree.sources.version;
    BuiltPasses(env.site, version, staging);
    StripSafe(version, "\n");
    assert StripSpace("\n") == "";
    Move(env, w, r, commit, Staged(staging), CommitPin(r), Committed(staging));
  }

  /** A complete release that matches the sources is recovered, up to the pin commit. */
  lemma Recovers(env: Env, w: World, r: nat, index: nat)
    requires env.site.Valid() && Reachable(env, w) && r !in w.runs && index < |w.main| && DeclaresNew(w.main[index])
    requires var tag := "runtime-v" + w.main[index].tree.sources.version;
             && tag in w.tags && tag in w.releases && w.releases[tag].published && w.releases[tag].target == w.tags[tag].id
             && env.sourcesSha(w.tags[tag].tree.sources) == env.sourcesSha(w.main[index].tree.sources)
             && w.releases[tag].assets.Keys == env.site.ExpectedAssets() && NoneEmpty(w.releases[tag].assets)
    ensures var tag := "runtime-v" + w.main[index].tree.sources.version;
            Reachable(env, AtPhase(w, r, w.main[index], Committed(w.releases[tag].assets)))
  {
    var commit := w.main[index];
    var tag := "runtime-v" + commit.tree.sources.version;
    Starts(env, w, r, index);
    Move(env, w, r, commit, TagRead(Some(w.tags[tag])), ReadRelease(r), RecoverPin);
    DownloadIsAll(env, AtPhase(w, r, commit, RecoverPin), Run(commit, RecoverPin));
    Move(env, w, r, commit, RecoverPin, Download(r), Staged(w.releases[tag].assets));
    Commits(env, w, r, commit, w.releases[tag].assets);
  }

  /** The world with the release the run publishes. */
  function WithRelease(w: World, commit: Commit, assets: map<string, string>): World {
    var tag := "runtime-v" + commit.tree.sources.version;
    w.(releases := w.releases[tag := Release(true, commit.id, assets)], tags := w.tags[tag := commit])
  }

  /** A version without tag and release is published, up to the pin commit. */
  lemma Publishes(env: Env, w: World, r: nat, index: nat, assets: map<string, string>)
    requires env.site.Valid() && Reachable(env, w) && r !in w.runs && index < |w.main| && DeclaresNew(w.main[index])
    requires var tag := "runtime-v" + w.main[index].tree.sources.version; tag !in w.tags && tag !in w.releases
    requires assets.Keys == env.site.ExpectedAssets() && NoneEmpty(assets)
    ensures Reachable(env, AtPhase(WithRelease(w, w.main[index], assets), r, w.main[index], Committed(assets)))
  {
    var commit := w.main[index];
    Starts(env, w, r, index);
    Move(env, w, r, commit, TagRead(None), ReadRelease(r), PublishNew);
    Rechecks(env, w, r, commit, assets);
    Creates(env, w, r, commit, assets);
    Commits(env, WithRelease(w, commit, assets), r, commit, assets);
  }

  lemma Rechecks(env: Env, w: World, r: nat, commit: Commit, assets: map<string, string>)
    requires env.site.Valid() && Reachable(env, AtPhase(w, r, commit, PublishNew)) && assets.Keys == env.site.ExpectedAssets()
    requires var tag := "runtime-v" + commit.tree.sources.version; tag !in w.tags && tag !in w.releases
    ensures Reachable(env, AtPhase(w, r, commit, Rechecked(assets)))
  {
    Move(env, w, r, commit, PublishNew, Assemble(r, assets), Assembled(assets));
    Move(env, w, r, commit, Assembled(assets), RecheckTag(r), TagRechecked(assets));
    Move(env, w, r, commit, TagRechecked(assets), RecheckRelease(r), Rechecked(assets));
  }

  lemma Creates(env: Env, w: World, r: nat, commit: Commit, assets: map<string, string>)
    requires env.site.Valid() && Reachable(env, AtPhase(w, r, commit, Rechecked(assets)))
    requires var tag := "runtime-v" + commit.tree.sources.version; tag !in w.tags && tag !in w.releases
    ensures Reachable(env, AtPhase(WithRelease(w, commit, assets), r, commit, Staged(assets)))
  {
    ReachableStep(env, AtPhase(w, r, commit, Rechecked(assets)), CreateRelease(r));
    assert w.runs[r := Run(commit, Rechecked(assets))][r := Run(commit, Staged(assets))] == w.runs[r := Run(commit, Staged(assets))];
  }

  /** The world after the push. */
  function AfterPush(w: World, r: nat, commit: Commit, staging: map<string, string>, pushed: Commit): World {
    AtPhase(w.(main := w.main + [pushed]), r, commit, Pushed(staging, |w.main|))
  }

  /** The tree of the pin. */
  function PinTree(commit: Commit, merged: Manifest): Tree {
    Tree(commit.tree.sources, commit.tree.sources.version + "\n", merged)
  }

  lemma LineIsNew(commit: Commit)
    requires DeclaresNew(commit)
    ensures commit.tree.sources.version + "\n" != commit.tree.versionFile
  {
    StripSafe(commit.tree.sources.version, "\n");
    assert StripSpace("\n") == "";
  }

  /** Main has the version file and the sources of the run's commit, and `merged` is a merge onto it that passes. */
  ghost predicate MergesOnto(env: Env, main: seq<Commit>, commit: Commit, staging: map<string, string>, merged: Manifest)
    requires env.site.Valid()
  {
    && main != [] && main[|main| - 1].tree.versionFile == commit.tree.versionFile
    && main[|main| - 1].tree.sources == commit.tree.sources
    && Merges(commit.tree.manifest, Built(env.site, commit.tree.sources.version, staging), main[|main| - 1].tree.manifest, merged)
    && PassesCheck(env.site, commit.tree.sources.version + "\n", merged)
  }

  lemma Rebases(env: Env, w: World, r: nat, commit: Commit, staging: map<string, string>, merged: Manifest)
    requires env.site.Valid() && Reachable(env, AtPhase(w, r, commit, Committed(staging)))
    requires MergesOnto(env, w.main, commit, staging, merged)
    ensures Reachable(env, AtPhase(w, r, commit, Rebased(staging, |w.main|, PinTree(commit, merged))))
  {
    var run := Run(commit, Committed(staging));
    assert RebasesTo(env, run, staging, w.main, merged);
    assert RebasePin(env, run, staging, w.main, merged) == Rebased(staging, |w.main|, PinTree(commit, merged));
    Move(env, w, r, commit, Committed(staging), Rebase(r, merged), Rebased(staging, |w.main|, PinTree(commit, merged)));
  }

  /** The rebase onto such a main and the push. */
  lemma Pushes(env: Env, w: World, r: nat, commit: Commit, staging: map<string, string>, merged: Manifest, id: nat)
    requires env.site.Valid() && Reachable(env, AtPhase(w, r, commit, Committed(staging)))
    requires DeclaresNew(commit) && MergesOnto(env, w.main, commit, staging, merged)
    ensures Reachable(env, AfterPush(w, r, commit, staging, Commit(id, PinTree(commit, merged))))
  {
    var phase := Rebased(staging, |w.main|, PinTree(commit, merged));
    Rebases(env, w, r, commit, staging, merged);
    LineIsNew(commit);
    ReachableStep(env, AtPhase(w, r, commit, phase), PushPin(r, id));
    PushLands(env, w, r, commit, staging, merged, id);
  }

  lemma PushLands(env: Env, w: World, r: nat, commit: Commit, staging: map<string, string>, merged: Manifest, id: nat)
    requires env.site.Valid() && w.main != [] && w.main[|w.main| - 1].tree != PinTree(commit, merged)
    ensures var rebased := AtPhase(w, r, commit, Rebased(staging, |w.main|, PinTree(commit, merged)));
            && Enabled(env, rebased, PushPin(r, id))
            && Apply(env, rebased, PushPin(r, id)) == AfterPush(w, r, commit, staging, Commit(id, PinTree(commit, merged)))
  {
    assert w.runs[r := Run(commit, Rebased(staging, |w.main|, PinTree(commit, merged)))][r := Run(commit, Pushed(staging, |w.main|))]
        == w.runs[r := Run(commit, Pushed(staging, |w.main|))];
  }

  /** With main unchanged, the push leaves the manifest that records the release. */
  lemma PushesRecord(env: Env, w: World, r: nat, commit: Commit, staging: map<string, string>, id: nat)
    requires env.site.Valid() && Reachable(env, AtPhase(w, r, commit, Committed(staging)))
    requires w.main != [] && w.main[|w.main| - 1] == commit && DeclaresNew(commit)
    requires staging.Keys == env.site.ExpectedAssets() && NoneEmpty(staging)
    ensures var version := commit.tree.sources.version;
            var built := Built(env.site, version, staging);
            && Reachable(env, AfterPush(w, r, commit, staging, Commit(id, PinTree(commit, built))))
            && Records(env.site, version, staging, built)
  {
    var version := commit.tree.sources.version;
    var built := Built(env.site, version, staging);
    BuiltPasses(env.site, version, staging);
    BuiltRecords(env.site, version, staging, built);
    forall f ensures FieldMerges(commit.tree.manifest, built, commit.tree.manifest, built, f) { }
    Pushes(env, w, r, commit, staging, built, id);
  }

  /** Undisturbed, a new version is published and its pin, which records the release, is pushed. */
  lemma PublishedAndPinned(env: Env, w: World, r: nat, assets: map<string, string>, id: nat) returns (last: World)
    requires env.site.Valid() && Reachable(env, w) && r !in w.runs && w.main != [] && DeclaresNew(w.main[|w.main| - 1])
    requires var tag := "runtime-v" + w.main[|w.main| - 1].tree.sources.version; tag !in w.tags && tag !in w.releases
    requires assets.Keys == env.site.ExpectedAssets() && NoneEmpty(assets)
    ensures Reachable(env, last) && r in last.runs && last.runs[r].phase.Pushed? && |last.main| == |w.main| + 1
    ensures var version := w.main[|w.main| - 1].tree.sources.version;
            && last.releases == w.releases["runtime-v" + version := Release(true, w.main[|w.main| - 1].id, assets)]
            && last.main[|w.main|].tree.versionFile == version + "\n"
            && Records(env.site, version, assets, last.main[|w.main|].tree.manifest)
  {
    var index := |w.main| - 1;
    var commit := w.main[index];
    var version := commit.tree.sources.version;
    Publishes(env, w, r, index, assets);
    PushesRecord(env, WithRelease(w, commit, assets), r, commit, assets, id);
    last := AfterPush(WithRelease(w, commit, assets), r, commit, assets,
                      Commit(id, PinTree(commit, Built(env.site, version, assets))));
  }

  /** Undisturbed, the pin of a complete release that matches the sources is recovered and pushed. */
  lemma RecoveredAndPinned(env: Env, w: World, r: nat, id: nat) returns (last: World)
    requires env.site.Valid() && Reachable(env, w) && r !in w.runs && w.main != [] && DeclaresNew(w.main[|w.main| - 1])
    requires var tag := "runtime-v" + w.main[|w.main| - 1].tree.sources.version;
             && tag in w.tags && tag in w.releases && w.releases[tag].published && w.releases[tag].target == w.tags[tag].id
             && env.sourcesSha(w.tags[tag].tree.sources) == env.sourcesSha(w.main[|w.main| - 1].tree.sources)
             && w.releases[tag].assets.Keys == env.site.ExpectedAssets() && NoneEmpty(w.releases[tag].assets)
    ensures Reachable(env, last) && r in last.runs && last.runs[r].phase.Pushed? && |last.main| == |w.main| + 1
    ensures var version := w.main[|w.main| - 1].tree.sources.version;
            && last.releases == w.releases && last.main[|w.main|].tree.versionFile == version + "\n"
            && Records(env.site, version, w.releases["runtime-v" + version].assets, last.main[|w.main|].tree.manifest)
  {
    var index := |w.main| - 1;
    var commit := w.main[index];
    var version := commit.tree.sources.version;
    var assets := w.releases["runtime-v" + version].assets;
    Recovers(env, w, r, index);
    PushesRecord(env, w, r, commit, assets, id);
    last := AfterPush(w, r, commit, assets,
                      Commit(id, PinTree(commit, Built(env.site, version, assets))));
  }
}
