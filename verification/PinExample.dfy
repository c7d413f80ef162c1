/**
 * Runs of the release protocol in which a pushed pin does not record its release: a small site with two
 * bundles, any base and any foreign push between the pin commit and the rebase, and two such histories.
 */
module PinExample {
  import opened Prelude
  import opened BundleManifest
  import opened BundleRelease
  import opened PinRuns

  /** A site with two targets whose digests are the files themselves. */
  function SmallSite(): Site {
    Site("owner/repo", (bytes: string) => bytes, [Target("k", "lando-runtime-k"), Target("l", "lando-runtime-l")], 2)
  }

  function SmallEnv(): Env {
    Env(SmallSite(), (sources: SourceList) => sources.pins)
  }

  function SmallAssets(): map<string, string> {
    map["lando-runtime-k" := "A", "lando-runtime-l" := "B"]
  }

  function SmallEntry(version: string, target: Target, sha: string, size: nat): Entry {
    Entry(BundleUrl(SmallSite(), version, target), sha, target.filename, size)
  }

  /** The manifest of `version` with these checksums, `k` of size 1 and `l` of the given size. */
  function SmallManifest(version: string, k: string, l: string, size: nat): Manifest {
    Manifest(version, map["k" := SmallEntry(version, Target("k", "lando-runtime-k"), k, 1),
                          "l" := SmallEntry(version, Target("l", "lando-runtime-l"), l, size)])
  }

  /** The manifest built from the release. */
  function SmallPin(): Manifest {
    SmallManifest("1", "A", "B", 1)
  }

  /** A commit that declares version 1 while the version file names version 0. */
  function SmallCommit(id: nat, manifest: Manifest): Commit {
    Commit(id, Tree(SourceList("1", "p"), "0\n", manifest))
  }

  /** The pin commit. */
  function SmallPushed(manifest: Manifest): Commit {
    Commit(2, Tree(SourceList("1", "p"), "1\n", manifest))
  }

  function SmallWorld(base: Manifest, main: seq<Commit>, runs: map<nat, Run>): World {
    World(main, map["runtime-v1" := SmallCommit(0, base)], map["runtime-v1" := Release(true, 0, SmallAssets())], runs)
  }

  function SmallRun(base: Manifest, phase: Phase): map<nat, Run> {
    map[0 := Run(SmallCommit(0, base), phase)]
  }

  lemma SmallValid()
    ensures SmallSite().Valid()
    ensures SmallSite().ExpectedAssets() == SmallAssets().Keys && SmallSite().RequiredKeys() == {"k", "l"}
  {
    var published := SmallSite().Published();
    assert "lando-runtime-k"[14] != "lando-runtime-l"[14] && "k"[0] != "l"[0];
    assert published[0] in published && published[1] in published;
    assert "lando-runtime-k"[..14] == "lando-runtime-" == "lando-runtime-l"[..14];
    assert forall t | t in published :: t == published[0] || t == published[1];
  }

  lemma SmallBuilt()
    ensures Built(SmallSite(), "1", SmallAssets()) == SmallPin()
  {
    var site, targets := SmallSite(), SmallSite().targets;
    assert targets[..1] == [targets[0]] && targets[..1][..0] == [];
    assert "lando-runtime-k" in SmallAssets() && "lando-runtime-l" in SmallAssets();
    assert "lando-runtime-k"[14] != "lando-runtime-l"[14] && "k"[0] != "l"[0];
    assert Bundles(site, "1", targets[..1], SmallAssets()) == map["k" := SmallEntry("1", targets[0], "A", 1)];
    assert |targets| == 2 && targets[1].filename == "lando-runtime-l";
  }

  lemma SmallUrl(version: string, target: Target)
    requires version == "0" || version == "1"
    ensures BundleUrl(SmallSite(), version, target) == BaseUrl(SmallSite(), version) + "/" + target.filename
  {
    var base := BaseUrl(SmallSite(), version);
    assert base[|base| - 1] == version[0];
  }

  lemma SmallChecks(version: string, k: string, l: string, size: nat)
    requires (version == "0" || version == "1") && size > 0
    ensures SmallSite().Valid() && PassesCheck(SmallSite(), version + "\n", SmallManifest(version, k, l, size))
  {
    SmallValid();
    SmallUrl(version, Target("k", "lando-runtime-k"));
    SmallUrl(version, Target("l", "lando-runtime-l"));
    assert (version + "\n")[..1] == version && Trim(version) == version && Trim(version + "\n") == Trim(version);
    assert "k"[0] != "l"[0];
  }

  lemma SmallStrips()
    ensures StripSpace("0\n") == "0" && StripSpace("1\n") == "1" && "0" != "1"
    ensures SafeVersion("1") && "runtime-v" + "1" == "runtime-v1"
    ensures "0" + "\n" == "0\n" && "1" + "\n" == "1\n" && "0\n" != "1\n"
  {
    assert "0\n"[1..] == "\n" && "1\n"[1..] == "\n" && "\n"[1..] == "" && "1"[1..] == "";
    assert StripSpace("\n") == "";
    assert "0"[0] != "1"[0] && "0\n"[0] != "1\n"[0];
  }

  lemma SmallIsComplete(base: Manifest)
    ensures DeclaresNew(SmallCommit(0, base)) && NoneEmpty(SmallAssets())
    ensures "runtime-v" + SmallCommit(0, base).tree.sources.version == "runtime-v1"
  {
    SmallStrips();
    assert "A"[0] in "A" && "B"[0] in "B";
  }

  /** The release is recovered: the run of the first commit reaches its pin commit. */
  lemma SmallCommitted(base: Manifest)
    ensures SmallSite().Valid()
    ensures Reachable(SmallEnv(), SmallWorld(base, [SmallCommit(0, base)], SmallRun(base, Committed(SmallAssets()))))
  {
    var w := SmallWorld(base, [SmallCommit(0, base)], map[]);
    SmallValid();
    SmallIsComplete(base);
    assert Init(w) && Execution(SmallEnv(), w, [], w) && Reachable(SmallEnv(), w);
    Recovers(SmallEnv(), w, 0, 0);
    assert w.runs[0 := Run(SmallCommit(0, base), Committed(SmallAssets()))] == SmallRun(base, Committed(SmallAssets()));
  }

  /** The world after the push of the merge of the manifests. */
  function SmallEnd(base: Manifest, foreign: Manifest, merged: Manifest): World {
    SmallWorld(base, [SmallCommit(0, base), SmallCommit(1, foreign), SmallPushed(merged)], SmallRun(base, Pushed(SmallAssets(), 2)))
  }

  /** A foreign push comes between the pin commit and the rebase. */
  lemma SmallForeign(base: Manifest, foreign: Manifest)
    ensures SmallSite().Valid()
    ensures Reachable(SmallEnv(), SmallWorld(base, [SmallCommit(0, base), SmallCommit(1, foreign)],
                                             SmallRun(base, Committed(SmallAssets()))))
  {
    SmallCommitted(base);
    ReachableStep(SmallEnv(), SmallWorld(base, [SmallCommit(0, base)], SmallRun(base, Committed(SmallAssets()))),
                  ForeignPush(SmallCommit(1, foreign)));
    assert [SmallCommit(0, base)] + [SmallCommit(1, foreign)] == [SmallCommit(0, base), SmallCommit(1, foreign)];
  }

  lemma SmallPush(base: Manifest, foreign: Manifest, merged: Manifest)
    requires Merges(base, SmallPin(), foreign, merged)
    requires SmallSite().Valid() && PassesCheck(SmallSite(), "1\n", merged)
    ensures Reachable(SmallEnv(), SmallEnd(base, foreign, merged))
  {
    var main, commit := [SmallCommit(0, base), SmallCommit(1, foreign)], SmallCommit(0, base);
    var w := SmallWorld(base, main, SmallRun(base, Committed(SmallAssets())));
    SmallForeign(base, foreign);
    SmallIsComplete(base);
    assert MergesOnto(SmallEnv(), main, commit, SmallAssets(), merged) by {
      SmallBuilt();
      SmallStrips();
    }
    assert w == AtPhase(w, 0, commit, Committed(SmallAssets()));
    Pushes(SmallEnv(), w, 0, commit, SmallAssets(), merged, 2);
    SmallEndIs(base, foreign, merged);
  }

  lemma SmallEndIs(base: Manifest, foreign: Manifest, merged: Manifest)
    ensures AfterPush(SmallWorld(base, [SmallCommit(0, base), SmallCommit(1, foreign)], SmallRun(base, Committed(SmallAssets()))),
                      0, SmallCommit(0, base), SmallAssets(), Commit(2, PinTree(SmallCommit(0, base), merged)))
         == SmallEnd(base, foreign, merged)
  {
    SmallStrips();
    assert [SmallCommit(0, base), SmallCommit(1, foreign)] + [SmallPushed(merged)]
        == [SmallCommit(0, base), SmallCommit(1, foreign), SmallPushed(merged)];
    assert SmallRun(base, Committed(SmallAssets()))[0 := Run(SmallCommit(0, base), Pushed(SmallAssets(), 2))]
        == SmallRun(base, Pushed(SmallAssets(), 2));
  }

  /** The merge of the pin and the foreign push passes the check and differs from both. */
  ghost predicate Mixes(base: Manifest, foreign: Manifest, merged: Manifest) {
    && Merges(base, SmallPin(), foreign, merged) && merged != foreign && merged != SmallPin()
    && SmallSite().Valid() && PassesCheck(SmallSite(), "1\n", merged)
  }

  /** Run 0 pushed a pin that changes main's manifest and does not record its release. */
  ghost predicate PinsForeignValue(w: World) {
    && SmallSite().Valid() && Reachable(SmallEnv(), w) && 0 in w.runs && w.runs[0].phase.Pushed?
    && 0 < w.runs[0].phase.at < |w.main| && Tag(w.runs[0]) in w.releases
    && w.main[w.runs[0].phase.at].tree.manifest != w.main[w.runs[0].phase.at - 1].tree.manifest
    && !Records(SmallSite(), Version(w.runs[0]), w.releases[Tag(w.runs[0])].assets, w.main[w.runs[0].phase.at].tree.manifest)
  }

  lemma SmallPinIsForeign(base: Manifest, foreign: Manifest, merged: Manifest)
    requires Mixes(base, foreign, merged)
    ensures PinsForeignValue(SmallEnd(base, foreign, merged))
  {
    SmallPush(base, foreign, merged);
    SmallStrips();
    SmallValid();
    SmallBuilt();
    BuiltRecords(SmallSite(), "1", SmallAssets(), merged);
    assert Tag(SmallEnd(base, foreign, merged).runs[0]) == "runtime-v1";
  }

  /** Manifests with different checksums or sizes differ. */
  lemma SmallManifestsDiffer(v: string, k: string, l: string, size: nat, v': string, k': string, l': string, size': nat)
    requires v != v' || k != k' || l != l' || size != size'
    ensures SmallManifest(v, k, l, size) != SmallManifest(v', k', l', size')
  {
    var m, m' := SmallManifest(v, k, l, size), SmallManifest(v', k', l', size');
    assert "k"[0] != "l"[0];
    assert At(m, Sha256("k")) == Some(Text(k)) && At(m', Sha256("k")) == Some(Text(k'));
    assert At(m, Sha256("l")) == Some(Text(l)) && At(m', Sha256("l")) == Some(Text(l'));
    assert At(m, SizeBytes("l")) == Some(Number(size)) && At(m', SizeBytes("l")) == Some(Number(size'));
  }

  lemma MixIsPinned(base: Manifest, foreign: Manifest, merged: Manifest) returns (w: World)
    requires Mixes(base, foreign, merged)
    ensures PinsForeignValue(w) && w.main == [SmallCommit(0, base), SmallCommit(1, foreign), SmallPushed(merged)]
  {
    SmallPinIsForeign(base, foreign, merged);
    w := SmallEnd(base, foreign, merged);
  }

  // ---------------------------------------------------------------- two histories

  /** Main has a stale checksum for `k`; someone changes the other checksum, which the pin leaves alone. */
  lemma StaleMerges()
    ensures Merges(SmallManifest("1", "X", "B", 1), SmallPin(), SmallManifest("1", "X", "C", 1), SmallManifest("1", "A", "C", 1))
  {
    assert "k"[0] != "l"[0];
    forall f ensures FieldMerges(SmallManifest("1", "X", "B", 1), SmallPin(), SmallManifest("1", "X", "C", 1),
                                 SmallManifest("1", "A", "C", 1), f)
    {
    }
  }

  lemma StaleMixes()
    ensures Mixes(SmallManifest("1", "X", "B", 1), SmallManifest("1", "X", "C", 1), SmallManifest("1", "A", "C", 1))
  {
    StaleMerges();
    assert "A"[0] != "X"[0] && "B"[0] != "C"[0];
    SmallManifestsDiffer("1", "A", "C", 1, "1", "X", "C", 1);
    SmallManifestsDiffer("1", "A", "C", 1, "1", "A", "B", 1);
    SmallStrips();
    SmallChecks("1", "A", "C", 1);
  }

  /**
   * The condition can fail: when someone changes a field of the manifest that the pin leaves alone
   * before the run rebases, the pin corrects the other fields and records a checksum no asset has.
   */
  lemma ForeignManifestIsPinned() returns (w: World)
    ensures PinsForeignValue(w) && w.main[|w.main| - 1].tree.manifest == SmallManifest("1", "A", "C", 1)
  {
    StaleMixes();
    w := MixIsPinned(SmallManifest("1", "X", "B", 1), SmallManifest("1", "X", "C", 1), SmallManifest("1", "A", "C", 1));
  }

  /** The pin changes the version, the links and the checksums; the size it leaves alone is changed on main. */
  lemma SizeMerges()
    ensures Merges(SmallManifest("0", "X", "Y", 1), SmallPin(), SmallManifest("0", "X", "Y", 2), SmallManifest("1", "A", "B", 2))
  {
    assert "k"[0] != "l"[0];
    forall f ensures FieldMerges(SmallManifest("0", "X", "Y", 1), SmallPin(), SmallManifest("0", "X", "Y", 2),
                                 SmallManifest("1", "A", "B", 2), f)
    {
    }
  }

  lemma SizeChecks()
    ensures SmallSite().Valid() && PassesCheck(SmallSite(), "0\n", SmallManifest("0", "X", "Y", 1))
    ensures PassesCheck(SmallSite(), "0\n", SmallManifest("0", "X", "Y", 2))
    ensures PassesCheck(SmallSite(), "1\n", SmallManifest("1", "A", "B", 2))
  {
    SmallStrips();
    SmallChecks("0", "X", "Y", 1);
    SmallChecks("0", "X", "Y", 2);
    SmallChecks("1", "A", "B", 2);
  }

  lemma SizeMixes()
    ensures Mixes(SmallManifest("0", "X", "Y", 1), SmallManifest("0", "X", "Y", 2), SmallManifest("1", "A", "B", 2))
  {
    SizeMerges();
    SizeChecks();
    SmallManifestsDiffer("1", "A", "B", 2, "0", "X", "Y", 2);
    SmallManifestsDiffer("1", "A", "B", 2, "1", "A", "B", 1);
  }

  /** Every commit of main passes the manifest check. */
  predicate MainPasses(main: seq<Commit>)
    requires SmallSite().Valid()
  {
    forall commit | commit in main :: PassesCheck(SmallSite(), commit.tree.versionFile, commit.tree.manifest)
  }

  lemma ThreePass(base: Manifest, foreign: Manifest, merged: Manifest)
    requires SmallSite().Valid() && PassesCheck(SmallSite(), "0\n", base) && PassesCheck(SmallSite(), "0\n", foreign)
    requires PassesCheck(SmallSite(), "1\n", merged)
    ensures MainPasses([SmallCommit(0, base), SmallCommit(1, foreign), SmallPushed(merged)])
  {
  }

  /** It can fail although every commit of main passes the manifest check: a foreign size is pinned. */
  lemma ForeignSizeIsPinned() returns (w: World)
    ensures PinsForeignValue(w) && w.main[|w.main| - 1].tree.manifest == SmallManifest("1", "A", "B", 2)
    ensures MainPasses(w.main)
  {
    var base, foreign, merged := SmallManifest("0", "X", "Y", 1), SmallManifest("0", "X", "Y", 2), SmallManifest("1", "A", "B", 2);
    SizeChecks();
    ThreePass(base, foreign, merged);
    SizeMixes();
    w := MixIsPinned(base, foreign, merged);
  }
}
