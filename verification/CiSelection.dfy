/**
 * CI selection: which jobs a change selects, when a job starts, and what the final gate reports
 * (scripts/ci-selection.ts, scripts/_ci-selection-workflow.ts), over the runs of any job graph.
 */
module CiSelection {
  import opened Prelude

  datatype Profile = Docs | Guides | Runtime | Providers

  const PROFILES := [Docs, Guides, Runtime, Providers]

  datatype Tier = Of(profile: Profile) | Broad

  datatype Selection = Selection(profile: Profile, broad: bool)

  /** `PROFILES.indexOf(profile)`. */
  function Rank(profile: Profile): (r: nat)
    ensures r < |PROFILES| && PROFILES[r] == profile
  {
    match profile case Docs => 0 case Guides => 1 case Runtime => 2 case Providers => 3
  }

  predicate JobSelected(tier: Tier, selection: Selection) {
    selection.broad || (tier.Of? && Rank(selection.profile) >= Rank(tier.profile))
  }

  /** The profiles nest: each selects the jobs of its own tier and of the tiers before it, and only broad ones select all. */
  lemma ProfilesNest(tier: Tier, profile: Profile)
    ensures JobSelected(tier, Selection(profile, true))
    ensures JobSelected(tier, Selection(Docs, false)) <==> tier == Of(Docs)
    ensures JobSelected(tier, Selection(Guides, false)) <==> tier == Of(Docs) || tier == Of(Guides)
    ensures JobSelected(tier, Selection(Runtime, false)) <==> tier == Of(Docs) || tier == Of(Guides) || tier == Of(Runtime)
    ensures JobSelected(tier, Selection(Providers, false)) <==> tier != Broad
  {
    assert PROFILES[0] == Docs && PROFILES[1] == Guides && PROFILES[2] == Runtime && PROFILES[3] == Providers;
  }

  /** One comparison of the selection job's outputs. */
  datatype Test = BroadIsTrue | ProfileIs(profile: Profile)

  predicate Holds(test: Test, selection: Selection) {
    match test
    case BroadIsTrue => selection.broad
    case ProfileIs(profile) => selection.profile == profile
  }

  function ProfileTests(profiles: seq<Profile>): (r: seq<Test>)
    ensures |r| == |profiles| && forall i | 0 <= i < |r| :: r[i] == ProfileIs(profiles[i])
  {
    seq(|profiles|, i requires 0 <= i < |profiles| => ProfileIs(profiles[i]))
  }

  /** `jobCondition`: the comparisons joined by `||`. */
  function JobCondition(tier: Tier): seq<Test> {
    [BroadIsTrue] + if tier.Broad? then [] else ProfileTests(PROFILES[Rank(tier.profile)..])
  }

  /** The rendered condition holds exactly for the selections that select the tier. */
  lemma ConditionSelects(tier: Tier, selection: Selection)
    ensures (exists test :: test in JobCondition(tier) && Holds(test, selection)) <==> JobSelected(tier, selection)
  {
    var condition := JobCondition(tier);
    assert condition[0] == BroadIsTrue;
    if selection.broad {
      assert BroadIsTrue in condition && Holds(BroadIsTrue, selection);
    } else {
      if JobSelected(tier, selection) {
        var i := 1 + Rank(selection.profile) - Rank(tier.profile);
        assert condition[i] == ProfileIs(selection.profile);
        assert ProfileIs(selection.profile) in condition && Holds(ProfileIs(selection.profile), selection);
      }
      if test :| test in condition && Holds(test, selection) {
      }
    }
  }

  // ---------------------------------------------------------------- selecting from changed paths

  const PROVIDER_PREFIXES := ["plugins/provider-", "plugins/service-lando/", "container-runtime/", "engine/src/providers/",
                              "engine/test/providers/", "sdk/src/services/provider", "sdk/test/contract/provider"]

  const PROVIDER_FILES := [".github/workflows/ci.yml", "scripts/_ci-selection-workflow.ts", "scripts/build-ci-workflow.ts",
                           "scripts/ci-selection.ts", "scripts/select-ci.ts", "scripts/validate-ci.ts", "scripts/test-shards.ts"]

  const PLATFORM_FILES := ["engine/src/runtime/libc.ts", "scripts/codegen.ts", "scripts/build-command-registry-manifest.ts",
                           "scripts/build-compiled-binary.ts", "scripts/sanitize-compiled-binary.ts",
                           "scripts/smoke-windows-binary.ts", "scripts/check-compiled-binary-notices.ts"]

  predicate EndsWith(s: string, suffix: string) {
    |suffix| <= |s| && s[|s| - |suffix|..] == suffix
  }

  predicate AffectsProviders(path: string) {
    (exists prefix | prefix in PROVIDER_PREFIXES :: StartsWith(path, prefix)) || path in PROVIDER_FILES
  }

  predicate AffectsPlatformBuild(path: string) {
    StartsWith(path, "core/test/build/") || path in PLATFORM_FILES
  }

  predicate IsGuide(path: string) {
    StartsWith(path, "docs/guides/")
  }

  predicate IsDoc(path: string) {
    || StartsWith(path, "docs/public/") || StartsWith(path, "docs/src/assets/")
    || (StartsWith(path, "docs/") && (EndsWith(path, ".md") || EndsWith(path, ".mdx")))
  }

  /** What one changed path asks for. */
  function PathSelection(path: string): Selection {
    if path == ".bun-version" || AffectsPlatformBuild(path) then Selection(Runtime, true)
    else if AffectsProviders(path) then Selection(Providers, false)
    else if IsGuide(path) then Selection(Guides, false)
    else if IsDoc(path) then Selection(Docs, false)
    else Selection(Runtime, false)
  }

  lemma ProviderPaths(path: string)
    ensures AffectsProviders(path) <==>
              (|| StartsWith(path, "plugins/provider-") || StartsWith(path, "plugins/service-lando/")
               || StartsWith(path, "container-runtime/") || StartsWith(path, "engine/src/providers/")
               || StartsWith(path, "engine/test/providers/") || StartsWith(path, "sdk/src/services/provider")
               || StartsWith(path, "sdk/test/contract/provider") || path == ".github/workflows/ci.yml"
               || path == "scripts/_ci-selection-workflow.ts" || path == "scripts/build-ci-workflow.ts"
               || path == "scripts/ci-selection.ts" || path == "scripts/select-ci.ts" || path == "scripts/validate-ci.ts"
               || path == "scripts/test-shards.ts")
  {
    var p := PROVIDER_PREFIXES;
    assert p[0] in p && p[1] in p && p[2] in p && p[3] in p && p[4] in p && p[5] in p && p[6] in p;
  }

  lemma PlatformPaths(path: string)
    ensures AffectsPlatformBuild(path) <==>
              (|| StartsWith(path, "core/test/build/") || path == "engine/src/runtime/libc.ts" || path == "scripts/codegen.ts"
               || path == "scripts/build-command-registry-manifest.ts" || path == "scripts/build-compiled-binary.ts"
               || path == "scripts/sanitize-compiled-binary.ts" || path == "scripts/smoke-windows-binary.ts"
               || path == "scripts/check-compiled-binary-notices.ts")
  {
    var p := PLATFORM_FILES;
    assert p[0] in p && p[1] in p && p[2] in p && p[3] in p && p[4] in p && p[5] in p && p[6] in p;
  }

  lemma DocsIsPlain(rest: string)
    ensures IsPlain("docs/" + rest)
  {
    var path := "docs/" + rest;
    assert path[0] == 'd';
    ProviderPaths(path);
  }

  /** Guides select the guides profile, the other documentation the docs profile. */
  lemma DocumentationPaths(rest: string)
    ensures PathSelection("docs/guides/" + rest) == Selection(Guides, false)
    ensures PathSelection("docs/public/" + rest) == PathSelection("docs/src/assets/" + rest) == Selection(Docs, false)
  {
    DocsIsPlain("guides/" + rest);
    assert "docs/" + ("guides/" + rest) == "docs/guides/" + rest;
    DocsIsPlain("public/" + rest);
    assert "docs/" + ("public/" + rest) == "docs/public/" + rest;
    assert ("docs/public/" + rest)[5] == 'p';
    AssetPaths(rest);
  }

  lemma AssetPaths(rest: string)
    ensures PathSelection("docs/src/assets/" + rest) == Selection(Docs, false)
  {
    DocsIsPlain("src/assets/" + rest);
    assert "docs/" + ("src/assets/" + rest) == "docs/src/assets/" + rest;
    assert ("docs/src/assets/" + rest)[5] == 's';
  }

  lemma PageIsDoc(rest: string, ending: string)
    requires !StartsWith(rest, "guides/") && (ending == ".md" || ending == ".mdx")
    ensures PathSelection("docs/" + rest + ending) == Selection(Docs, false)
  {
    var path := "docs/" + rest + ending;
    DocsIsPlain(rest + ending);
    assert "docs/" + (rest + ending) == path && path[|path| - |ending|..] == ending;
    var guides := "docs/guides/";
    if |rest| < 7 {
      assert path[5 + |rest|] == '.' && guides[5 + |rest|] != '.';
    } else {
      assert path[5..12] == rest[..7] && guides[5..] == "guides/";
      assert path[..12][5..] == path[5..12];
    }
  }

  lemma PagePaths(rest: string)
    requires !StartsWith(rest, "guides/")
    ensures PathSelection("docs/" + rest + ".md") == Selection(Docs, false)
    ensures PathSelection("docs/" + rest + ".mdx") == Selection(Docs, false)
  {
    PageIsDoc(rest, ".md");
    PageIsDoc(rest, ".mdx");
  }

  /** A path below the documentation that is neither a guide, nor published, nor a page selects the runtime profile. */
  lemma OtherDocumentation(rest: string)
    requires !StartsWith(rest, "guides/") && !StartsWith(rest, "public/") && !StartsWith(rest, "src/assets/")
    requires forall stem :: rest != stem + ".md" && rest != stem + ".mdx"
    ensures PathSelection("docs/" + rest) == Selection(Runtime, false)
  {
    var path := "docs/" + rest;
    DocsIsPlain(rest);
    Below(rest, "guides/");
    Below(rest, "public/");
    Below(rest, "src/assets/");
    NoEnding(rest, ".md");
    NoEnding(rest, ".mdx");
  }

  lemma Below(rest: string, prefix: string)
    ensures StartsWith("docs/" + rest, "docs/" + prefix) <==> StartsWith(rest, prefix)
  {
    var path, whole := "docs/" + rest, "docs/" + prefix;
    if |prefix| <= |rest| {
      assert path[..|whole|] == "docs/" + rest[..|prefix|] && path[..|whole|][5..] == rest[..|prefix|] && whole[5..] == prefix;
    }
  }

  lemma NoEnding(rest: string, ending: string)
    requires (forall stem :: rest != stem + ending) && 0 < |ending| <= 4 && '/' !in ending
    ensures !EndsWith("docs/" + rest, ending)
  {
    var path := "docs/" + rest;
    if |ending| <= |rest| {
      var k := |rest| - |ending|;
      assert path[|path| - |ending|..] == rest[k..] && rest == rest[..k] + rest[k..];
    } else {
      assert path[4] == '/' && |path| - |ending| <= 4;
      assert |ending| <= |path| ==> path[|path| - |ending|..][4 - (|path| - |ending|)] == '/';
    }
  }

  /** The path is none of those that select more than the runtime profile. */
  predicate IsPlain(path: string) {
    path != ".bun-version" && !AffectsPlatformBuild(path) && !AffectsProviders(path)
  }

  lemma PlainSelection(path: string)
    requires IsPlain(path)
    ensures PathSelection(path) == Selection(if IsGuide(path) then Guides else if IsDoc(path) then Docs else Runtime, false)
  {
  }

  /** A job is selected exactly when one of the paths asks for it. */
  ghost predicate Covers(selection: Selection, paths: seq<string>) {
    forall tier :: JobSelected(tier, selection) <==> exists path :: path in paths && JobSelected(tier, PathSelection(path))
  }

  /**
   * `selectPaths`. An empty diff selects the runtime profile; otherwise the selection covers the paths,
   * so adding a path never loses a job and the order of the paths is irrelevant.
   */
  method SelectPaths(paths: seq<string>) returns (r: Selection)
    ensures paths == [] ==> r == Selection(Runtime, false)
    ensures paths != [] ==> Covers(r, paths)
    ensures r.broad <==> exists path | path in paths :: PathSelection(path).broad
  {
    if ".bun-version" in paths {
      return Selection(Runtime, true);
    }
    if path :| path in paths && AffectsPlatformBuild(path) {
      return Selection(Runtime, true);
    }
    if paths == [] { return Selection(Runtime, false); }
    if path :| path in paths && AffectsProviders(path) {
      forall p | p in paths { NotBroad(p); }
      return Selection(Providers, false);
    }
    r := SelectPlain(paths);
  }

  lemma NotBroad(path: string)
    requires path != ".bun-version" && !AffectsPlatformBuild(path)
    ensures !PathSelection(path).broad && Rank(PathSelection(path).profile) <= Rank(Providers)
  {
  }

  /** The last loop: documentation only raises the profile to guides, any other path selects the runtime profile. */
  method SelectPlain(paths: seq<string>) returns (r: Selection)
    requires paths != [] && forall path | path in paths :: IsPlain(path)
    ensures Covers(r, paths) && !r.broad && forall path | path in paths :: !PathSelection(path).broad
  {
    forall path | path in paths { PlainSelection(path); }
    var profile := Docs;
    ghost var chosen := paths[0];
    for i := 0 to |paths|
      invariant profile == Docs || (profile == Guides && i > 0)
      invariant forall j | 0 <= j < i :: Rank(PathSelection(paths[j]).profile) <= Rank(profile)
      invariant i > 0 ==> chosen in paths && PathSelection(chosen) == Selection(profile, false)
    {
      var path := paths[i];
      assert path in paths;
      if IsGuide(path) {
        profile, chosen := Guides, path;
      } else if !IsDoc(path) {
        return Selection(Runtime, false);
      } else if i == 0 {
        chosen := path;
      }
    }
    return Selection(profile, false);
  }

  // ---------------------------------------------------------------- runs of a job graph

  datatype Job = Job(tier: Tier, needs: set<string>, summary: bool)

  type Workflow = map<string, Job>

  datatype Result = Success | Failure | Skipped | Cancelled

  /** What a job's `if` sees: its own `needs` apart, the state of the run. */
  datatype Context = Context(cancelled: bool, failure: bool, selectionResult: Result, selection: Selection)

  /** The condition `applyCiSelection` attaches: `always() && !cancelled() && !failure() && ...`, without `!failure()` for a summary. */
  predicate Admits(job: Job, c: Context) {
    && !c.cancelled && (job.summary || !c.failure) && c.selectionResult == Success
    && exists test | test in JobCondition(job.tier) :: Holds(test, c.selection)
  }

  /** A job starts exactly when it is selected, selection succeeded, nothing was cancelled, and no ancestor failed or it is a summary. */
  lemma AdmitsMeans(job: Job, c: Context)
    ensures Admits(job, c) <==>
              && !c.cancelled && c.selectionResult == Success && JobSelected(job.tier, c.selection)
              && (c.failure ==> job.summary)
  {
    ConditionSelects(job.tier, c.selection);
  }

  /** `p[i]` needs `p[i + 1]`. */
  predicate Needs(w: Workflow, p: seq<string>, i: nat)
    requires i + 1 < |p|
  {
    p[i] in w && p[i + 1] in w && p[i + 1] in w[p[i]].needs
  }

  ghost predicate NeedsPath(w: Workflow, p: seq<string>) {
    |p| > 1 && forall i: nat | i + 1 < |p| :: Needs(w, p, i)
  }

  ghost predicate Ancestor(w: Workflow, a: string, j: string) {
    exists p :: NeedsPath(w, p) && p[0] == j && p[|p| - 1] == a
  }

  ghost predicate Acyclic(w: Workflow) {
    forall j :: !Ancestor(w, j, j)
  }

  /** `failure()`: some ancestor failed. */
  ghost predicate FailedAncestor(w: Workflow, results: map<string, Result>, j: string) {
    exists a :: Ancestor(w, a, j) && a in results && results[a] == Failure
  }

  ghost predicate Starts(w: Workflow, selection: Selection, results: map<string, Result>, j: string)
    requires j in w
  {
    Admits(w[j], Context(false, FailedAncestor(w, results, j), Success, selection))
  }

  /** A run in which selection succeeded and nothing was cancelled: started jobs succeed or fail, the others are skipped. */
  ghost predicate ValidRun(w: Workflow, selection: Selection, results: map<string, Result>) {
    && results.Keys == w.Keys
    && forall j | j in w ::
         if Starts(w, selection, results, j) then results[j] == Success || results[j] == Failure
         else results[j] == Skipped
  }

  /** One entry of `resultFailures`: the message it contributes, if any. */
  predicate Reports(tiers: map<string, Tier>, selection: Selection, id: string, result: Result) {
    if id == "selection" then result != Success
    else id !in tiers || !(result == Success || (result == Skipped && !JobSelected(tiers[id], selection)))
  }

  /** `resultFailures`: the ids reported, in the order of the entries. */
  function ResultFailures(tiers: map<string, Tier>, selection: Selection, entries: seq<(string, Result)>): seq<string> {
    if entries == [] then []
    else (if Reports(tiers, selection, entries[0].0, entries[0].1) then [entries[0].0] else [])
         + ResultFailures(tiers, selection, entries[1..])
  }

  /** The selection job must succeed; any other job must be known and succeed, or be skipped without being selected. */
  predicate Passes(tiers: map<string, Tier>, selection: Selection, entry: (string, Result)) {
    || (entry.1 == Success && (entry.0 == "selection" || entry.0 in tiers))
    || (entry.1 == Skipped && entry.0 != "selection" && entry.0 in tiers && !JobSelected(tiers[entry.0], selection))
  }

  /** An entry of this id does not pass. */
  predicate NotPassed(tiers: map<string, Tier>, selection: Selection, entries: seq<(string, Result)>, id: string) {
    exists entry | entry in entries :: entry.0 == id && !Passes(tiers, selection, entry)
  }

  /** The list names exactly the entries that do not pass; it is empty when all pass. */
  lemma {:induction false} FailuresEmpty(tiers: map<string, Tier>, selection: Selection, entries: seq<(string, Result)>)
    ensures ResultFailures(tiers, selection, entries) == [] <==>
            forall entry | entry in entries :: Passes(tiers, selection, entry)
    ensures forall id :: id in ResultFailures(tiers, selection, entries) <==> NotPassed(tiers, selection, entries, id)
  {
    if entries != [] {
      FailuresEmpty(tiers, selection, entries[1..]);
      assert entries == [entries[0]] + entries[1..] && entries[0] == (entries[0].0, entries[0].1);
      assert Reports(tiers, selection, entries[0].0, entries[0].1) <==> !Passes(tiers, selection, entries[0]);
      forall id ensures NotPassed(tiers, selection, entries, id) <==>
                        (id == entries[0].0 && !Passes(tiers, selection, entries[0])) || NotPassed(tiers, selection, entries[1..], id) { }
    }
  }

  function Tiers(w: Workflow): map<string, Tier> {
    map j | j in w :: w[j].tier
  }

  /** The gate's `needs`: the selection job and the gated jobs, with their results. */
  ghost predicate GateInput(w: Workflow, gated: set<string>, results: map<string, Result>, entries: seq<(string, Result)>) {
    && "selection" !in w && gated <= w.Keys && results.Keys == w.Keys
    && (forall e | e in entries :: e == ("selection", Success) || (e.0 in gated && e.1 == results[e.0]))
    && (forall j | j in gated :: (j, results[j]) in entries)
  }

  /** The gate's list is empty exactly when every gated job succeeded or was skipped without being selected. */
  lemma GateVerdict(w: Workflow, gated: set<string>, selection: Selection, results: map<string, Result>, entries: seq<(string, Result)>)
    requires GateInput(w, gated, results, entries)
    ensures ResultFailures(Tiers(w), selection, entries) == [] <==>
            forall j | j in gated :: results[j] == Success || (results[j] == Skipped && !JobSelected(w[j].tier, selection))
  {
    FailuresEmpty(Tiers(w), selection, entries);
    if ResultFailures(Tiers(w), selection, entries) == [] {
      forall j | j in gated ensures results[j] == Success || (results[j] == Skipped && !JobSelected(w[j].tier, selection)) {
        assert Passes(Tiers(w), selection, (j, results[j]));
      }
    }
    if forall j | j in gated :: results[j] == Success || (results[j] == Skipped && !JobSelected(w[j].tier, selection)) {
      forall entry | entry in entries ensures Passes(Tiers(w), selection, entry) {
      }
    }
  }

  lemma StartsWhen(w: Workflow, selection: Selection, results: map<string, Result>, j: string)
    requires j in w
    ensures Starts(w, selection, results, j) <==>
            JobSelected(w[j].tier, selection) && (w[j].summary || !FailedAncestor(w, results, j))
  {
    ConditionSelects(w[j].tier, selection);
  }

  /** When no started job fails, every selected job runs and succeeds, every other job is skipped, and the gate is silent. */
  lemma AllSelectedRun(w: Workflow, gated: set<string>, selection: Selection, results: map<string, Result>, entries: seq<(string, Result)>)
    requires ValidRun(w, selection, results) && GateInput(w, gated, results, entries)
    requires forall j | j in w :: results[j] != Failure
    ensures forall j | j in w :: results[j] == (if JobSelected(w[j].tier, selection) then Success else Skipped)
    ensures ResultFailures(Tiers(w), selection, entries) == []
  {
    forall j | j in w ensures results[j] == (if JobSelected(w[j].tier, selection) then Success else Skipped) {
      StartsWhen(w, selection, results, j);
    }
    GateVerdict(w, gated, selection, results, entries);
  }

  // ---------------------------------------------------------------- what the gate catches

  /** The gate sees the job itself, or a selected job that its failure keeps from starting. */
  ghost predicate Watched(w: Workflow, gated: set<string>, selection: Selection, j: string)
    requires gated <= w.Keys
  {
    j in gated || exists k :: k in gated && JobSelected(w[k].tier, selection) && !w[k].summary && Ancestor(w, j, k)
  }

  /** In this run some selected job did not succeed. */
  ghost predicate SomethingWrong(w: Workflow, selection: Selection, results: map<string, Result>) {
    exists j :: j in w && j in results && JobSelected(w[j].tier, selection) && results[j] != Success
  }

  /** In every run where a selected job does not succeed, the gate reports something. */
  ghost predicate GateCatchesAll(w: Workflow, gated: set<string>, selection: Selection) {
    forall results, entries | ValidRun(w, selection, results) && GateInput(w, gated, results, entries) ::
      SomethingWrong(w, selection, results) ==> ResultFailures(Tiers(w), selection, entries) != []
  }

  lemma AncestorTransitive(w: Workflow, a: string, j: string, k: string)
    requires Ancestor(w, a, j) && Ancestor(w, j, k)
    ensures Ancestor(w, a, k)
  {
    var p :| NeedsPath(w, p) && p[0] == k && p[|p| - 1] == j;
    var q :| NeedsPath(w, q) && q[0] == j && q[|q| - 1] == a;
    var path := p + q[1..];
    forall i: nat | i + 1 < |path| ensures Needs(w, path, i) {
      if i + 1 < |p| {
        assert Needs(w, p, i);
      } else {
        assert Needs(w, q, i - (|p| - 1));
      }
    }
    assert NeedsPath(w, path) && path[0] == k && path[|path| - 1] == a;
  }

  /** A selected, watched job that fails or is skipped shows in the gate's list. */
  lemma WatchedIsCaught(w: Workflow, gated: set<string>, selection: Selection, results: map<string, Result>,
                        entries: seq<(string, Result)>, j: string)
    requires ValidRun(w, selection, results) && GateInput(w, gated, results, entries)
    requires j in w && JobSelected(w[j].tier, selection) && Watched(w, gated, selection, j) && results[j] != Success
    ensures ResultFailures(Tiers(w), selection, entries) != []
  {
    GateVerdict(w, gated, selection, results, entries);
    if j !in gated {
      var k :| k in gated && JobSelected(w[k].tier, selection) && !w[k].summary && Ancestor(w, j, k);
      StartsWhen(w, selection, results, j);
      StartsWhen(w, selection, results, k);
      if results[j] == Skipped {
        var a :| Ancestor(w, a, j) && a in results && results[a] == Failure;
        AncestorTransitive(w, a, j, k);
      }
      assert FailedAncestor(w, results, k);
      assert results[k] == Skipped;
    }
  }

  /** In every run where this job does not succeed, the gate reports something. */
  ghost predicate GateCatches(w: Workflow, gated: set<string>, selection: Selection, j: string) {
    forall results, entries | ValidRun(w, selection, results) && GateInput(w, gated, results, entries) ::
      j in results && results[j] != Success ==> ResultFailures(Tiers(w), selection, entries) != []
  }

  /** The gate catches a selected job exactly when the job is watched. */
  lemma CaughtExactlyWhenWatched(w: Workflow, gated: set<string>, selection: Selection, j: string)
    requires Acyclic(w) && "selection" !in w && gated <= w.Keys && j in w && JobSelected(w[j].tier, selection)
    ensures GateCatches(w, gated, selection, j) <==> Watched(w, gated, selection, j)
  {
    if Watched(w, gated, selection, j) {
      forall results, entries | ValidRun(w, selection, results) && GateInput(w, gated, results, entries)
        ensures j in results && results[j] != Success ==> ResultFailures(Tiers(w), selection, entries) != []
      {
        if j in results && results[j] != Success {
          WatchedIsCaught(w, gated, selection, results, entries, j);
        }
      }
    } else {
      UnwatchedEscapes(w, gated, selection, j);
    }
  }

  /** The run in which `j` alone fails. */
  ghost function OnlyFails(w: Workflow, selection: Selection, j: string): map<string, Result> {
    map k | k in w :: if k == j then Failure
      else if JobSelected(w[k].tier, selection) && (w[k].summary || !Ancestor(w, j, k)) then Success else Skipped
  }

  lemma OnlyFailsIsRun(w: Workflow, selection: Selection, j: string)
    requires Acyclic(w) && j in w && JobSelected(w[j].tier, selection)
    ensures ValidRun(w, selection, OnlyFails(w, selection, j))
  {
    var results := OnlyFails(w, selection, j);
    forall k | k in w ensures FailedAncestor(w, results, k) <==> Ancestor(w, j, k) {
      assert j in results && results[j] == Failure;
    }
    forall k | k in w
      ensures if Starts(w, selection, results, k) then results[k] == Success || results[k] == Failure else results[k] == Skipped
    {
      StartsWhen(w, selection, results, k);
    }
  }

  lemma {:induction false} EntriesFor(ids: set<string>, results: map<string, Result>) returns (entries: seq<(string, Result)>)
    requires ids <= results.Keys
    ensures forall e | e in entries :: e.0 in ids && e.1 == results[e.0]
    ensures forall j | j in ids :: (j, results[j]) in entries
  {
    if ids == {} {
      entries := [];
    } else {
      var j :| j in ids;
      var rest := EntriesFor(ids - {j}, results);
      entries := [(j, results[j])] + rest;
    }
  }

  /**
   * The gate catches every run with a selected job that failed or was skipped exactly when each selected
   * job is gated, or is needed, directly or not, by a selected gated job that is no summary.
   */
  lemma GateCatchesExactlyWatched(w: Workflow, gated: set<string>, selection: Selection)
    requires Acyclic(w) && "selection" !in w && gated <= w.Keys
    ensures GateCatchesAll(w, gated, selection) <==>
            forall j | j in w && JobSelected(w[j].tier, selection) :: Watched(w, gated, selection, j)
  {
    forall j | j in w && JobSelected(w[j].tier, selection)
      ensures GateCatches(w, gated, selection, j) <==> Watched(w, gated, selection, j)
    {
      CaughtExactlyWhenWatched(w, gated, selection, j);
    }
    if GateCatchesAll(w, gated, selection) {
      forall j | j in w && JobSelected(w[j].tier, selection) ensures GateCatches(w, gated, selection, j) {
      }
    }
  }

  /** The run in which an unwatched job alone fails passes the gate. */
  lemma EscapingRun(w: Workflow, gated: set<string>, selection: Selection, j: string)
    returns (results: map<string, Result>, entries: seq<(string, Result)>)
    requires Acyclic(w) && "selection" !in w && gated <= w.Keys
    requires j in w && JobSelected(w[j].tier, selection) && !Watched(w, gated, selection, j)
    ensures ValidRun(w, selection, results) && GateInput(w, gated, results, entries)
    ensures results[j] == Failure && ResultFailures(Tiers(w), selection, entries) == []
  {
    results := OnlyFails(w, selection, j);
    OnlyFailsIsRun(w, selection, j);
    entries := EntriesFor(gated, results);
    GateVerdict(w, gated, selection, results, entries);
  }

  lemma UnwatchedEscapes(w: Workflow, gated: set<string>, selection: Selection, j: string)
    requires Acyclic(w) && "selection" !in w && gated <= w.Keys
    requires j in w && JobSelected(w[j].tier, selection) && !Watched(w, gated, selection, j)
    ensures !GateCatches(w, gated, selection, j)
  {
    var results, entries := EscapingRun(w, gated, selection, j);
    assert j in results && results[j] != Success;
  }

  /** The gate leaves one job out on purpose: a failure of that job alone passes the gate. */
  lemma ExperimentIsNotGated(w: Workflow, selection: Selection)
    requires Acyclic(w) && "selection" !in w && "bun-install-isolated-experiment" in w
    requires w["bun-install-isolated-experiment"].tier == Broad && selection.broad
    requires forall k | k in w :: "bun-install-isolated-experiment" !in w[k].needs
    ensures !GateCatches(w, w.Keys - {"bun-install-isolated-experiment"}, selection, "bun-install-isolated-experiment")
  {
    var j := "bun-install-isolated-experiment";
    forall p | NeedsPath(w, p) ensures p[|p| - 1] != j {
      assert Needs(w, p, |p| - 2);
    }
    UnwatchedEscapes(w, w.Keys - {j}, selection, j);
  }
}
