# Models of the repository's build scripts

The scripts under `scripts/` hold a partial evaluator, a walker over cyclic schemas, a release protocol with
races, a watch loop, a scheduler, a parser, and several encoders and reconcilers. This project models each of
them in Dafny and proves what it is for: for every input, every run, or every reachable state of every
interleaving. `dafny verify dfyconfig.toml` checks the whole project.

| file | what it models |
| --- | --- |
| `StaticStrings.dfy` | the evaluator of string expressions, the index of `const` bindings, and its lexical lookup |
| `JsonPointer.dfy` | JSON values, and resolving a local `$ref` (sections 3 and 4 of RFC 6901) |
| `ComposeSchema.dfy` | the walk over a schema whose references may be cyclic |
| `ComposeInline.dfy` | replacing references by what they name, and that the walk does not notice |
| `BundleManifest.dfy` | building and checking the runtime-bundle manifest |
| `BundleRelease.dfy`, `PinRuns.dfy`, `PinExample.dfy` | the release workflow as steps of any number of runs, with other pushes, tags and releases between them, runs that achieve their pin, and a run that pins a foreign checksum |
| `DevGuides.dfy` | the debounced watch loop as steps between await points |
| `CodegenWaves.dfy`, `CodegenRun.dfy` | grouping generators into waves, and running the waves |
| `LicenseExpression.dfy` | the recogniser of permissive license expressions |
| `CiSelection.dfy` | selecting CI jobs from changed paths, runs of any job graph, and the final gate |
| `ContextDigest.dfy` | the byte stream that is hashed for a build context |
| `StableJson.dfy` | sorting the keys of JSON at every depth |
| `FixtureWrite.dfy` | replacing a file atomically below a trusted root, with any operation failing |
| `ClosureReview.dfy` | approving a closure review from arbitrary JSON |
| `Markdown.dfy`, `LintReference.dfy`, `LicenseNotices.dfy` | what a CommonMark reader makes of escaped text, code spans and fenced license texts |
| `KeyMatrix.dfy` | grouping dotted keys under their roots, and the row count check |
| `AuditIssue.dfy` | keeping one tracker issue in step with a dependency audit |
| `Prelude.dfy`, `Sorting.dfy` | shared vocabulary, and the stable sort |

Code that updates state in the scripts is a class or a method with loops here, proved against a function or a
relation; the theorems are about that function or relation. State machines (`BundleRelease`, `DevGuides`,
`CodegenRun`, `AuditIssue`) have one action for each step that nothing can interleave with.

Seven properties one might expect are false of the scripts. For each there is an input that shows it, and a
lemma that says exactly when the property does hold:

- A pushed pin does not always record the release it names: a field of the manifest that the pin leaves alone
  keeps whatever main has meanwhile, also when the pin corrects other fields (`PinExample.ForeignManifestIsPinned`,
  and `PinExample.ForeignSizeIsPinned` on a consistent main; exactly when, field by field: `BundleRelease.PushedPin`).
- The CI gate does not see every job: one job is left out of it on purpose (`CiSelection.ExperimentIsNotGated`;
  exactly when, job by job: `CiSelection.CaughtExactlyWhenWatched`).
- Sorting keys with `localeCompare` is not a canonical form if the comparison ties two different keys
  (`StableJson.TieIsNotCanonical`; exactly when: `StableJson.CanonicalIff`).
- Blank content of a code span does not read back as itself (`LintReference.CodeRoundTrip` says exactly when
  content does), and a backslash before a pipe makes two table cells of one code span for a reader that treats
  `\\` as an escape (`LintReference.BackslashSplitsCell`; exactly when: `LintReference.CellRoundTrip`).
- A prune that rejects in the watch loop loses the changes of its flush (`DevGuides.RejectedPruneLosesChanges`;
  exactly which steps lose which changes: `DevGuides.LostExactlyByRejectedPrune`; exactly which changes are lost
  over whole runs: `DevGuides.LastChangeHeldExactly`).
- A JSON pointer can resolve where no own key does, through a key every object inherits
  (`JsonPointer.InheritedKeyResolves`; exactly when: `JsonPointer.PointerRoundTrip`).
- Different build arguments can share the hashed stream if one has a NUL in it (`ContextDigest.NulCollides`;
  exactly when: `ContextDigest.StreamDecodes` and `ContextDigest.StreamInjective`).

Audit runs must not overlap (`AuditIssue.OverlapDuplicates` beside `AuditIssue.NeverTwo`); the workflow's
concurrency group rules that out.

## What is assumed

- Static strings: a program is a tree, names are bound by initialised `const` declarations only, and a scope
  binds a name once. There is no `let`, parameter, loop variable or destructuring pattern of the same name, and no use before
  initialisation.
- Release protocol: creating a release is an atomic test-and-set, a push is a compare-and-swap on main, main
  only grows, and tags and releases do not change once they exist. A rebase merges the manifest field by field,
  each field having a line of its own, and the version file, which is one line, as a whole; where git finds
  neighbouring lines in conflict the run stops. The release targets have distinct keys and file names.
- Codegen: entries have distinct ids.
- What the keys inherited by every object hold is a parameter of reference resolution; no keyword that the
  scripts read by name is among them. Hashes, clocks, processes and the network are parameters or actions that
  succeed or fail. A comparison given to a sort is a strict weak order.
- Tracker: the author of an issue a run creates is the workflow's bot account, and others add no issue that
  looks managed.
- Fixture write: the path of the trusted root leads to one place throughout, through whatever links are above it;
  an operation on a path below it without symbolic links in between reaches the same path below that place; any
  operation may fail, and nobody else changes the tree meanwhile.

## Model

| member | source | states |
|---|---|---|
| `StaticStrings.EvalExact` | scripts/module-edge-scan.ts:49-98 | the evaluator returns a string exactly when a finite derivation over the binding environment gives the expression that string, so the `seen` guard loses no derivable value |
| `StaticStrings.TextMeans` | scripts/module-edge-scan.ts:54-56 | a literal denotes its text |
| `StaticStrings.ParenMeans` | scripts/module-edge-scan.ts:57-59 | parentheses denote what is inside them |
| `StaticStrings.PlusMeans` | scripts/module-edge-scan.ts:60-65 | a sum denotes exactly the concatenations of what its two operands denote |
| `StaticStrings.TemplateMeans` | scripts/module-edge-scan.ts:66-74 | a template denotes exactly its head followed by a value and the literal text of each span, in order |
| `StaticStrings.IdentMeans` | scripts/module-edge-scan.ts:75-79 | an identifier denotes exactly what the initializer it is bound to denotes |
| `StaticStrings.JoinMeansCommas` | scripts/module-edge-scan.ts:82-96 | `[...].join()` denotes exactly the values of the elements joined by commas |
| `StaticStrings.JoinMeansSeparator` | scripts/module-edge-scan.ts:82-96 | `[...].join(separator)` denotes exactly the values of the elements joined by a value of the separator |
| `StaticStrings.OtherMeansNothing` | scripts/module-edge-scan.ts:97 | every other form of expression denotes nothing |
| `StaticStrings.EvalSound` | scripts/module-edge-scan.ts:49-98 | with any `seen` set, a returned string has a derivation |
| `StaticStrings.EvalComplete` | scripts/module-edge-scan.ts:75-79 | a derivation of size n is found whenever every initializer already seen needs a larger one |
| `StaticStrings.DerivationUnique` | scripts/module-edge-scan.ts:49-98 | an expression has at most one derivation, hence at most one value |
| `StaticStrings.SeenShrinks` | scripts/module-edge-scan.ts:75-79 | following a binding strictly shrinks the set of nodes not yet seen: the measure for which evaluation terminates |
| `StaticStrings.CyclicHasNoValue` | scripts/module-edge-scan.ts:75-79 | an expression on a cycle of bindings and operands, or leading into one, evaluates to undefined |
| `StaticStrings.ResolveTemplate` | scripts/module-edge-scan.ts:66-74 | the loop over template spans, leaving at the first span without a value, returns the head, the first value, the first literal text, the second value, and so on, exactly when every span has a value |
| `StaticStrings.Enclosing` | scripts/module-edge-scan.ts:114-118 | the enclosing scope is the innermost scope boundary at or above a node |
| `StaticStrings.ConstBindings.EnclosingConstScope` | scripts/module-edge-scan.ts:114-118 | the loop up the parents finds that scope |
| `StaticStrings.ConstBindings.AddDeclaration` | scripts/module-edge-scan.ts:136-140 | indexes a declaration exactly when it names an identifier and is initialised; nothing indexed before is lost |
| `StaticStrings.ConstBindings.AddDeclarations` | scripts/module-edge-scan.ts:131-141 | after a `const` list every binder in it is indexed under its scope, and only binders are |
| `StaticStrings.ConstBindings.Visit` | scripts/module-edge-scan.ts:131-143 | after a visit every binder of the subtree is indexed, and only binders are |
| `StaticStrings.ConstBindings.Resolve` | scripts/module-edge-scan.ts:147-153 | the loop outward through the parents returns the nearest indexed binding |
| `StaticStrings.LookupIsLexical` | scripts/module-edge-scan.ts:145-153 | a hit of a complete index is the lexical binder of the name, a miss means no scope outward binds it |
| `StaticStrings.LexicalBinderUnique` | scripts/module-edge-scan.ts:120-127 | with one binder for a name in each scope, an identifier has at most one lexical binder |
| `StaticStrings.ResolverIsLexical` | scripts/module-edge-scan.ts:128-154 | the resolver of a fully visited file is the environment of lexical scoping |
| `StaticStrings.LexicalEnvsAgree` | scripts/module-edge-scan.ts:128-154 | all lexical environments of a file give the same values |
| `StaticStrings.ScanSpecifier` | scripts/module-edge-scan.ts:194-226 | indexing a file and evaluating an argument returns a string exactly when the expression denotes it under lexical scoping |
| `JsonPointer.DecodeIsOnePass` | scripts/compose-schema.ts:33 | decoding `~1` first and `~0` second is the single left-to-right decoding of RFC 6901 |
| `JsonPointer.SegmentRoundTrip` | scripts/compose-schema.ts:33 | decoding inverts the escaping for every key |
| `Prelude.SplitJoined` | scripts/compose-schema.ts:32 | splitting at slashes inverts joining of slash-free segments |
| `JsonPointer.EncodedHasNoSlash` | scripts/compose-schema.ts:32-33 | an escaped key has no slash in it |
| `JsonPointer.ResolveLocalRef` | scripts/compose-schema.ts:26-39 | the loop over the segments resolves a reference one key at a time, own or inherited, or throws at the first that does not resolve |
| `JsonPointer.PointerRoundTrip` | scripts/compose-schema.ts:26-39 | resolving the pointer of any non-empty path of keys reaches the node at that path of own keys, and throws when there is none, exactly when the path does not stray to an inherited key that resolves |
| `JsonPointer.FollowsOwnKeys` | scripts/compose-schema.ts:32-38 | following keys tested with `in` agrees with following own keys exactly when the path does not stray |
| `JsonPointer.PlainNamesStay` | scripts/compose-schema.ts:35 | a path without the name of an inherited key never strays |
| `JsonPointer.InheritedKeyResolves` | scripts/compose-schema.ts:35 | a pointer that resolves in a document without own keys |
| `ComposeSchema.StepDecreases` | scripts/compose-schema.ts:47-116 | every step follows a reference that was not active or goes to a smaller schema, so the walk ends on cyclic references |
| `ComposeSchema.FoundIsReachable` | scripts/compose-schema.ts:47-116 | a path is found exactly when a route of steps that never expands an active reference spells it |
| `ComposeSchema.ThrowsIsReachable` | scripts/compose-schema.ts:47-116 | the walk throws exactly when such a route meets a malformed schema or an unresolvable reference |
| `ComposeSchema.FoundMeans` | scripts/compose-schema.ts:47-116 | the paths found in a schema are exactly those through its inactive `$ref`, a property with its key as segment, a pattern with `x-*` or `*` as segment, `additionalProperties` with `*`, the array keywords, and the five single-schema keywords |
| `ComposeSchema.ThrowsMeans` | scripts/compose-schema.ts:47-116 | the walk of a schema throws exactly when it is no object or boolean, its inactive `$ref` does not resolve, a keyword has the wrong type, or a walk below it throws |
| `ComposeSchema.KeyPaths.TakeRef` | scripts/compose-schema.ts:57-60 | the reference is expanded unless it is active, and accounts for all paths found through it |
| `ComposeSchema.KeyPaths.TakeEntries` | scripts/compose-schema.ts:62-82 | the loops over `properties` and `patternProperties` account for the paths of every entry |
| `ComposeSchema.KeyPaths.TakeAdditional` | scripts/compose-schema.ts:84-91 | `additionalProperties` names `*`, with a schema below it when it is an object |
| `ComposeSchema.KeyPaths.TakeElements` | scripts/compose-schema.ts:93-103 | the loops over `items` and `prefixItems` account for every element |
| `ComposeSchema.KeyPaths.TakeVariants` | scripts/compose-schema.ts:105-110 | the loops over `allOf`, `anyOf` and `oneOf` account for every variant and throw on a non-array |
| `ComposeSchema.KeyPaths.TakeApplicators` | scripts/compose-schema.ts:112-115 | the loop over `if`, `then`, `else`, `not` and `contains` accounts for each of them |
| `ComposeSchema.KeyPaths.TakeNamed` | scripts/compose-schema.ts:62-91 | the keywords that add a path segment, in the order of the code |
| `ComposeSchema.KeyPaths.TakeInPlace` | scripts/compose-schema.ts:93-115 | the keywords that constrain the same path, in the order of the code |
| `ComposeSchema.KeyPaths.WalkSchema` | scripts/compose-schema.ts:47-116 | throws exactly when some walk below throws, and otherwise adds exactly the paths that are found to the shared set |
| `ComposeSchema.FoundInAnyIsReachable` | scripts/compose-schema.ts:136-137 | what any entry schema contributes is what a route from one of them spells |
| `ComposeSchema.Sorted` | scripts/compose-schema.ts:118 | the sorted list of a set holds exactly its members, each once, in ascending order of UTF-16 code units |
| `Sorting.BeforeIsUnitOrder` | scripts/compose-schema.ts:118 | the order on strings used for sorting is the order of their UTF-16 code units |
| `Sorting.SortAscends` | scripts/compose-schema.ts:118 | sorting different strings leaves each before the next in that order |
| `ComposeSchema.CollectComposeServiceKeyPaths` | scripts/compose-schema.ts:118-139 | succeeds exactly when `properties.services` is an object, its `patternProperties` is absent or an object, the values of that object and an object under `additionalProperties` are at least one schema, and no walk of these throws; then it returns, sorted and each once, exactly the paths that routes from these schemas spell |
| `ComposeInline.TwinStep` | scripts/compose-schema.ts:57-115 | each step of the walk has a twin in the inlined schema that names the same segment and leads to the inlining of the same schema |
| `ComposeInline.TwinOf` | scripts/compose-schema.ts:57-115 | the inlined schema has no other steps |
| `ComposeInline.InlineThrows` | scripts/compose-schema.ts:47-116 | for ranked references, a schema throws exactly when its inlining does |
| `ComposeInline.InlineFound` | scripts/compose-schema.ts:47-116 | for ranked references, a schema and its inlining find the same paths |
| `ComposeInline.InlineHasNoRefs` | scripts/compose-schema.ts:57-60 | inlining a schema the walker accepts leaves no reference behind |
| `ComposeInline.NoRefsThrows` | scripts/compose-schema.ts:57-60 | without references, whether the walk throws does not depend on the document |
| `ComposeInline.NoRefsFound` | scripts/compose-schema.ts:57-60 | without references, the paths found do not depend on the document |
| `ComposeInline.SomeBound` | scripts/compose-schema.ts:57-60 | every schema has a bound on the rank of its references |
| `ComposeInline.ReachShrinks` | scripts/compose-schema.ts:57-60 | without reference cycles a mentioned reference leads to strictly fewer references |
| `ComposeInline.RankedIffNoCycle` | scripts/compose-schema.ts:57-60 | references can be ranked, as inlining needs, exactly when none leads back to itself |
| `ComposeInline.RankedWalk` | scripts/compose-schema.ts:47-116 | walking a schema with ranked references equals walking its inlining |
| `ComposeInline.WalkIsInlinedWalk` | scripts/compose-schema.ts:47-116 | for every document in which no reference leads back to itself, each schema has an inlining, free of references when the walk accepts the schema, and walking the schema equals walking the inlining in any document whatever |
| `BundleManifest.BuildRuntimeBundleManifest` | scripts/build-runtime-bundle.ts:100-114 | the loop records one entry for each staged target and skips absent files |
| `BundleManifest.BundlesDescribeStaging` | scripts/build-runtime-bundle.ts:103-112 | a key is present exactly when its target was staged, and then describes that target's own file |
| `BundleManifest.BuiltRecords` | scripts/build-runtime-bundle.ts:100-114 | the manifest built from exactly the expected assets is the one manifest that records them |
| `BundleManifest.RecordsUnique` | scripts/build-runtime-bundle.ts:80-91 | two manifests that record the same assets are equal |
| `BundleManifest.CheckMeans` | scripts/check-runtime-bundle-manifest.ts:70-134 | the check passes exactly when the version is that of the version file, the bundles are those of the published hosts, and each names its own file, of positive size, in the release of that version |
| `BundleManifest.BuiltPasses` | scripts/build-runtime-bundle.ts:100-114 | a manifest built from all expected assets, none empty, passes the check |
| `BundleManifest.PassingIsFull` | scripts/check-runtime-bundle-manifest.ts:131-133 | a built manifest that passes the check was built from assets none of which is empty |
| `BundleManifest.StripSafe` | scripts/build-runtime-bundle-workflow.ts:87-88 | stripping white space from a version file gives the version back when the version has none |
| `BundleManifest.StripMeans` | scripts/build-runtime-bundle-workflow.ts:88 | stripping deletes the six white-space characters and keeps every other one |
| `BundleManifest.SameFields` | scripts/build-runtime-bundle.ts:35-39 | a manifest is determined by its fields |
| `BundleManifest.MergeMeans` | scripts/build-runtime-bundle-workflow.ts:268 | a merge of one value takes what both sides agree on, and else the value of the side that changed it; there is none when both changed it differently |
| `BundleManifest.MergeKeeps` | scripts/build-runtime-bundle-workflow.ts:268 | a three-way merge of manifests has our value in exactly the fields that we changed or they left alone, and is ours exactly when all fields are such |
| `BundleRelease.VersionLineWins` | scripts/build-runtime-bundle-workflow.ts:257-268 | a rebase that does not conflict keeps the pinned version |
| `BundleRelease.RebaseKeepsPin` | scripts/build-runtime-bundle-workflow.ts:267-272 | after a rebase with any field-by-field merge and the recheck, the source list is main's with the run's identity, the version is the pinned one, and the manifest is the merge of the built one |
| `BundleRelease.ActionKeepsInv` | scripts/build-runtime-bundle-workflow.ts:81-275 | every step of a run and every foreign step keeps: what is staged for a pin is exactly the content of a published release made from the run's source list, with exactly the expected assets |
| `BundleRelease.ExecutionKeepsInv` | scripts/build-runtime-bundle-workflow.ts:81-275 | every interleaving of steps keeps: what is staged for a pin is exactly the content of a published release made from the run's source list, with exactly the expected assets |
| `BundleRelease.ReachableInv` | scripts/build-runtime-bundle-workflow.ts:81-275 | in every reachable state, from any history, tags and releases, what is staged for a pin is exactly the content of a published release made from the run's source list |
| `BundleRelease.PushedPin` | scripts/build-runtime-bundle-workflow.ts:81-275 | in every interleaving a pushed pin names a version whose published release holds exactly the expected assets, none empty, and was made from the pinned source list: at the run's commit, or at a tag whose list has the same checksum; it passes the manifest check, leaves main's source list as it is, has the value built from the release in exactly the manifest fields that survive the rebase, and so records the release's assets exactly when all fields survive |
| `PinRuns.Publishes` | scripts/build-runtime-bundle-workflow.ts:81-257 | a run for a new version without tag and release, on any main, reaches the pin commit, and the release holds what it assembled |
| `PinRuns.Recovers` | scripts/build-runtime-bundle-workflow.ts:81-257 | a run for a version whose published release is complete, targets its tag and was made from the same source list reaches the pin commit with the files of that release |
| `PinRuns.Pushes` | scripts/build-runtime-bundle-workflow.ts:257-275 | when main changed neither the version file nor the sources and the merged manifest passes the check, the pin is rebased and pushed |
| `PinRuns.PublishedAndPinned` | scripts/build-runtime-bundle-workflow.ts:81-275 | undisturbed, a run for a new version publishes its assets as a release and pushes a pin that records exactly that release |
| `PinRuns.RecoveredAndPinned` | scripts/build-runtime-bundle-workflow.ts:81-275 | undisturbed, a run for a version with a complete matching release leaves the release as it is and pushes a pin that records exactly that release |
| `BundleRelease.PinsAgree` | scripts/build-runtime-bundle-workflow.ts:250-275 | two pins of one version have the same version file, and the same value in every field that survived in both |
| `BundleRelease.SurvivingPinsAgree` | scripts/build-runtime-bundle-workflow.ts:250-275 | two pins of one version whose fields all survived have the same manifest |
| `PinExample.ForeignManifestIsPinned` | scripts/build-runtime-bundle-workflow.ts:259-275 | a reachable state in which a pin that changed a stale manifest was pushed and yet records a checksum that no asset of its release has |
| `PinExample.ForeignSizeIsPinned` | scripts/build-runtime-bundle-workflow.ts:259-275 | a reachable state in which every commit of main passes the manifest check and a pushed pin records a size that no asset of its release has |
| `PinExample.SmallPinIsForeign` | scripts/build-runtime-bundle-workflow.ts:259-275 | whatever the base and the foreign push, a merge of the manifests that passes the check and differs from both is pushed in some run and does not record the release |
| `DevGuides.IterationRight` | scripts/dev-guides.ts:76-81 | an iteration regenerates exactly the guides that some change of its flush asks for: the single guide if one was named, the guide at the path of the change, and every guide for any other path; it regenerates everything exactly when these are all guides |
| `DevGuides.StepHolds` | scripts/dev-guides.ts:361-441 | in every state of the invariant outside shutdown, an action keeps a change that is pending, in flight or covered in that status, except that under a rejected prune it stays so exactly when it is pending or covered |
| `DevGuides.RejectedHolds` | scripts/dev-guides.ts:382 | after a rejected prune a change is held exactly when it is pending or covered |
| `DevGuides.RequeueHolds` | scripts/dev-guides.ts:361-363 | a flush that puts its changes back ends without losing any change |
| `DevGuides.FinishHolds` | scripts/dev-guides.ts:401-404 | a flush whose iteration has started, or whose changes are all pending again, ends without losing any change |
| `DevGuides.ShapeKept` | scripts/dev-guides.ts:365-429 | every step keeps at most one flush, and pending work with a flush or an armed timer |
| `DevGuides.ActionKeepsInv` | scripts/dev-guides.ts:361-441 | every synchronous stretch between await points keeps the invariant of the loop |
| `DevGuides.ExecutionKeepsInv` | scripts/dev-guides.ts:356-441 | every interleaving of file events, timer firings and resumptions keeps the invariant of the loop |
| `DevGuides.WatchLoop` | scripts/dev-guides.ts:356-441 | in every interleaving at most one flush is active; while not shutting down pending work implies a flush or an armed timer; and each accepted change is pending, in flight, covered by an iteration on an index read after it that has the named guide, the guide at its path, or else every guide, or was held by a flush whose prune rejected |
| `DevGuides.LostExactlyByRejectedPrune` | scripts/dev-guides.ts:356-441 | in every reachable state outside shutdown, an action makes a change that was pending, in flight or covered lose that status exactly when it is a rejected prune and the change is neither pending again nor covered |
| `DevGuides.ActionKeepsGone` | scripts/dev-guides.ts:361-441 | every step keeps: what is pending beside a suspended flush was accepted after that flush began, and a path whose last change was dropped is neither pending nor held by a flush |
| `DevGuides.LastChangeHeldExactly` | scripts/dev-guides.ts:356-441 | in every reachable state outside shutdown, the last accepted change of a path is pending, in flight or covered exactly when no rejected prune dropped it or it was covered nevertheless |
| `DevGuides.IdleMeansCovered` | scripts/dev-guides.ts:401-404 | once the loop is idle, every accepted change has been covered, or was held by a flush whose prune rejected |
| `DevGuides.NoIdleIteration` | scripts/dev-guides.ts:356-400 | no guide is regenerated without a reason: in every interleaving a change accepted before the flush began asks for it |
| `DevGuides.ActionKeepsFrom` | scripts/dev-guides.ts:361-441 | every step keeps: pending paths, the paths of flushes and the paths of iterations are accepted changes |
| `DevGuides.QuietFlush` | scripts/dev-guides.ts:365-400 | from every reachable state with pending work and no flush, a timer firing, an index that is read and a prune that succeeds start an iteration on exactly the guides that the pending changes ask for |
| `DevGuides.ChangeIsTaken` | scripts/dev-guides.ts:418-429 | outside shutdown an event makes its path pending and arms the timer |
| `DevGuides.FailedFlushRetries` | scripts/dev-guides.ts:371-381 | after a failed index the changes are pending and the timer is armed |
| `DevGuides.ShutdownIsFinal` | scripts/dev-guides.ts:44-49 | once shutdown was requested no change is accepted, no iteration starts and no timer is armed |
| `DevGuides.NoiseMeans` | scripts/dev-guides.ts:415-416 | the ignored names are those ending in `~`, in `.sw` and a small letter, and `4913` |
| `DevGuides.RejectedPruneLosesChanges` | scripts/dev-guides.ts:382 | a reachable idle state whose only change was dropped by a rejected prune |
| `DevGuides.Watcher.OnChange` | scripts/dev-guides.ts:418-429 | an editor's temporary file changes nothing, any other event is the change action |
| `DevGuides.Watcher.Flush` | scripts/dev-guides.ts:365-370 | a firing timer starts a flush or is the no-op of the action |
| `DevGuides.Watcher.OnIndexBuilt` | scripts/dev-guides.ts:372-381 | the stretch after the index read, with its failure path |
| `DevGuides.Watcher.OnPruned` | scripts/dev-guides.ts:382-400 | the stretch after the prune: the iteration is started on exactly what the changes ask for, or the changes are put back when the named guide does not exist |
| `DevGuides.Watcher.OnIterationEnded` | scripts/dev-guides.ts:400-404 | the end of an iteration, also of one that rejects |
| `DevGuides.Watcher.RequestShutdown` | scripts/dev-guides.ts:44-49 | the first request sets the flag and runs the hooks, later ones do nothing |
| `CodegenWaves.IsReady` | scripts/codegen-catalog.ts:361-368 | a test throws only for an unknown dependency, and otherwise says whether all dependencies are done, stopping at the first that is not |
| `CodegenWaves.ReadyEntries` | scripts/codegen-catalog.ts:361-369 | a round picks the remaining entries none of whose dependencies remain |
| `CodegenWaves.PickKeepsOrder` | scripts/codegen-catalog.ts:361-369 | a wave lists its entries once each, in the order of the catalog |
| `CodegenWaves.DeleteAll` | scripts/codegen-catalog.ts:374 | removes exactly the picked ids |
| `CodegenWaves.GroupCodegenWaves` | scripts/codegen-catalog.ts:353-378 | succeeds exactly when every dependency is known and there is no cycle, and then wave k is the entries whose longest dependency chain has length k, in catalog order |
| `CodegenWaves.PlacedOnce` | scripts/codegen-catalog.ts:360-377 | every entry is in exactly one wave, that of its depth |
| `CodegenWaves.DepthDecreases` | scripts/codegen-catalog.ts:363-368 | depth strictly decreases along every dependency chain |
| `CodegenWaves.NeverEarlier` | scripts/codegen-catalog.ts:353-378 | no valid schedule runs an entry before the round of its wave |
| `CodegenWaves.FewestWaves` | scripts/codegen-catalog.ts:353-378 | no valid schedule uses fewer rounds |
| `CodegenWaves.StuckHasCycle` | scripts/codegen-catalog.ts:370-372 | a round with nothing ready proves a dependency cycle |
| `CodegenWaves.GroupingAcyclic` | scripts/codegen-catalog.ts:353-378 | a catalog with a grouping has no cycle |
| `CodegenRun.ReachableInv` | scripts/codegen.ts:63-74 | in every interleaving of exits the entries of earlier waves have exited with 0, unless the run is rejected |
| `CodegenRun.DependenciesFirst` | scripts/codegen.ts:63-74 | an entry has a process only once all its transitive dependencies exited with 0 |
| `CodegenRun.ConcurrentUnrelated` | scripts/codegen.ts:67-72 | entries running at the same time are unrelated by dependency |
| `CodegenRun.NoWaveAfterFailure` | scripts/codegen.ts:58-60 | after a failing exit no later wave starts and no process is spawned, whatever the running ones do |
| `CodegenRun.AllDone` | scripts/codegen.ts:63-74 | a run whose last wave resolved ran every entry to exit code 0 |
| `CodegenRun.Progress` | scripts/codegen.ts:63-74 | when every started generator exited with 0, either the whole catalog did, or the next wave can start and starting it spawns each of its entries, none of which ran before |
| `CodegenRun.Runner.Start` | scripts/codegen.ts:67-72 | every entry of the wave is spawned before any is awaited |
| `CodegenRun.Runner.OnExit` | scripts/codegen.ts:56-60 | a failing exit rejects the run |
| `LicenseExpression.Parser.ParsePrimary` | scripts/compiled-binary-licenses.ts:34-41 | consumes exactly the primary that starts at the index, or fails |
| `LicenseExpression.Parser.ParseCompound` | scripts/compiled-binary-licenses.ts:42-49 | consumes exactly the longest compound that starts at the index, or fails |
| `LicenseExpression.CompoundSound` | scripts/compiled-binary-licenses.ts:34-49 | what is consumed is the token list of a syntax tree of the grammar |
| `LicenseExpression.CompoundComplete` | scripts/compiled-binary-licenses.ts:34-49 | the tokens of a syntax tree not followed by an operator are consumed entirely |
| `LicenseExpression.RecognisesLanguage` | scripts/compiled-binary-licenses.ts:31-51 | the whole token list is consumed exactly when the grammar derives it |
| `LicenseExpression.OnlyLeavesMatter` | scripts/compiled-binary-licenses.ts:42-51 | an SPDX expression is accepted exactly when all its leaves are permissive, whatever operators and grouping (Annex D of SPDX 2.3) |
| `LicenseExpression.TokensRoundTrip` | scripts/compiled-binary-licenses.ts:32 | reading tokens written with spaces between them gives the tokens back |
| `LicenseExpression.TokensSplit` | scripts/compiled-binary-licenses.ts:32 | the tokens with white space or nothing between them are the expression, and two words never touch: nothing but white space is lost and no word is cut |
| `LicenseExpression.SplitsOnce` | scripts/compiled-binary-licenses.ts:32 | an expression splits in this way into one list of tokens only |
| `LicenseExpression.IsPermissiveLicense` | scripts/compiled-binary-licenses.ts:31-51 | an expression is accepted exactly when it splits into tokens that the grammar derives |
| `CiSelection.ConditionSelects` | scripts/ci-selection.ts:90-95 | the rendered job condition holds for exactly the selections that select the tier |
| `CiSelection.ProfilesNest` | scripts/ci-selection.ts:90-91 | each profile selects the tiers up to its own, in the order docs, guides, runtime, providers, and only a broad selection selects the rest |
| `CiSelection.SelectPaths` | scripts/ci-selection.ts:65-88 | an empty diff selects the runtime profile; otherwise a job is selected exactly when one of the paths on its own asks for it |
| `CiSelection.SelectPlain` | scripts/ci-selection.ts:73-87 | the last loop selects a job exactly when one of its paths on its own asks for it |
| `CiSelection.ProviderPaths` | scripts/ci-selection.ts:45-56 | the paths that ask for the provider jobs |
| `CiSelection.PlatformPaths` | scripts/ci-selection.ts:58-63 | the paths that ask for a broad selection |
| `CiSelection.DocumentationPaths` | scripts/ci-selection.ts:75-83 | whatever follows, a path under the guides asks for the guides profile, one under the public documentation or its assets for the docs profile |
| `CiSelection.PagePaths` | scripts/ci-selection.ts:82 | any other Markdown page under the documentation asks for the docs profile |
| `CiSelection.OtherDocumentation` | scripts/ci-selection.ts:80-85 | every other path under the documentation asks for the runtime profile |
| `CiSelection.AdmitsMeans` | scripts/_ci-selection-workflow.ts:40-43 | a job starts exactly when it is selected, the selection job succeeded, nothing was cancelled, and no ancestor failed or it is a summary |
| `CiSelection.FailuresEmpty` | scripts/ci-selection.ts:98-109 | an id is listed exactly when the selection job did not succeed, a job is unknown, or a job neither succeeded nor was skipped without being selected; the list is empty when there is none |
| `CiSelection.GateVerdict` | scripts/_ci-selection-workflow.ts:63-66 | the gate passes exactly when every gated job succeeded, or was skipped without being selected |
| `CiSelection.AllSelectedRun` | scripts/_ci-selection-workflow.ts:40-43 | for any job graph, if no started job fails, every selected job runs and succeeds, every other is skipped, and the list is empty |
| `CiSelection.WatchedIsCaught` | scripts/_ci-selection-workflow.ts:40-66 | a selected job that fails or is skipped shows in the list when it is gated, or a selected gated non-summary job needs it, directly or not |
| `CiSelection.CaughtExactlyWhenWatched` | scripts/_ci-selection-workflow.ts:40-66 | the gate reports something in every run in which a given selected job does not succeed, exactly when that job is watched |
| `CiSelection.GateCatchesExactlyWatched` | scripts/_ci-selection-workflow.ts:40-66 | the gate catches every run in which some selected job does not succeed exactly when every selected job is watched in that way |
| `CiSelection.UnwatchedEscapes` | scripts/_ci-selection-workflow.ts:63-66 | a selected job that is not watched can fail with the gate passing |
| `CiSelection.ExperimentIsNotGated` | scripts/_ci-selection-workflow.ts:64-66 | under a broad selection the job the gate leaves out, which no job needs, can fail with the gate passing |
| `ContextDigest.FeedFields` | scripts/linux-runtime-bundle-builder.ts:77 | the loop over the fields feeds their stream |
| `ContextDigest.FeedPath` | scripts/linux-runtime-bundle-builder.ts:79-82 | one listed path feeds its record, or nothing when it is no file |
| `ContextDigest.FeedFiles` | scripts/linux-runtime-bundle-builder.ts:78-83 | the loop over the listing feeds the records of the files, in order |
| `ContextDigest.FeedContext` | scripts/linux-runtime-bundle-builder.ts:72-84 | the bytes fed to the hash are the stream of the sorted listing |
| `ContextDigest.StreamDecodes` | scripts/linux-runtime-bundle-builder.ts:72-84 | a decoder reads the platform, both build arguments and every file record back from the stream, exactly when neither build argument has a NUL in it |
| `ContextDigest.StreamInjective` | scripts/linux-runtime-bundle-builder.ts:72-84 | inputs that share a stream with an input whose build arguments have no NUL are that very input exactly when theirs have none either |
| `ContextDigest.StreamOrderFree` | scripts/linux-runtime-bundle-builder.ts:78 | the order of the listing, and directories in it, do not change the stream |
| `ContextDigest.NulCollides` | scripts/linux-runtime-bundle-builder.ts:45-48 | a host key with a NUL in it shares its stream with a different input |
| `StableJson.CanonicalIff` | scripts/build-schema-snapshot.ts:51-60 | two values have equal results exactly when they differ only in key order at any depth, if and only if the key comparison ties no two keys that are not array indices |
| `StableJson.EqualResults` | scripts/build-schema-snapshot.ts:51-60 | equal results mean the values differ only in key order, whatever the comparison |
| `StableJson.SameResults` | scripts/build-schema-snapshot.ts:51-60 | values that differ only in key order have equal results, when nothing ties |
| `StableJson.Idempotent` | scripts/build-schema-snapshot.ts:51-60 | applying it twice is applying it once, whether or not the comparison ties keys |
| `StableJson.LookupPreserved` | scripts/build-schema-snapshot.ts:55-59 | every lookup in the result finds the stable form of what the lookup in the value found |
| `StableJson.StablePermutes` | scripts/build-schema-snapshot.ts:55-59 | no entry is lost or invented |
| `StableJson.StableIsSame` | scripts/build-schema-snapshot.ts:51-60 | the result differs from the value only in the order of keys, at any depth |
| `StableJson.OthersOfSorted` | scripts/build-schema-snapshot.ts:55-58 | dropping the array-index keys before or after the sort gives the same sequence, because the sort is stable |
| `StableJson.IndexMeans` | scripts/build-schema-snapshot.ts:55 | the keys an object lists first are the numerals of 0 to 2^32 - 2 without leading zeros |
| `StableJson.FromSortedIsCanonical` | scripts/build-schema-snapshot.ts:55-59 | the result enumerates array-index keys by number and then the other keys as the comparison sorts them |
| `StableJson.TieIsNotCanonical` | scripts/build-schema-snapshot.ts:57 | two keys the comparison ties keep their insertion order in the result |
| `FixtureWrite.RelativeInside` | scripts/fixture-safe-write.ts:47-57 | the test on the relative path rejects exactly the targets outside the base |
| `FixtureWrite.CheckRoot` | scripts/fixture-safe-write.ts:61-78 | passes exactly when every component down to the root is a directory and no operation fails; a refusal names a link, or a component that is missing or a file |
| `FixtureWrite.MakeParents` | scripts/fixture-safe-write.ts:80-95 | creates missing directories on the way to the target and nothing else, never through a link; refuses exactly when something on the way exists and is no directory |
| `FixtureWrite.Prepare` | scripts/fixture-safe-write.ts:61-103 | adds directories below the root and nothing else; passes only if the target is absent or a file and nothing is in the way, and a refusal names what was |
| `FixtureWrite.WriteAndRename` | scripts/fixture-safe-write.ts:107-116 | the target changes only by the rename, to the complete data; unless the target is a directory or the temporary name is taken, it fails only if an operation does |
| `FixtureWrite.WriteTemporary` | scripts/fixture-safe-write.ts:107-114 | the temporary file is made anew and holds the complete data, or an operation failed or the name was taken |
| `FixtureWrite.Replace` | scripts/fixture-safe-write.ts:106-119 | the target has its old or the complete new content, and the temporary file is gone unless its removal failed |
| `FixtureWrite.WriteBelow` | scripts/fixture-safe-write.ts:61-119 | below a directory reached without links: whatever operations fail, the target holds its complete old or new content, no temporary file survives an error whose clean-up succeeds, and nothing else changes but new directories on the way |
| `FixtureWrite.WriteFixtureFileSafely` | scripts/fixture-safe-write.ts:38-120 | wherever the path of the trusted root leads and whatever operations fail: a target that is not inside by its path is refused and nothing changes; else the target holds its complete old or new content, success means new, no temporary file survives an error whose clean-up succeeds, every mutation is below the fixtures root, and nothing else changes but new directories on the way; without a failing operation it succeeds exactly when there are directories down to the root, nothing is in the way below it, the target is absent or a file and the temporary name is free, and an error names what was in the way |
| `FixtureWrite.ExplainedIsNotWritable` | scripts/fixture-safe-write.ts:61-103 | the reasons given in errors are exactly reasons why a write cannot succeed: none of them holds where one can |
| `FixtureWrite.TempIsOwn` | scripts/fixture-safe-write.ts:105 | writes with different random parts use different temporary files |
| `FixtureWrite.TempLocated` | scripts/fixture-safe-write.ts:105 | the temporary file beside the target is beside it also where the paths lead to |
| `ClosureReview.ParseResolution` | scripts/closure-review-report.ts:105-135 | raises no error exactly for clean resolutions, and yields a fix exactly for fixed-and-re-reviewed evidence |
| `ClosureReview.ParseFinding` | scripts/closure-review-report.ts:137-160 | raises no error exactly for clean findings, silently drops what is not an object |
| `ClosureReview.ParseFindings` | scripts/closure-review-report.ts:180-185 | raises no error exactly when every object in the list is a clean finding, and then is empty exactly when no entry is an object |
| `ClosureReview.CheckFields` | scripts/closure-review-report.ts:169-179 | raises no error exactly when scope, disposition and the lists are filled in |
| `ClosureReview.CheckFindings` | scripts/closure-review-report.ts:180-186 | raises no error exactly when there is a finding and all are clean |
| `ClosureReview.CheckClass` | scripts/closure-review-report.ts:188-194 | raises no error exactly for a lane that is conclusive and says so |
| `ClosureReview.ParseLane` | scripts/closure-review-report.ts:162-208 | returns a lane without an error exactly for clean lanes, and the lane says what the entry says |
| `ClosureReview.ParseLanes` | scripts/closure-review-report.ts:236-240 | raises no error exactly when every entry is a clean lane |
| `ClosureReview.CheckCounts` | scripts/closure-review-report.ts:241-245 | raises no error exactly when each required lane occurs once |
| `ClosureReview.CheckDispositions` | scripts/closure-review-report.ts:246-247 | raises no error exactly when every lane is approved |
| `ClosureReview.UnresolvedBlockers` | scripts/closure-review-report.ts:210-219 | is empty exactly when every blocker is fixed |
| `ClosureReview.CheckBlockers` | scripts/closure-review-report.ts:248 | raises no error exactly when every blocker of every lane is fixed |
| `ClosureReview.AcceptableIffApprovedAndFixed` | scripts/closure-review-report.ts:162-219 | an entry is acceptable exactly when it parses cleanly, is approved, and its blockers carry evidence of a fix |
| `ClosureReview.EvaluateClosureReviewInput` | scripts/closure-review-report.ts:228-250 | approves exactly the inputs whose every entry is an acceptable lane and whose five lanes each occur once, and approves exactly when there are no errors |
| `ClosureReview.StoryLinkedBlockerNeverApproves` | scripts/closure-review-report.ts:210-219 | a blocker linked to a story keeps a review from being approved |
| `ClosureReview.FiveLanes` | scripts/closure-review-report.ts:241-245 | an approved review has exactly five entries |
| `ClosureReview.ValuesMean` | scripts/closure-review-report.ts:86-103 | text is a string with something left after trimming; a filled list is an array of such texts with at least one |
| `ClosureReview.PropMeans` | scripts/closure-review-report.ts:47-48 | a property is read from an object that has it, and from nothing else |
| `ClosureReview.WordsMean` | scripts/closure-review-report.ts:45-46 | the five lane ids, the three dispositions and the four inconclusive classes |
| `Markdown.RunIsCovered` | scripts/build-config-lint-rule-reference.ts:40 | no row of backticks is longer than the longest run the global match finds |
| `Markdown.SpanParses` | scripts/build-config-lint-rule-reference.ts:40-41 | padded content between two backtick strings longer than any run in it parses as one code span (section 6.1 of CommonMark 0.31) |
| `LintReference.ChainIsSimultaneous` | scripts/build-config-lint-rule-reference.ts:23-35 | a chain of replacements none of which writes what a later one replaces is one simultaneous map over the characters |
| `LintReference.EscapesSettled` | scripts/build-config-lint-rule-reference.ts:24-35 | the chain of `text` is of that kind, the ampersand being first |
| `LintReference.EscapesAreReferences` | scripts/build-config-lint-rule-reference.ts:24-35 | each replacement is a character reference to the character it replaces |
| `LintReference.CollapseThenMap` | scripts/build-config-lint-rule-reference.ts:36 | collapsing white space and escaping can be done in either order |
| `LintReference.TextIsOneMap` | scripts/build-config-lint-rule-reference.ts:22-36 | `text` is the simultaneous map over the collapsed input |
| `LintReference.DecodeText` | scripts/build-config-lint-rule-reference.ts:22-36 | decoding the character references of the result gives the collapsed input (section 2.5 of CommonMark 0.31) |
| `LintReference.TextIsInert` | scripts/build-config-lint-rule-reference.ts:22-36 | no escaped character but the ampersand is left in the result |
| `LintReference.TextHasNoMarkup` | scripts/build-config-lint-rule-reference.ts:22-36 | no angle bracket, brace, pipe, backtick, asterisk, underscore, square bracket or backslash is left in the result |
| `LintReference.CollapseMeans` | scripts/build-config-lint-rule-reference.ts:36 | collapsing puts one blank in place of each whole run of white space and keeps every other character |
| `LintReference.CodeRoundTrip` | scripts/build-config-lint-rule-reference.ts:38-42 | the code span parses back to its escaped content, whatever follows it, exactly when the value is not blank |
| `LintReference.PipeRoundTrip` | scripts/build-config-lint-rule-reference.ts:39 | for a table reader that looks at one backslash only, no pipe of the content ends the cell, and undoing the escapes gives the collapsed value |
| `LintReference.CellRoundTrip` | scripts/build-config-lint-rule-reference.ts:38-42 | for a table reader that treats a backslash before a backslash as an escape, the code stays in one cell exactly when an even number of backslashes is before each pipe of the value, and then undoing the escapes gives the collapsed value |
| `LintReference.BackslashSplitsCell` | scripts/build-config-lint-rule-reference.ts:39 | a value whose code that reader splits |
| `LintReference.ListCellRoundTrip` | scripts/build-config-lint-rule-reference.ts:44 | the code spans read from a list cell are its values, in order |
| `LicenseNotices.FenceExceedsRuns` | scripts/compiled-binary-licenses.ts:136-138 | the fence has at least three backticks and is longer than every run in the text |
| `LicenseNotices.NoLineCloses` | scripts/compiled-binary-licenses.ts:135-139 | no line of a license text closes its fence (section 4.5 of CommonMark 0.31) |
| `LicenseNotices.SectionBlocks` | scripts/compiled-binary-licenses.ts:139 | the section of a file is one fenced block holding the lines of the text, closed at its end |
| `LicenseNotices.RenderPackageLicense` | scripts/compiled-binary-licenses.ts:127-142 | when the metadata is on single lines, the fenced blocks of the whole document are exactly the license texts, in order |
| `LicenseNotices.HeaderReads` | scripts/compiled-binary-licenses.ts:128-134 | when the metadata is on single lines, the lines before the texts are the name and version, the license, the repository and homepage if known, and the note if there is no text |
| `KeyMatrix.CheckExplained` | scripts/build-compose-key-matrix.ts:139-148 | passes exactly when every key has a rationale, and a remediation if it is rejected |
| `KeyMatrix.AssertMatrixInvariants` | scripts/build-compose-key-matrix.ts:133-169 | passes exactly when all keys are explained, normalized service keys have targets, and the first segment of every service key is a key |
| `KeyMatrix.OnlyRootIsFirstSegment` | scripts/build-compose-key-matrix.ts:82-85 | the only dot-free root a path can be below is its first segment |
| `KeyMatrix.TimesEmitted` | scripts/build-compose-key-matrix.ts:79-87 | an entry is emitted once if its first segment is a key, else not at all |
| `KeyMatrix.NeverTwice` | scripts/build-compose-key-matrix.ts:79-87 | nothing is emitted twice, nor anything that is not an entry |
| `KeyMatrix.CountDecides` | scripts/build-compose-key-matrix.ts:159-168 | the row count is right exactly when every entry is emitted once, which holds exactly when every first segment is a key, for every collation |
| `KeyMatrix.GroupsAreDisjoint` | scripts/build-compose-key-matrix.ts:79-87 | no row is in two groups |
| `AuditIssue.Remote.Reconcile` | scripts/dependency-audit.ts:76-138 | a run completes exactly when the exit code is the expected one, at most one issue is managed and no command fails; then with findings exactly one issue is managed, open, and shows them, without findings no managed issue is open, and no other issue changed; a run that stops has made a first part of its calls, and an unexpected exit code leaves the tracker alone |
| `AuditIssue.Remote.Sync` | scripts/dependency-audit.ts:111-138 | the part of a run after the audit completes exactly when at most one issue is managed and no command fails; it makes a first part of the calls of its plan, all of them if it completes |
| `AuditIssue.Remote.Open` | scripts/dependency-audit.ts:126-133 | when no issue is managed, creates one if there are findings and else makes no call |
| `AuditIssue.Remote.Update` | scripts/dependency-audit.ts:125-138 | on an existing issue, makes a first part of the calls of the plan, all of them if it completes |
| `AuditIssue.BodyIsMarked` | scripts/dependency-audit.ts:79-91 | the body starts with the marker line, so the issue stays managed |
| `AuditIssue.ManagedMeans` | scripts/dependency-audit.ts:115-122 | an issue is managed exactly when it is no pull request, has the title, the bot as its author, and a body that starts with the marker line |
| `AuditIssue.BodyReads` | scripts/dependency-audit.ts:79-91 | split at line feeds, the body is the marker, the fingerprint, the heading, one line for each finding in order, and the note |
| `AuditIssue.BodyInjective` | scripts/dependency-audit.ts:35-91 | two reports have the same body only if they are the same, so an issue is edited whenever the findings changed |
| `AuditIssue.EscapedIsInert` | scripts/dependency-audit.ts:34-36 | escaped text has digits and the three characters of a reference only |
| `AuditIssue.LineInjective` | scripts/dependency-audit.ts:86-88 | the line of a finding determines all of its fields |
| `AuditIssue.ManagedAfter` | scripts/dependency-audit.ts:111-138 | what each call does to the set of managed issues |
| `AuditIssue.NextKeepsInv` | scripts/dependency-audit.ts:111-138 | every call, stop and foreign edit keeps at most one managed issue, which every call still to be made is about |
| `AuditIssue.NeverTwo` | scripts/dependency-audit.ts:111-138 | any sequence of runs, each stopped anywhere, with foreign edits between any two calls, keeps at most one managed issue |
| `AuditIssue.CompletedIsUpToDate` | scripts/dependency-audit.ts:125-138 | a completed run leaves the issue open with the current body exactly when there are findings, and touches no other issue |
| `AuditIssue.RepeatIsQuiet` | scripts/dependency-audit.ts:125-138 | an immediate repeat makes no call |
| `AuditIssue.RetryConverges` | scripts/dependency-audit.ts:125-138 | after a run that stopped anywhere, the next completed run ends where the first would have |
| `AuditIssue.OverlapDuplicates` | scripts/dependency-audit.ts:123-133 | two runs that both listed no issue make two, and then every run throws |

## Left out

- StaticStrings.ScanSpecifier: `let`, parameters, loop variables, destructuring patterns, redeclarations and use before initialisation, because the index of the code knows none of them (an inner `const { x } = o` is skipped, and an outer `x` is found instead); import, export and require edges and their line numbers.
- ComposeInline.WalkIsInlinedWalk: documents with reference cycles, which have no finite inlining; for them `ComposeSchema.FoundIsReachable` says what is found.
- BundleRelease.PushedPin: the shallow-clone details of git, the alignment of lines that differ in more than the values of fields, and cancelled runs other than by stopping between steps.
- BundleManifest.BuildRuntimeBundleManifest: archives are their bytes, hashes are a function of them; the test that a checksum is no placeholder.
- DevGuides.WatchLoop: changes during shutdown, a rejection that ends the process, killing the active process, and time; an iteration that fails still counts as started.
- CodegenRun.ReachableInv: the bootstrap modules written before the first wave, and processes that never exit.
- CiSelection.AllSelectedRun: cancelled runs, what `continue-on-error` makes of a failing job for the workflow as a whole, the deploy job, the reason text, and the rewriting of the workflow text.
- CiSelection.ExperimentIsNotGated: the job it is about continues on error and no job needs it; its own failure is meant, which no job of the workflow sees.
- ContextDigest.StreamInjective: strings stand for their UTF-8 bytes, and no path has a NUL in it, as no file system allows one.
- StableJson.CanonicalIff: `toJSON`, cyclic values and the key `__proto__`.
- FixtureWrite.WriteFixtureFileSafely: how the operating system resolves the links above the trusted root, a process that is killed midway, other processes changing the same tree, permissions and the durability of a sync.
- ClosureReview.EvaluateClosureReviewInput: the wording of the messages; the number of errors beyond whether there are any.
- LintReference.DecodeText: other named references than those written here, and half surrogate pairs.
- LicenseNotices.RenderPackageLicense: block structure other than fences, such as HTML blocks, and metadata that spans lines.
- KeyMatrix.AssertMatrixInvariants: the messages; the tables rendered from the groups.
- AuditIssue.Remote.Reconcile: running the audit, filtering ignored advisories and hashing them; the tracker's pagination.
- Collisions of file names and removal of stale files when command schemas are generated, and comparing Compose coverage: set operations on generated data.
- Guide parsing, boundary rules, schema-compatibility classifiers and the rendering of reference pages.
- Workflow generation other than the release protocol and the conditions of CI jobs.
- Benchmarks, argument parsers, pin tables, bundled-plugin lists and fixed catalog contents.
