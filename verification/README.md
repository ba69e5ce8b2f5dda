# Models of the repository tooling

The tooling of this repository keeps a warm index of the source tree, recovers from failures,
caches validation results and fingerprints builds. This project models that logic in Dafny and
proves what it promises. `dafny verify dfyconfig.toml` checks everything.

## What is modelled

A *tree* maps paths to texts; what parsing a text yields (definitions, references, aliases,
imports) is an arbitrary function, and so are hashing, module discovery and the loading of the
canonical documents. Everything the tooling does with those answers is modelled branch by
branch. Lists that the artifacts keep sorted by a unique key are maps from that key; the lists
inside records are the sorted listing of a set.

- **The incremental index** (`RepoTree`, `RepoGraph`, `RepoIndex`, `CallResolution`,
  `GraphBuilder`, `IndexPatcher`). `RepoGraph.Build` says what a full build contains and
  `RepoIndex.Patch` what the surgical patch contains; `GraphBuilder` and `IndexPatcher` are the
  loops, proved against them. `IncrementalIsFull` proves that the patched graph *is* the built
  graph for every pair of trees; the sections are in `PatchSetting` (files and cache),
  `ReverseInvalidation` (calls), `PatchTestRecords`, `PatchEdges`, `PatchFindings` and
  `PatchedSymbols`. `PatchExample` meets the assumptions, `FailingInputs` breaks them one by one.
- **What a built graph says** (`FileFacts`, `EdgeFacts`, `SymbolFacts`, `CountFacts`). Every section
  of it in terms of the tree and the canonical documents, without the functions that build it:
  which files and owners, edges and evidence, drift, tests, symbols, calls, findings and counts.
- **Refreshing and publishing** (`ChangeDetection`, `Refresh`, `IndexStore`, `PublishSafety`,
  `IndexLock`). Stat probe and hash confirmation find exactly the content changes; over every run
  of edits and refreshes the stored files are those of a full rebuild; an interrupted publish that
  reads READY serves the right graph, the first publish included; whatever is served is the full
  rebuild of the disk; the lock excludes.
- **Reading the graph** (`GraphDocument`, `GraphQueries`, `QueryAnswers`, `GraphValidator`,
  `ReportedProblems`, `CallGraph`, `GraphSoundness`). Queries answer from the graph, map lookups
  answer as linear ones; validation reports exactly what is wrong, which is nothing for what a
  build derives from good declarations.
- **Failure recovery** (`FailurePolicy`, `FailureRecovery`, `RecoveryByCategory`,
  `RecoveryChains`). Executors are oracles; the bounds hold for whatever they report, and it is
  stated what RECOVERED covers and what is done about each category of failure.
- **Validation** (`ImportClosure`, `CacheKey`, `ResultCache`, `CommandPruning`). The closure is
  reachability, the cache is transparent for outcomes that its key pins, pruning loses no test of
  a file that pytest collects.
- **Smaller cores** (`Fingerprint`, `LabInbox`, `InboxOrder`, `RouteMatching`, `UnresolvedFindings`).
- **Shared** (`Ordering`, `Strings`, `Wrappers`). Sorted listings, sorting by key, substring tests.

## What the index relies on

These appear as preconditions, because the code relies on them without checking:

- Canonical documents and the discovered module list are the same before and after a patch. The
  code compares module roots only; `Refresh.PatchNeedsSameModules` shows that this is exactly
  enough when the list itself has not moved, and not otherwise.
- Qualified names are unique. The loops detect a clash, and validation rejects the graph.
- What the patch does not look at has not moved (`IncrementalIsFull.PatchMissesNothing`): the first
  hits of tests in unaffected modules, imports and loads of canonical files, which the file cache
  leaves out, and tests that target files elsewhere.
- A changed text shows in size or modification time, and hashes do not collide.
- Findings about the canonical documents name no indexable file.

The file cache of a full rebuild lists dotted names of Python files only, the patch lists them for
every language (tools/repo_index.py:263-271 against :582). `RepoIndex.Describes` therefore fixes
the cache exactly for Python files and up to the dotted names for the others.

## Where the code keeps less than it promises

Where a property fails without a condition, the condition is proved to be exact, and an input on
which it fails is given:

| property | exact condition | failing input |
|---|---|---|
| incremental equals full | `IncrementalIsFull.IncrementalEqualsFullExactly` | `FailingInputs`, one for each of its five parts: `NamedFindingExample`, `UnsettledTestExample`, `HiddenImportExample`, `HiddenLoadExample`, `ForeignTargetExample` |
| with roots and documents unchanged the patch is the rebuild | `Refresh.PatchNeedsSameModules` | `FailingInputs.GrowingModulesExample` |
| detection refreshes the manifest | `ChangeDetection.TwoPhasesRefreshManifest` | `FailingInputs.UnlistedPathExample` |
| a built graph validates | `GraphSoundness.BuiltGraphPasses` | `FailingInputs.UnknownDeclarationExample` |
| a refresh leaves something to serve | `PublishSafety.ServesExactly` | `FailingInputs.CorruptPayloadExample`; the next call heals it, by `PublishSafety.NextCallHeals` |
| the lock excludes after a crash | `IndexLock.NoStealNoHarm`, `IndexLock.StealBreaksExclusion` | `IndexLock.CrashedHolderBreaksExclusion` |
| map lookups answer as linear ones | `GraphQueries.MapsNeedUniqueNames` | `GraphQueries.ClashingNameExample`; `_publish` validates before it builds the maps, so such a graph is never published |
| RECOVERED has run every failed command again | `FailureRecovery.RecoveredCoversExactly` | `FailureRecovery.UnretriedFailureExample` |
| `RecoveryByCategory.SessionFits` | tools/failure_intel.py:1390-1434 | over any session every executor is the treatment of its own category and subtype or the escalation of a stale state; failures of code, tests, syntax, imports, ownership, contracts, languages, tool chain and infrastructure, baseline debt and lasting environment failures never get one |
| `RecoveryByCategory.RecoveredIsCurable` | tools/failure_intel.py:2143-2444 | a call that ends RECOVERED is about curable failures only, in an aggregate too |
| `RecoveryByCategory.CurableExactly` | tools/failure_intel.py:2143-2320 | some call recovers from a failure exactly if its category and subtype can be cured |
| `RecoveryByCategory.TreatedExactly` | tools/failure_intel.py:1390-1460 | a fresh failure is first treated by the executor of its category and subtype, exactly if there is one and apply is set; otherwise nothing is recorded and the final state is that of its category, subtype and ownership |
| `RecoveryByCategory.EndsExactly` | tools/failure_intel.py:2143-2359 | how the call then ends: by the executor that succeeded and what follows a refresh, stopped if it broke, and a stale state once more escalated |
| `RecoveryByCategory.SeenBeforeIsStopped` | tools/failure_intel.py:2278-2320 | a failure whose fingerprint the chain has seen is stopped, with one halted step of its own identity |
| `RecoveryByCategory.SeenWinnerIsStopped` | tools/failure_intel.py:2429-2439 | the dominant failure of an aggregate, once seen, is stopped without a step |
| `RecoveryByCategory.MarksExactly` | tools/failure_intel.py:1377-1387 | which first decisions are retryable, with a budget of one, and when an escalation is required |
| `RecoveryByCategory.WorstDecides` | tools/failure_intel.py:2396-2439 | a diagnosed aggregate is stopped if some failure is, else blocked, else environment, else code, else unclear, else escalated, else retrying |
| `RecoveryByCategory.DowngradesExactly` | tools/failure_intel.py:1487-1538 | a first escalation target lies below the current level exactly if a wide change meets L5, or an incomplete impact L4 or L5, with no contract or graph gap and no inconsistency |
| `RecoveryByCategory.EscalatesAsDoubted` | tools/failure_intel.py:1487-1538 | the first target is the level that the doubt asks for, else the next one for failures that are not simply reported |
| `RecoveryByCategory.DowngradeExample` | tools/failure_intel.py:1503-1505 | a change across modules at L5 is to be escalated to L4 |
| an escalation is never a downgrade | `RecoveryByCategory.DowngradesExactly` | `RecoveryByCategory.DowngradeExample` |
| the cache answers as running | `ResultCache.TransparentExactlyIfPinned` | `ResultCache.UnpinnedEditIsReplayedWrongly` |
| pruning loses no test | `CommandPruning.PruningIsExact`, `CommandPruning.PruningLosesNoTests` | `CommandPruning.FilteredPartitionLosesTests`, `CommandPruning.UncollectedFileLosesTests` |
| yes means last compiled | `Fingerprint.YesMeansLastCompiled` | `Fingerprint.UnreadableCompileExample`, `Fingerprint.UnsavedCompileExample` |
| re-queueing keeps arrival order | `InboxOrder.RequeueKeepsArrivalOrder` | `InboxOrder.CommandReadMeanwhileOvertakes` |

The comment at crates/vayren-shell/build.rs:35-37 says that a yes means inputs byte-identical to
the last successful compilation. The code keeps that only while that compilation was recorded: it
leaves the earlier fingerprint in place when an input cannot be read, and also when the sidecar
cannot be written, because `record` discards the result of the write.

## Model

| member | source | states |
|---|---|---|
| `RepoTree.OwningModuleIsLongest` | tools/repo_graph.py:323-331 | the owner of a path is a module that owns it, and no owning module is longer |
| `RepoTree.OwningModuleOrderFree` | tools/repo_graph.py:323-331 | the owner does not depend on the order of the module list |
| `RepoTree.RootsCover` | tools/repo_index.py:347-353 | the expected roots lie in no other root, and every module lies in one of them |
| `RepoTree.DottedDeterminesQualified` | tools/repo_graph.py:351-457 | two definitions of any languages with one dotted name have one qualified name, so the dotted lookup is a function |
| `RepoTree.QualifiedDeterminesDotted` | tools/repo_graph.py:351-457 | and the other way round, so a definition appears or disappears under both its names at once |
| `CallResolution.ResolveFileCalls` | tools/repo_graph.py:491-507 | the loop yields, per caller of a file, the sorted set of resolved callees without the caller itself |
| `CallResolution.CallTargetsAreResolved` | tools/repo_graph.py:491-507 | the callees of a definition are what that loop resolves from its references, the file's names and its aliases |
| `CallResolution.AppendCaller` | tools/repo_graph.py:510-520 | one caller joins the lists of its known callees, all other lists stay |
| `CallResolution.RebuildCalledBy` | tools/repo_graph.py:510-520 | every symbol's callers become the sorted inverse of all call lists |
| `CallGraph.InverseCallsExact` | tools/repo_graph.py:510-534 | in every built graph q is among p's callers exactly if p is among q's callees; lists are sorted without duplicates; no symbol calls itself or an unknown name |
| `GraphBuilder.CollectFiles` | tools/repo_graph.py:739-787 | the loop yields the specified record of every indexable file with an owning module; what those records say is stated by `FileFacts` |
| `GraphBuilder.AddSymbols` | tools/repo_graph.py:789-815 | adds the symbols of all definitions; a clash is reported exactly if two definitions share a qualified name or one is already known |
| `GraphBuilder.DottedIndex` | tools/repo_graph.py:523-534 | the lookup from dotted to qualified names |
| `GraphBuilder.ResolveFiles` | tools/repo_graph.py:523-534 | the calls of exactly the definitions of the given files are replaced |
| `GraphBuilder.ResolveSymbolCalls` | tools/repo_graph.py:523-534 | all calls resolved and all callers inverted |
| `GraphBuilder.TestTargets` | tools/repo_graph.py:569-588 | a test file targets its first known sibling source other than itself, else its module |
| `GraphBuilder.AttachTests` | tools/repo_graph.py:833-840 | the symbols of the given modules list the sorted tests that target their file |
| `GraphBuilder.RecordActualEdge` | tools/repo_graph.py:478-488 | one import adds one target and one piece of evidence, never an edge of a module to itself |
| `GraphBuilder.CollectActual` | tools/repo_graph.py:888-934 | the recorded edges and their evidence are those of all import rows |
| `GraphBuilder.InvertDependencies` | tools/repo_graph.py:966-969 | each module's dependents are the sources of the edges to it |
| `GraphBuilder.CountRelationships` | tools/repo_graph.py:537-566 | the relationship count is the sum of all module and symbol degrees |
| `GraphBuilder.BuildModuleSections` | tools/repo_graph.py:936-1023 | edges, drift and module records of a full build |
| `GraphBuilder.BuildGraph` | tools/repo_graph.py:630-1062 | a graph is derived exactly if qualified names are unique, and it is the specified one in every section |
| `FileFacts.IndexedExactly` | tools/repo_graph.py:739-754 | a built graph lists exactly the Python, Rust and Slint files of the tree that are not excluded and lie in some module, each under its innermost module |
| `FileFacts.OwnersAreAsWritten` | tools/repo_graph.py:756-787 | a test has the owner of its module and no retention state; any other file the owner of its policy rule with source "policy", else the owner of its module, else UNKNOWN |
| `FileFacts.RulesDecideAlone` | tools/repo_graph.py:768-773 | under one policy, whatever the other documents say of the modules, a file with a rule has the owner of that rule |
| `FileFacts.RunsKeepOwners` | tools/repo_index.py:766-821 | over any trusted run of edits and refreshes the stored files, modules and owners are those that the disk as last refreshed and its policy give |
| `FileFacts.FindingsExactly` | tools/repo_graph.py:756-815 | every finding is listed as often as the documents say, and once more exactly if it names a file without an owner, which is one of source "unknown", or a Python file that does not parse |
| `EdgeFacts.DottedModule` | tools/repo_graph.py:466-475 | an imported name means the first module with the longest dotted base that heads it, none exactly if no base does |
| `EdgeFacts.EdgesExactly` | tools/repo_graph.py:888-956 | the edges are exactly the declared ones, with their sources, and those from modules whose non-test files import another module, with exactly those files as evidence, in order |
| `EdgeFacts.DriftExactly` | tools/repo_graph.py:958-964 | drift is exactly where a declared edge has no actual one or the reverse, under its own kind |
| `EdgeFacts.ModuleExactly` | tools/repo_graph.py:966-1023 | a module record lists, in order, exactly the files of the module, the targets of its actual edges and the sources of the edges to it |
| `EdgeFacts.TestsExactly` | tools/repo_graph.py:569-588 | the tests are the indexed test files; each targets exactly the first of its candidates that is another indexed file, else its module |
| `SymbolFacts.SymbolsExactly` | tools/repo_graph.py:789-815 | the symbols are exactly the definitions of the indexed files, with name, place, module and language of the file |
| `SymbolFacts.CallsExactly` | tools/repo_graph.py:491-534 | without clashing names, the callees of a Python definition are exactly what the names in its body mean, a definition of the file before an import, other than itself; no other definition has callees; its tests are exactly those that target its file |
| `CountFacts.CountsExactly` | tools/repo_graph.py:537-566 | the relationship count is the number of distinct links of the graph, and as many calls are counted at callers as at callees; the entity count is the size of all sections |
| `RepoGraph.BareDottedUnique` | tools/repo_graph.py:523-534 | no two symbols share a dotted name |
| `PatchSetting.FilesAgree` | tools/repo_index.py:486-537 | kept and re-added file records are the records of the new tree |
| `PatchSetting.FileMetaAgrees` | tools/repo_index.py:571-598 | the patched file cache describes the new tree |
| `ReverseInvalidation.PatchBareLists` | tools/repo_index.py:539-569 | kept and freshly parsed symbols are the symbols of the new tree |
| `ReverseInvalidation.UntouchedCallsStay` | tools/repo_index.py:600-629 | reverse invalidation suffices: an untouched definition whose file aliases no name a changed file had or has resolves to the same calls |
| `ReverseInvalidation.CallsStayExactly` | tools/repo_graph.py:491-507 | a definition that stays in the tree keeps its calls exactly if no dotted name that it loads through an alias appeared or disappeared |
| `ReverseInvalidation.MovedNamesSuffice` | tools/repo_index.py:474-476 | the cached and the fresh dotted names together cover every name that moved |
| `ReverseInvalidation.PatchCallsAgree` | tools/repo_index.py:600-629 | after the patch a definition has the calls of a full resolution exactly if its file changed, was resolved again, or no dotted name that it loads through an alias appeared or disappeared |
| `PatchTestRecords.TestsAgreeExactly` | tools/repo_index.py:631-655 | recomputing the affected modules' tests equals recomputing all exactly if no unaffected test's first hit can move |
| `PatchTestRecords.TestsOfStayExactly` | tools/repo_index.py:656-663 | the sorted tests of a file stay exactly if no test began or ceased to target it |
| `PatchEdges.DependenciesAgreeExactly` | tools/repo_index.py:665-695 | the patched edges are the built ones exactly if the files outside the cache contribute no import of an affected module |
| `PatchEdges.DriftAgrees` | tools/repo_index.py:701-712 | the patched drift is the built drift |
| `PatchEdges.ModulesAgree` | tools/repo_index.py:714-721 | the patched module records are the built ones |
| `PatchFindings.NotesAgree` | tools/repo_index.py:478-484 | kept and fresh findings are those of a full build, each as often, exactly if no finding about the canonical documents names a changed path |
| `PatchFindings.ReparseFindsNothing` | tools/repo_index.py:612-622 | parsing reverse-affected files again records no finding twice |
| `PatchedSymbols.SymbolSectionAgrees` | tools/repo_index.py:539-663 | the whole symbol section agrees, with names, calls, callers and tests, exactly if every definition that is not resolved again loads no name that appeared or disappeared, and no test began or ceased to target a file with definitions in an unaffected module |
| `IncrementalIsFull.IncrementalEqualsFull` | tools/repo_index.py:445-759 | incremental equals full: when nothing is missed the patched graph is the built graph of the new tree in every section, and the patched cache describes that tree |
| `IncrementalIsFull.IncrementalEqualsFullExactly` | tools/repo_index.py:445-759 | and only then: patched and built graph are equal exactly if no canonical finding names a changed path, the first hits of tests in unaffected modules are settled, canonical files of affected modules import nothing foreign, definitions in canonical files load no name that appeared or disappeared, and no test began or ceased to target a file with definitions in an unaffected module |
| `IncrementalIsFull.HomeAndQuietSuffice` | tools/repo_index.py:445-759 | nothing is missed when tests have their siblings in their own modules and canonical files neither import a module nor alias a name that a changed file had or has |
| `PatchExample.EditIsSafe` | tools/repo_index.py:445-459 | the assumptions are met by a concrete edit, which the patch accepts |
| `FailingInputs.UnsettledTestExample` | tools/repo_index.py:631-655 | the sibling source of a test appears in an inner module, while the test belongs to the outer one: accepted, and the patched graph is wrong |
| `FailingInputs.HiddenImportExample` | tools/repo_index.py:665-695 | a canonical file imports the inner module, and a file is added beside it: accepted, and the patched graph is wrong |
| `FailingInputs.HiddenLoadExample` | tools/repo_index.py:600-629 | a canonical file loads a name that an added file defines: accepted, and the patched graph is wrong |
| `FailingInputs.ForeignTargetExample` | tools/repo_index.py:656-663 | a test is added to the outer module and targets its sibling in the inner one: accepted, and the patched graph is wrong |
| `FailingInputs.NamedFindingExample` | tools/repo_index.py:478-484 | a file is added that is called as a finding about a route dependency is: accepted, and the patch drops the finding |
| `FailingInputs.GrowingModulesExample` | tools/repo_index.py:452-459 | two disks with the same roots and documents and a grown module list: the patch does not refuse, and its graph is not the rebuilt one |
| `FailingInputs.UnlistedPathExample` | tools/repo_index.py:146-190 | a manifest path on disk that is listed no more is no detected change and stays in the refreshed manifest |
| `FailingInputs.CorruptPayloadExample` | tools/repo_index.py:766-879 | an unreadable payload and a new time stamp: the refresh is stat-only and nothing is served |
| `FailingInputs.UnknownDeclarationExample` | tools/validate_repo_graph.py:60-248 | a module that declares a dependency on no module: the graph of any tree is rejected |
| `IndexPatcher.PatchSymbolEdges` | tools/repo_index.py:600-663 | the loops over recomputed calls, callers and affected tests |
| `IndexPatcher.PatchModuleSections` | tools/repo_index.py:665-721 | the loops over affected edges, drift and module records |
| `IndexPatcher.PatchIncremental` | tools/repo_index.py:445-759 | refuses exactly for moved roots, a canonical change or a path outside all modules; a name clash is reported exactly if names are not unique; otherwise the patched graph, which is the built one exactly if nothing is missed, and a cache that describes the tree |
| `ChangeDetection.FastChanged` | tools/repo_index.py:146-162 | the stat-dirty paths, and manifest paths no longer listed |
| `ChangeDetection.ConfirmChanged` | tools/repo_index.py:165-190 | the content-dirty candidates and the restamped manifest |
| `ChangeDetection.TwoPhasesFindContentChanges` | tools/repo_index.py:146-190 | the confirmed candidates are exactly the added, deleted and content-modified paths |
| `ChangeDetection.TwoPhasesRefreshManifest` | tools/repo_index.py:130-190 | the refreshed manifest is that of a full hashing pass exactly if every listed file still on disk is still a manifest path |
| `ChangeDetection.DetectedChangesAreTextChanges` | tools/repo_index.py:130-190 | against the manifest of an earlier disk the detected changes are the paths whose presence or text differs |
| `Refresh.DetectedCover` | tools/repo_index.py:146-190 | with no canonical input detected, canonical texts are unchanged and the detected changes cover all indexed files |
| `Refresh.PatchIsStored` | tools/repo_index.py:445-459 | patch or fallback leaves the stored files of a full rebuild, or nothing changed when rejected |
| `Refresh.UnchangedIsStored` | tools/repo_index.py:766-821 | with no content change the restamped manifest completes the index of the disk as it is |
| `Refresh.PatchNeedsSameModules` | tools/repo_index.py:452-459 | with unchanged roots and documents, the patched graph is the rebuilt one exactly if the discovered module list has not moved |
| `Refresh.RefreshKeepsIndex` | tools/repo_index.py:766-821 | a completed refresh stores the index of the disk as it is, whichever path it takes; it is rejected only if a full rebuild would be, and then changes nothing, and it publishes only what validation accepts |
| `Refresh.RunsKeepIndex` | tools/repo_index.py:766-821 | over any run of edits and refreshes graph, warm payload, manifest and cache are those of a rebuild of the disk as last refreshed, also after edits that only a full refresh picks up |
| `Refresh.FullRefreshHeals` | tools/repo_index.py:766-821 | whatever is stored and whatever happened to the disk, a completed full refresh leaves the index of the disk as it is |
| `IndexStore.RepoIndexStore.PublishAll` | tools/repo_index.py:396-433 | after validation the five files are replaced one by one in the order of `PublishSafety.Cut`, or nothing is |
| `IndexStore.RepoIndexStore.Rebuild` | tools/repo_index.py:436-442 | full rebuild and publish |
| `IndexStore.RepoIndexStore.PatchOrRebuildIndex` | tools/repo_index.py:766-821 | patch, or full rebuild where the patch refuses |
| `IndexStore.RepoIndexStore.RefreshIndex` | tools/repo_index.py:766-821 | a refresh keeps the index valid for the disk as last refreshed, on every path |
| `IndexStore.RepoIndexStore.EnsureFreshIndex` | tools/repo_index.py:867-879 | what it serves is the full rebuild of the disk; stored files and served graph are those of probe, refresh and payload; the index stays valid |
| `IndexStore.RepoIndexStore.RefreshIncrementally` | tools/repo_index.py:766-821 | probe, confirm and take the noop, stat-only, patch or full path |
| `PublishSafety.PublishedIsReady` | tools/repo_index.py:824-864 | a completed publish reads READY |
| `PublishSafety.FreshnessExactly` | tools/repo_index.py:824-864 | for every stored index and every later disk: REBUILD_REQUIRED exactly if the roots moved or presence, size or time stamp of a canonical document differs; else STALE exactly if those of another covered file differ; else INVALID exactly if the payload cannot be read; else READY |
| `PublishSafety.DamageIsSeen` | tools/repo_index.py:824-864 | a missing file or a graph that the state does not attest is INVALID, another inputs hash asks for a rebuild |
| `PublishSafety.ReadyIsStored` | tools/repo_index.py:824-864 | a stored index that reads READY for a disk is the full rebuild of that disk |
| `PublishSafety.InterruptedPublishIsSafe` | tools/repo_index.py:396-433 | a publish cut after any of its replaces, the first one included, with the tree still: READY implies that the warm payload is the rebuild of the tree |
| `PublishSafety.FirstPublishIsInvalidUntilDone` | tools/repo_index.py:396-433 | a first publish that stops early never reads READY, because the state file comes last |
| `PublishSafety.ServedIsRebuilt` | tools/repo_index.py:867-879 | whatever is served is the full rebuild of the disk, on the READY path and after a refresh |
| `PublishSafety.ServesExactly` | tools/repo_index.py:867-879 | nothing is served exactly if the probe is not READY and the refresh is rejected, or is stat-only over an unreadable payload |
| `PublishSafety.NextCallHeals` | tools/repo_index.py:766-879 | after such a stat-only refresh the next call rebuilds, and serves exactly if the rebuild is accepted |
| `PublishSafety.RunsServeTheRebuild` | tools/repo_index.py:867-879 | over any run of edits and refreshes: whatever is served after it is the full rebuild of the disk as it is then |
| `IndexLock.NoStealNoHarm` | tools/repo_index.py:193-217 | over every interleaving, crashes included, at most one process holds the lock as long as no stale removal hits a live holder |
| `IndexLock.StealBreaksExclusion` | tools/repo_index.py:193-217 | and every removal of a live lock lets its remover in beside the holder |
| `IndexLock.MutualExclusion` | tools/repo_index.py:193-217 | over every interleaving of any number of processes without crash and without a hold beyond the staleness limit, at most one is inside |
| `IndexLock.GivesUpExactly` | tools/repo_index.py:193-212 | whatever happens meanwhile, a waiting process removes the directory exactly if it read an age above two minutes, and else gives up exactly if it began more than ten seconds ago |
| `IndexLock.CrashedHolderBreaksExclusion` | tools/repo_index.py:202-211 | after a crash two observers of the stale directory can both enter: a concrete run |
| `GraphQueries.BuildMaps` | tools/repo_index.py:282-307 | the loops fill the specified maps |
| `GraphQueries.MapsAnswerAsLinear` | tools/repo_index.py:310-344 | with unique qualified names every query kind and name gets the answer of the linear query, order included |
| `GraphQueries.MapsNeedUniqueNames` | tools/repo_index.py:282-344 | symbol queries agree for all names exactly if qualified names are unique |
| `GraphQueries.ClashingNameIsAnsweredOnce` | tools/repo_index.py:282-344 | of two rows with one qualified name the linear query finds both, the maps one |
| `GraphQueries.ClashingNameExample` | tools/repo_index.py:282-344 | the same for two concrete rows |
| `GraphQueries.SortRowsKeys` | tools/repo_graph.py:1102-1109 | sorting rows by key sorts the keys and keeps the rows |
| `QueryAnswers.QueriesAnswer` | tools/repo_graph.py:1088-1199 | every query answers from the graph: the record of that name, the symbol of that qualified name else all of that name, the files and modules of an owner, the tests of a module, else of symbols, else of a file; all of them, in order, and nothing for unknown names |
| `QueryAnswers.MapsExactly` | tools/repo_index.py:282-307 | the maps hold every symbol, and group symbols by name, file and module and tests by module, each group in order |
| `GraphValidator.CheckUnique` | tools/validate_repo_graph.py:84-96 | the repeated identifiers of a list, none exactly if it has no duplicates |
| `GraphValidator.ValidateGraph` | tools/validate_repo_graph.py:60-248 | reports exactly the referential problems of a document |
| `ReportedProblems.ReportedExactly` | tools/validate_repo_graph.py:60-248 | over the document of any graph each problem is reported exactly if it is one, stated over the maps: unknown modules, files, symbols, callees, callers and targets, a callee that does not list its caller, disagreeing files, modules and languages, kinds and sources of edges |
| `ReportedProblems.DuplicatesReportedExactly` | tools/validate_repo_graph.py:84-96 | over any document a key is reported as repeated exactly if two rows have it |
| `GraphSoundness.BuildIsSound` | tools/repo_graph.py:630-1062 | every reference of a built graph leads somewhere, files lie under their modules, file lists agree, calls mirror callers |
| `GraphSoundness.CleanExactly` | tools/validate_repo_graph.py:60-248 | nothing is reported about the document of a graph exactly if the graph is referentially sound |
| `GraphSoundness.SoundGraphPasses` | tools/validate_repo_graph.py:60-248 | a sound graph's document has none of the problems |
| `GraphSoundness.BuiltGraphPasses` | tools/validate_repo_graph.py:60-248 | validation reports nothing about a built graph exactly if its declared dependencies name modules and carry sources |
| `FailureRecovery.DominantIsFirstLeast` | tools/failure_intel.py:2396-2398 | the winner has the least rank in the priority list and is the first with it |
| `FailureRecovery.ExecutedIsOneRound` | tools/failure_intel.py:2143-2217 | whatever executors report and however many attempts are allowed, at most two run, the second only to escalate a stale state; RECOVERED exactly if the last one verified it |
| `FailureRecovery.RecoverIsBounded` | tools/failure_intel.py:2220-2320 | one call: at most two executors, none for a fingerprint the chain has seen, RECOVERED exactly for a success input or a verified run |
| `FailureRecovery.SessionIsBounded` | tools/failure_intel.py:2220-2444 | over any sequence of calls on one chain each (command, category) gets at most one non-escalating executor, any category but STALE_STATE one in all, and all executor runs together are at most twice the distinct fingerprints |
| `FailureRecovery.ActedOnOnce` | tools/failure_intel.py:1785-1787 | a fingerprint recorded by any call is never acted on by a later call |
| `FailureRecovery.DiagnosisIsDominant` | tools/failure_intel.py:2362-2435 | a diagnosed aggregate is judged by a decision of dominant rank and records nothing |
| `FailureRecovery.DiagnosisNeverRecovers` | tools/failure_intel.py:2220-2435 | without apply nothing is executed, recorded steps stay, and only a success input is RECOVERED |
| `FailureRecovery.RecoveredHidesNothingWorse` | tools/failure_intel.py:2362-2444 | an aggregate that ends RECOVERED holds no command whose own decision is code, environment, blocked or stopped |
| `FailureRecovery.RecoveredCoversExactly` | tools/failure_intel.py:2143-2444 | it has run every failed command again exactly if: after a retry, each is the command of a fresh transient failure; after an escalation, the escalated scope holds them; after a refresh, the caller named them, or all are the winner's |
| `FailureRecovery.UnretriedFailureExample` | tools/failure_intel.py:2409-2416 | a transient failure and a missing target: one successful retry ends RECOVERED, and the second command is not run again |
| `RecoveryChains.RecoveryChain.Record` | tools/failure_intel.py:1760-1783 | appends one numbered step |
| `RecoveryChains.RecoveryChain.ExecuteAction` | tools/failure_intel.py:2143-2217 | the bounded loop computes the specified steps and decision |
| `RecoveryChains.RecoveryChain.Recover` | tools/failure_intel.py:2220-2320 | the call's new chain and decision, bounded, with RECOVERED exactly when verified |
| `RecoveryChains.RecoveryChain.RecoverValidation` | tools/failure_intel.py:2362-2444 | the aggregate case: diagnose all, act on the dominant failure |
| `RecoveryChains.RecoveryChain.Diagnose` | tools/failure_intel.py:2377-2398 | the loop finds the first decision of dominant rank |
| `ImportClosure.Sweep` | tools/validate_scope.py:701-710 | one pass adds only modules that every closed superset holds, and reports no change exactly if none was added |
| `ImportClosure.Reach` | tools/validate_scope.py:701-710 | the loop terminates with the least set that holds the seeds and is closed under imports |
| `ImportClosure.ClosureIsReachability` | tools/validate_scope.py:684-714 | the closure holds exactly the modules that a chain of imports reaches from a seed |
| `ImportClosure.TransitiveClosure` | tools/validate_scope.py:684-714 | the relevant files are exactly the existing ones among the roots and the files of modules that a chain of imports reaches from a module that holds a root: the last one that lists it, or the one with the longest path around it |
| `CacheKey.TreeLinesPinTexts` | tools/validate_scope.py:738-753 | two tree digests rest on equal lines exactly if they list the same files with the same contents |
| `CacheKey.PinLinesPin` | tools/validate_scope.py:756-767 | the lines of the files digest are equal exactly if pins and pinned contents are |
| `CacheKey.MaterialPinsContents` | tools/validate_scope.py:756-779 | key material of a command is equal at two states exactly if tools, pinned files, canonical documents and script are |
| `ResultCache.SessionIsBacked` | tools/validate_scope.py:826-857 | every entry is replayable and what some earlier run of its material gave |
| `ResultCache.CacheIsTransparent` | tools/validate_scope.py:890-1010 | over any run of requests, purges and edits every request gets what running it uncached would give, whatever keys collide |
| `ResultCache.FailuresAreNeverReplayed` | tools/validate_scope.py:809-986 | over any run: a runner error, or a report without a return code that was not skipped, leaves the cache as it is, and is TIMEOUT exactly if its note names one, else ENV_FAIL; every stored entry tells of a run that was unverified, skipped or returned a code |
| `ResultCache.AnswersTellOfRuns` | tools/validate_scope.py:890-1010 | over any run every answer tells what its own run reported, or an earlier run of the same material that gave an answer; PASS rests on return code 0, FAIL on another one |
| `ResultCache.AnswersAreReplayed` | tools/validate_scope.py:809-857 | a run that gave an answer is stored, and the next request of its material gets that answer |
| `ResultCache.ReplayedTailIsTheEnd` | tools/validate_scope.py:826-857 | a replayed tail is the last 2000 characters of the output |
| `ResultCache.LowerExactly` | tools/validate_scope.py:974 | lower case changes exactly the 26 capital letters, each into its small one |
| `Strings.WithinExactly` | tools/validate_scope.py:974 | a text holds a part exactly if it is the part with something before and something after |
| `ResultCache.TransparentExactlyIfPinned` | tools/validate_scope.py:890-1010 | over all edits of the tree the cache answers a command as running it would, exactly if what the command does depends on nothing but the files its key pins |
| `ResultCache.UnpinnedEditIsReplayedWrongly` | tools/validate_scope.py:756-779 | with any hash that meets the assumptions on keys: an edit of a configuration file that the key does not pin is answered PASS where running would FAIL |
| `ResultCache.UnpinnedEditExample` | tools/validate_scope.py:756-779 | the same with a concrete such hash, so the outcome depends on an unpinned file |
| `ResultCache.EditedPinIsRunAgain` | tools/validate_scope.py:756-823 | a command is run again while some file it pins differs from every earlier run |
| `ResultCache.ValidationCache.Store` | tools/validate_scope.py:826-857 | stores replayable outcomes only |
| `ResultCache.ValidationCache.Run` | tools/validate_scope.py:890-1010 | answers from the cache or runs and stores, with the uncached verdict |
| `ResultCache.ValidationCache.Purge` | tools/validate_scope.py:786-806 | drops all entries and tells how many |
| `CommandPruning.CountLibs` | tools/validate_scope.py:573-578 | library runs counted per package |
| `CommandPruning.Prune` | tools/validate_scope.py:580-600 | the loop computes the pruned list; distinct commands stay distinct |
| `CommandPruning.LibrariesRunOnce` | tools/validate_scope.py:573-600 | after pruning the library tests of each package run once if at all |
| `CommandPruning.PruningKeepsOrder` | tools/validate_scope.py:566-600 | pruning keeps the order, keeps every command that is neither redundant nor a repeated library run, and keeps nothing redundant |
| `CommandPruning.PruningIsExact` | tools/validate_scope.py:566-600 | no test is lost if every dropped file is run whole by an unfiltered command, which for a directory includes that pytest collects the file by its name; and only then as long as some test name is selected by no filter |
| `CommandPruning.UnbackedLosesTest` | tools/validate_scope.py:566-600 | a dropped file that no unfiltered command runs whole loses every test whose name no filter selects |
| `CommandPruning.PruningLosesNoTests` | tools/validate_scope.py:566-600 | with pytest commands of the assembled shape, no test is lost exactly if every dropped file is one that pytest collects by its name, or is named by another command |
| `CommandPruning.UncollectedFileLosesTests` | tools/validate_scope.py:552-590 | a dropped `helpers.py` with a test function, inside a directory that is run: its test is lost |
| `CommandPruning.PythonTestsStay` | tools/validate_scope.py:566-600 | pruning never adds Python tests, and keeps them if dropped files are backed |
| `CommandPruning.FilteredPartitionLosesTests` | tools/validate_scope.py:568-590 | a filtered partition drops a file it does not run whole: a concrete list that loses test `y` |
| `Fingerprint.TimesPrimeInjective` | crates/vayren-shell/build.rs:7-14 | wrapping multiplication by the prime is injective |
| `Fingerprint.RoundInjectiveInState` | crates/vayren-shell/build.rs:7-14 | one round is injective in the state |
| `Fingerprint.RoundInjectiveInByte` | crates/vayren-shell/build.rs:7-14 | one round is injective in the byte |
| `Fingerprint.Fnv1a` | crates/vayren-shell/build.rs:7-14 | the loop computes the fold of rounds |
| `Fingerprint.KnownValue` | crates/vayren-shell/build.rs:3-21 | the hash of "a" is the published value of 64-bit FNV-1a |
| `Fingerprint.FnvInjectiveInState` | crates/vayren-shell/build.rs:7-14 | over a fixed suffix the hash is injective in its start state |
| `Fingerprint.OneByteChangesFnv` | crates/vayren-shell/build.rs:7-14 | streams that differ in one byte hash differently |
| `Fingerprint.ContentHash` | crates/vayren-shell/build.rs:20-29 | the hash of all paths and contents with separators, none as soon as an input is unreadable |
| `Fingerprint.OneByteChangesPrint` | crates/vayren-shell/build.rs:20-29 | any change of one byte in one input changes the fingerprint |
| `Fingerprint.StreamReadsBack` | crates/vayren-shell/build.rs:20-29 | without zero bytes two lists of inputs are hashed as the same bytes exactly if they are the same files with the same contents in the same order |
| `Fingerprint.ZeroByteExample` | crates/vayren-shell/build.rs:20-29 | with a zero byte in a file, one file and two files have one fingerprint |
| `Fingerprint.DecimalInjective` | crates/vayren-shell/build.rs:38-45 | the recorded text determines the number |
| `Fingerprint.Output.UpToDate` | crates/vayren-shell/build.rs:38-46 | yes exactly if the output exists and the sidecar holds the fingerprint of readable inputs |
| `Fingerprint.Output.Compile` | crates/vayren-shell/build.rs:48-52 | the sidecar records the fingerprint of readable inputs if it can be written, and stays otherwise |
| `Fingerprint.YesMeansLastCompiled` | crates/vayren-shell/build.rs:35-52 | over any sequence of compilations, some unreadable and some with a failed sidecar write, every yes is for the inputs last compiled exactly if nothing was recorded or they have the fingerprint last recorded |
| `Fingerprint.RecordedCompileIsRemembered` | crates/vayren-shell/build.rs:35-52 | after a recorded compilation, with readable inputs and a sidecar that was written, the answer is yes exactly for their fingerprint, never after a one-byte change |
| `Fingerprint.UnrecordedCompileGoesUnnoticed` | crates/vayren-shell/build.rs:35-52 | after a compilation with an unreadable input or a failed sidecar write the answer for the earlier inputs is still yes, although the output was compiled from other bytes |
| `Fingerprint.UnreadableCompileExample` | crates/vayren-shell/build.rs:35-52 | an unreadable input in three concrete steps |
| `Fingerprint.UnsavedCompileExample` | crates/vayren-shell/build.rs:35-52 | a failed sidecar write in three concrete steps |
| `Fingerprint.CompileThenAsk` | crates/vayren-shell/build.rs:38-52 | after a recorded compile the answer is yes exactly if the fingerprints agree; after an unrecorded one it is that of the compilations before |
| `LabInbox.EveryCommandIsSomewhere` | src/app/headless.py:1218-1283 | over every interleaving each command that arrived is in exactly one place, once: handled, inbox, parked or dropped |
| `LabInbox.ParkedCommandsReturnInOrder` | src/app/headless.py:1248-1283 | parked commands are the newest 200 in parking order, and all are back in the inbox in that order when the loop resumes; the counter counts the dropped |
| `LabInbox.FlagsExactly` | src/app/headless.py:1248-1268 | over every interleaving the cancel flag is up exactly if a run took a cancel line and neither ended nor was followed by another, and the finished flag exactly if the worker of the last run is done; no run starts out canceled |
| `InboxOrder.RequeueKeepsArrivalOrder` | src/app/headless.py:1280-1283 | over every run in order so far: arrival order survives re-queueing exactly if nothing was parked, or no command was waiting when the pump stopped and none was read before the last parked one was back |
| `InboxOrder.CommandReadMeanwhileOvertakes` | src/app/headless.py:1280-1283 | a concrete run in which a command read between two re-queueings ends up between two older ones |
| `RouteMatching.CandidateScores` | tools/patch_surface.py:95-116 | the loop lists all matching routes with their scores in file order |
| `RouteMatching.MatchRoute` | tools/route.py:34-63 | the first route with that key; where no key fits, the first with that alias; where none fits either, the first with the longest alias that holds the text or lies in it; none exactly if nothing touches; and the rule it matched by |
| `RouteMatching.DetectAmbiguity` | tools/patch_surface.py:119-129 | either nothing, because the top routes have one owner, or all routes tied at the top under two owners at least |
| `RouteMatching.TiedExactly` | tools/patch_surface.py:119-129 | the routes tied at the top are exactly those that fit as well as the winner: by key, by alias, or by a touching alias of the same length |
| `RouteMatching.AmbiguityHoldsTheWinner` | tools/patch_surface.py:119-129 | a reported ambiguity holds the route the matcher picks |
| `UnresolvedFindings.UnresolvedNotes.Note` | tools/repo_graph.py:190-194 | the first findings are kept, the rest counted |
| `UnresolvedFindings.UnresolvedNotes.Record` | tools/repo_graph.py:204-217 | the published list, with the marker exactly if something was cut |
| `UnresolvedFindings.BelowTheCapNothingIsHidden` | tools/repo_graph.py:182-217 | published lists agree exactly as far as the cap shows the findings |
| `Ordering.SortIsSorted` | tools/repo_graph.py:510-520 | sorting a list without duplicates is the sorted listing of its elements |

## Left out

- GraphBuilder.AddSymbols: reports an error for clashing qualified names, where the source appends both symbols.
- GraphBuilder.BuildGraph: returns that error instead of the graph with both symbols; only `validate_graph`, run before anything is published, rejects that graph.
- IndexPatcher.PatchIncremental: returns the same error, where the source returns a patched graph with both symbols, which validation rejects before publishing.
- Parsing of Python, Rust and Slint text, regular expressions, git, subprocesses, pickle, JSON and files: arbitrary functions or parameters.
- File suffixes, test detection, the sibling candidates of a test, dotted bases and item bases of files, module bases, exclusion and validator scripts: arbitrary functions of the path or module.
- Python files with a colon in their path: dotted bases hold none.
- A sidecar write that truncates the file and then fails: a write happens whole or not at all.
- What an escalated validation runs: an arbitrary set of commands.
- Ownership rules, declared dependencies, contracts and routes of a module: loaded from the canonical documents by an arbitrary function.
- Unreadable files: every listed file can be read, so the `file-unreadable` findings do not occur.
- Order and repetition inside `unresolved`: findings are counted per kind, reference and reason; above the cap the parse findings bypass the recorder, so the index theorems hold below it.
- Records shared between the old and the patched graph: the patch works on values, aliasing of Python dictionaries is not captured.
- Fields of the graph that no modelled step reads, such as the repository name and the schema version.
- Validator scripts are taken from the indexed files; the build lists them from the tools directory.
- Validation against the disk, the symbol lines, the canonical documents and the enumerations of languages, owner sources and retention states; those checks are one arbitrary predicate in `Refresh`.
- The order of validation errors: they are a set.
- References of the graph to domains and owners, which validation compares with the lists of those entities: owners are records here.
- A crash during publish followed by further edits, and the return to READY after a crash just before the state file is written: the code does not promise them.
- The directory removal of a stale lock is one step; the wall clock of the lock never runs backwards.
- Failure classification: category, subtype, ownership and fingerprint are arbitrary.
- The `reason`, `diagnostic`, `replacement` and timing texts of a decision; the retryable and escalation marks written back into a record repeat the decision's own fields.
- The model ranks levels L0 to L5; what an executor does at its level is not modelled.
- What a test command runs is stated by `CommandPruning.Runs`: a file, or the files under a directory that pytest collects by its default name patterns; tests of a crate, those of its library alone with `--lib`; filtered by name.
- Lower case is ASCII in `ResultCache` and an arbitrary function in `RouteMatching`, which takes the normalised request.
- The relevant files of a cached command other than a pytest target are an arbitrary function of the command and the tree.
- Two processes that run the same command at once, and trees that move during one run.
- The inbox: end of input, and the parsing of a parked command when it is read again.
- The pump and the re-queueing loop of the inbox are steps rather than loops, because reader, worker and main loop interleave between any two of them.
- The boundary commands that are added when a change has no test command at all.
- The backtest bridges, broker, authentication, live service and user interface: they wrap code that is not part of this model.
