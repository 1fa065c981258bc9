# BenchBox gate and protocol models

BenchBox keeps its release gates in a handful of scripts: a selector that decides which tests a
change can affect, a pruner that deletes merged branches, a crash-safe record of a batch start, an
ownership resolver, a comment-policy ratchet, a Makefile reader, a corpus ranking check and a pytest
argument rewriter. This Dafny project models those scripts and proves what they are relied on for.

| module | models |
|---|---|
| `ImportClosure`, `DependencyMap`, `Selection`, `SelectorSoundness` | `scripts/canary_impact.py` |
| `GitRefs`, `BranchPrune`, `PrunePlan` | `scripts/branch_prune_merged.py` |
| `BatchRecord`, `DeliveryReceipt` | `scripts/batch_integration.py` |
| `ConsumerEdges`, `Ownership`, `OwnershipRun` | `scripts/check_comment_cleanup_scope.py` |
| `PolicyFindings`, `PolicyExceptions`, `PolicyBudgetLaws`, `PolicyDates`, `PolicyOrder`, `PolicyReorder`, `PolicyRatchet`, `PolicyGate` | `scripts/check_comment_policy.py` |
| `MakeSyntax`, `MakeSources`, `MakeInventory` | `make/check_makefile_inventory.py` |
| `Timings`, `Ranking` | `results-data/validate_corpus.py` |
| `XdistArgs` | `_benchbox_pytest_xdist_safety.py` |
| `Wrappers`, `RepoPaths` | shared datatypes, string and path functions |

`dafny verify dfyconfig.toml` checks everything.

Code that updates objects step by step is a class with methods (`AnalysisCache`, `Git`, `Worktree`,
`CycleSearch`, `Resolution`, `Reader`) or a method over an array, each proved against a
specification function; the laws are lemmas about those functions. Where the scripts iterate over a
Python set or a dictionary, the model takes the elements in any order.

## What the proofs say about the scripts

* The selector's promise "may over-select but must never under-select silently" holds for every
  change that deletes no file, as long as the change list names every path that differs and the
  analysis of a file depends on its path and text alone. Each condition can fail:
  - a deleted conftest, plugin or package initialiser is not in the tree the selector looks at, so it
    cannot select the tests that used to load it. `SelectorSoundness.NoSilentUnderSelection` gives
    the exact condition, on names looked up in the old tree, and
    `SelectorSoundness.DeletedConftestIsMissed` a concrete tree;
  - the selector's own change list (`scripts/canary_impact.py:1419-1425`) lists a renamed file by its
    new path only, so it does not name the old path, which differs as well;
  - the import resolution also asks which files and directories exist
    (`scripts/canary_impact.py:342-358`), so an added directory can change the dependencies of a file
    that did not change.
* The batch record is crash-atomic for a set of batch ids if and only if the set does not mix blank
  and non-blank ids (`BatchRecord.CrashAtomicIffIdsNotMixed`); `record_start` does not reject blank
  ids, and its overwrite guard cannot see one.
* The branch pruner is safe under every interleaving with other processes: it only ever removes a
  ref that holds the proven merged head, and only ever re-creates the head it removed itself.
* External exclusions cannot widen, but their number can grow: one removed wheel justifies any
  number of new wheels of its class. It can grow if and only if the baseline has a wheel
  (`PolicyRatchet.CanGrowIff`).
* A transition run scans changed, completed and revoked files only, on both sides on one day.
  Nevertheless, along chains of passing runs that start under a blocking policy, no finding becomes
  more frequent anywhere in the tree (`PolicyGate.FindingsNeverRise`), if nothing happens between
  the runs: `PolicyGate.GapDoesNotRaiseIff` says exactly what. An expired directive exception is the
  main case: both sides of the next run see it lapsed (`PolicyDates.LaterReportsNoMoreIff`). Within a
  run the order of the exceptions matters, because budgets are spent first come, first served: for
  the files that are not scanned, as much budget for any payload must come before each fixture entry
  as before the change. `PolicyGate.FindingsDoNotRiseIff` proves that a passing run cannot raise a
  count if and only if this holds. Completed scopes stay clean without any of these conditions
  (`PolicyGate.CompletedStaysClean`). While the baseline policy is
  advisory a run may pass with introduced findings.
* External prefixes may overlap when the longer one is listed first; that order is what makes the
  first matching prefix the most specific one (`Ownership.FirstMatchIsMostSpecific`).
* A measurement row with status `PASS` or `pass`, and no other row, has a passing status and counts as a
  failed query, so it keeps a bundle from being ranked (`Ranking.PassCountsAsFailed`).
* Selection is monotone in the changed paths but not in the dependency map
  (`SelectorSoundness.MappingAPathCanDeselect`). A larger map keeps what is selected if and only if it
  does not turn a whole-suite run off (`SelectorSoundness.LargerMapKeepsSelectionIff`).

## Model

| member | source | states |
|---|---|---|
| ImportClosure.ClosureIsLeast | scripts/canary_impact.py:1105-1128 | the closure contains the seeds, is closed under the dependencies of its `.py` members, and lies inside every other such set |
| ImportClosure.ClosureAgrees | scripts/canary_impact.py:1105-1128 | two trees that analyse every member of one tree's closure alike have the same closure |
| ImportClosure.AnalysisCache.Lookup | scripts/canary_impact.py:1117-1120 | a lookup returns what a fresh analysis would, analyses the file only if it was not cached, and keeps the cache exact |
| ImportClosure.AnalysisCache.ExpandClosure | scripts/canary_impact.py:1105-1128 | the worklist ends for every finite tree with the least closed set, reports exactly its dynamic `.py` members with their kinds, adds exactly its `.py` members to the cache, and keeps every entry fresh and no file analysed twice |
| ImportClosure.PushNew | scripts/canary_impact.py:1123-1127 | every unseen dependency is added, and exactly the unseen `.py` ones are pushed |
| DependencyMap.ConftestChain | scripts/canary_impact.py:1088-1102 | the chain is the conftest of the test's directory and of every directory above it, `tests/conftest.py` left out |
| DependencyMap.ChainIs | scripts/canary_impact.py:1088-1102 | a file is in the chain if and only if it is the existing conftest of the directory or one above it, and not `tests/conftest.py` |
| DependencyMap.SeedSharedPlugins | scripts/canary_impact.py:1200-1205 | the shared seeds are the conftest and every plugin file with its package initialisers, or the first plugin that cannot be resolved is reported |
| DependencyMap.BuildSharedDeps | scripts/canary_impact.py:1193-1213 | the shared fixtures are the closure of the shared seeds; otherwise the fallback names its reason, and dynamic kinds of the seeds, and only of the seeds, are one |
| DependencyMap.AddConftest | scripts/canary_impact.py:1231-1248 | one chain conftest adds itself, its dependencies, its plugins with their initialisers, and a dynamic kind for each thing in it that cannot be resolved |
| DependencyMap.BuildRecord | scripts/canary_impact.py:1223-1268 | a test's record is the closure of its own and its chain's seeds, its package initialisers unexpanded, and the shared fixtures, with exactly the dynamic kinds of its own code, its chain and its test-specific library imports |
| DependencyMap.BuildDependencyMap | scripts/canary_impact.py:1216-1269 | the map has the record of every test file, or the fallback; one cache serves the run, and exactly the Python files of the shared closure, the test files and the Python files of their closures are analysed, none twice |
| Selection.GroupNodes | scripts/canary_impact.py:1340-1342 | every node is grouped under its file and no node is lost or invented |
| Selection.Classify | scripts/canary_impact.py:1351-1364 | the unmapped paths are those that no test refers to and the reviewed list does not name; the others, less the ignored ones, are the effective paths |
| Selection.ReasonsFor | scripts/canary_impact.py:1378-1398 | the reasons of a test are exactly: it changed itself, a changed path covers a dependency, a changed non-Python file sits beside one, or it is dynamic |
| Selection.ComputeSelection | scripts/canary_impact.py:1327-1416 | the selected nodes, their reasons, the whole-suite flag and the unmapped paths are exactly the specified ones, for every input |
| SelectorSoundness.TouchedIffSelected | scripts/canary_impact.py:1375-1398 | without a whole-suite run a node is selected if and only if a changed path touches its test file or recorded dependencies, or the test is dynamic and some path is effective |
| SelectorSoundness.UnselectedFootprint | scripts/canary_impact.py:43-56 | a test left out has the same file, the same files under everything its dependencies cover, and the same non-Python files beside its package modules, on both trees; a dynamic test is left out only when no path is effective |
| SelectorSoundness.SeedsAgree | scripts/canary_impact.py:1231-1248 | when the change keeps the conftest files the old tree loads for a test and their plugins, and leaves the new seeds alone, chain, seeds and chain kinds are the same on both trees |
| SelectorSoundness.SharedAgrees | scripts/canary_impact.py:1193-1213 | when the change keeps the plugins the old shared conftest names, and leaves the new shared fixtures alone, these are the same on both trees |
| SelectorSoundness.RecordUnchangedIff | scripts/canary_impact.py:1216-1269 | the old tree can be mapped and has the same record for a test whose new footprint is untouched, if and only if the change keeps everything the old tree looks up by name: its conftest chain, their plugins and those of the shared conftest with initialisers, and its own initialisers |
| SelectorSoundness.SharedStillOk | scripts/canary_impact.py:1180-1213 | a change that keeps the shared plugins and leaves the new fixtures alone cannot have repaired broken fixtures |
| SelectorSoundness.NoSilentUnderSelection | scripts/canary_impact.py:43-56 | end to end: a test left out sees the same file, footprint and neighbours on both trees, and the old tree can be mapped with the same record exactly when the lookups by name are kept |
| SelectorSoundness.NoDeletionNoUnderSelection | scripts/canary_impact.py:43-56 | for a change that deletes no file, the old tree can be mapped and has the same record for a test left out |
| SelectorSoundness.OutcomeUnchanged | scripts/canary_impact.py:43-56 | any outcome that depends only on the test's file and footprint is the same before and after the change |
| SelectorSoundness.DeletedConftestIsMissed | scripts/canary_impact.py:1088-1102 | a concrete counterexample under `tests/`: deleting the conftest of a directory selects the test that names its path and leaves out the test beside it that loaded it |
| SelectorSoundness.SelectionIsAdditive | scripts/canary_impact.py:1327-1398 | two change sets together select exactly what they select separately, through whole-suite triggers, unmapped and ignored paths and dynamic tests |
| SelectorSoundness.SelectionIsMonotone | scripts/canary_impact.py:1327-1398 | more changed paths never deselect a node |
| SelectorSoundness.MappingAPathCanDeselect | scripts/canary_impact.py:1350-1367 | for any path, mapping it to one test can turn the unmapped-path fallback off and deselect another |
| SelectorSoundness.WholeSuiteShrinks | scripts/canary_impact.py:1350-1367 | a larger map has no more unmapped paths and never starts a whole-suite run |
| SelectorSoundness.LargerMapKeepsSelectionIff | scripts/canary_impact.py:1350-1402 | a map with more tests, dependencies and kinds keeps every selected node selected, for all lists of nodes, if and only if it does not turn a whole-suite run off |
| SelectorSoundness.LargerMapKeepsMappedIff | scripts/canary_impact.py:1350-1402 | for the nodes of the tests of the smaller map it does so if and only if, when a whole-suite run is turned off, every such test is touched by some change |
| SelectorSoundness.RunSelector | scripts/canary_impact.py:1517-1535 | the pipeline selects every node when the map cannot be built or the whole suite runs; every other node it leaves out satisfies the premise of the soundness theorem |
| GitRefs.Git.UpdateRefDelete | scripts/branch_prune_merged.py:346-350 | deletion is a compare-and-swap: it removes the ref only from the expected value, whatever other processes did before it, and a non-zero exit changed nothing |
| GitRefs.Git.UpdateRefCreate | scripts/branch_prune_merged.py:363-364 | re-creation is a compare-and-swap against a missing ref |
| BranchPrune.DeleteBranch | scripts/branch_prune_merged.py:346-377 | True only if the ref was removed from the merged head and the next worktree list shows the branch free; False only if nothing was removed or the ref was put back or seen at that head again; otherwise it raises after a command that could not run or a ref seen off that head |
| BranchPrune.PruneOne | scripts/branch_prune_merged.py:403-425 | a deletion is attempted only right after one snapshot showed the ref at the merged head and one showed no worktree on it; each fate has its evidence |
| BranchPrune.PruneCandidates | scripts/branch_prune_merged.py:401-427 | the commands run are those of the candidates in order, and the printed counters are the numbers of each fate |
| BranchPrune.OnlyProvenHeadsChange | scripts/branch_prune_merged.py:346-377 | over a whole run, against any adversary, every change the prune makes is the checked removal of a candidate's ref at its merged head or the re-creation of that head two commands after its own removal; worktrees never change |
| BranchPrune.DeletedStaysUntouched | scripts/branch_prune_merged.py:403-425 | once a candidate is dealt with, no later command of the run changes or re-creates its ref, even if another process has brought the branch back |
| BranchPrune.FatesAddUp | scripts/branch_prune_merged.py:401-427 | deleted, kept and failed add up to the number of candidates |
| PrunePlan.TimelineHead | scripts/branch_prune_merged.py:212-227 | the scan returns h if and only if the first merge event carries the expected commit and h, not empty, is the last head reported before it |
| PrunePlan.GetHistoricalHead | scripts/branch_prune_merged.py:192-243 | h is returned if and only if the timeline and the commit list both prove it |
| PrunePlan.ProvenHeadIsUnique | scripts/branch_prune_merged.py:192-243 | at most one head can be proven |
| PrunePlan.LatestPr | scripts/branch_prune_merged.py:265-267 | the first pull request with the highest number, none if none is numbered |
| PrunePlan.LatestIsUnique | scripts/branch_prune_merged.py:265-267 | the latest pull request is unique |
| PrunePlan.Judge | scripts/branch_prune_merged.py:288-341 | a branch is proposed only with all the evidence, and kept exactly when it has a pull request but not the evidence |
| PrunePlan.ProvenIsUnique | scripts/branch_prune_merged.py:270-343 | a branch has at most one proven candidate |
| PrunePlan.JudgeAll | scripts/branch_prune_merged.py:281-343 | one candidate for each considered branch whose head is proven, no other, and the count of the kept ones |
| PrunePlan.PlanCandidates | scripts/branch_prune_merged.py:270-343 | planning changes no ref and its candidates are exactly the proven branches of the two snapshots it took |
| PrunePlan.PruneMergedBranches | scripts/branch_prune_merged.py:380-427 | a dry run changes nothing and counts the candidates; a real run only touches proven, unprotected, non-current branches, and its counters are the fates plus the branches kept by the plan |
| BatchRecord.Worktree.RecordStart | scripts/batch_integration.py:81-103 | in a process that dies after any number of writes: refused exactly when an id can be read, else the writes reach the config in order up to that point |
| BatchRecord.Worktree.ResetBatch | scripts/batch_integration.py:106-109 | the seal is deleted first, then the other keys in order, up to the point where the process dies |
| BatchRecord.PutAll | scripts/batch_integration.py:90-95 | a completed start leaves exactly its six values, whatever was there |
| BatchRecord.DropFrame | scripts/batch_integration.py:106-109 | a reset cut off after n deletions removed the first n keys of its order and nothing else |
| BatchRecord.SealedMeansComplete | scripts/batch_integration.py:81-109 | after any history of cut-off starts and resets the config holds all six values of the start in force, or there is no such start and no seal |
| BatchRecord.ReadReturnsTheLiveStart | scripts/batch_integration.py:112-127 | a read returns the five fields of the start in force, or None |
| BatchRecord.LiveIsCompleted | scripts/batch_integration.py:81-127 | the start in force is one accepted, completed start of the history with no effective reset after it |
| BatchRecord.NoMixedReads | scripts/batch_integration.py:112-127 | a read is never a mixture of two starts |
| BatchRecord.CompletedStartStays | scripts/batch_integration.py:81-127 | a completed start is what every read returns until a reset writes, however many starts are refused or cut off meanwhile |
| BatchRecord.ResetThenStart | scripts/batch_integration.py:81-109 | from every config, a completed reset lets a start succeed, the read returns it, and agrees with what `record_start` returned when no field has surrounding blanks |
| BatchRecord.CrashAtomicIffIdsNotMixed | scripts/batch_integration.py:68-88 | every history over a set of ids reads one single start or none, if and only if the set does not contain both a blank and a non-blank id |
| BatchRecord.BlankIdMixes | scripts/batch_integration.py:77-88 | after a completed start with a blank id, a start that dies after its first write is read back as its id with the other start's fields |
| DeliveryReceipt.NormalizeMembers | scripts/batch_integration.py:166-182 | accepts exactly the lists of entries with non-empty id and head and distinct ids, and returns the head of each id |
| DeliveryReceipt.NormalizeDependencies | scripts/batch_integration.py:185-209 | accepts exactly the edge lists with distinct manifested endpoints, evidence, and no repeated pair; returns the edges in order with trimmed evidence |
| DeliveryReceipt.NamesIsUnique | scripts/batch_integration.py:166-182 | a well-formed manifest determines the normalised members |
| DeliveryReceipt.CheckGates | scripts/batch_integration.py:228-265 | passes exactly when every gate passes |
| DeliveryReceipt.IssueReceipt | scripts/batch_integration.py:222-280 | a receipt is issued if and only if a batch is recorded, the manifest is well formed and every gate passes; it repeats what the gates checked, with the history since the base and every member as an ancestor of the head |
| DeliveryReceipt.AcceptanceBindsOneHead | scripts/batch_integration.py:257-280 | two receipts for one acceptance, whatever the batches and repositories, have the same head, integrator, member ids, items and dependencies |
| DeliveryReceipt.ReceiptCertifiesOneStart | scripts/batch_integration.py:222-280 | after any crashing history, a receipt rests on one completed start with no effective reset after it: its members, acceptance items and unmoved base are that start's |
| ConsumerEdges.CycleSearch.Visit | scripts/check_comment_cleanup_scope.py:412-421 | ends for every graph; an error means the edges have a cycle; otherwise the path of open nodes is as before and the node is finished |
| ConsumerEdges.PathGoesBack | scripts/check_comment_cleanup_scope.py:420-421 | a path from a finished node leads to nodes that finished before it |
| ConsumerEdges.PathCloses | scripts/check_comment_cleanup_scope.py:413-414 | an edge from the end of the open path back into it is a cycle |
| ConsumerEdges.FinishedMeansAcyclic | scripts/check_comment_cleanup_scope.py:409-424 | when every producer is finished there is no cycle |
| ConsumerEdges.FindCycle | scripts/check_comment_cleanup_scope.py:409-424 | the search reports a cycle if and only if the edges have one, self-loops included |
| ConsumerEdges.ValidateEdges | scripts/check_comment_cleanup_scope.py:386-424 | the cyclic-edge error is raised if and only if all endpoints are known, no edge repeats, and there is a directed cycle; acceptance if and only if there is none |
| Ownership.RootIffMostSpecific | scripts/check_comment_cleanup_scope.py:965-974 | a root is selected exactly when it matches and its selector is longer than that of every other matching root; none exactly when none matches |
| Ownership.RuleOwnsIffTop | scripts/check_comment_cleanup_scope.py:977-1033 | a rule that alone matches a path at the highest priority owns it; an owned path has such a rule; a path is unruled exactly when no rule matches |
| Ownership.ValidateRulePriorities | scripts/check_comment_cleanup_scope.py:489-501 | accepts exactly when every rule that names a path outranks every derived rule that matches the path |
| Ownership.ExactRulePriority | scripts/check_comment_cleanup_scope.py:977-1033 | a path some rule names exactly collides or gets a priority at least that rule's |
| Ownership.ExactPathsAreProtected | scripts/check_comment_cleanup_scope.py:572-599 | once the priorities are accepted, no derived rule changes the record of an exactly named path, for any rules, imports and rule order |
| Ownership.HighestDerivedRuleWins | scripts/check_comment_cleanup_scope.py:580-599 | applying all derived rules in order, each against the priorities the earlier ones left, gives a file to the first rule of the highest priority alone, and only above the priority of its ownership rule |
| Ownership.CollisionsPersist | scripts/check_comment_cleanup_scope.py:583-590 | a collision record passes derived rules, notices, external entries, pins and formats unchanged, with no owner |
| Ownership.OwnersSurvive | scripts/check_comment_cleanup_scope.py:628-631 | an owner given by the rules is changed by no later overlay, unless the path is a pinned dependency |
| Ownership.OwnedStaysOwned | scripts/check_comment_cleanup_scope.py:772-809 | no overlay takes an owner away |
| Ownership.FormatTakesFirst | scripts/check_comment_cleanup_scope.py:772-792 | running every record through all classes gives it to the first class that fits and to no later one |
| Ownership.OneDeciderWins | scripts/check_comment_cleanup_scope.py:1226-1247 | precedence of the overlays: owner, state and rule of every record come from the pin where it may apply, else from the collision, the notice that agrees or finds no owner, the rules, the first external entry or the first format class, in that order |
| Ownership.ValidatePrefixes | scripts/check_comment_cleanup_scope.py:619-624 | accepts exactly when no later prefix extends an earlier one |
| Ownership.FirstMatchIsMostSpecific | scripts/check_comment_cleanup_scope.py:619-640 | with accepted prefixes, when the entry applied to a path is a prefix every other matching prefix entry is shorter |
| OwnershipRun.Resolution.OwnedPaths | scripts/check_comment_cleanup_scope.py:977-1033 | records, priorities and findings are exactly those of the paths under a root, in order; it fails exactly at a root collision |
| OwnershipRun.Resolution.ApplyDerivedRules | scripts/check_comment_cleanup_scope.py:572-599 | each record goes through the derived rules in order, eligibility being fixed before each rule's updates and package owners before the first rule |
| OwnershipRun.Resolution.ApplyNotices | scripts/check_comment_cleanup_scope.py:795-809 | each record gets the last notice for its path unless it collides or has another owner, and exactly the latter are reported |
| OwnershipRun.Resolution.ApplyExternalEntries | scripts/check_comment_cleanup_scope.py:628-640 | each unowned, uncontested record gets its first matching entry |
| OwnershipRun.Resolution.ApplyFormatClasses | scripts/check_comment_cleanup_scope.py:772-792 | each record goes through the classes in order and takes the first that accepts it |
| OwnershipRun.ResolveOwnership | scripts/check_comment_cleanup_scope.py:1209-1250 | the run fails exactly on a priority, prefix or root error; otherwise records and findings are those of each path put through the whole pipeline |
| OwnershipRun.OwnAllIsFaithful | scripts/check_comment_cleanup_scope.py:977-1033 | every entry is what the rules make of its own path, and no path repeats |
| OwnershipRun.FindingsTellTheTruth | scripts/check_comment_cleanup_scope.py:1226-1250 | an unruled or colliding path is reported at the end if and only if its final record names no owner, and a collision always is |
| PolicyFindings.Introduced | scripts/check_comment_policy.py:260-272 | the result is a subsequence of the findings with every inexcusable one, and of each identity exactly min(baseline count, excusable count) are suppressed |
| PolicyFindings.CountOfPermutation | scripts/check_comment_policy.py:260-272 | the counts of a list of findings do not depend on its order |
| PolicyFindings.SurvivorsIgnoreOrder | scripts/check_comment_policy.py:260-272 | scanning the same findings in another order introduces as many of each identity |
| PolicyFindings.EmptyIffNothingIntroduced | scripts/check_comment_policy.py:260-272 | nothing is reported if and only if every finding is excusable and none is more frequent than in the baseline |
| PolicyExceptions.Absorb | scripts/check_comment_policy.py:144-158 | the first live matching entry with budget left absorbs the finding, and the array of budgets stays what the earlier findings left of the counts |
| PolicyExceptions.Allowed | scripts/check_comment_policy.py:118-158 | shebangs and encoding cookies are decided first, the exceptions only for the rest |
| PolicyExceptions.SpendBudgets | scripts/check_comment_policy.py:250-257 | the reported findings are, in order, those whose fate under one shared budget is neither permitted nor absorbed |
| PolicyExceptions.ScanSources | scripts/check_comment_policy.py:227-257 | the coverage errors of the files that cannot be decoded, then the reported findings of the others; excluded files and files that are no source contribute nothing |
| PolicyExceptions.BudgetsHold | scripts/check_comment_policy.py:144-158 | over any findings no exception absorbs more than its count, and one with the identity of an expired entry absorbs none |
| PolicyExceptions.WhyReported | scripts/check_comment_policy.py:144-158 | every exception that could absorb an unexcused finding had spent its whole budget on earlier ones; an absorbed finding is charged to the first that had not |
| PolicyBudgetLaws.ScanActsFileByFile | scripts/check_comment_policy.py:227-257 | although all scanned files share the budgets, each identity is reported exactly as often as when its file is scanned alone |
| PolicyBudgetLaws.FurtherException | scripts/check_comment_policy.py:144-158 | for any position in the list and any findings, one more exception leaves every other one no more spent and reports no identity more often |
| PolicyBudgetLaws.FewerExceptionsReportMore | scripts/check_comment_policy.py:409-411 | dropping any exceptions, the order of the others kept, reports each identity at least as often |
| PolicyBudgetLaws.ForeignExceptionsDoNotCount | scripts/check_comment_policy.py:145-152 | exceptions for other paths change nothing in what a file reports |
| PolicyBudgetLaws.ReorderingReportsMore | scripts/check_comment_policy.py:144-158 | for any fixture entry and general entry that share a finding, listing the general one first can report a finding that the other order excuses |
| PolicyOrder.SpentInOrder | scripts/check_comment_policy.py:144-158 | the entries for any payload that describe a finding are spent from the front of the list: the first m have spent all that was spent, up to their joint count |
| PolicyOrder.Fares | scripts/check_comment_policy.py:144-158 | how a finding fares depends only on three numbers and one flag: what is spent of the entries for any payload, their joint count, the part of it listed before the fixture entry for its payload, and whether that entry has budget left |
| PolicyReorder.SameReportsInOrder | scripts/check_comment_policy.py:144-158 | two orders of the same exceptions with as much general budget before every live fixture entry report the same findings |
| PolicyReorder.OtherOrderShows | scripts/check_comment_policy.py:144-158 | if the budgets before some fixture entry differ, in either direction, there are findings in its file of which the first order reports one identity more often |
| PolicyReorder.ReorderingReportsNoMoreIff | scripts/check_comment_policy.py:144-158 | another order of the same exceptions reports no identity more often, whatever the findings are, if and only if as much general budget comes before every live fixture entry |
| PolicyDates.SameReports | scripts/check_comment_policy.py:51-56 | between two days on which the same exceptions have lapsed, reports are the same |
| PolicyDates.CopiesReported | scripts/check_comment_policy.py:144-158 | of n equal findings none is reported up to the joint count of the exceptions that can absorb them, and beyond it exactly the surplus |
| PolicyDates.LaterReportsNoMoreIff | scripts/check_comment_policy.py:51-56 | a later day reports no identity more often, whatever the files contain, if and only if no exception lapses in between |
| PolicyRatchet.BumpIffSameClass | scripts/check_comment_policy.py:73-86 | two entries are a bump exactly when both are wheels of one class: directory, owner, provenance and distribution |
| PolicyRatchet.CheckRatchet | scripts/check_comment_policy.py:89-100 | accepts exactly when blocking is not left, completed scopes are kept, and every new external entry replaces wheels of its class that are all gone |
| PolicyRatchet.RatchetTightens | scripts/check_comment_policy.py:89-100 | an accepted policy is no laxer than its baseline |
| PolicyRatchet.PoliciesOnlyTighten | scripts/check_comment_policy.py:89-100 | along any history completed scopes only grow, blocking is never left, non-wheel external entries only shrink, and every wheel has the class of an earlier wheel |
| PolicyRatchet.NoFileInBoth | scripts/check_comment_cleanup_scope.py:66-72 | the load-time overlap test is enough: no file lies both in a completed scope and in an external entry |
| PolicyRatchet.CompletedIsForever | scripts/check_comment_policy.py:89-100 | a file once in a completed scope lies in no external entry of any later policy of the history |
| PolicyRatchet.OneWheelJustifiesMany | scripts/check_comment_policy.py:97-99 | for any baseline, removing the wheels of one class lets any number of new wheels of that class be added, whatever else is kept |
| PolicyRatchet.NoWheelNoGrowth | scripts/check_comment_policy.py:89-100 | without a wheel in the baseline an accepted list without repetitions is no longer than the baseline's |
| PolicyRatchet.CanGrowIff | scripts/check_comment_policy.py:73-100 | some accepted policy has more different external entries than the baseline has entries, if and only if the baseline has a wheel |
| PolicyGate.ExitStatus | scripts/check_comment_policy.py:325-341 | a run passes exactly when it has no failure, or is a report, or is a transition over an advisory baseline without a failure on the policy file |
| PolicyGate.CompareSides | scripts/check_comment_policy.py:418-425 | the candidate side, changed, completed and revoked files under the exceptions both policies have, is compared with the same files of the base under its own exceptions; the result is empty exactly when nothing is introduced |
| PolicyGate.RunTransition | scripts/check_comment_policy.py:366-448 | the status is 2 exactly when a policy does not load, a protected notice changed, the ratchet refuses, there is no source file, or a consumer or provenance file is missing; it is 0 exactly when none of this is so, the changed policy file has no expired exception, and under a blocking baseline nothing is introduced |
| PolicyGate.SidesCounted | scripts/check_comment_policy.py:405-424 | each side counts an identity as often as its file alone does, if the run scans it, plus the expired exceptions of its policy |
| PolicyGate.UnscannedKeepsItsCount | scripts/check_comment_policy.py:382-397 | a source file that the run does not scan is unchanged, excluded on neither side, and reports the same under the kept exceptions as under those of the base |
| PolicyGate.FindingsDoNotRise | scripts/check_comment_policy.py:366-448 | after a passing run under a blocking baseline that keeps the budget before each fixture entry, no identity is more frequent in the whole tree, scanned or not, than before it |
| PolicyGate.FindingsDoNotRiseIff | scripts/check_comment_policy.py:366-448 | a run that can pass under a blocking baseline lets no identity become more frequent, whatever the files contain, if and only if it keeps the budget before each fixture entry for the files it does not scan |
| PolicyGate.CompletedScopesAreClean | scripts/check_comment_policy.py:393-397 | after such a run no file that is not excluded has a finding in a completed scope |
| PolicyGate.GapDoesNotRaiseIff | scripts/check_comment_policy.py:402-424 | between two runs no count rises, whatever the files contain, if and only if no exception lapses and no file becomes a source file or stops being excluded |
| PolicyGate.FindingsNeverRise | scripts/check_comment_policy.py:366-448 | along every chain of passing runs from a blocking policy, with quiet gaps and the budget before each fixture entry kept, no identity is ever more frequent in the whole tree than after an earlier run |
| PolicyGate.CompletedStaysClean | scripts/check_comment_policy.py:366-448 | a scope once completed is clean after every later run of a chain, whatever happens between the runs |
| MakeSyntax.RecipeOpensNothing | make/check_makefile_inventory.py:40-43 | a line that starts with a tab matches none of the define, variable and rule patterns |
| MakeSources.Reader.Visit | make/check_makefile_inventory.py:84-107 | expansion, the stack of open files and the include order are those of the recursive specification; it ends on every finite set of files |
| MakeSources.ExpansionIsSplice | make/check_makefile_inventory.py:84-109 | a successful expansion is the plain recursive splice of the includes, define blocks and recipes left alone |
| MakeSources.SuccessMeansNoRevisit | make/check_makefile_inventory.py:86-88 | below a successful expansion no include chain repeats a file or meets an open one |
| MakeSources.CycleErrorHasChain | make/check_makefile_inventory.py:86-88 | the cycle error names an actual include chain that comes back to an open file |
| MakeSources.OnlyCycles | make/check_makefile_inventory.py:68-90 | when everything the root reaches resolves, a cycle is the only error |
| MakeSources.ExpansionFailsIffCyclic | make/check_makefile_inventory.py:78-109 | expansion fails exactly when the root is missing, an include it reaches does not resolve, or some include chain from it revisits a file; with everything resolved the error is the cycle error; a success is the splice |
| MakeInventory.RecordRule | make/check_makefile_inventory.py:202-203 | the record is filed once for each listed target and nothing else changes |
| MakeInventory.Record | make/check_makefile_inventory.py:155-203 | after each statement every dictionary is the one all statements so far determine |
| MakeInventory.ReadStatement | make/check_makefile_inventory.py:143-204 | the branch taken, the lines consumed and the error are those of the one-statement parser |
| MakeInventory.ReadRecipe | make/check_makefile_inventory.py:181-191 | the recipe is the tab lines up to the first other non-blank line |
| MakeInventory.BuildInventory | make/check_makefile_inventory.py:125-205 | the loop computes the parse, with rules, variables, macros, phony targets and default goal all determined by the statements |
| MakeInventory.ParseLossless | make/check_makefile_inventory.py:137-205 | blank and comment lines are skipped between statements and nowhere else; a define block or variable keeps all its lines and a rule all but its blank ones, up to where the next statement begins |
| MakeInventory.ReparseSame | make/check_makefile_inventory.py:137-205 | parsing those bodies again yields the same statements |
| MakeInventory.InventoryLosesNothing | make/check_makefile_inventory.py:125-205 | for every successful parse, both: nothing else is lost, and parsing the bodies again gives the same statements |
| Timings.DisplayTimings | results-data/validate_corpus.py:215-234 | each query in order of first appearance, with the median of its passing measurements, or of its passing legacy rows when there is no measurement, and the number of samples |
| Timings.DurationsOfGroup | results-data/validate_corpus.py:216-223 | grouping by query loses no sample |
| Timings.SortedIsOrdered | results-data/validate_corpus.py:224 | sorting returns the same numbers in order |
| Timings.MedianIgnoresOrder | results-data/validate_corpus.py:224-232 | the median does not depend on the order in which the executions are recorded |
| Timings.MedianSplits | results-data/validate_corpus.py:228-232 | in the sorted samples the lower half is at or below the median and the upper half at or above it |
| Timings.WarmupsNeverChangeAMedian | results-data/validate_corpus.py:219-223 | adding or removing warmup rows anywhere changes no query's entry |
| Timings.MeasurementsDisplaceLegacyRows | results-data/validate_corpus.py:219-223 | once a query has a passing measurement, legacy rows do not change its entry |
| Timings.CountTimings | results-data/validate_corpus.py:277-285 | the loop counts valid, zero and other medians, and adds the logical queries that are not displayed |
| Timings.CountsAddUp | results-data/validate_corpus.py:277-285 | valid, zero and missing counts sum to max(logical count, displayed queries) |
| Timings.TimingExclusion | results-data/validate_corpus.py:276-298 | the timings are accepted exactly with two valid ones that cover half of the logical count; each of the six refusals has its exact condition on the counts |
| Ranking.QueryTimings | results-data/validate_corpus.py:193-212 | rows of other run types are dropped, and a row passes by the pass statuses, a missing status included and a null one not |
| Ranking.NoFailuresIff | results-data/validate_corpus.py:119-144 | the failed-query count is zero exactly when neither the summary nor any measurement row shows a failure |
| Ranking.PassCountsAsFailed | results-data/validate_corpus.py:119-125 | the status lists differ: a row has a passing status and counts as failed if and only if it is a measurement with status PASS or pass |
| Ranking.BestSkipTotal | results-data/validate_corpus.py:244-256 | the largest positive skip total, none if there is none |
| Ranking.LogicalQueryCount | results-data/validate_corpus.py:244-269 | the count is the one the cascade picks: the largest skip total, the known count, the observed count or the recorded total |
| Ranking.LogicalCountIs | results-data/validate_corpus.py:244-269 | it is the largest skip total if there is one; otherwise a divisor of the recorded total, and without a total the number of named queries |
| Ranking.BelowTotalIff | results-data/validate_corpus.py:257-269 | without skip totals it is below the recorded total exactly when the total is made of several whole runs of the known query set, or of the observed queries with a repeated execution |
| Ranking.RunsDoNotAdd | results-data/validate_corpus.py:257-269 | any number of runs of a complete query set count as one |
| Ranking.TwoValid | results-data/validate_corpus.py:276-298 | two valid entries are two distinct queries with positive finite medians |
| Ranking.ExclusionReason | results-data/validate_corpus.py:368-383 | no reason is given exactly when every gate passes and the valid timings cover half of the logical query count; each gate, too few valid queries, too little coverage and a missing metric have their exact conditions |
| Ranking.BundleRankable | results-data/validate_corpus.py:368-387 | a bundle is rankable if and only if it passes every gate and its valid timings cover half of its logical query count; it then has no failed row and no shortfall, and two distinct queries with positive finite medians |
| XdistArgs.ShowRoundTrip | _benchbox_pytest_xdist_safety.py:36-42 | reading back a printed integer gives the integer |
| XdistArgs.RewriteNumprocessesArgs | _benchbox_pytest_xdist_safety.py:45-81 | only the last worker count is rewritten, in place and in its own form, and only when it has to be; the replaced value is returned |
| XdistArgs.CappedValue | _benchbox_pytest_xdist_safety.py:45-93 | after the rewriting the effective value is exactly the cap if it had to be capped, else the old one |
| XdistArgs.CapHolds | _benchbox_pytest_xdist_safety.py:45-93 | for every argument list the effective value is absent or an integer at most the cap, one position at most changed, the length is kept, and a second call changes nothing |

## Left out

- The syntactic analysis of one Python file (AST visitors, path and import resolution) is a function of its path and text. In the scripts import resolution also looks at which files exist, so a change that creates or removes a module another file's import could resolve to is only covered as far as the analysis reports it.
- Path normalisation, symbolic links, case-insensitive file systems and files that cannot be read: a tree is a map from relative paths to text. `is_file` is membership.
- The texts of reasons, fallbacks, findings and refusals, their sort order, and the `dynamic_library_sites` report. Reasons and dynamic kinds are sets.
- Collecting node ids from pytest, reading changed paths from git or the environment, the product-code filter of the selector, and running the selected tests.
- GitRefs: git objects, reflogs, packed refs and locking are reduced to atomic commands, any of which may fail, or be lost with or without its effect. Fetching the target branch, resolving the repository, listing pull requests, and checking the shape of `gh` payloads are answers of a parameter.
- BatchRecord: the `extensions.worktreeConfig` write before each key, and a config file torn within one write. JSON encoding of the member list is a set value.
- IssueReceipt: git history queries and the clock are parameters, and JSON acceptance fields that are not text or objects are missing fields.
- ConsumerEdges: the payload checks before the edges and the field checks of one edge.
- ApplyPins: the lock-file and wheel evidence that pins a dependency is a parameter, the errors for a changed artifact are not modelled, and the disposition text of a pin is abbreviated.
- ResolveOwnership: field validation of the policy is not modelled; the import scan behind `import_owner` and the format verifiers are parameters. Evidence, carrier and dependency findings after the resolution are not modelled.
- ScanSources: the language scanners, decoding, and the computation of the ownership exclusions are parameters; a scanner is a function of path and content. Matching exceptions is greedy, so no optimality is claimed.
- RunTransition: the comparison of the protected notices is a parameter, and so is the set of well-formed paths of files below the root.
- FindingsDoNotRise: assumes that git's diff names every path that differs. Runs restricted with `--path` and bootstrap runs are not modelled.
- NoSilentUnderSelection: weaker than the promise, which is false for some deletions; it says exactly when it holds.
- NoDeletionNoUnderSelection: covers changes without deletions, for the same reason.
- MakeSources: a file is a list of lines; path resolution of an include token is a function.
- MakeInventory: SHA-256 digests, the sorted target lists of the contract, manifests and migration proofs.
- Whitespace and digits are ASCII; the limit Python puts on the length of parsed integers is not modelled.
- DisplayTimings: durations are real numbers, infinities or not-a-number; rounding is not modelled, and the order Python gives to lists with not-a-number values is only approximated.
- BundleRankable: reading the fields from JSON. The throughput checks behind a recorded score are part of the score, and the geometric mean is modelled by when it is positive and finite. Cohorts and recency are left out because they are single formulas or reports.
- RewriteNumprocessesArgs: how the safe worker count is computed from processors and memory is a parameter.
- Command lines, report rendering, annotations and native JavaScript parsing.
