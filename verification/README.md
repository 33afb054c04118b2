# DevSpecs verification models

Dafny models of the algorithmic cores of the DevSpecs CLI, with proofs about every input, every run or every
interleaving. `dafny verify dfyconfig.toml` checks the whole project. Each loop of the source is a method (or a
class method where the source updates fields in place) proved equal to a specification function or to the new
state; the laws are lemmas about those functions and states.

| files | what they model |
|---|---|
| `Sorting`, `Text`, `Paths`, `Options`, `Decimals`, `Modal` | stable sorting, Go string operations on ASCII text, path normalisation, decimal formatting, the unique most frequent value |
| `Selection`, `PathFamilies`, `Receipts`, `ReceiptLaws` | bounded evidence selection: sort, then take greedily under a total limit and two per family; which rows are listed |
| `PackChain`, `PackMerge`, `PathKinds`, `PackLaws` | the pack versions V0, V1 and V2: noise replacement, test reservation, relationship merge, loss-safe merge; what each adds, best first |
| `Glob`, `Classifier`, `Resolver`, `ClassifierLaws`, `ResolverLaws` | the declarative classifier: glob compilation, weighted rules, submodel argmax, local models, who competes, resolution |
| `Confusions`, `ConfusionLaws` | evaluation counters and the confusion list |
| `ActivationTiming` | medians, percentiles and paired differences of a binary comparison |
| `MapGate`, `MapGateLaws` | the action-quality gate over two map outputs |
| `GitLog` | the git log state-machine parser against the format it asks git for |
| `Sections`, `SliceRows`, `RepoSlices` | the Markdown repo-slice table: sections of lines, row rendering and reading, upsert, parse |
| `AutoIndex`, `AutoIndexProgress` | the auto-index protocol: any number of processes, one writer lease, a moving repository; safety and progress |
| `FileNames`, `Slugs`, `Compose`, `ComposeLaws` | convention-following file numbering |
| `GraphAdmission`, `GraphLaws` | budgeted graph admission: what is admitted, in which order, and why the rest is not |

## Where the code does less than one would expect

The models follow the code. Where a property that the code is meant for fails, the failure is a lemma and the
exact condition under which the property holds is another.

- Path normalisation is not idempotent (`././a`), so the two-phase selection can list one path twice
  (`Paths.NormalizeTwice`, `Receipts.UnsettledPathListedTwice`; distinct when normal forms are settled), and a
  family whose paths change family when normalised again can take all four places instead of two
  (`Receipts.FamilyOverBudget`, `Receipts.FamilyBudgetExactly`). The source's families do change: the family of
  `/ / a/b_test.go` is ` a`, and after one more normalisation `a` (`Receipts.SpacedPathOverBudget`); they do not
  for `././a` (`Receipts.SettledTwiceKeepsFamily`).
- The loss-safe merge looks a lower-cased path up among paths whose case was kept, so it can list again a
  mixed-case path that the recovered pack already holds. It never does, for any baseline, if and only if each
  preservable path of the recovered pack is also there in lower case (`PackMerge.NeverRepeatsExactly`,
  `PackMerge.LossSafeRepeats`).
- A path under `vendor`, `testdata`, `fixtures`, `node_modules`, `generated` or `dist` is weak only when that directory
  lies inside another: at the top of the repository it is not (`PathKinds.WeakExactly`).
- `firstMatchingGlob` answers with the pattern itself, so a match of an empty pattern reads as no match
  (`Glob.AnyGlobExact`).
- A local model that adds nothing negative can still score below its base: the first path hint that matches
  makes the base's negative rules on path hints count (`Classifier.NegativeHintRuleBreaksMonotonicity`, on every
  path). On a path this happens for no local model if and only if a hint of the base matches already or the base
  loses nothing when one does (`Classifier.LocalNeverLowersExactly`, `Classifier.LocalConfidenceExactly`).
- A task command scans again while source contexts exist and the source manifest has no rows, and a completed
  scan can leave just that, as for a repository whose only source-like file is `cmd/Dockerfile`: admitted as
  source context, rejected as a manifest path for want of an extension. Task commands then scan every time with
  no edit at all (`AutoIndex.RescansWithoutEdits`); their scans stay within the edits plus one if and only if
  scans leave no such state (`AutoIndex.TaskScansExactly`). Automatic commands need no condition
  (`AutoIndex.ScansBounded`).
- HEAD is read for the index stamp after the files were read. An edit in between leaves an index that later
  commands take for fresh although its content is older than they are (`AutoIndex.EditInsideScanGoesUnseen`;
  without such an edit and without a return it never happens, `AutoIndex.ContentExactly`),
  and a repository that returns to an earlier commit can leave a successful command with an index from before it
  began (`AutoIndex.FreshExactly`).
- Escaped pipes never read back from a table cell, since cells are split before they are unescaped
  (`SliceRows.RowOfPipeFree`, `RepoSlices.RowTextReadsBack`).
- Upsert searches for the alias as it renders it, in any cell. So it overwrites another repo's row that mentions the
  alias first (`RepoSlices.UpsertIsMapUpdate`), and it does not find the alias' own row when that was padded or
  written by hand: the alias is then listed twice (`RepoSlices.PaddedRowListedTwice`). Upsert is the update of a map
  keyed by alias if and only if `UpdatesMap` holds of the document (`RepoSlices.UpsertIsMapUpdateExactly`): where no
  section follows directly, the row of the line that mentions the alias first is the alias' first row, or both hold
  the link already, or the alias has no row and the link goes in front of all rows.
- Upsert looks for its lines behind the header's length after the heading and for the next section only from there;
  parse reads from the heading to the next section. So the link is lost, and nothing that is read changes, when the
  document has no notes and ends in the bare heading (`RepoSlices.FirstUpsertParses`), when the text or the section
  under the heading ends within the header's length, as in `## Repo Slices`, a blank line, `## Notes`
  (`RepoSlices.ShortSectionLosesLink`), and when another section follows the header directly and a line of it other
  than its heading mentions the alias first: upsert overwrites that line of the other section
  (`RepoSlices.LineTakesExactly`, `RepoSlices.NotesBehindHeaderLoseLink`). If instead text other than the header
  stands there and does not end a line, a row put in front runs on from it (`RepoSlices.RowBehindText`).
  `RepoSlices.UpsertReadExactly` is the condition for every document with the heading and a header's length of text.
- Upsert is not idempotent after a first insertion, nor when it puts the link in front of a section that follows
  the header directly; one more upsert always reaches a fixed document (`RepoSlices.RepeatedUpsert`,
  `RepoSlices.UpsertTwice`).
- Once a number no longer fits the width of its style, the next document is refused or gets the same record id
  again (`Compose.ContinuesExactly`).
- In a directory without numbered names a title such as `2026 roadmap` makes a name that reads as numbered, and the
  next document is refused as if the directory mixed the two (`ComposeLaws.UnnumberedGoesOnExactly`).
- The map gate compares evidence counts in one direction and reads an absent key as zero, so a baseline with a
  zero count lets a different map through (`MapGateLaws.GateIsSoundExactly`), acceptance from it does not compose
  (`MapGateLaws.AcceptanceComposesExactly`) and chains drift (`MapGateLaws.ChainsDoNotDriftExactly`).
- A confusion key is split at its first NUL, so the list is faithful only for NUL-free expected ids
  (`ConfusionLaws.FaithfulExactly`, `ConfusionLaws.FaithfulGivenExactly`).

## Model

| member | source | states |
|---|---|---|
| Paths.NormalizeTwice | internal/commands/find_git_receipts.go:103-118 | normalising a path twice gives what once gave, if and only if the normal form is settled (holds no further leading "./", line anchor, blank or slash at its ends to cut) |
| Paths.NormalizeClean | internal/commands/find_git_receipts.go:103-118 | a normal form has no line anchor, no slash at either end, and is not "." |
| Selection.TakeCapped | internal/commands/find_source_manifest_recovery.go:366-384 | the take loop picks exactly the greedy choice under the room left, the family counts so far and, for tests, strength |
| Selection.PicksLargest | internal/commands/find_source_manifest_recovery.go:366-384 | no choice that respects limit and family cap has more entries than the greedy one |
| Selection.GreedyDominates | internal/commands/find_source_manifest_recovery.go:366-384 | the k-th best score of the greedy choice is at least that of any feasible choice, for every k |
| Selection.GreedyOptimal | internal/commands/find_source_manifest_recovery.go:366-384 | among all feasible choices of the eligible entries the greedy one has the greatest total score |
| Selection.TakeFeasible | internal/commands/find_source_manifest_recovery.go:366-384 | what is taken is a part of the eligible entries within the limit and at most two per family |
| PathFamilies.SourceTestPathFamily | internal/commands/find_source_test_receipts.go:505-540 | the segment loop and the depth rules as a function of the path, its directory cleaned as filepath.Dir does |
| PathFamilies.FamilyExactly | internal/commands/find_source_test_receipts.go:505-540 | two paths share a family if and only if the counted leading segments of their directories are the same: through the segment behind the first "components", else five under apps, four under api, server, web and web_src, three elsewhere, or all there are; paths in no directory are one family |
| PathFamilies.NameCancels | internal/commands/find_source_test_receipts.go:510 | in the directory of a path a name and the ".." behind it cancel, wherever they stand |
| PathFamilies.BlankGoes | internal/commands/find_source_test_receipts.go:510 | blank and "." segments count for nothing |
| PathFamilies.NamesStay | internal/commands/find_source_test_receipts.go:510 | names are left as they are, behind any number of ".." |
| Receipts.SelectBehaviorTests | internal/commands/find_source_test_receipts.go:112-170 | filter, score, sort and take as one function of rows, seen and listed paths and limit |
| Receipts.BehaviorTestsOptimal | internal/commands/find_source_test_receipts.go:148-169 | the receipts are feasible and beat, rank by rank and in total, every feasible choice of strong scored test rows |
| Receipts.BehaviorTestEntries | internal/commands/find_source_test_receipts.go:112-147 | every receipt is a strong test row scoring at least 12, with a nonempty normalised path neither seen nor listed |
| ReceiptLaws.ReceiptsListed | internal/commands/find_source_test_receipts.go:112-170 | every row that is a behaviour test with strong evidence, a score of at least 12 and a new nonempty path is listed, unless the limit is reached or its family has two |
| ReceiptLaws.ListedReceiptsQualify | internal/commands/find_source_test_receipts.go:112-147 | and every receipt comes from such a row, with its path, family and score |
| ReceiptLaws.ReceiptsInOrder | internal/commands/find_source_test_receipts.go:148-169 | the receipts stand by falling score, those of the same score by path |
| Receipts.BuildRelatedFiles | internal/commands/find_source_test_receipts.go:172-236 | both phases with recomputed path set and family counts, as one function |
| ReceiptLaws.RelatedListed | internal/commands/find_source_test_receipts.go:172-236 | every row scoring at least 18 with a path neither seen nor a listed test's is listed when it is a test with strong evidence or direct evidence of at least 4 (and of at least 7 on a tutorial path), or no test with direct evidence of at least 5, or of at least 2 with strong evidence and a score of at least 24; unless four files are listed or its family has spent its two on tests and files |
| ReceiptLaws.ListedRelatedQualify | internal/commands/find_source_test_receipts.go:190-236 | and every file listed behind the tests comes from such a row |
| ReceiptLaws.RelatedInOrder | internal/commands/find_source_test_receipts.go:209-236 | so do the files behind the tests |
| Receipts.RelatedFilesOptimal | internal/commands/find_source_test_receipts.go:172-236 | the strong tests are a prefix, at most four entries are listed, and the second phase is best among all sets that extend that prefix |
| Receipts.RelatedFilesDistinct | internal/commands/find_source_test_receipts.go:172-236 | with distinct rows and settled normal forms no path is listed twice across the phases |
| Receipts.RelatedFilesWithinFamilyBudget | internal/commands/find_source_test_receipts.go:172-236 | when normalising the rows' normal forms again keeps their families, no family has more than two entries across both phases |
| Receipts.FamilyOverBudget | internal/commands/find_source_test_receipts.go:172-236 | under any family function, a path whose family changes when its normal form is normalised again gives an input on which its family takes all four places |
| Receipts.SpacedPathOverBudget | internal/commands/find_source_test_receipts.go:172-236 | under the source's family function there is such a path for every file directly in a directory whose path is plain: slashes and blanks in front of it |
| Receipts.SettledTwiceKeepsFamily | internal/commands/find_source_test_receipts.go:505-540 | the source's family of a normal form survives another normalisation when normalising twice settles the path |
| Receipts.FamilyBudgetExactly | internal/commands/find_source_test_receipts.go:172-236 | the budget of two per family holds on every input if and only if normalising a normal form again never changes its family |
| Receipts.UnsettledPathListedTwice | internal/commands/find_source_test_receipts.go:172-195 | for every path whose normal form is not settled there is an input that lists it in both phases |
| Receipts.SelectRecoveryCandidates | internal/commands/find_source_manifest_recovery.go:333-385 | the recovery selection with its guards and thresholds as one function |
| ReceiptLaws.RecoveredListed | internal/commands/find_source_manifest_recovery.go:333-385 | every row with an unseen path whose score reaches the threshold of its kind is recovered, unless the limit is reached or its family has two; nothing is recovered without a limit or a context |
| ReceiptLaws.RecoveredQualify | internal/commands/find_source_manifest_recovery.go:333-385 | and every recovered candidate comes from such a row |
| ReceiptLaws.RecoveredInOrder | internal/commands/find_source_manifest_recovery.go:358-385 | and so do the recovered candidates |
| Receipts.RecoveredOptimal | internal/commands/find_source_manifest_recovery.go:333-385 | the recovered candidates are a feasible choice, rank by rank and in total the best |
| PackChain.ReplaceSlots | internal/commands/find_source_manifest_consumption.go:29-55 | the replacement loop over the slots, with the replacement index and the seen paths it leaves |
| PackChain.ReserveTests | internal/commands/find_source_manifest_consumption.go:56-72 | the reservation loop: append below eight, else displace the last noise slot, at most twice |
| PackChain.RankPool | internal/commands/find_source_manifest_consumption.go:79-125 | a pool is the admissible candidates no path was seen for, scored and sorted |
| PackChain.ApplyConsumption | internal/commands/find_source_manifest_consumption.go:14-72 | V0 as the composition of the two loops over the two pools |
| PackChain.ConsumeKeepsMatches | internal/commands/find_source_manifest_consumption.go:14-72 | V0 keeps every match that is not noise at its own index, replaces only noise and never by noise, and has at most max(matches, 8) entries |
| PackChain.ConsumeProvenance | internal/commands/find_source_manifest_consumption.go:14-72 | every entry of V0 is a match or an annotated, well-scored manifest candidate for a path no match had |
| PathKinds.TestExactly | internal/commands/find_source_manifest_consumption.go:195-201 | a candidate is a test if and only if it is a test case or a directory segment of its path is tests, in any case |
| PathKinds.NoiseExactly | internal/commands/find_source_manifest_consumption.go:203-214 | a candidate is noise if and only if it is no test and a directory segment of its path is docs_src or examples, or a segment but the first starts with tutorial, or docs, en, docs and js stand in a row behind the first |
| PathKinds.WeakExactly | internal/commands/find_source_manifest_recovery.go:616-630 | a path is weak if and only if it is blank, a directory segment is docs_src or examples, a segment but the first starts with tutorial, or one of fixtures, testdata, vendor, node_modules, generated and dist is a directory segment but the first |
| PackLaws.ReplacementsListed | internal/commands/find_source_manifest_consumption.go:29-55 | every manifest candidate that is no test and no noise, scores at least 10 and has a path no match has replaces a noise match, or no noise match is left |
| PackLaws.BestReplaceFirst | internal/commands/find_source_manifest_consumption.go:29-101 | a replaced match gave way to such a candidate, and every better one, in score or on a tie by path, replaced a match before it |
| PackLaws.TestsReserved | internal/commands/find_source_manifest_consumption.go:56-125 | at most two tests are reserved, and nothing else is added; a manifest test with an unseen path and a score of at least 6 is passed over only for two that score no less or when eight slots hold no noise |
| PackMerge.MergeRelationshipCandidates | internal/commands/find_source_manifest_recovery.go:52-71 | the merge loop with its index map, as one function |
| PackMerge.MergeRelationshipsKeeps | internal/commands/find_source_manifest_recovery.go:52-71 | every base slot stays at its index under its folded path; a slot is added only for a path not listed |
| PackMerge.MergeListsRelationships | internal/commands/find_source_manifest_recovery.go:52-71 | every relationship's folded path is listed afterwards |
| PackMerge.MergeLossSafeCandidates | internal/commands/find_source_manifest_recovery.go:81-102 | the loss-safe loop with its seen set and counter, as one function |
| PackMerge.LossSafeKeepsBaseline | internal/commands/find_source_manifest_recovery.go:81-117 | the recovered pack is a prefix, at most eight are added, and a preservable baseline candidate is left out only when listed or all eight were used |
| PackMerge.LossSafeAddsNewPaths | internal/commands/find_source_manifest_recovery.go:81-117 | every slot added behind the recovered pack has a nonempty lower-cased path, not a weak one, outside the recovered path set, and no two of them share one |
| PackMerge.LossSafeRepeats | internal/commands/find_source_manifest_recovery.go:81-117 | for any recovered pack, a lone preservable baseline candidate is appended if and only if its lower-cased path is not in the recovered path set, be the candidate recovered already or not |
| PackMerge.NeverRepeatsExactly | internal/commands/find_source_manifest_recovery.go:81-117 | no baseline and no judgement make the merge append a lower-cased path that a recovered candidate has, if and only if each preservable lower-cased path of the recovered pack is in its path set |
| PackMerge.BuildPack | internal/commands/find_source_manifest_recovery.go:27-79 | V0, additions, relationship merge and loss-safe merge chained, with the early returns |
| PackLaws.AdditionsStand | internal/commands/find_source_manifest_recovery.go:27-71 | behind a nonempty V0, V2 holds the filesystem companions and, with an index and rows, the recovered candidates, in order, each at its own index under its own folded path; only a relationship of that path may stand in for one, and only with an index and rows |
| PackLaws.RelationshipsListed | internal/commands/find_source_manifest_recovery.go:43-71 | with an index and rows every relationship's folded path is listed in V2 |
| PackLaws.NothingElseIsAdded | internal/commands/find_source_manifest_recovery.go:27-117 | behind these V2 holds relationships, and behind them at most eight baseline candidates that were to be preserved, and nothing else; an empty V0 stays empty |
| PackLaws.BaselineIsPreserved | internal/commands/find_source_manifest_recovery.go:73-117 | a baseline candidate of a source-like file, with a path neither weak nor noise, and a score of at least 8, or above 0 among the first six, has its path listed in V2, or the last eight slots went to such candidates before it in the baseline |
| PackMerge.NoLossThroughChain | internal/commands/find_source_manifest_recovery.go:27-102 | every match that is not noise is in V2 at its own index under its folded path, and V2 has at most 20 entries more than V0 may have |
| PackMerge.BaselineAnswered | internal/commands/find_source_manifest_recovery.go:73-102 | every preservable baseline candidate is in V2 unless all eight loss-safe slots were used or the pack was empty |
| Glob.GlobPatternToRegex | internal/classify/engine.go:590-608 | the builder loop emits the compiled text of the specification |
| Glob.FirstMatchingGlob | internal/classify/engine.go:571-580 | the first pattern that matches, or the empty string |
| Glob.CompilationPreservesMeaning | internal/classify/engine.go:582-608 | the emitted text parses as a regular expression whose language is exactly that of the glob |
| Glob.DecodeCompiled | internal/classify/engine.go:590-608 | a reader recovers the glob from the emitted text |
| Glob.CompilationInjective | internal/classify/engine.go:590-608 | different globs are compiled to different texts |
| Glob.AnyGlobExact | internal/classify/engine.go:567-588 | a match is reported if and only if the first matching pattern is not empty |
| Glob.AnyGlobPlain | internal/classify/engine.go:567-588 | for every path but the empty ones this is: some pattern matches |
| Glob.MorePatternsMatch | internal/classify/engine.go:567-580 | appending patterns never loses a match |
| Classifier.EvaluateRules | internal/classify/engine.go:175-203 | the sum of the positive weights of the matching rules |
| ClassifierLaws.EachRuleAdds | internal/classify/engine.go:175-203 | wherever it stands, a rule adds its weight if and only if that is positive, it asks for something and all it asks for holds; no rules add up to zero |
| Classifier.BestSubmodel | internal/classify/engine.go:205-232 | the loop returns the specified best submodel |
| Classifier.BestIsArgmax | internal/classify/engine.go:205-232 | no enabled submodel scores above the result, which is an enabled submodel that all earlier ones stay strictly below, or none when no score is positive |
| Classifier.EvaluateModel | internal/classify/engine.go:59-118 | path prior, rule sums, submodels and clamping composed |
| ClassifierLaws.EvaluateExactly | internal/classify/engine.go:59-118 | a model classifies if and only if it is enabled and covers the scope; the subformat is the best of its subformats and the family the best of its families, qualified by the model's id unless qualified; the confidence is prior, evidence and the two scores cut off at 0 and 1; it is accepted when not below RejectBelow or the fallback |
| ClassifierLaws.ExtendedExactly | internal/classify/engine.go:120-173 | a local model scores as its base does when a hint of either matches, plus 0.20 for required headings, plus or minus 0.12 for positive or negative terms, plus and minus its own rules; all else is the base's |
| Classifier.LocalExtensionMonotone | internal/classify/engine.go:120-173 | with nothing negative added and no negative base rule on path hints, a local model's score is at least its base's on every path |
| Classifier.LocalClassificationMonotone | internal/classify/engine.go:59-173 | then its confidence is at least the base's, and it is accepted wherever the base is |
| Classifier.LocalNeverLowersExactly | internal/classify/engine.go:120-203 | on a path no local model that adds nothing negative scores below its base, if and only if a base hint matches the path already or the base's score does not fall when one does |
| Classifier.LocalConfidenceExactly | internal/classify/engine.go:59-203 | the same for confidences, which are scores clamped to 0 and 1 |
| Classifier.NegativeHintRuleBreaksMonotonicity | internal/classify/engine.go:120-203 | for every path there are a base with a negative rule on path hints and a purely additive local model that is less confident there |
| Resolver.FindClassification | internal/classify/engine.go:544-551 | the first classification with the id, if any |
| Resolver.ResolveClassifications | internal/classify/engine.go:443-488 | sort, threshold, gap and fallback as one function |
| ResolverLaws.ClearExactly | internal/classify/engine.go:443-463 | a nonempty list is resolved unambiguously if and only if some place holds the highest confidence, it is at least WeakAccept, and it is at least StrongAccept or leads every other place by the gap |
| ResolverLaws.WinnerExactly | internal/classify/engine.go:443-488 | with such a place, or without a fallback among them, the winner is the classification of the highest confidence with the first id, accepted when it was or when not below RejectBelow; otherwise it is the highest one with the fallback id, accepted, and the resolution is marked generic if and only if that id is generic_markdown |
| Resolver.ResolveIgnoresOrder | internal/classify/engine.go:443-488 | unless two different classifications share id and confidence, the resolution is the same for every order of the input |
| ResolverLaws.OrderIsFreeExactly | internal/classify/engine.go:443-488 | the resolution is the same for every order of the input if and only if those with equal id and confidence are equal when their id is not the winner's, and are reported alike when they have the winner's id and confidence |
| Resolver.UnambiguousLeads | internal/classify/engine.go:443-488 | an unambiguous winner is accepted, has the highest confidence, and below StrongAccept leads all others by the gap |
| Resolver.AlternativesAreTheRest | internal/classify/engine.go:443-488 | the alternatives are all classifications with other ids than the winner's, sorted; with distinct ids, all but the winner |
| Resolver.RaisingKeepsWinner | internal/classify/engine.go:443-488 | raising an unambiguous winner's confidence keeps it the accepted, unambiguous winner over the same alternatives, also when others share its id |
| Resolver.ClassifyCandidate | internal/classify/engine.go:14-32 | base models, then enabled local models, resolved together |
| ClassifierLaws.AllCompete | internal/classify/engine.go:14-32 | a candidate is resolved among exactly what the models say of it and, when local models are enabled, what those whose base exists say over that base |
| Resolver.ClassificationTotal | internal/classify/engine.go:14-32 | when the fallback model is enabled and covers the scope there is always an accepted winner, whatever the other models are |
| Confusions.EvalModelSummary.constructor | internal/classify/eval.go:322-328 | a new summary record starts at zero |
| Confusions.CountCase | internal/classify/eval.go:329-340 | one case updates the records of its two models, which may be the same record, and no other |
| Confusions.SummarizeEvalModels | internal/classify/eval.go:321-354 | one summary per model mentioned, with its counters and ratios, by name, whatever order the map is visited in |
| ConfusionLaws.SummaryExactly | internal/classify/eval.go:321-348 | a summary counts the cases that expect its model, that are given it, and both; precision is the right part of those given it, recall of those that expect it, between 0 and 1, and zero when there are none |
| ConfusionLaws.SummarizedExactly | internal/classify/eval.go:321-354 | a model has a summary if and only if some case expects it or is given it |
| ConfusionLaws.SummariesInOrder | internal/classify/eval.go:351-353 | summaries stand by name and no name stands twice |
| Confusions.SummarizeEvalConfusions | internal/classify/eval.go:356-381 | one entry per key, split at the first NUL, by count and names, whatever order the map is visited in |
| ConfusionLaws.ConfusionsInOrder | internal/classify/eval.go:371-379 | confusions stand by falling count, then by expected and by given model |
| ConfusionLaws.TallyConserves | internal/classify/eval.go:329-340 | per model Expected = TP + FN and Predicted = TP + FP |
| ConfusionLaws.ConfusionTotals | internal/classify/eval.go:356-381 | for every kind of pair, the entries of that kind sum to the wrong cases whose key splits into it |
| ConfusionLaws.EveryCaseCounted | internal/classify/eval.go:321-381 | all true positives and all confusion counts together are the number of cases |
| ConfusionLaws.ErrorsAreConfusions | internal/classify/eval.go:321-381 | FN(m) is the sum of the confusions expecting m and FP(m) the sum of those giving m, when expected ids are NUL-free |
| ConfusionLaws.FaithfulExactly | internal/classify/eval.go:356-381 | the list accounts for every model's false negatives if and only if no wrong case expects an id with a NUL |
| ConfusionLaws.FaithfulGivenExactly | internal/classify/eval.go:356-381 | the same condition is exact for every model's false positives |
| ActivationTiming.MedianMillis | internal/commands/eval_activation.go:1488-1495 | element n/2 of the sorted copy, zero for none |
| ActivationTiming.MedianComparisonRun | internal/commands/eval_activation.go:1434-1450 | the run in the middle of the stably sorted runs of one side |
| ActivationTiming.ActivationComparisonTiming | internal/commands/eval_activation.go:1460-1486 | the loop collects the paired and absolute differences and their maximum |
| ActivationTiming.TimingStats | internal/commands/eval_activation.go:1417-1432 | sorts the caller's values in place and returns total, percentiles and maximum |
| ActivationTiming.PointwiseBoundSurvivesSorting | internal/commands/eval_activation.go:538-544 | two lists within a margin of each other pair by pair are within it rank by rank after sorting each alone |
| ActivationTiming.MedianRunHasMedianDuration | internal/commands/eval_activation.go:1434-1450 | the median run's duration is the median of the durations |
| ActivationTiming.MedianRunIs | internal/commands/eval_activation.go:1434-1450 | of the runs of the median duration, in measured order, it is the one whose place is n/2 less the number of shorter runs |
| ActivationTiming.TimingIsConsistent | internal/commands/eval_activation.go:538-544 | the difference of the two medians is within the largest paired difference; the median difference is within the median absolute difference, which is within the largest |
| ActivationTiming.TimingExactly | internal/commands/eval_activation.go:1434-1495 | each of the four medians is the smallest measure of a sample that more than half of the samples do not exceed; the largest absolute difference is that of some pair and bounds all; no samples give no timing |
| ActivationTiming.StatsExactly | internal/commands/eval_activation.go:1417-1432 | P50 is the smallest number with half of the values at or below it, P95 with 95 percent, and both are values; all are zero without values |
| ActivationTiming.PercentileIsNearestRank | internal/commands/eval_activation.go:1536-1548 | for 0 < p <= 100 the result is a sample value, and a number is at or above it if and only if at least p percent of the values are at or below that number |
| ActivationTiming.StatsAreOrdered | internal/commands/eval_activation.go:1417-1432 | the total is order independent, P50 <= P95 <= Max, and P50 is the median for odd counts and at most it otherwise |
| MapGate.OrderedStringsEqual | internal/commands/eval_activation.go:865-875 | true exactly for equal lists |
| MapGate.RemoveString | internal/commands/eval_activation.go:888-897 | the list without every occurrence of the value |
| MapGate.Comparison.AddAcceptedDiff | internal/commands/eval_activation.go:856-863 | appends the message unless it is there |
| MapGate.Comparison.AddActionDiff | internal/commands/eval_activation.go:852-854 | appends the message and changes nothing else |
| MapGate.Comparison.CompareValue | internal/commands/eval_activation.go:791-796 | records an action difference exactly when the values differ |
| MapGate.Comparison.CompareOrderedStrings | internal/commands/eval_activation.go:798-803 | records an action difference exactly when the lists differ |
| MapGate.Comparison.CompareIntMap | internal/commands/eval_activation.go:805-816 | records an action difference exactly when sizes differ or some baseline count is not the candidate's, absent keys counting zero |
| MapGate.Comparison.CompareStringSetOnly | internal/commands/eval_activation.go:818-827 | lets a reordering through and records any other difference |
| MapGate.Comparison.CompareDisplayStrings | internal/commands/eval_activation.go:829-834 | every difference is let through |
| MapGate.Comparison.CompareTraceDisplay | internal/commands/eval_activation.go:836-850 | every difference of the receipts is let through |
| MapGate.Comparison.CompareCaveats | internal/commands/eval_activation.go:779-789 | lets the loss of the index caveat through and records any other difference |
| MapGate.Comparison.ComparePackability | internal/commands/eval_activation.go:751-777 | the packability checks in order, with the case where both sides suppressed the suggestion |
| MapGate.Comparison.CompareArea | internal/commands/eval_activation.go:708-728 | all checks of one area in the source's order |
| MapGate.Comparison.CompareTopDiagnostics | internal/commands/eval_activation.go:730-740 | the four checks of the top diagnostics |
| MapGate.Comparison.Compare | internal/commands/eval_activation.go:673-690 | all checks of an output, area by area |
| MapGate.CompareMapActionQuality | internal/commands/eval_activation.go:657-706 | the status, with the first action difference as the reason of a rejection |
| MapGateLaws.IdenticalExactly | internal/commands/eval_activation.go:657-706 | the gate says identical if and only if the outputs are equal up to evidence counts that match |
| MapGateLaws.StatusTells | internal/commands/eval_activation.go:657-706 | from a baseline without zero evidence counts: identical if and only if the outputs are equal, rejected if and only if their actions differ or the caveats differ by more than the index caveat; a parse error if and only if one does not decode |
| MapGateLaws.AcceptedKeeps | internal/commands/eval_activation.go:657-897 | a candidate is accepted if and only if its head, caveats and areas are kept field by field, counts read one way |
| MapGateLaws.AcceptedExactly | internal/commands/eval_activation.go:657-897 | without zero counts a candidate is accepted if and only if it has the same actions and its caveats are equal or lose the index caveat |
| MapGateLaws.AcceptanceIsReflexive | internal/commands/eval_activation.go:657-706 | every output is accepted against itself |
| MapGateLaws.AcceptanceIsTransitive | internal/commands/eval_activation.go:657-706 | from an output without zero counts acceptance composes, with the actions of that output |
| MapGateLaws.AcceptanceComposesExactly | internal/commands/eval_activation.go:805-816 | from an output acceptance composes over all further outputs if and only if the output has no zero evidence count |
| MapGateLaws.AcceptedChainsDoNotDrift | internal/commands/eval_activation.go:657-706 | along any chain of accepted outputs from one without zero counts, every output has the first one's actions and is accepted against it |
| MapGateLaws.ChainsDoNotDriftExactly | internal/commands/eval_activation.go:805-816 | no chain of accepted outputs from an output drifts, in actions or acceptance, if and only if the output has no zero evidence count |
| MapGateLaws.GateIsSoundExactly | internal/commands/eval_activation.go:805-816 | every accepted candidate has the baseline's actions if and only if no evidence count of the baseline is zero |
| GitLog.FlushInto | internal/commands/find_git_receipts.go:158-167 | the flush closure finishes the commit at hand, if any |
| GitLog.ParseGitLog | internal/commands/find_git_receipts.go:153-209 | the line loop as a fold of one step function |
| GitLog.ParsedClean | internal/commands/find_git_receipts.go:153-209 | whatever the text, commits are numbered in order, list no blank path and no two equal up to case, and subjects and bodies are trimmed |
| GitLog.FilesExactly | internal/commands/find_git_receipts.go:196-205 | behind the files marker a commit lists the path of every line up to the next header or marker, once however it is spelt, and nothing else; what was listed before stays in place |
| GitLog.ParseDistributes | internal/commands/find_git_receipts.go:153-209 | lines before and from a header parse independently; only the order numbers move on |
| GitLog.ParseDistributesText | internal/commands/find_git_receipts.go:153-209 | the same on text, cut where a commit marker starts a line |
| GitLog.MalformedHeaderDropsItsBlock | internal/commands/find_git_receipts.go:168-183 | a header with fewer than four fields drops its own block and nothing else |
| GitLog.ParsePrinted | internal/commands/find_git_receipts.go:130-209 | parsing the printed form of any well-formed commits returns exactly them, numbered in order |
| SliceRows.MarkdownTableCells | internal/commands/change.go:330-338 | the cell loop as a function of the line |
| RepoSlices.RowTextReadsBack | internal/commands/change.go:283-344 | the text of a rendered row, read line by line, gives its link alone if and only if the trimmed cells have no pipe, no backtick at an end, no run of three dashes and no line break |
| SliceRows.RowOfPipeFree | internal/commands/change.go:310-338 | whatever a line is read as, no cell of it holds a pipe |
| SliceRows.RowMentions | internal/commands/change.go:262-270 | a clean row contains what upsert searches for if and only if the alias is its repo, task, target or status |
| RepoSlices.UpsertRepoSlice | internal/commands/change.go:239-281 | upsert with all its branches as one function of document and link |
| RepoSlices.WriteRow | internal/commands/change.go:262-273 | the line loop puts the row over the first line with the mention, or in front |
| RepoSlices.ParseRepoSlices | internal/commands/change.go:296-328 | the parse loop as the rows read line by line from the section |
| RepoSlices.UpsertReadExactly | internal/commands/change.go:239-328 | for every document with the heading and a header's length of text behind it, the link is read in its place if and only if that text closes no section and the link either goes over a later line, no section being closed where the two texts meet, or its row reads as it behind the last line of that text; where a section closes before its place nothing that is read changes |
| RepoSlices.RowBehindText | internal/commands/change.go:299-327 | a row behind blank text reads as it does alone, behind text that starts no row it is not read |
| RepoSlices.UpsertThenParse | internal/commands/change.go:239-328 | behind a header, or any text as long that ends a line and closes no section, the table read after an upsert is the one before with the link over the first line that mentions it, or in front; where another section follows directly, the cases of ReadWith; the text around the section's lines is unchanged |
| RepoSlices.LineTakesExactly | internal/commands/change.go:239-328 | there the link is read if and only if no other section follows directly, or the first mention is in its heading line, or there is none |
| RepoSlices.NotesBehindHeaderLoseLink | internal/commands/change.go:258-272 | for every link there is a document with the header and notes right behind it on which upsert loses the link |
| RepoSlices.UpsertPutsRow | internal/commands/change.go:239-328 | the same on rows, for rows of any spelling where no other section follows directly: the link takes the place of the row of the line that mentions its alias first, or is put in at that line, or in front of the lines when none does; all other rows stay in order |
| RepoSlices.UpsertWrittenTable | internal/commands/change.go:239-328 | on a table that upsert wrote, the link replaces the first row with its alias in a repo, task, target or status cell, or comes first; all other rows stay |
| RepoSlices.UpsertIsMapUpdateExactly | internal/commands/change.go:262-328 | for every document whose text behind the heading ends a line and closes no section within the header's length, the table read after an upsert is the map update of the one before if and only if UpdatesMap holds: the link goes over the first row of its alias, or over a row equal to it while that first row equals it too, or the alias is new and nothing stands in front; with the cases of a section that follows directly |
| RepoSlices.UpsertIsMapUpdate | internal/commands/change.go:262-273 | on a table that upsert wrote this is: no other repo's row mentions the alias before its own |
| RepoSlices.PaddedRowListedTwice | internal/commands/change.go:262-344 | for every link whose alias is not its task, target or status there is a canonical document with one row of it, padded by a blank, that reads as the link once before and twice after upserting it |
| RepoSlices.UpsertTwice | internal/commands/change.go:239-281 | on a document with the heading and a header's length of text a second upsert changes nothing if and only if the first put no row in front of another section; a third never changes anything |
| RepoSlices.FirstUpsertParses | internal/commands/change.go:243-252 | the first upsert reads back as the one link unless the document ends in the bare heading, when it reads as nothing; the text around the new section is the old document |
| RepoSlices.RepeatedUpsert | internal/commands/change.go:239-281 | after a first insertion the second upsert changes the document and the third does not |
| RepoSlices.ShortSectionLosesLink | internal/commands/change.go:253-281 | when the text or the section under the heading ends within the header's length, nothing that is read changes: the link is lost |
| RepoSlices.UpsertKeepsTable | internal/commands/change.go:239-281 | a table that upsert wrote is one again after the next upsert |
| RepoSlices.UpsertRunIsMap | internal/commands/change.go:239-328 | any nonempty run of upserts with aliases apart, started on a document without the section or a dangling heading, reads back as the map the run built |
| RepoSlices.UpsertRunOnTableIsMap | internal/commands/change.go:239-328 | the same for a run started on a table that upsert wrote, when no alias of the run is a task, target or status there: the map starts from that table |
| AutoIndex.NextKeepsInv | internal/commands/refresh.go:212-304 | every step of every command, failure and edit keeps the protocol invariant |
| AutoIndex.LeaseExcludes | internal/store/index_writer.go:32-62 | at most one command is between acquiring and releasing the lease, in every run |
| AutoIndex.ScansAdvance | internal/commands/refresh.go:212-304 | no step moves the index back, and only a scan that was due commits: for an automatic command the index was missing or is now strictly newer, for a task command the substrate may instead have been unready; the stamp is no older than the command |
| AutoIndex.ScansBounded | internal/commands/refresh.go:70-92 | the scans of automatic commands number at most the edits of the run plus one, whatever task commands and explicit scans do |
| AutoIndex.TaskScansBounded | internal/commands/refresh.go:94-138 | automatic and task scans together number at most the edits plus one plus the scans that left the substrate unready |
| AutoIndex.RescansWithoutEdits | internal/commands/refresh.go:121-138 | while scans leave source contexts without manifest rows, there are runs with any number of task scans and no edit |
| AutoIndex.TaskScansExactly | internal/commands/refresh.go:94-138 | automatic and task scans stay within the edits plus one in every run if and only if no scan may leave source contexts without manifest rows |
| AutoIndex.FreshExactly | internal/commands/refresh.go:70-119 | a successful command leaves an index as new as its start in every run over a history if and only if the history never returns to a commit |
| AutoIndexProgress.OnlyFailFails | internal/commands/refresh.go:212-304 | no event but its own failure makes a command fail |
| AutoIndexProgress.NobodyIsStuck | internal/commands/refresh.go:70-138 | in every run, a command that is neither done nor failed succeeds, with an index there, after steps of its own and, when another holds the lease, of that one; no failure, no edit and no new command is needed |
| AutoIndexProgress.CommandSucceeds | internal/commands/refresh.go:212-304 | in every run, a command that finds the lease free or holds it succeeds by its own steps alone; when the index was missing these commit exactly one scan, stamped with HEAD unless HEAD was read before |
| AutoIndexProgress.AloneScansExactly | internal/commands/refresh.go:70-138 | a command that begins while the lease is free and that nobody disturbs scans if and only if it is an explicit scan, the index is missing, its stamp is not HEAD's or, for a task command, the substrate is not ready; the index is then stamped with HEAD and all else is as it was |
| AutoIndex.QuietRunsServeContent | internal/scan/scan.go:538-641 | when no edit falls inside a scan and no commit returns, the content behind a success is as new as the command |
| AutoIndex.EditInsideScanGoesUnseen | internal/scan/scan.go:538-641 | from any reachable state, an edit between reading files and reading HEAD makes a later command succeed on content older than itself |
| AutoIndex.ContentExactly | internal/scan/scan.go:538-641 | over a history that never returns, a run serves content as new as each command at every moment, however its commands go on, if and only if none of its edits falls inside a scan |
| Modal.UniqueModalValue | internal/commands/compose.go:687-707 | the result is the same function of the counts for every order of visiting the keys |
| Modal.UniqueModeIs | internal/commands/compose.go:687-707 | one value is returned if and only if its count is positive and beats every other |
| Modal.TieLists | internal/commands/compose.go:687-707 | a tie lists exactly the values with the highest count, in order |
| FileNames.ParseNamePrinted | internal/commands/compose.go:32 | every name a style prints is matched with that prefix, digits, separator and title |
| ComposeLaws.ParseExactly | internal/commands/compose.go:32 | a name is numbered if and only if it is an optional adr, rfc or prd with a dash, digits, a dash, a title on one line and .md, letters in any case and underscores for dashes; it is read as these parts say, however it is split |
| FileNames.SignedNotNumbered | internal/commands/compose.go:32 | a name printed with a negative number is not matched |
| FileNames.StyleKeyInjective | internal/commands/compose.go:783 | names share a style key only when they share prefix, width and separator |
| Slugs.ComposeSlug | internal/commands/compose.go:836-855 | the builder loop as a function of the title |
| Slugs.SlugJoinsWords | internal/commands/compose.go:836-855 | the slug of a title is its runs of letters and digits, in lower case and joined by dashes; "decision" when there are none |
| Slugs.SlugKeepsWords | internal/commands/compose.go:836-855 | a slug has the words it was made of |
| Slugs.SlugFixesClean | internal/commands/compose.go:836-855 | a slug is never empty, is words joined by single dashes, and a title is its own slug if and only if it is clean |
| Decimals.PadReadsBack | internal/commands/compose.go:823-824 | a zero-padded number reads back, and keeps the width if and only if it is below ten to the width |
| Compose.ComposeFilename | internal/commands/compose.go:768-826 | the two passes over the directory, the style of the unique mode and the next number, or one of the refusals |
| ComposeLaws.DirectoryDecides | internal/commands/compose.go:768-826 | without numbered names the slug is the name, behind 0001 in an empty directory of decisions or requests; with some but no more than the others the directory is refused as mixed; with more, a name is given if and only if one style is used more often than every other, and the directory is refused as conflicting otherwise |
| ComposeLaws.NumberedNext | internal/commands/compose.go:803-826 | the name is in the most used style, numbered one above the largest number in that style, which is some name's or zero |
| ComposeLaws.UnnumberedGoesOnExactly | internal/commands/compose.go:793-798 | in a directory without numbered names every document gets record id 0001, and the one after a document whose slug reads as a numbered name is refused, no other |
| Compose.ComposeIgnoresOrder | internal/commands/compose.go:768-826 | the name does not depend on the order of the directory's documents |
| Compose.CreateOnce | internal/commands/compose.go:768-826 | in a settled directory with room the name has the same style and the next number, is new, reads back to its record id, and leaves the directory settled |
| Compose.NumberingIsStable | internal/commands/compose.go:768-834 | any run of creations that fits the width succeeds with consecutive numbers in one style and never a taken name |
| Compose.EmptyDirectoryNumbers | internal/commands/compose.go:796-802 | from an empty ADR or RFC directory up to 9999 creations number from 0001 |
| Compose.ContinuesExactly | internal/commands/compose.go:822-825 | the creation after the next one gets a new record id if and only if the next number fits the width and the integer range |
| GraphAdmission.FindGraphDiagnostics.constructor | internal/commands/find_graph_diagnostics.go:109-112 | a diagnosis starts empty |
| GraphAdmission.FindGraphDiagnostics.AddSuppression | internal/commands/find_graph_diagnostics.go:428-440 | records the suppression below twelve, else counts the overflow |
| GraphAdmission.FindGraphDiagnostics.ConsiderEdge | internal/commands/find_graph_diagnostics.go:166-222 | one edge through all gates, with the counters, budgets and sets it changes |
| GraphAdmission.FindGraphDiagnostics.ConsiderEdges | internal/commands/find_graph_diagnostics.go:163-223 | the edges of one seed until the candidates are full |
| GraphAdmission.FindGraphDiagnostics.Build | internal/commands/find_graph_diagnostics.go:140-248 | the whole diagnosis, sorted, with its counts |
| GraphLaws.CandidatesAttach | internal/commands/find_graph_diagnostics.go:140-248 | the candidates are at most six different artifacts, each over an edge of one of the first eight results with id, repository and anchor, of an admitting type and signal, at confidence 0.75 or more, on a query that asks, between an implementation and a behaviour test, to an unranked artifact |
| GraphLaws.StrongestEdgesFirst | internal/commands/find_graph_diagnostics.go:163-222 | when a candidate was admitted from a seed over an edge type, the target of every edge of that seed and type that attaches and is more confident, or as confident and weightier, is a candidate too |
| GraphLaws.BetterSeedsFirst | internal/commands/find_graph_diagnostics.go:140-222 | before anything is admitted from a result, the target of every attaching edge of a better ranked one is a candidate, or that one has spent its three on the edge's type |
| GraphLaws.NothingAttachingIsLost | internal/commands/find_graph_diagnostics.go:140-222 | the target of every attaching edge is a candidate unless there are six, or three from its seed and type |
| GraphLaws.CandidatesInOrder | internal/commands/find_graph_diagnostics.go:230-238 | candidates stand by falling confidence, then edge type, then path |
| GraphLaws.SuppressionsTellWhy | internal/commands/find_graph_diagnostics.go:166-222 | every suppression reported gives the reason that holds of its edge |
| GraphLaws.RefusalsAreCounted | internal/commands/find_graph_diagnostics.go:166-222 | below six candidates the counters of support-only, unknown, low-confidence and unasked edges count exactly the edges they hold of |
| GraphAdmission.AdmissionInvariants | internal/commands/find_graph_diagnostics.go:140-248 | at most 6 distinct targets, none ranked, each over an admitting edge of an eligible seed at confidence 0.75 or more; at most 3 per seed and edge type; each admitted counter is the number of candidates of its edge type, and the two of the admitting types sum to all; the six suppression counters sum to the suppressions plus the overflow |
| GraphAdmission.CandidatesAreSorted | internal/commands/find_graph_diagnostics.go:230-238 | the candidates are the admitted ones by falling confidence, then edge type, then path |
| GraphAdmission.NothingPassingIsLost | internal/commands/find_graph_diagnostics.go:163-222 | below 6 candidates the target of every edge that passes the gates is among them, unless 3 came from that seed over that edge type |

## Left out

- Input and output: SQLite, git subprocesses, files, JSON and YAML, command flags, telemetry and progress text. Parsed rows, commits, documents, outputs and edges are inputs.
- Scores, roles, query anchors and the tests of a rule against document text: given functions or values of the right kind; the selection, merging and budgets carry the proofs. Family functions are arbitrary in the selections; the source's own is `PathFamilies.PathFamily`.
- Reported texts that do not steer a decision: reasons, receipts, notes and the wording of refusals. Differences of the map gate are named by field instead of by message.
- Text is ASCII. Unicode case folding, wide spaces and runes outside ASCII are not modelled; `filepath.ToSlash` and `filepath.Base` are the identity on the given slash paths and base names.
- Weights, scores and confidences are exact reals: rounding of floating point is not modelled. Totals of timings are unbounded integers.
- Maps of models and submodels are sequences in the order of their ids, the order in which the source visits them.
- The slice that local models share with their base when `append` has room is modelled as a value.
- Packs, the parser state of the git log and the style records of composing are values updated in place of Go structs that no other code holds.
- A map output that does not decode is an absent input of the gate.
- In the protocol: a HEAD that git cannot resolve (treated as fresh by the source), repositories without git and their time stamps, deadlines other than as failures, restore and rebuild. Which substrate a scan leaves is an outcome of the scan, not derived from the files; reading files counts as done at its start.
- A command outside any repository, which succeeds without an index, and the commands that skip a repository that was never scanned.
- A repository row written before its scan committed has no stamp and is treated as no index, as the checks treat it.
- `%0*d` beyond one million digits of width, which Go refuses to format.
- The hub commands, thread lane selection, doctor, init, config, resume and list commands: branch by branch code or code in packages of its own.
