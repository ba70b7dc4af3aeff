# LemmaMind, modelled in Dafny

LemmaMind is a deterministic evidence pipeline: records are immutable, every stage claims to lose
nothing, and every stage refuses inconsistent input. This project models its hardest parts and
proves what they are for. `dafny verify dfyconfig.toml` checks all of it.

The project has six parts.

**The change pipeline.** `TreeDiff` (canonical Git trees and their exact diff), `CommitPages` (page
loops against an arbitrary provider), `Segmentation` (first-parent walk, latest touch, bounded
candidates), `Planning` (which files to capture), `Changes` and `Determinism` (artifact and structural
deltas, strict and gap-aware), `Reduction` and `ReductionChecks` (the reducer, its contract and the
checks before it), `Pipeline` (the checks make the reducer total) and `EndToEnd` (what the stages
produce passes the checks). `GapAwareRuns` ties the excluded paths to the extractors that failed, and
`SampleRuns` holds one concrete comparison. Commits carry leaf trees, so that "latest touch" has a meaning; the
telescoping theorem then carries the leaf of head back along the first-parent chain. The main
result is `EndToEnd.ChangedPathReduced`.

**Extraction runs.** `Store` (the append-only contract store with atomic batches), `ExtractionRuns`
(gap-tolerant collection and persistence), `CollectedEvidence` (what is collected and what its records
say) and `Authentication` (when stored outputs reproduce their hash, whatever order they are listed in).

**The Observation support graph.** `SupportGraph` (provenance resolution in its two mutually recursive
implementations, proved equal and equal to a path-based reference), `Observations` (versions 1 and
2), `ObservationRuns` (every store that any interleaving of both can reach) and `Patterns`.

**The repository registry.** `Registry` (one resolution) and `RegistryRuns` (every sequence of them).

**The inference-repair loop.** `Inference` (validation), `Acceptance` (which objects it accepts and what a
proposal then says, read off the object), `RepairLoop` (the bounded protocol and its lock), `IndexedRepair` and `RepairSequence` (the override with decision proofs, choices by index and
per-thread state), `IndexedGuarantees`, `ReviewAcceptance` (the same reading for reviews) and
`LeftoverMode` (two concrete sequences). A provider is any function from invocations to texts,
timeouts and failures.

**Locators that must resolve.** `Locators` (JSON Pointers, sections 3 and 4 of RFC 6901, from the
walker to the inspector), `GitTrees` (root-tree facts and the rules that find them again), `Utf8`
(sections 3 and 4 of RFC 3629), `Slicing` (line and column ranges), `Inspection` (which resolver a whole
locator reaches and what it returns), `LineLocators`, `Markdown` (both scanners) and `Reslicing`
(scanned statements traced back to the retained bytes).

`Orders`, `Texts`, `Digests`, `Json` and `Wrappers` are shared: Python's sorting, string operations, record
identifiers and JSON values with Python's equality.

Loops and recursive procedures of the source are methods, each proved equal to a specification
function or to a declarative condition; the lemmas are about those functions and conditions. What a
record, a delta, a plan, a reduction or a proposal says is stated once more over the input it was made
from, field by field, without those functions. Where a
stage raises, the method returns `Err`, and its contract says exactly when.

## Where the code falls short of what one would expect

Each of these is stated as an exact condition, with a concrete input beside it.

- Identifier fields are stripped when a record is built, but the hash of a run is taken before that, so
  a run authenticates only if its specs are stripped already; Python documentation strings usually are
  not: `ExtractionRuns.PersistedAuthenticates`, `ExtractionRuns.DocstringNeverAuthenticates`,
  `ExtractionRuns.BlankDocstringRefused`.
- Structural deltas compare values with Python's `==`, so a change from `true` to `1` is lost:
  `Determinism.StructuralPatchExact`, `SampleRuns.TrueToOneIsLost`.
- Authentication depends on listing order when sort keys do not decide records:
  `Authentication.AnyOrderAuthenticates`, `Authentication.SomeOrderFails`, `Authentication.AssertionKeysCollide`.
- Index mode can be left on in a thread and accept indices without a lock in a later sequence for the
  same packet: `IndexedGuarantees.UnlockedIndices`, `LeftoverMode.TwoSequences`.
- An unhashable support type raises outside the repair loop: `RepairLoop.UnhashableEscapes`.
- A tree whose modes change only by white space is diffed into a delta that its contract refuses:
  `TreeDiff.DiffTransitionsValid`, `TreeDiff.TrailingSpaceRefused`.
- Python breaks text into lines at more characters than bytes, so Markdown line ranges can point past
  the retained lines: `Reslicing.ProseComesBack` for the texts it holds of, `Reslicing.OtherBreakShifts`.

## Model

| member | source | states |
|---|---|---|
| `TreeDiff.CanonicalTree` | src/lemmamind/recursive_tree.py:188-241 | The loop accepts a provider payload exactly when it has the requested SHA, is not truncated, and every entry is well formed, safe and of a path not listed before; the tree it then retains is the cleaned entries in path order. |
| `TreeDiff.CanonicalTreeForgetsOrder` | src/lemmamind/recursive_tree.py:188-241 | Permuting the entries of a payload changes neither whether it is accepted nor the canonical tree. |
| `TreeDiff.CanonicalDescribes` | src/lemmamind/recursive_tree.py:188-241 | The canonical tree holds, in path order, one good entry for every entry of the payload, saying of its path exactly what the payload says, and nothing else. |
| `TreeDiff.LoadEntries` | src/lemmamind/recursive_tree.py:464-482 | The loop over a retained document fails exactly on an unsafe or a repeated path, and otherwise maps every path to the entry the document gives it. |
| `TreeDiff.LoadedEntry` | src/lemmamind/recursive_tree.py:464-482 | Every path of a loadable document is given the one entry the document lists for it, and no other path any. |
| `TreeDiff.CompareCaptures` | src/lemmamind/recursive_tree.py:333-368 | The comparison loop emits exactly the diff of the two entry maps that the lemmas below speak about. |
| `TreeDiff.DiffExact` | src/lemmamind/recursive_tree.py:333-368 | A path is emitted if and only if its leaf projection (type, mode, SHA, size, a directory being absent) differs, and then by one delta only. |
| `TreeDiff.DiffCarries` | src/lemmamind/recursive_tree.py:333-368 | What an emitted delta says: the generation it is bound to, the surface of its path, the change, and on each side all of the entry the capture holds there, or nothing. |
| `TreeDiff.DiffIdsDecide` | src/lemmamind/recursive_tree.py:333-368 | Two emitted deltas have one identifier if and only if they agree in run, revisions, path and change. |
| `TreeDiff.DiffIncreasing` | src/lemmamind/recursive_tree.py:333-368 | Deltas come out strictly ordered by path. |
| `TreeDiff.DiffTransitionsValid` | src/lemmamind/path_change_contracts.py:59-138 | Every emitted delta satisfies the transition validator of its contract; the record of it, whose entry type and mode the contract strips, does so if and only if none of them is blank and the sides differ by more than white space. |
| `TreeDiff.PlainDiffRecordable` | src/lemmamind/path_change_contracts.py:59-138 | Trees whose types and modes have no white space around them, as Git writes them, always have recordable diffs. |
| `TreeDiff.TrailingSpaceRefused` | src/lemmamind/recursive_tree.py:333-368 | Counterexample: a mode that gains a trailing space is emitted as a change that its contract then refuses. |
| `TreeDiff.PatchYieldsCurrent` | src/lemmamind/recursive_tree.py:485-505 | Applying the deltas to the previous leaf map yields the current leaf map. |
| `TreeDiff.DiffInverts` | src/lemmamind/recursive_tree.py:485-505 | Comparing the captures the other way round gives the inverted deltas in the same order. |
| `TreeDiff.InvertedPatchGoesBack` | src/lemmamind/recursive_tree.py:485-505 | Applying the inverted deltas to the current leaves gives back the previous leaves. |
| `CommitPages.LoadCommitRange` | src/lemmamind/interval_segmentation.py:339-425 | Against a provider that may answer anything, the page loop succeeds if and only if some prefix of the pages is one complete and consistent commit frontier; it then returns every commit of that prefix, and it always stops after a bounded number of requests. |
| `CommitPages.CollectedAt` | src/lemmamind/interval_segmentation.py:339-425 | The commits of a range are those of its pages, each page whole, in page order and in the order of the page. |
| `CommitPages.CollectedOnPage` | src/lemmamind/interval_segmentation.py:339-425 | And no commit is in the range that is not on one of its pages. |
| `CommitPages.CommitSnapshot` | src/lemmamind/interval_segmentation.py:427-504 | The page loop for one commit succeeds if and only if the pages form a complete projection and no parent is repeated, and its touched list is then, in order, exactly the paths that some file on some page of the projection bears as its new or its previous name. |
| `Segmentation.FirstParentChain` | src/lemmamind/interval_segmentation.py:507-546 | The walk terminates and succeeds if and only if there is a first-parent path from base to head over the given snapshots; the chain it returns is that path. |
| `Segmentation.ChainUnique` | src/lemmamind/interval_segmentation.py:507-546 | There is at most one first-parent path from base to head. |
| `Segmentation.AssignLatestTouch` | src/lemmamind/interval_segmentation.py:549-567 | The loop fails exactly when some delta path is touched by no snapshot, and otherwise assigns each delta path the last snapshot that touches it. |
| `Segmentation.LatestTouchTelescopes` | src/lemmamind/interval_segmentation.py:506-567 | If touched sets are complete along the chain, then from the latest touch of a path on every chain commit holds the leaf of head, and a path never touched has the same leaf at base and head. |
| `Segmentation.NoMissingTouch` | src/lemmamind/interval_segmentation.py:549-567 | Under the same hypothesis the missing-path error is unreachable for a diff of the trees of base and head, and the leaf at the latest touch is the one the delta reports as current. |
| `Segmentation.PathGroupInjective` | src/lemmamind/interval_segmentation.py:619-629 | Two paths get the same group label if and only if they are the same kind of place in the same directory, so labels of different groups never collide. |
| `Segmentation.GroupDeltas` | src/lemmamind/interval_segmentation.py:578-586 | The dictionary loop groups the deltas by latest-touch ordinal and path group, in input order, and finds the snapshot of every ordinal. |
| `Segmentation.ChunkGroup` | src/lemmamind/interval_segmentation.py:588-615 | The offset loop over one group gives one numbered segment for each chunk of the group. |
| `Segmentation.ChunksExact` | src/lemmamind/interval_segmentation.py:590-593 | Chunks put together give the group back; none is empty or too long, and all but the last are full. |
| `Segmentation.ChunksCount` | src/lemmamind/interval_segmentation.py:590-593 | A group of n paths gives ceil(n / max) chunks. |
| `Segmentation.BuildCandidates` | src/lemmamind/interval_segmentation.py:569-616 | Both loops together give the candidates whose properties are proved below. |
| `Segmentation.CandidatesPartition` | src/lemmamind/interval_segmentation.py:569-616 | Every delta is in exactly one candidate and at exactly one place. |
| `Segmentation.ExactAssignmentHolds` | src/lemmamind/interval_segmentation.py:253-262 | The final exact-assignment check of a segmentation never fails. |
| `Segmentation.CandidateSound` | src/lemmamind/interval_segmentation_contracts.py:95-104 | Every candidate is valid by its contract, has between one path and the limit, in strict order, and all its members share one latest-touch commit and one path group. |
| `Segmentation.GroupCandidates` | src/lemmamind/interval_segmentation.py:588-615 | The candidates of one group are numbered from 1, all full but the last, and together list the paths of the group in order. |
| `Segmentation.CandidateIdsDecide` | src/lemmamind/interval_segmentation.py:588-615 | Two candidates have one identifier if and only if run, commit, path group and number are the same. |
| `Planning.PlanDeltaTotal` | src/lemmamind/affected_file_planning.py:289-407 | A valid delta is planned if and only if Git's entry types on both sides are known, and the plan then satisfies the planning contract. |
| `Planning.PlanSays` | src/lemmamind/affected_file_planning.py:289-407 | A plan carries its delta over and says of each side, on that side's revision, one of five things, decided by entry type, surface and size, with the reason for it; a modified blob is too large when either side is. |
| `Planning.PlanIdsDecide` | src/lemmamind/affected_file_planning.py:416-419 | Two plans have one identifier if and only if run and delta are the same. |
| `Planning.CaptureScopeSymmetric` | src/lemmamind/affected_file_planning.py:289-407 | A path is requested on exactly one of the two revisions if and only if its delta is a type change with an eligible blob on exactly one side. |
| `Planning.PlanDiff` | src/lemmamind/affected_file_planning.py:196-204 | Planning a diff fails exactly when some delta cannot be planned, and otherwise gives one plan per delta in order. |
| `Planning.CapturePaths` | src/lemmamind/affected_file_planning.py:86-101 | The loop returns the sorted capture scope, the same function the reducer's required paths are proved equal to. |
| `Planning.ScopeMember` | src/lemmamind/affected_file_planning.py:86-101 | A path is in the capture scope of a side exactly when one of its plans requests it there. |
| `Planning.ScopeSays` | src/lemmamind/affected_file_planning.py:86-101 | For a planned diff that is: the path of a delta whose side is an eligible blob, or whose side is absent and its counterpart an eligible blob. |
| `Changes.CompareArtifacts` | src/lemmamind/change_intelligence.py:212-249 | The loop over the locators fails exactly when some locator cannot be classified, and otherwise gives the artifact deltas the lemmas below speak about. |
| `Changes.ArtifactDeltaIff` | src/lemmamind/change_intelligence.py:212-288 | Between reconstructed captures the artifact deltas are exactly those that say of some locator what either capture holds there and in which of the six ways that differs. |
| `Changes.ReconstructedComparable` | src/lemmamind/change_intelligence.py:252-288 | Captures that were reconstructed from the store are always comparable, so the failure branches of classification are unreachable for them. |
| `Changes.ArtifactDeltasIncreasing` | src/lemmamind/change_intelligence.py:212-249 | Artifact deltas come strictly ordered by locator, one per locator at most. |
| `Changes.ArtifactDeltasValid` | src/lemmamind/change_contracts.py:64-129 | Every artifact delta satisfies its contract. |
| `Changes.ArtifactDeltasSwap` | src/lemmamind/change_intelligence.py:212-288 | Swapping the captures swaps every artifact delta: added with removed, previous state with current, in the same order. |
| `Changes.MapFacts` | src/lemmamind/change_intelligence.py:511-543 | The dictionary loop fails exactly when a fact has no captured artifact, lies outside its locator, or repeats a key. |
| `Changes.KeyIff` | src/lemmamind/change_intelligence.py:511-543 | The key of a fact names the locator of its captured artifact, its extractor and version, and what the fact's own locator adds to that of the artifact. |
| `Changes.FactFound` | src/lemmamind/change_intelligence.py:511-543 | In an accepted generation the key of a fact finds exactly that fact. |
| `Changes.CompareKey` | src/lemmamind/change_intelligence.py:290-377 | The loop body for one key fails exactly on a determinism violation and otherwise emits at most the one delta of that key. |
| `Changes.StructuralIff` | src/lemmamind/change_intelligence.py:290-377 | The structural deltas of a lawful comparison are exactly those that say how the facts at some key differ, with both facts, the printed key and the artifact delta they rest on. |
| `Changes.StrictStructural` | src/lemmamind/change_intelligence.py:290-377 | The strict loop fails exactly when some key is a violation, and otherwise gives the structural deltas over the locators captured on both sides. |
| `Changes.GapAwareStructural` | src/lemmamind/gap_aware_change.py:49-146 | The gap-aware loop does the same over the locators without a diagnostic. |
| `Changes.GapAwareRefinesStrict` | src/lemmamind/gap_aware_change.py:49-146 | Gap-aware deltas are exactly the strict ones at paths without a diagnostic, in the same order, and the gap-aware loop never meets a determinism violation where the strict loop meets none. |
| `Changes.MoreDiagnosticsShrink` | src/lemmamind/gap_aware_change.py:49-146 | More diagnostics only remove deltas and never cause a determinism violation. |
| `Changes.SwapRevisions` | src/lemmamind/change_intelligence.py:290-377 | Swapping the revisions swaps added with removed and old values with new, in the same order, and violates determinism in the same cases. |
| `Determinism.NoDeterminismViolation` | src/lemmamind/change_intelligence.py:290-377 | If extraction is a function of locator, media type and content, the determinism violation is unreachable. |
| `Determinism.StructuralBacked` | src/lemmamind/change_intelligence.py:290-377 | Every structural delta is backed by an artifact delta at its locator that is not a change of capture scope. |
| `Determinism.StructuralValid` | src/lemmamind/change_contracts.py:157-177 | Every structural delta satisfies its contract. |
| `Determinism.StructuralPatch` | src/lemmamind/change_intelligence.py:290-377 | Patching the previous facts with the deltas gives the current facts at every comparable locator, up to Python's equality. |
| `Determinism.StructuralPatchExact` | src/lemmamind/change_intelligence.py:290-377 | The patch is exact if and only if no value changed between two values that Python takes for equal. |
| `Determinism.DisguisedChange` | src/lemmamind/change_intelligence.py:290-377 | A fact changing from true to 1 leaves no structural delta. |
| `Determinism.FaultIff` | src/lemmamind/gap_aware_change.py:148-204 | A diagnostic is accepted if and only if it is about this capture, one of its captured artifacts at that artifact's path, and an extractor of the profile. |
| `Determinism.StructuralIdsDistinct` | src/lemmamind/change_intelligence.py:636-646 | Structural identifiers are distinct if and only if no two emitted keys of one locator print alike. |
| `Determinism.PlainKeysPrintApart` | src/lemmamind/change_intelligence.py:636-646 | Extractor names without an at sign, versions without a colon and no relative locator `#root` keep printed keys apart. |
| `Determinism.ShippedKeysArePlain` | src/lemmamind/extraction.py:73-228 | The keys of the facts that the repository's own extractors emit are all of that kind, so their identifiers never coincide. |
| `SampleRuns.TrueToOneIsLost` | src/lemmamind/change_intelligence.py:290-377 | Concrete run: a JSON file that changes from true to 1 gives two generations of one deterministic profile, comparison succeeds with no structural delta, and patching the old facts does not give the new ones. |
| `GapAwareRuns.ExcludedPaths` | src/lemmamind/gap_aware_change.py:148-204 | The excluded paths of a generation are computed exactly when its run authenticates against the store and no stored diagnostic is foreign to the capture or the profile; they are the captured paths of its diagnostics. |
| `GapAwareRuns.ExcludedAreGaps` | src/lemmamind/gap_aware_change.py:49-204 | For a run whose store lists what was collected, gap-aware comparison leaves out exactly the paths on which some extractor failed recoverably. |
| `Reduction.EveryPathAccounted` | src/lemmamind/candidate_reduction.py:308-453 | Every candidate path is in a structural, assertion, artifact-only, git-only or suppressed set. |
| `Reduction.SomeSignal` | src/lemmamind/candidate_reduction.py:395-420 | A candidate always has a signal, so the fallback for none is dead code. |
| `Reduction.SuppressedIsSilent` | src/lemmamind/candidate_reduction.py:676-680 | A policy-suppressed path can carry no artifact, structural or assertion change. |
| `Reduction.FullySuppressedSignals` | src/lemmamind/candidate_reduction.py:407-414 | Overwriting the signals of a fully suppressed candidate changes nothing. |
| `Reduction.ReduceValid` | src/lemmamind/candidate_reduction_contracts.py:71-134 | The reduction of a grounded candidate satisfies every clause of the reduction contract. |
| `Reduction.StructuralCited` | src/lemmamind/candidate_reduction.py:356-366 | A reduction cites exactly the identifiers of the structural deltas at the candidate's paths. |
| `Reduction.ArtifactsCited` | src/lemmamind/candidate_reduction.py:347-354 | It cites exactly the identifiers of the artifact deltas that count at the candidate's paths. |
| `Reduction.PlansCited` | src/lemmamind/candidate_reduction.py:308-337 | It names exactly the plans that decide for the candidate's deltas. |
| `Reduction.ReducedPaths` | src/lemmamind/candidate_reduction.py:308-394 | Which path is listed as captured, as changed in artifact, structure or assertions, as artifact-only and as git-only, each read off the evidence. |
| `Reduction.SuppressedPaths` | src/lemmamind/candidate_reduction.py:338-346 | A path is listed as suppressed if and only if the deciding plan of one of the candidate's deltas captures neither of its sides and suppresses at least one. |
| `Reduction.ReducedVerdict` | src/lemmamind/candidate_reduction.py:395-437 | Header, signals and verdict: each of the five signals is given exactly when its list of paths is not empty, and the verdict is to suppress exactly when every path is suppressed. |
| `Reduction.ReduceCandidate` | src/lemmamind/candidate_reduction.py:308-453 | The reducer, with both special cases at its end, returns the reduction that is proved valid and whose every list the rows above read off the evidence. |
| `ReductionChecks.ValidateCandidateCoverage` | src/lemmamind/candidate_reduction.py:522-566 | The check passes exactly when candidates fit the deltas and assign every delta and path once. |
| `ReductionChecks.ValidatePlanCoverage` | src/lemmamind/candidate_reduction.py:569-609 | The check passes exactly when there is one plan for every delta, of the right path, run and generation. |
| `ReductionChecks.RequiredPaths` | src/lemmamind/candidate_reduction.py:612-633 | The reducer's required paths are the same function of the plans as the planner's capture paths. |
| `ReductionChecks.ValidateCaptureScope` | src/lemmamind/candidate_reduction.py:635-673 | The check passes exactly when a capture holds the requested paths and each in the state its plan asks for. |
| `ReductionChecks.AssertionSignatures` | src/lemmamind/candidate_reduction.py:682-711 | The loop fails exactly on an assertion without a captured artifact, and otherwise gives each path its sorted signatures. |
| `ReductionChecks.SignaturesAuthored` | src/lemmamind/candidate_reduction.py:682-711 | The signatures of a path are those of the assertions authored at its captured artifact, as many of each, and a path has some exactly when an assertion was authored there. |
| `ReductionChecks.SignaturesForgetOrder` | src/lemmamind/candidate_reduction.py:682-711 | Listing the assertions in another order gives the same signatures. |
| `Pipeline.PlanFound` | src/lemmamind/candidate_reduction.py:308-453 | After the checks a plan is found for every delta of a candidate, at the candidate's own path. |
| `Pipeline.SuppressedNotRequired` | src/lemmamind/candidate_reduction.py:612-680 | After the checks a policy-suppressed path is requested on neither revision. |
| `Pipeline.CheckedIsGrounded` | src/lemmamind/candidate_reduction.py:522-673 | The coverage, plan and capture-scope checks together make every candidate grounded. |
| `Pipeline.ReductionTotal` | src/lemmamind/candidate_reduction.py:308-453 | Whenever the checks pass, reduction of every candidate is defined, valid by its contract, and accounts for every path. |
| `Pipeline.ReductionCites` | src/lemmamind/candidate_reduction.py:308-453 | What the reduction of a checked stage names: all plans of the candidate's deltas, all artifact deltas and all structural deltas of the comparison at its paths, and no others. |
| `Pipeline.ReductionLists` | src/lemmamind/candidate_reduction.py:308-394 | A candidate path is listed as captured exactly when some plan requests it, and as changed in assertions exactly when its signatures in the two generations differ. |
| `EndToEnd.CandidatesCover` | src/lemmamind/candidate_reduction.py:522-566 | The candidates of a segmentation always pass the reducer's coverage check. |
| `EndToEnd.PlansCover` | src/lemmamind/candidate_reduction.py:569-609 | The plans of a planning run always pass the reducer's plan check. |
| `EndToEnd.SegmentationExact` | src/lemmamind/interval_segmentation.py:138-310 | A path is in a candidate if and only if its leaf differs between base and head; it is in one candidate only, and that candidate's commit already holds the leaf of head. |
| `EndToEnd.StagesPassChecks` | src/lemmamind/candidate_reduction.py:109-306 | What diff, segmentation, planning, capture and comparison produce passes every check of reduction, and no determinism violation interrupts them. |
| `EndToEnd.ChangedPathReduced` | src/lemmamind/candidate_reduction.py:109-306 | From two Git trees to the end: every changed path is in exactly one candidate, attributed to a commit that holds its final leaf, and accounted for by a valid reduction. |
| `EndToEnd.ScopeChangesAreTypeChanges` | src/lemmamind/change_intelligence.py:212-288 | An artifact delta that adds or removes capture scope exists at a delta's path if and only if the delta is a type change with an eligible blob on exactly one side. |
| `Authentication.AuthenticIsUntampered` | src/lemmamind/change_intelligence.py:461-487 | A listing that reproduces the hashed payload holds exactly the hashed records: nothing added, dropped or altered. |
| `Authentication.AnyOrderAuthenticates` | src/lemmamind/change_intelligence.py:546-599 | If sort keys decide records, every listing order reproduces the payload. |
| `Authentication.SomeOrderFails` | src/lemmamind/change_intelligence.py:546-599 | If they do not, some listing order of the same records fails, so the condition is exact. |
| `Authentication.PlainRunsDecide` | src/lemmamind/extraction.py:560-570 | One version per extractor, one raw value per fact key and canonical line locators make sort keys decide facts and assertions. |
| `Authentication.AssertionKeysCollide` | src/lemmamind/extraction.py:560-570 | Counterexample: two extractor versions hide behind one assertion key. |
| `ExtractionRuns.Collect` | src/lemmamind/extraction_diagnostics.py:136-196 | Collection fails exactly on an inconsistent reference or an unrecoverable extractor failure; otherwise a failing extractor leaves one diagnostic and every other one contributes all it found. |
| `ExtractionRuns.GapsAreFailures` | src/lemmamind/extraction_diagnostics.py:136-196 | A diagnostic is recorded for exactly the invocations that failed recoverably. |
| `ExtractionRuns.PersistCollected` | src/lemmamind/extraction_diagnostics.py:198-302 | The run is written atomically: all its records, or none if one conflicts or has a blank identifier field. |
| `ExtractionRuns.OutputsRecompute` | src/lemmamind/extraction_diagnostics.py:198-302 | The payload hashed at persistence is the one authentication recomputes from the specs. |
| `ExtractionRuns.PersistedIsListed` | src/lemmamind/extraction_diagnostics.py:198-302 | A run persisted under new identifiers is listed back as exactly its stripped specs: none lost, none added. |
| `ExtractionRuns.Authenticate` | src/lemmamind/change_intelligence.py:461-487 | Authentication recomputes the payload from what the store lists for the run. |
| `ExtractionRuns.AuthenticIffListed` | src/lemmamind/change_intelligence.py:461-487 | When keys decide records, a run authenticates if and only if the store lists exactly its records, whatever the order. |
| `ExtractionRuns.PersistedAuthenticates` | src/lemmamind/extraction_diagnostics.py:198-302 | When keys decide records, a persisted run authenticates if and only if stripping changed none of its specs, whatever other runs are persisted after it. |
| `ExtractionRuns.DocstringNeverAuthenticates` | src/lemmamind/python_ast.py:202-220 | Counterexample: a Python file whose documentation string ends in a line break and an indent gives a run that is persisted and never authenticates. |
| `ExtractionRuns.BlankDocstringRefused` | src/lemmamind/python_ast.py:202-220 | Counterexample: a blank documentation string keeps its whole run from being persisted. |
| `ExtractionRuns.StrictNeverAuthentic` | src/lemmamind/change_intelligence.py:461-487 | A run persisted without a diagnostics list never authenticates as gap-tolerant. |
| `CollectedEvidence.FactCollected` | src/lemmamind/extraction_diagnostics.py:136-196 | A fact is collected, under the id of its artifact, if and only if some extractor that takes an artifact the manifest names as captured returns it. |
| `CollectedEvidence.AssertionCollected` | src/lemmamind/extraction_diagnostics.py:136-196 | The same for an assertion. |
| `CollectedEvidence.GapCollected` | src/lemmamind/extraction_diagnostics.py:136-196 | A diagnostic is collected if and only if some extractor failed recoverably on such an artifact, and it says where, by whom and how. |
| `CollectedEvidence.SpecsShared` | src/lemmamind/extraction_diagnostics.py:136-196 | What an extractor returned is shared out over facts and assertions: each spec goes to one of the two lists, once and in order. |
| `CollectedEvidence.KeysCompare` | src/lemmamind/extraction_diagnostics.py:305-316 | What the sort keys of facts and diagnostics look at. |
| `CollectedEvidence.CollectionIsRecorded` | src/lemmamind/extraction_diagnostics.py:198-302 | A run persisted under new identifiers has one record for everything collected, with the artifact it came from and its identifier fields stripped, one for the run, and no other. |
| `LineLocators.ReadPrinted` | src/lemmamind/extraction.py:560-570 | The sort key reads a printed line range back exactly, unless the path holds a line feed, which is then not read. |
| `Store.ContractStore.PutMany` | src/lemmamind/storage.py:117-130 | A batch is written whole or not at all, and fails exactly when one of its records conflicts with the store or with the batch. |
| `Store.ContractStore.Get` | src/lemmamind/storage.py:132-145 | A read returns the record under a name, if there is one. |
| `Store.ContractStore.List` | src/lemmamind/storage.py:147-158 | A listing is the records of one kind, ordered by id. |
| `Store.InsertKeeps` | src/lemmamind/storage.py:67-105 | A consistent batch changes no record that was there. |
| `Store.PutIsIdempotent` | src/lemmamind/storage.py:67-130 | Putting a batch again is accepted and writes nothing. |
| `Store.ListingMember` | src/lemmamind/storage.py:147-158 | A listing holds exactly the records of its kind. |
| `Store.ListingBodies` | src/lemmamind/storage.py:147-158 | A listing gives the records of its kind in the order of their ids. |
| `Store.ListingAfter` | src/lemmamind/storage.py:117-158 | After a batch of new records a listing holds what it held plus what the batch adds of that kind. |
| `SupportGraph.ResolveSupport` | src/lemmamind/observations.py:208-244 | The recursion over one support, on the store, terminates (measure: observations not yet seen) and computes the provenance function. |
| `SupportGraph.ResolveObservation` | src/lemmamind/observations.py:246-279 | The same for one observation and the loop over its edges. |
| `SupportGraph.ResolvesIffSound` | src/lemmamind/observations.py:246-279 | Resolution succeeds if and only if every support path is free of repetition and every observation on one is complete down to bound leaf evidence. |
| `SupportGraph.ResolvesExactly` | src/lemmamind/observations.py:246-279 | What it returns is exactly the revisions of the reachable leaf evidence. |
| `SupportGraph.LeafIff` | src/lemmamind/observations.py:208-320 | A fact or an assertion has a revision if and only if a finished and hashed extraction run drew it from an artifact that the manifest of this revision binds with its content. |
| `SupportGraph.NestedIff` | src/lemmamind/observations.py:208-244 | A supporting observation passes its own check if and only if a finished and hashed reasoning run made it. |
| `SupportGraph.ResolvedNotEmpty` | src/lemmamind/observations.py:208-279 | A resolved support has a revision, so the check for none is dead code. |
| `SupportGraph.ResolversAgree` | src/lemmamind/pattern_intelligence.py:267-324 | The Pattern resolver and the Observation resolver agree on every store, observation and seen set, down to the kind of failure. |
| `Observations.ResolveAll` | src/lemmamind/observations.py:101-113 | The dictionary loop resolves the ordered supports to the union of their revisions, or to the first failure. |
| `Observations.Prepare` | src/lemmamind/observations.py:88-120 | A call passes preparation exactly when claim and statement are not blank, its supports are given and distinct, and they resolve to one common revision. |
| `Observations.CreateV1` | src/lemmamind/observations.py:79-206 | A version 1 call writes its whole batch when accepted and leaves the store alone otherwise; `ObservationRuns.V1Iff` says when it is accepted and `ObservationRuns.NewIsRecorded` what is then stored. |
| `Observations.CreateV2` | src/lemmamind/observations_v2.py:54-205 | A version 2 call writes its whole batch when accepted and leaves the store alone otherwise; `ObservationRuns.V2Iff` says when it is accepted and `ObservationRuns.NewIsRecorded` what is then stored. |
| `Observations.V1IsV2WithinRevision` | src/lemmamind/observations_v2.py:54-205 | On every store version 1 accepts a call if and only if version 2 accepts it and it supersedes nothing of another revision. |
| `ObservationRuns.V1Iff` | src/lemmamind/observations.py:79-206 | Version 1 accepts a call for a revision if and only if claim and statement are not blank, its supports are distinct and each resolves to that revision alone, and what it supersedes makes the same claim of that revision. |
| `ObservationRuns.V2Iff` | src/lemmamind/observations_v2.py:54-205 | Version 2 does so if and only if the same holds, but that what it supersedes makes the same claim of some revision of the same Source. |
| `ObservationRuns.NewIsRecorded` | src/lemmamind/observations_v2.py:150-205 | What an accepted call leaves under its new names: an observation with the call's claim, statement, epistemic type and supersession, not rejected and of the new run; the call's supports as its edges; a finished reasoning run. It supersedes an observation if and only if the call does. |
| `ObservationRuns.ResolutionStable` | src/lemmamind/observations.py:208-279 | An observation that resolves resolves to the same revisions in every later store. |
| `ObservationRuns.NewResolves` | src/lemmamind/observations.py:79-206 | A newly created observation resolves to exactly the revision of its supports. |
| `ObservationRuns.StepKeepsInv` | src/lemmamind/observations_v2.py:54-205 | Every step, of either version or of appended evidence, keeps the store invariant and every earlier resolution. |
| `ObservationRuns.ReachableResolves` | src/lemmamind/observations_v2.py:54-205 | In every reachable store each observation resolves to exactly one revision and its support graph is acyclic and complete. |
| `ObservationRuns.ResolutionIsFinal` | src/lemmamind/observations_v2.py:54-205 | Whatever is appended later, an observation and what it resolves to never change. |
| `ObservationRuns.ReachableSupersession` | src/lemmamind/observations_v2.py:106-131 | In every reachable store a supersession chain is finite, never repeats, and keeps one logical claim and one Source. |
| `Patterns.CheckObservations` | src/lemmamind/pattern_intelligence.py:134-160 | The inner loop passes exactly when the observations of a proposal are distinct, not used before, not rejected and rest on exactly its revision. |
| `Patterns.ScanProposals` | src/lemmamind/pattern_intelligence.py:103-166 | The outer loop passes exactly on sound proposals of distinct revisions and Sources that share no observation, and fills the five sets accordingly. |
| `Patterns.JudgePattern` | src/lemmamind/pattern_intelligence.py:80-179 | Everything checked before a Pattern is written amounts to the soundness of the call, whatever order the proposals come in. |
| `Patterns.CreatePattern` | src/lemmamind/pattern_intelligence.py:80-265 | An accepted Pattern is written whole, a refused one leaves the store alone. |
| `Patterns.PatternIsRecorded` | src/lemmamind/pattern_intelligence.py:180-265 | A Pattern written under new names leaves its own record and its run, an occurrence for every proposal with an edge for each of its observations, and nothing else, each with what the call says. |
| `Patterns.SourcesAreProposals` | src/lemmamind/pattern_intelligence.py:162-179 | The Source sets count proposals: no Source is counted twice towards a threshold. |
| `Patterns.SoundPermutes` | src/lemmamind/pattern_intelligence.py:367-368 | Soundness and counts do not depend on the order of the proposals, so sorting them first changes nothing. |
| `Patterns.LocalIsResolved` | src/lemmamind/pattern_intelligence.py:267-324 | What the Pattern service requires of an observation is what the Observation resolver returns. |
| `Patterns.SoundStaysSound` | src/lemmamind/pattern_intelligence.py:80-265 | What made the proposals acceptable stays true however the store grows. |
| `Registry.ResolveHitFromMetadata` | src/lemmamind/repository_registry.py:116-207 | A call either writes the whole batch of a new resolution, or finds the existing one, or fails; in the last two cases the store is unchanged. `RegistryRuns.CreationRecords` says what the batch holds, and `RegistryRuns.SameMetadata` when an existing resolution is found. |
| `Registry.LatestLocator` | src/lemmamind/repository_registry.py:209-217 | The result is the newest locator of the Source, ids breaking ties, and none exactly when the Source has none. |
| `Registry.NewestIsLatest` | src/lemmamind/repository_registry.py:209-217 | The newest locator has the latest observation of its Source, and the greatest id among those. |
| `Registry.BoundBranchIsDead` | src/lemmamind/repository_registry.py:358-364 | After the provider lookup found no identity, the branch that returns an existing one for the Source is dead. |
| `RegistryRuns.SnapshotDescribes` | src/lemmamind/repository_registry.py:396-433 | A snapshot is taken exactly of metadata that names all four identity fields, and holds what it says field by field: the stripped texts, the two flags as they are, the parent if there is one, and the canonical locator of owner and name. |
| `RegistryRuns.CreationRecords` | src/lemmamind/repository_registry.py:116-207 | What a created resolution leaves in the store: a locator record holding what the metadata says, field by field, under the Source the hit belongs to; a resolution that ties hit, Source, locator and run together; the Source and the identity as they were, or made from the same fields. |
| `RegistryRuns.NewHitAccepted` | src/lemmamind/repository_registry.py:116-207 | An unresolved hit is resolved if and only if it is known with its discovery lineage, the metadata is readable, the clock is not behind its discovery, and a Source can take it. |
| `RegistryRuns.SameMetadata` | src/lemmamind/repository_registry.py:242-289 | Once a call on a resolved hit succeeds, another one does if and only if its metadata agrees with the first one's in every field, white space aside, and it then returns the same records. |
| `RegistryRuns.ConflictRefused` | src/lemmamind/repository_registry.py:242-289 | A hit already resolved is accepted again if and only if the snapshot is the recorded one. |
| `RegistryRuns.CreationKeepsInv` | src/lemmamind/repository_registry.py:116-207 | A new resolution never conflicts with the store and keeps the registry invariant. |
| `RegistryRuns.CreationIsIdempotent` | src/lemmamind/repository_registry.py:242-289 | Resolving the same hit again with the same metadata returns the same records and writes nothing. |
| `RegistryRuns.StepKeepsInv` | src/lemmamind/repository_registry.py:116-207 | Every step of a run keeps the invariant and every record. |
| `RegistryRuns.RegistrySafety` | src/lemmamind/repository_registry.py:291-379 | After every run provider ids and Sources determine each other, and a hit has at most one resolution. |
| `RegistryRuns.ResolvedForGood` | src/lemmamind/repository_registry.py:116-289 | After any further run the same snapshot is accepted with the same records and nothing written, and any other snapshot is refused. |
| `RegistryRuns.SameHit` | src/lemmamind/repository_registry.py:242-289 | Two calls on a resolved hit agree exactly when their snapshots do. |
| `Inference.GatherSupports` | scripts/run_m5_frozen_inference.py:376-390 | The dictionary loop over cited supports returns their set, or the first failure. |
| `Inference.SupportsAccepted` | scripts/run_m5_frozen_inference.py:373-406 | Supports are accepted if and only if they are a non-empty list of citations that all pass, one of them semantic; the result is then what is cited together with every gap of the packet. |
| `Inference.ProposalSupported` | scripts/run_m5_frozen_inference.py:327-415 | Every accepted interpretation cites only the packet, retains all its gaps, has a semantic support, and lists supports in strict order. |
| `Inference.SupportFailureIsLast` | scripts/run_m5_frozen_inference.py:327-406 | A support failure arises only after every other field has passed validation. |
| `Inference.GapAbsentIsDead` | scripts/run_m5_frozen_inference.py:405-406 | The check for a gap cited by a packet without gaps is dead code. |
| `Acceptance.ProposalIsRead` | scripts/run_m5_frozen_inference.py:327-415 | An object is accepted as an interpretation if and only if it says one, and the proposal is then exactly that: mechanism and summary stripped and of 1 to 240 and 1 to 1600 characters, the listed types, the stripped non-blank notes with the coverage note when the packet has gaps, and the cited supports with every gap, each list sorted. |
| `Acceptance.DeclineIsRead` | scripts/run_m5_frozen_inference.py:327-332 | An object is accepted as a decline if and only if it holds the decision to decline and nothing else. |
| `Acceptance.SupportFailureIff` | scripts/run_m5_frozen_inference.py:373-406 | The failures that belong to the supports arise if and only if everything but the supports is acceptable. |
| `RepairLoop.Ask` | scripts/run_m5_frozen_inference.py:306-317 | One prompt retries a timeout once, and times out exactly when both invocations do. |
| `RepairLoop.InferPacket` | scripts/run_m5_frozen_inference.py:418-461 | Against any provider at most 3 prompts and 6 invocations are made, and the outcome is the one the judgement of the outputs determines; a proposal that is returned is what the last output says, and so is a decline. |
| `RepairLoop.LockIsValidated` | scripts/run_m5_frozen_inference.py:196-215 | A lock is only taken from an output whose non-support fields all passed. |
| `RepairLoop.LockStays` | scripts/run_m5_frozen_inference.py:418-461 | Once taken the lock stays. |
| `RepairLoop.LockHolds` | scripts/run_m5_frozen_inference.py:418-461 | After an output in which nothing but the supports is wrong, an accepted output is an interpretation, never a decline, and its types, mechanism, summary and notes are what that earlier output says. |
| `RepairLoop.RepairAccepted` | scripts/run_m5_frozen_inference.py:418-461 | After such an output a later one is accepted if and only if it is an acceptable interpretation in the same words. |
| `RepairLoop.UnhashableEscapes` | scripts/run_m5_frozen_inference.py:169-193 | An output rejected for an unhashable support type makes the repair prompt fail too, so it is never repaired. |
| `IndexedRepair.CanonicalizeIdempotent` | scripts/run_m5_frozen_inference_v13.py:122-164 | Canonicalizing a decision proof twice is canonicalizing it once. |
| `IndexedRepair.CanonicalizeForgetsOrder` | scripts/run_m5_frozen_inference_v13.py:122-164 | The canonical proof does not depend on the order of witnesses or on repeated ones. |
| `RepairSequence.PickEach` | scripts/run_m5_frozen_inference_v13.py:249-292 | The index loop succeeds exactly when every index is in range, and picks each choice once. |
| `RepairSequence.ChosenPass` | scripts/run_m5_frozen_inference_v13.py:249-292 | Supports copied from the choices always pass validation. |
| `RepairSequence.ForbiddenOutside` | scripts/run_m5_frozen_inference_v13.py:83-112 | No forbidden id is ever one the packet allows. |
| `RepairSequence.Thread.Normalized` | scripts/run_m5_frozen_inference_v13.py:249-292 | What normalizing does to the thread state: only an accepted indexed review ends index mode. |
| `RepairSequence.Thread.SequenceForbidden` | scripts/run_m5_frozen_inference_v13.py:83-112 | The forbidden set is that of this packet's sequence so far, plus the invalid ids of the rejected output. |
| `RepairSequence.Thread.RepairPrompt` | scripts/run_m5_frozen_inference_v13.py:295-390 | What a repair prompt does to the thread state, and when it fails. |
| `RepairSequence.Thread.InferPacket` | scripts/run_m5_frozen_inference_v13.py:249-390 | The indexed loop makes at most 3 prompts and 6 invocations, its outcome is the one its outputs and the mode left behind determine, index mode is left on exactly when a repair under the lock was prompted (or it was on before) and no accepted review with indices followed, and the forbidden set is the union of invalid ids in this sequence. |
| `IndexedGuarantees.IndexedFailureIsLast` | scripts/run_m5_frozen_inference_v13.py:249-292 | A support failure leaves nothing unchecked but the supports. |
| `IndexedGuarantees.IndexedLockIsSound` | scripts/run_m5_frozen_inference_v13.py:202-227 | The indexed lock is only taken from an output whose other fields, decision proof included, all passed. |
| `IndexedGuarantees.ReviewSupported` | scripts/run_m5_frozen_inference_v13.py:249-292 | Every accepted review rests on the packet, gaps and decision proof included. |
| `IndexedGuarantees.IndexRepairAccepted` | scripts/run_m5_frozen_inference_v13.py:249-292 | Under the lock, the locked fields with any non-empty list of in-range indices are accepted, with exactly the chosen supports and the gaps. |
| `IndexedGuarantees.UnlockedIndices` | scripts/run_m5_frozen_inference_v13.py:249-292 | Without a lock such an answer is accepted if and only if an earlier sequence of the same packet left index mode on. |
| `IndexedGuarantees.IndicesNeedLock` | scripts/run_m5_frozen_inference_v13.py:249-292 | From a thread without leftover index mode for the packet, indices are accepted only under the lock. |
| `IndexedGuarantees.WorkThrough` | scripts/run_m5_frozen_inference_v13.py:71-80 | A thread that works through packets of distinct keys never meets leftover index mode. |
| `ReviewAcceptance.ReviewIsRead` | scripts/run_m5_frozen_inference_v13.py:249-292 | A review is accepted if and only if the object says one: proposal and decision proof are what it says, and the supports are those it cites or, when its packet is in index mode, those it chooses by number, with every gap of the packet. |
| `ReviewAcceptance.NoReviewIsRead` | scripts/run_m5_frozen_inference_v13.py:249-292 | The indexed validation gives no review if and only if the object declines and says nothing else. |
| `ReviewAcceptance.ProofIsRead` | scripts/run_m5_frozen_inference_v13.py:122-180 | A decision proof is accepted, as a ledger, if and only if it has an entry for each of the five tests and for nothing else, each proven by a list of semantic supports of the packet; the ledger holds exactly these, sorted, test by test. |
| `ReviewAcceptance.ChoicesInOrder` | scripts/run_m5_frozen_inference_v13.py:115-119 | The choices are the assertions and then the structural deltas of the packet, each kind sorted by id. |
| `ReviewAcceptance.ResultIsRead` | scripts/run_m5_frozen_inference_v13.py:295-390 | A run that ends with a verdict ends with what its last output says, in the index mode of that moment. |
| `ReviewAcceptance.ReviewLockHolds` | scripts/run_m5_frozen_inference_v13.py:202-292 | After an output in which nothing but the cited supports is wrong, an accepted output is a review whose types, mechanism, summary, notes and decision proof are what that earlier output says. |
| `ReviewAcceptance.InvalidIsRead` | scripts/run_m5_frozen_inference_v13.py:83-112 | The ids forbidden after a rejected output are exactly those that its supports name, under one of the four types, although the packet does not hold them. |
| `LeftoverMode.TwoSequences` | scripts/run_m5_frozen_inference_v13.py:249-390 | Concrete run on a fresh thread: a first sequence gives up with index mode left on, and a second sequence of the same packet has its first answer, by index and with no lock, accepted. |
| `Locators.EscapeRoundTrip` | src/lemmamind/evidence_inspection.py:376-385 | Every token survives escaping and decoding, tildes, slashes and the text `~1` included, and its escaped form has no slash. |
| `Locators.PrintersAgree` | src/lemmamind/json_evidence.py:81-82 | Walker and inspector print the same pointer. |
| `Locators.PointerRoundTrip` | src/lemmamind/evidence_inspection.py:376-381 | Decoding a printed pointer gives the tokens back. |
| `Locators.Walk` | src/lemmamind/json_evidence.py:38-78 | The recursive walk appends one fact per scalar leaf to the shared list, in document order. |
| `Locators.WalkExact` | src/lemmamind/json_evidence.py:38-78 | A leaf is emitted if and only if the document holds that scalar at that path. |
| `Locators.LocatorsDistinct` | src/lemmamind/json_evidence.py:38-78 | The locators of one document are pairwise distinct. |
| `Locators.ResolveJson` | src/lemmamind/evidence_inspection.py:263-342 | The inspector on one fragment: special paths, then the token loop. |
| `Locators.FollowTokens` | src/lemmamind/evidence_inspection.py:263-342 | The token loop computes the step-by-step resolution the round trip is about. |
| `Locators.RoundTripIff` | src/lemmamind/evidence_inspection.py:263-373 | For every document and media type an emitted locator resolves to the emitted value under its own pointer if and only if the media type does not rewrite its path and enters every list at its number. |
| `Locators.PlainRoundTrip` | src/lemmamind/evidence_inspection.py:263-342 | Under a media type without rules of its own every emitted locator resolves to exactly the emitted value. |
| `Locators.DerivedAnswers` | src/lemmamind/evidence_inspection.py:286-299 | A count or list of names that is not stored answers with the list it is derived from, marked as derived. |
| `Locators.MetadataUnderRepository` | src/lemmamind/evidence_inspection.py:280-284 | Locators of repository metadata, which leave out the object that wraps the document, answer with what a plain pointer through it does. |
| `Locators.WorkflowSearch` | src/lemmamind/evidence_inspection.py:345-373 | In a workflow run a token below `jobs` or `artifacts` names the first entry with that id, below `steps` the first with that number. |
| `GitTrees.CanonicalRootTree` | src/lemmamind/git_tree.py:171-223 | The loop accepts a payload exactly when it has the requested SHA and well-formed entries of distinct slash-free paths, and returns them in path order. |
| `GitTrees.RootDescribes` | src/lemmamind/git_tree.py:171-223 | The canonical root tree holds one good entry for every entry of the payload, saying exactly what the payload says, and nothing else. |
| `GitTrees.ExtractRootTree` | src/lemmamind/git_tree.py:303-330 | The loop emits the facts of the tree and then those of every entry. |
| `GitTrees.RootFactsExact` | src/lemmamind/git_tree.py:303-330 | The facts are exactly these: SHA, recursion, truncation, number of entries and list of paths of the tree; of every entry its type, mode and SHA, and its size when it has one, each with its own value. |
| `GitTrees.RootKeysDistinct` | src/lemmamind/git_tree.py:303-330 | No fact of a tree is emitted twice, whatever characters its paths hold. |
| `GitTrees.EntryResolves` | src/lemmamind/evidence_inspection.py:345-373 | A fact of an entry is found by the entry's path, under the entry's position, with exactly its value. |
| `GitTrees.RootFactsResolve` | src/lemmamind/evidence_inspection.py:263-373 | For every canonical tree each emitted locator resolves: facts of the tree and of its entries to exactly their value, the count and the list of paths, marked as derived, to the list of entries they are computed from. |
| `Utf8.DecodeEncode` | src/lemmamind/evidence_inspection.py:396-399 | Encoded text decodes to itself. |
| `Utf8.DecodedIsEncoded` | src/lemmamind/evidence_inspection.py:396-399 | Only encoded text decodes, so decoding is injective. |
| `Utf8.SliceDecodes` | src/lemmamind/evidence_inspection.py:428-433 | A slice of encoded text that is not empty decodes if and only if both its ends lie between characters. |
| `Slicing.LinesConcat` | src/lemmamind/evidence_inspection.py:388-399 | Lines with their endings, put together, are the data. |
| `Slicing.FirstLineEnds` | src/lemmamind/evidence_inspection.py:388-399 | A line ends at the first line ending or at the end of the data. |
| `Slicing.LinesAreFlat` | src/lemmamind/evidence_inspection.py:388-399 | A line range in bounds is the contiguous run of bytes between two flat offsets, if that decodes; any other range is refused. |
| `Slicing.ColumnsAreFlat` | src/lemmamind/evidence_inspection.py:402-433 | A column range between two positions in line order is the contiguous run of bytes between the two flat offsets in both branches, if that decodes; any other range is refused. |
| `Slicing.ColumnsAlign` | src/lemmamind/evidence_inspection.py:402-433 | On encoded text a column range is accepted if and only if its positions exist, in line order, and both lie between characters, unless it selects nothing. |
| `Slicing.ColumnsAreSubstring` | src/lemmamind/evidence_inspection.py:402-433 | Between two characters a column range is exactly the characters between them. |
| `Slicing.AdjacentSlices` | src/lemmamind/evidence_inspection.py:388-399 | Adjacent line slices put together are the slice of their union. |
| `Slicing.PrintedLinesRead` | src/lemmamind/evidence_inspection.py:153-190 | A printed line suffix is read back as its range and never as a column range. |
| `Slicing.PrintedColumnsRead` | src/lemmamind/evidence_inspection.py:153-190 | A printed column suffix is read back as its range. |
| `Inspection.JsonLocatorRouted` | src/lemmamind/evidence_inspection.py:153-212 | A pointer locator reaches the JSON resolver with exactly its pointer, whatever its keys look like. |
| `Inspection.LineLocatorRouted` | src/lemmamind/evidence_inspection.py:153-212 | A line locator reaches the line slicer with exactly its range. |
| `Inspection.ColumnLocatorRouted` | src/lemmamind/evidence_inspection.py:153-212 | A column locator reaches the column slicer with exactly its range. |
| `Inspection.JsonFactResolves` | src/lemmamind/evidence_inspection.py:153-342 | For a JSON file the whole printed locator of every walked leaf, routed and resolved, gives exactly the value it was printed for, under its own pointer. |
| `Inspection.ProseResolves` | src/lemmamind/evidence_inspection.py:153-212 | The whole printed locator of a prose assertion, routed and sliced, gives text whose stripped lines, joined, are the statement. |
| `Inspection.ItemResolves` | src/lemmamind/evidence_inspection.py:153-212 | The same for a list assertion, once its marker is taken off. |
| `Markdown.StatementOfClean` | src/lemmamind/extraction.py:257-271 | Stripped non-blank lines are joined as they are: nothing is dropped and nothing is left to strip. |
| `Markdown.Flush` | src/lemmamind/extraction.py:257-271 | Closing a paragraph appends exactly the run of prose lines in hand. |
| `Markdown.ExtractProse` | src/lemmamind/extraction.py:246-301 | Emitted ranges are in bounds, disjoint and increasing, carry the joined text of their lines, and cover exactly the non-blank non-excluded lines outside fences. |
| `Markdown.FlushItem` | src/lemmamind/extraction.py:335-353 | Closing a list item appends exactly the item line and its continuation lines. |
| `Markdown.ExtractItems` | src/lemmamind/extraction.py:322-395 | Emitted ranges are in bounds, disjoint and increasing, and one begins at exactly every list-item line outside fences, with its text and continuation. |
| `Markdown.FencesAgree` | src/lemmamind/extraction.py:322-387 | Both scanners see the same fences. |
| `Markdown.RangesAvoidFences` | src/lemmamind/extraction.py:246-387 | No range of either scanner touches a fence line or a line inside a fence. |
| `Markdown.StatementsStripped` | src/lemmamind/extraction.py:246-395 | Statements of either scanner are stripped and not blank, so storing them changes nothing. |
| `Reslicing.EncodedLines` | src/lemmamind/evidence_inspection.py:388-391 | Whatever the text, its encoding breaks into lines where the text has line feeds, carriage returns or the two together. |
| `Reslicing.RangeIsExcerpt` | src/lemmamind/evidence_inspection.py:388-399 | On encoded text a line range is accepted exactly when it is in bounds and is then the excerpt of the text; where text and bytes break alike, the excerpt has exactly the lines asked for. |
| `Reslicing.ProseComesBack` | src/lemmamind/extraction.py:246-292 | Slicing the range of a prose assertion, stripping its lines and joining them gives the statement. |
| `Reslicing.ItemComesBack` | src/lemmamind/extraction.py:322-387 | The same for a list assertion, once its marker is taken off. |
| `Reslicing.OtherBreakShifts` | src/lemmamind/extraction.py:273-275 | Counterexample: a form feed breaks the text but not the bytes, so a later line range is refused. |

## Left out

- EndToEnd.ChangedPathReduced: assumes plain printed keys, which `Determinism.ShippedKeysArePlain` gives for the repository's own extractors; for others `Determinism.StructuralIdsDistinct` gives the exact condition. Deltas are handed on as emitted, which for plain trees (`TreeDiff.PlainDiffRecordable`) is as stored.
- Determinism.StructuralPatch: up to Python's equality, because the code compares with it; `Determinism.StructuralPatchExact` says when it is exact.
- Authentication.PlainRunsDecide: one direction, a condition on extractors that is easy to meet; the exact condition on the records is that sort keys decide them, in `Authentication.AnyOrderAuthenticates` and `Authentication.SomeOrderFails`.
- Locators.PlainRoundTrip: for media types without rules of their own; `Locators.RoundTripIff` covers the others.
- Reslicing.ProseComesBack: for text that breaks only at line feeds and carriage returns, because `str.splitlines` breaks at more characters than `bytes.splitlines`.
- Reslicing.ItemComesBack: for the same text, for the same reason.
- Changes.CompareKey: the strict and the gap-aware loop have separate but equal bodies in the source; here both call this method.
- Segmentation.FirstParentChain: which of its error messages a failing walk gives is not stated; the same holds of the other methods whose contract says when they fail but not with what.
- ExtractionRuns.PersistCollected: `inputs_hash`, timestamps and version fields of a run are not modelled; white space is what Python strips, which differs from what Pydantic strips on the four separators U+001C to U+001F.
- Changes.StrictStructural: the checks of run compatibility and of the strict policy that come before the loop are not modelled.
- Changes.GapAwareStructural: authentication and the excluded paths are in `GapAwareRuns.ExcludedPaths`; the compatibility checks before the loop are not modelled.
- RepairSequence.Thread.SequenceForbidden: the forbidden ids are a set of typed ids; how the prompt groups and sorts them is presentation.
- Registry.ResolveHitFromMetadata: reading a discovered URL as an owner/name pair is a parameter of the call.
- ObservationRuns.ReachableResolves: identifiers from the id factory are assumed not to be in the store yet.
- Markdown.ExtractItems: digits in list markers and in line locators are ASCII digits; Python's `\d` and `isdigit` accept more.
- SHA-256 is modelled by what it hashes, so it is injective; identifiers that join their parts with NUL are tuples of parts.
- Stripping of identifier fields is modelled for extraction records, Git deltas, Observations, Patterns and registry snapshots, where it can change an outcome; elsewhere identifiers are taken as they are, and field types are not coerced.
- Clocks and random identifiers are parameters; JSON parsing, `json.dumps` of normalized values and `str` of JSON values are functions of which nothing is assumed, but that `str` of a string is the string.
- Surface classification of paths is a parameter of the diff and of planning.
- Run compatibility checks before a stage starts (same Source, order of revisions, run types, extractor profiles, tracking policy) are not modelled beyond what the reducer's checks compare.
- What the extractors make of bytes that are not UTF-8, and Python AST, TypeScript, TOML, `pyproject.toml` and `package.json` extraction.
- TOML locators and path-metadata locators are routed but not resolved.
- Workflow locators keyed by job id: uniqueness of job ids is not checked at capture, so `Locators.WorkflowSearch` says which entry is found and no round trip is claimed.
- Identities created by the plain capture service outside the registry.
- GitHub and HTTP readers, subprocesses, thread pools, SQLite, the filesystem, prompt texts, command lines, reports.
- Action policy, triage, review capture, discovery and extraction-gap projection: short folds and groupings that would add easy members only.
