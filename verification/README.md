# Approval-bound plan execution, verified

The agent runs a plan only after a person approved it. A plan is submitted, approved together with a fingerprint of the
workspace, checked again before it runs, locked by its hash, run step by step, and either recorded as EXECUTED or rolled back
and recorded as FAILED. This project models that protocol and the algorithms it leans on, and proves what they guarantee.

Each module follows one part of the program. Code that changes state is a class or a method with loops, proved equal to a
specification function; the properties are then lemmas about those functions.

- `Executor`, `Rollback`, `Workspace`, `Summary`: the step loop, snapshots and undo, the file tools behind the gateway, the
  result classification. `Atomicity` proves that a run applies every mutation or none; `Turns` when a turn completes and what
  ends the loop; `RunReport` and `Turns` what a SUCCESS reports.
- `PlanStore`, `Lifecycle`: the store, and the whole life of plan hashes as a protocol in which submissions, approvals, rewrites
  of plan files, any number of runs, faults and crashes interleave freely. `Consumption` says exactly when a hash is spent.
- `EditEngine`: greedy exact-text matching and the all-or-nothing edit list.
- `Json`, `PlanHash`, `PlanValidator`: the canonical text of a plan, the hash that binds an approval to it, and the typed steps
  that an accepted plan stands for. The executor works on those typed steps.
- `Fingerprint`, `ApprovalGate`: the workspace fingerprint, and what gate and drift check guarantee when a step is reached.
  `FingerprintTwins` gives the exact limit of what the fingerprint can tell apart.
- `CallGraph`, `ArtifactId`, `GitPolicy`, `Capabilities`, `Paths`: impact propagation, artifact ids, the git argument
  recogniser, the token store, workspace paths.
- `Text`, `Ordering`, `Wrappers`, `PlanSchema`: shared definitions.

What the outside world decides is an input: clocks, faults of reads and writes (`StepEnv`, `RunEnv`), how a lock write goes, the
text of an exception, exit codes, token ids, and what else happens to the token files around a step (`TokenTrail`). The digest is any function `sha`; where a result needs it, `CollisionFree`
says that no two texts share a digest. Digests have no fixed length in that hypothesis, because no function of fixed length
satisfies it.

## Where code and documentation differ

- `docs/execution_state_semantics.md` says that a consumed plan can be re-approved and run again. The code never removes a
  written record and looks it up by plan hash, so the same plan can never run again (`Lifecycle.ReapprovalDoesNotReopen`).
- The record is meant to say what happened to the files. A raise after the terminal write re-enters rollback and leaves EXECUTED
  over restored files: `Atomicity.LateFaultSplitsRecordFromFiles` gives the run, `Atomicity.RecordMatchesFiles` says for every
  run which of the two states the files are in.
- An edit without an occurrence number is meant to be unambiguous. Matches are counted without overlaps, so this holds exactly
  for texts that have no proper border (`EditEngine.AmbiguityTestIsExact`).
- `_changed_paths_from_results` is defined twice; the later definition is the one in force and the one modelled.
- The fingerprint is meant to tell any change of the covered files. Among files without line breaks in their names it does
  (`Fingerprint.FingerprintIdentifiesFiles`). Against names with line breaks almost every workspace with two covered files has
  a twin with the same fingerprint; `FingerprintTwins.FingerprintIdentifiesExactly` gives the exact condition.

## Model

| member | source | states |
|---|---|---|
| Lifecycle.EveryScheduleKeepsInv | agent_core/plan_executor.py:748-866 | In every interleaving: a claim has its empty record, a running worker owns its record and holds a plan with the right hash, at most one claim per hash, every step run belongs to the owner of its record, indices increase |
| Lifecycle.AtMostOneRunPerHash | agent_core/plan_executor.py:776-787 | All steps ever run under one hash were run by one run, each at most once and in order |
| Lifecycle.StepsBelongToApprovedPlan | agent_core/preflight.py:26-55 | However plan files are rewritten, a step run under a hash belongs to a plan with that hash, and one hash has one plan for the whole run |
| Lifecycle.ApprovedPlanIsWhatRuns | agent_core/preflight.py:41-47 | What runs under the hash of a submitted plan is that plan up to dictionary order and list versus tuple |
| Lifecycle.ClaimedHashIsUnused | agent_core/plan_store.py:252-262 | While a record is only claimed, so while it may still be unlinked, no step of its hash was run |
| Lifecycle.RecordsAdvance | agent_core/plan_store.py:51-63 | Each protocol step leaves each record alone or moves it forward; it disappears only while claimed and before any step ran |
| Lifecycle.RecordsAreForever | agent_core/plan_store.py:138-157 | A written record keeps its owner in every later state, and a terminal record never changes |
| Lifecycle.CrashStaysConsumed | agent_core/plan_executor.py:776-787 | A run that crashed in flight leaves its record IN_FLIGHT in every later state |
| Lifecycle.ReapprovalDoesNotReopen | agent_core/plan_store.py:245-250 | Once a run owns the record of a hash, every step of that hash in every continuation is that run's, whatever is submitted or approved again |
| Lifecycle.ExecutedMeansEveryStepRan | agent_core/plan_executor.py:801-850 | A record that says EXECUTED means that exactly the plan's steps were run, once each and in order |
| Consumption.HashCanStillRun | agent_core/plan_store.py:245-264 | After any schedule, some continuation runs a step under a hash exactly when the hash has no record, a run is still claiming it, or its run is in flight with steps left; a claim left behind by a crash or a failed unlink blocks it for good |
| Consumption.SpentForGood | agent_core/plan_store.py:138-157 | From any other state no continuation ever runs a step under the hash |
| Consumption.UnusedHashCanComplete | agent_core/plan_executor.py:748-866 | After any schedule, a plan whose hash has no record can still be approved, run and recorded as EXECUTED |
| Lifecycle.UninterruptedPreflight | agent_core/preflight.py:18-55 | The preflight steps without interruption clear a run exactly when the plan and metadata exist, the recomputed hash matches, the drift check passes and the step cap holds; records stay as they are |
| Lifecycle.UninterruptedLock | agent_core/plan_store.py:245-264 | Create and payload write without interruption are the store's lock operation |
| Lifecycle.UninterruptedFailedLock | agent_core/plan_store.py:257-262 | A failed payload write, with or without a successful unlink, is the store's failed lock operation |
| Lifecycle.UninterruptedTransition | agent_core/plan_store.py:138-146 | Reading and overwriting without interruption is the store's checked transition |
| Lifecycle.UninterruptedRecovery | agent_core/plan_executor.py:842-866 | A raise while finalizing leads to the handler once: a run still in flight ends as FAILED, a recorded one stays as recorded, and a raise in the handler ends the run |
| PlanStore.Store.MarkPlanApproved | agent_core/plan_store.py:190-200 | The pending plan becomes the approved one and stops being pending; a missing one changes nothing |
| PlanStore.Store.PreflightExecute | agent_core/preflight.py:18-55 | Preflight decides on the stored plan and metadata, changes nothing, and gives back a plan only when its recomputed hash is the one asked for |
| PlanStore.ApprovalLastsUntilDrift | agent_core/plan_executor.py:76-94 | A plan approved under its own hash passes preflight exactly as long as the fingerprint is the approved one, and always when its drift check is off, whatever else is on file |
| PlanStore.Store.AcquireExecutionLock | agent_core/plan_store.py:245-264 | Exclusive create: succeeds only without a record; a failed payload write removes the record again or leaves it claimed |
| PlanStore.Store.WriteExecutionTransition | agent_core/plan_store.py:138-157 | Overwrites the record exactly when the transition is allowed; terminal records never change |
| Executor.ExecuteStep | agent_core/plan_executor.py:803-835 | One turn of the loop changes files, snapshots and results as the step specification says, for every fault |
| Turns.TurnCompletes | agent_core/plan_executor.py:803-835 | A turn completes exactly when time is left before and after it, its token is issued, its guards are silent, its target is a place in the workspace that is no directory and can be read, and its tool answers without a timeout |
| Turns.CompleteLoopWasQuiet | agent_core/plan_executor.py:803-835 | A loop that ends without an error met no such trouble at any step of the plan, and has one result for each step, in order |
| Turns.OutOfTimeEndsLoop | agent_core/plan_executor.py:805-807 | The first step reached with no time left, or recorded with no time left, ends the loop with the time budget; in the first case it does nothing |
| Turns.OutOfTimeIsReported | agent_core/plan_executor.py:833-866 | Such a run returns TIME_BUDGET_EXCEEDED or raises, and its record is never EXECUTED |
| Executor.FinalizeExecution | agent_core/plan_executor.py:518-587 | The terminal record is written as the transition table allows, with faults before and after it |
| Executor.HandleException | agent_core/plan_executor.py:852-866 | The handler rolls back, classifies the error, finalizes, and lets a second raise escape |
| Executor.ExecutePlan | agent_core/plan_executor.py:748-866 | The whole run, from preflight over the store and the fingerprint of the files to handlers and terminal record, ends in the files, records and outcome of its specification |
| Executor.ExecuteApproved | agent_core/plan_executor.py:760-866 | The run after preflight: step cap, lock, loop, classification, rollback, finalization |
| Atomicity.DenialLeavesNoTrace | agent_core/plan_executor.py:750-787 | A run that preflight, the step cap or the lock denies changes no file and no record, except the mark of a lock write that failed and could not be unlinked |
| Atomicity.CheckedMeansApproved | agent_core/preflight.py:26-55 | What preflight lets through is the approved plan of that hash, with metadata on file and the approved fingerprint |
| Atomicity.RunStaysGuarded | agent_core/plan_executor.py:803-835 | At every point of the loop, each path has its start state or a first snapshot holding it |
| Atomicity.RollbackRestores | agent_core/plan_executor.py:678-742 | Rolling back a guarded run restores each path to its start state, or the report has an error for it |
| Atomicity.GoodStepHasItsEffect | agent_core/plan_executor.py:361-415 | A result that counts as success means the full effect of its step on the file |
| Atomicity.GoodRunHasAllEffects | agent_core/plan_executor.py:803-837 | A loop in which every result is a success leaves the left fold of all steps |
| Atomicity.SuccessAppliesEverything | agent_core/plan_executor.py:801-850 | SUCCESS: every path holds what all steps make of the start state, and the record became EXECUTED |
| Turns.SuccessFoundTargets | tools/fs_tools.py:79-110 | In a SUCCESS, a creation found no file at its target when its step was reached, and every patch found one |
| Turns.NothingIsCreatedTwice | tools/fs_tools.py:101-108 | A run that returns SUCCESS creates no path twice |
| Atomicity.FailureRestoresEverything | agent_core/plan_executor.py:837-866 | Any other status: every path is as at the start or has an error in the rollback report, and the record became FAILED |
| Atomicity.AbortRestoresEverything | agent_core/plan_executor.py:852-866 | A run that raises out of the executor has restored every path whose last undo did not fail |
| Atomicity.FailureReportIsTrue | agent_core/plan_executor.py:720-729 | In the report of a failed run, a restored path holds its start text again and a deleted path is no file, as it was none at the start |
| Atomicity.ExecutedRecordMeansSuccess | agent_core/plan_executor.py:542-558 | The record says EXECUTED exactly when all steps succeeded and the terminal write was reached |
| Atomicity.RecordMatchesFiles | agent_core/plan_executor.py:842-866 | Under EXECUTED the files hold all effects exactly when nothing raised after the terminal write, else the start state |
| Atomicity.LateFaultSplitsRecordFromFiles | agent_core/plan_executor.py:555-574 | A run whose audit write fails after the terminal write ends as EXECUTED with its file removed |
| Atomicity.LateFaultIsPossible | agent_core/plan_executor.py:555-574 | A workspace and a plan for that run exist |
| Rollback.RollbackMutations | agent_core/plan_executor.py:678-742 | The two loops, with the first-seen dictionary, compute the rollback specification and its report |
| Rollback.CollectEarliest | agent_core/plan_executor.py:689-698 | The dictionary loop yields the first snapshot per path, in reverse order of first sight |
| Rollback.UndoAt | agent_core/plan_executor.py:714-729 | One undo rewrites, removes, or reports an error, and stays inside the workspace |
| Rollback.EarliestKeepsFirsts | agent_core/plan_executor.py:689-698 | The kept snapshots have distinct targets and are the first of each |
| Rollback.RollbackAt | agent_core/plan_executor.py:714-729 | What rollback does to any one path, for every snapshot list and every fault |
| Rollback.RollbackStaysInside | agent_core/plan_executor.py:718-719 | A path outside the workspace is never touched |
| Rollback.RollbackEqualsFullReplay | agent_core/plan_executor.py:689-729 | Undoing the earliest snapshot per path equals replaying the whole undo log backwards |
| Rollback.ReportListsEachTargetOnce | agent_core/plan_executor.py:684-729 | Restored, deleted and error entries together hold one entry per distinct target, and an attempt is reported exactly when there was a snapshot |
| Rollback.ReportIsExact | agent_core/plan_executor.py:714-729 | A path is in the restored, deleted or error list exactly when the undo of a target of that path was carried out so, or was refused or raised |
| Rollback.FaultsAreReported | agent_core/plan_executor.py:728-729 | A path whose undo raises is named in the errors |
| Workspace.EditFileIsAtomic | tools/fs_tools.py:112-181 | The file gets the fold of all edits or stays; the length changes by the sum of the edits; `changed` holds exactly when the files differ; a hash mismatch never writes |
| Workspace.EditRefusals | tools/fs_tools.py:112-139 | Why an edit list is refused before any edit is tried: directory, missing file, size, hash, in this order |
| Workspace.EditRefusalIsNumbered | tools/fs_tools.py:143-154 | Past these checks the refusal names the first edit that does not apply, counted from one |
| Workspace.EditReasonTells | tools/fs_tools.py:192-217 | The text of that refusal tells which error it was, and at which edit |
| Workspace.Tree.ApplyPatchTo | tools/fs_tools.py:58-77 | Never raises; answers with an error text exactly when the file is missing or a needed write fails, and otherwise the file holds the new text |
| Workspace.Tree.CreateFileAt | tools/fs_tools.py:79-110 | Answers exactly when the content is at most 65536 bytes, the parent is a directory, nothing is at the path and the write is clean; every refusal raises and changes no file |
| Workspace.Tree.PatchEditAt | tools/fs_tools.py:112-181 | Edits as the specification says, and leaves all files alone unless every condition holds |
| Workspace.CommandChangesWhatItTouches | tools/gateway.py:255-415 | A command that runs leaves each path it touches in the state it wrote there and every other path alone; one that is refused or cannot start changes nothing |
| Workspace.TokenCheckIsLiveness | tools/gateway.py:44-66 | With fresh ids, the token check lets a step through exactly when its token was neither taken away nor expired since the executor issued it |
| Workspace.Tree.ExecuteCall | tools/gateway.py:44-466 | For a new token id: carried out exactly when the step may run, otherwise refused in its tool's own way with no file changed |
| Workspace.GatewayDecides | policy/engine.py:12-68 | A git command runs exactly when the git grammar accepts it and, for init, add and commit, its token stays live; a file step exactly when its token stays live, its target is in the workspace and its path holds none of the three patterns; a test run exactly when directory, arguments and token allow it |
| Workspace.TokenComesFirst | tools/gateway.py:44-80 | A token that was taken away is refused as REVOKED_TOKEN and an expired one as EXPIRED_TOKEN, before any policy |
| Workspace.IssuedTokenIsExact | agent_core/plan_executor.py:191-225 | A step's own token grants its own action for 300 seconds, on its own file when it has one, and nothing else |
| Workspace.CreateFileExactly | tools/fs_tools.py:79-110 | When a creation answers, when it raises, and what it leaves, for every size, parent, occupant and write |
| Workspace.ApplyPatchExactly | tools/fs_tools.py:58-77 | When a whole-file patch reports an error, and what it leaves |
| Summary.SuccessMeansEveryResult | agent_core/plan_executor.py:361-415 | The run counts as SUCCESS exactly when nothing raised and every single result is a success |
| Summary.FirstTestDecides | agent_core/plan_executor.py:361-383 | The first message test that an error passes decides its status; without one it is FAILED |
| Turns.SuccessIsExact | agent_core/plan_executor.py:385-415 | A started run returns SUCCESS exactly when every turn completed, every reply is the one its step is meant to get (exit code 0 for commands; a denied test run passes too), and finalizing did not raise |
| Turns.FirstBadIsReported | agent_core/plan_executor.py:385-415 | Otherwise the first bad reply of a complete loop decides: TEST_FAILURE for a test run, PATCH_REJECTED for a patch, FAILED for a git command |
| Summary.TestSummary | agent_core/plan_executor.py:307-333 | The counting loop counts all, the passed and the failed tests, and every test is one of the two |
| Summary.CountsMean | agent_core/plan_executor.py:307-333 | A test passed when its command ended with exit code 0 in time, and failed in every other case, denied ones included |
| Summary.SuccessFailsOnlyDeniedTests | agent_core/plan_executor.py:385-395 | When all results are successes, the tests counted as failed are exactly the denied ones |
| Summary.SummaryPaths | agent_core/plan_executor.py:430-449 | The path lists of the summary: created paths once each in the order of their first writes, then the modified paths that are not among them, in their own order |
| Summary.CollectPaths | agent_core/plan_executor.py:253-292 | The collecting loops yield exactly the written paths, once each, in the order of their first writes |
| Summary.MergePaths | agent_core/plan_executor.py:295-306 | The first list, then exactly what the second adds, in the order it has there |
| Summary.NamedInOrder | agent_core/plan_executor.py:253-292 | Of two listed paths, the earlier one was first written by an earlier result |
| Summary.MergeKeepsOrder | agent_core/plan_executor.py:295-306 | What the second list adds keeps its relative order |
| Summary.ChangedPathsAreExact | agent_core/plan_executor.py:253-306 | The changed paths name, once each, exactly the paths some result reports as written |
| RunReport.ValidatedTestsAreNotDenied | tools/gateway.py:255-311 | With validated steps, and TEST_RUN tokens that are new, not taken away and unexpired when the gateway looks, the gateway denies no TEST_RUN, whatever else fails |
| RunReport.TestIsDeniedForItsToken | tools/gateway.py:294-311 | A validated TEST_RUN with a new token id is denied exactly when its token was taken away or expired |
| RunReport.SuccessCountsDenialsAsFailures | agent_core/plan_executor.py:385-395 | On SUCCESS the failed tests are exactly the denied ones |
| RunReport.SuccessMeansTestsPassed | agent_core/plan_executor.py:307-333 | For validated steps whose test tokens stay live, a run that returns SUCCESS has no failed test among its results: all passed |
| RunReport.TimeoutEndsLoop | agent_core/plan_executor.py:828-835 | In every run only the last result can be a timeout, and then the time budget ended the loop |
| RunReport.TimeoutIsReported | agent_core/plan_executor.py:361-391 | A run in which some command timed out returns TIME_BUDGET_EXCEEDED or raises, never another status |
| RunReport.ChangedTextIsNamed | agent_core/plan_executor.py:430-449 | When a run returns SUCCESS, every path whose text a mutation changed is named in the changed paths of its results |
| Turns.ChangedPathsAreTrue | agent_core/plan_executor.py:430-449 | When a run returns SUCCESS, its changed paths are exactly the paths of creations, whole-file patches, and edit lists that changed their file |
| EditEngine.ScanPositions | tools/fs_tools.py:197-205 | The search loop terminates and yields the greedy match list |
| EditEngine.ApplySingleEdit | tools/fs_tools.py:183-220 | One edit: no-op, refusal, or replacement of the chosen match |
| EditEngine.ApplyEdits | tools/fs_tools.py:141-154 | The edits fold from left to right and stop at the first that does not apply |
| EditEngine.GreedyMatches | tools/fs_tools.py:200-205 | Every position in the list is a match |
| EditEngine.GreedyIsSpaced | tools/fs_tools.py:200-205 | Positions strictly increase and do not overlap |
| EditEngine.GreedySkipsNothing | tools/fs_tools.py:200-205 | No match starts in a gap or after the last position |
| EditEngine.GreedyIsMaximum | tools/fs_tools.py:200-205 | No family of pairwise non-overlapping occurrences is larger than the list |
| EditEngine.GreedyAttainsMaximum | tools/fs_tools.py:200-205 | The list itself is such a family |
| EditEngine.GreedyFindsAllWhenBorderFree | tools/fs_tools.py:200-205 | For a text without a proper border the list holds every occurrence |
| EditEngine.AmbiguityTestIsExact | tools/fs_tools.py:210-213 | A single greedy match means a single occurrence, on every content, exactly when the text has no proper border |
| EditEngine.NoOpEditNeedsNoMatch | tools/fs_tools.py:192-193 | An edit with equal texts succeeds on any content |
| EditEngine.RealEditReplacesChosenMatch | tools/fs_tools.py:207-220 | A real edit is accepted exactly when the requested match exists, and replaces that match only |
| EditEngine.UnqualifiedEditIsUnambiguous | tools/fs_tools.py:210-213 | A real edit accepted without occurrence on a border-free text hits its only occurrence |
| EditEngine.FoldLength | tools/fs_tools.py:141-154 | The length changes by exactly the sum of the edits' length changes |
| EditEngine.FoldFailsAtFirstBadEdit | tools/fs_tools.py:141-154 | A rejection names the first edit that cannot be applied to the result of the earlier ones |
| Json.LoadsPrinted | agent_core/plan_hash.py:22-29 | Reading a printed value gives the value back, compact and indented (sections 4, 5 and 7 of RFC 8259) |
| Json.HexEscapeReads | agent_core/plan_store.py:78-80 | Four hexadecimal digits stand for their character (section 7 of RFC 8259) |
| Json.PrintIsInjective | agent_core/plan_hash.py:22-29 | Different values print differently |
| Json.CompactLayout | agent_core/plan_hash.py:24-29 | The compact text is the parts joined by bare commas and colons |
| Json.EscapeLength | agent_core/plan_hash.py:24-29 | Which characters are escaped, and how long their escapes are |
| Json.PlainTextIsKept | agent_core/plan_hash.py:24-29 | Text without quotes, backslashes and control characters prints as itself |
| PlanHash.CanonDecidesEquivalence | agent_core/plan_hash.py:9-19 | Two values have the same canonical form exactly when they are equal up to dictionary order and list versus tuple |
| PlanHash.CanonicalJsonIdentifiesPlan | agent_core/plan_hash.py:22-29 | Two plans have the same canonical text exactly when they are the same plan up to that |
| PlanHash.HashIdentifiesPlan | agent_core/plan_hash.py:32-34 | Under a collision-free digest, so do their hashes |
| PlanHash.StoredPlanReloads | agent_core/plan_store.py:66-100 | Storing a plan and loading it again gives the same plan with the same hash |
| PlanHash.StepReads | agent_core/plan_store.py:70-71 | A stored step needs its three fields, may leave out its arguments, and has no others |
| PlanHash.PlanReads | agent_core/plan_store.py:70-76 | A stored plan needs a non-blank id and a list of steps, and may leave out its metadata |
| PlanValidator.ValidatePlan | agent_core/plan_validator.py:155-214 | The validator accepts exactly the valid plans, hands back for each step the call that the step is a well-formed record of, and a duplicate it reports is one |
| PlanValidator.CallStandsFor | agent_core/plan_validator.py:50-153 | A step is accepted as a call exactly when it is a well-formed record of that call: tool, capability, and every argument of all five tools under its own key |
| PlanValidator.RecordedCallIsAccepted | agent_core/plan_validator.py:50-153 | The record of every well-formed call is accepted, as that call |
| PlanValidator.AcceptedStepsAreSafe | agent_core/plan_validator.py:28-153 | Every mutation of an accepted plan targets a strict descendant of the root, on which gate, token and snapshot agree; every TEST_RUN is allowed |
| PlanValidator.SuccessOfAcceptedPlan | agent_core/plan_validator.py:131-141 | A run under the hash of an accepted plan that returns SUCCESS, with test tokens that stayed live, has no failed test: all passed |
| PlanValidator.HashFixesTypedSteps | agent_core/preflight.py:41-44 | A plan file with the hash of an accepted plan is accepted too and stands for the same typed steps |
| PlanValidator.RunsTypedSteps | agent_core/plan_executor.py:750-803 | Whatever plan file preflight lets through under the hash of an accepted plan, the run goes through that plan's typed steps |
| PlanValidator.RunStepsAreTheAcceptedSteps | agent_core/plan_executor.py:750-758 | In every interleaving, what runs under the hash of an accepted plan are that plan's typed steps |
| PlanValidator.StoredPlanKeepsItsSteps | agent_core/plan_store.py:66-100 | The stored form of an accepted plan reads back as an accepted plan with the same typed steps |
| Fingerprint.ComputeWorkspaceFingerprint | agent_core/workspace_fingerprint.py:20-43 | The loop with its skip conditions yields the digest of the rows of the covered files in sorted order |
| Fingerprint.HashFile | agent_core/workspace_fingerprint.py:12-17 | Feeding a file in chunks hashes the whole file |
| Fingerprint.RowIsUnambiguous | agent_core/workspace_fingerprint.py:40 | A row determines path, size and digest, even when the path holds the separator |
| Fingerprint.PayloadIdentifiesEntries | agent_core/workspace_fingerprint.py:24-42 | Payloads agree exactly when covered paths, sizes and digests agree, without any assumption on collisions |
| Fingerprint.FingerprintIdentifiesFiles | agent_core/workspace_fingerprint.py:20-43 | Under a collision-free digest, fingerprints agree exactly when the covered files and their texts agree |
| Fingerprint.CoveredMeans | agent_core/workspace_fingerprint.py:28-35 | A file is left out exactly when it is under `plans` or `.runtime_state`, has a `__pycache__` part, or has the suffix `.pyc` |
| Fingerprint.DriftCheckSees | agent_core/workspace_fingerprint.py:20-43 | Creating, changing or removing one file changes the fingerprint exactly when the file is covered |
| FingerprintTwins.PayloadIdentifiesExactly | agent_core/workspace_fingerprint.py:24-42 | The payload identifies plainly named files among all properly named ones exactly when at most one file is covered, or the last is a top-level `.pyc` and all but the last two are top-level `.p` or `.py` |
| FingerprintTwins.FingerprintIdentifiesExactly | agent_core/workspace_fingerprint.py:20-43 | Under a collision-free digest, the drift check tells such files from all others exactly under that condition |
| FingerprintTwins.NewlineMakesPayloadAmbiguous | agent_core/workspace_fingerprint.py:40-42 | In every other case there are different files, with proper names that hold line breaks, and the same payload, for every digest |
| ApprovalGate.ValidatePlanApprovalGate | agent_core/plan_executor.py:160-187 | The gate passes exactly when every step passes on the files at hand, and otherwise reports the first offending step |
| ApprovalGate.ProblemMeans | agent_core/plan_executor.py:137-187 | The gate's verdict on a mutation, reason by reason: the path, the target and the parent |
| ApprovalGate.ApprovePlan | agent_core/plan_executor.py:76-94 | Approval moves the plan and records the fingerprint exactly when it was pending and passed the gate; a refusal changes nothing |
| ApprovalGate.PresenceWhenReached | agent_core/plan_executor.py:803-835 | When step k is reached, a path is a file exactly when it was one at the start or an earlier step created it |
| ApprovalGate.ReachedStepsFindTheirTargets | agent_core/plan_executor.py:868-889 | When approval and preflight both passed, a covered target is a file when its step is reached exactly when the step patches it or an earlier step of the plan created it |
| CallGraph.CalledBy | agent_core/workspace_graph.py:102-107 | The direct callers, sorted and without duplicates; only function ids are accepted |
| CallGraph.IdsMean | agent_core/workspace_graph.py:297-301 | Function and test ids are the texts of FUNC and TEST artifacts |
| CallGraph.ImpactedFunctions | agent_core/workspace_graph.py:275-294 | The worklist terminates with exactly the functions that reach a changed one, on any graph, cycles included |
| CallGraph.ImpactedTests | agent_core/workspace_graph.py:253-272 | Exactly the tests whose function reaches a change, sorted and without duplicates |
| CallGraph.CounterpartOfTest | agent_core/workspace_graph.py:268 | The text replacement on a TEST id yields the FUNC id of the same path and symbol |
| ArtifactId.ParseThenPrint | agent_core/artifact_id.py:33-49 | Printing a parsed id gives the text back, and the id is valid |
| ArtifactId.PrintThenParse | agent_core/artifact_id.py:20-49 | Parsing a printed id gives it back exactly when its path has no `::` and, before a symbol, no final colon |
| ArtifactId.ParsedExactly | agent_core/artifact_id.py:39-49 | A text parses as an id exactly when it is that id's text and the id is valid and survives its text form |
| ArtifactId.ValidMeans | agent_core/artifact_id.py:20-31 | The ids the constructor takes, kind by kind |
| ArtifactId.PartsAreClean | agent_core/artifact_id.py:42 | No part of a split id holds the separator, and none but the last ends in a colon |
| GitPolicy.ValidateGitRun | policy/git_policy.py:49-126 | The recogniser accepts exactly the command lines of the grammar, and none that names a place outside the workspace; the reason is that of its specification |
| GitPolicy.AcceptedPathsAreInside | policy/git_policy.py:92-123 | Every accepted argument of add and diff that is no allowed flag, and every one after the separator, resolves into the workspace; other subcommands take flags and their values only; and flags and such paths are all that add and diff ask for |
| GitPolicy.RefusalIsNamed | policy/git_policy.py:83-123 | After arguments that fit, the first one that does not gives the reason of the refusal |
| GitPolicy.ParseArguments | policy/git_policy.py:78-126 | The index-driven loops decide as the recursive scan of the remaining arguments |
| GitPolicy.HardDenyOnlyChangesReason | policy/git_policy.py:83-86 | The hard-deny check never changes whether arguments are accepted |
| GitPolicy.AcceptedDerives | policy/git_policy.py:78-126 | Accepted arguments derive from the grammar |
| GitPolicy.DerivedIsAccepted | policy/git_policy.py:78-126 | Arguments that derive from the grammar are accepted |
| GitPolicy.DecisionIsGrammar | policy/git_policy.py:49-126 | A command line is accepted exactly when it is one of the grammar's, with or without the hard-deny check |
| Capabilities.TokenStore.IssueToken | policy/capabilities.py:113-132 | A token expires its lifetime after now, and the history grows by its issue |
| Capabilities.TokenStore.RevokeToken | policy/capabilities.py:135-144 | The id is revoked and no longer stored |
| Capabilities.TokenStore.RevokeAllTokens | policy/capabilities.py:147-154 | The history grows by a revoke-all |
| Capabilities.TokenStore.ValidateToken | policy/capabilities.py:157-200 | A use is allowed exactly when the history says so: last issue live and granting, no revocation on record; the reason follows the order of the checks |
| Capabilities.AllowedMeansCovered | policy/capabilities.py:157-200 | Over every history with fresh ids, a use is allowed exactly when an unexpired issue with the action and a matching scope was not taken away since |
| Capabilities.AllowedExactly | policy/capabilities.py:157-200 | For every history, ids reused or not, a use is allowed exactly when the last issue of the id lives and grants it and every revocation of the id was forgotten with the revocation file |
| Capabilities.ScopeMeans | policy/capabilities.py:226-268 | An empty scope allows everything, an unknown key nothing, a path scope only texts that resolve to its own place, a prefix scope those at or below it |
| Capabilities.ReasonTellsWhy | policy/capabilities.py:190-198 | With fresh ids, the reason tells which condition on the live token failed first |
| Capabilities.NoLiveIssueIsRevoked | policy/capabilities.py:178-186 | An id without a live issue is refused as revoked |
| Capabilities.AllowedWasIssued | policy/capabilities.py:157-200 | Even without fresh ids an allowed use has such an issue behind it |
| Capabilities.RevokedStaysRevoked | policy/capabilities.py:135-154 | A revoked id, or one issued before a revoke-all, is refused as revoked in every later state, whatever files are lost |
| Capabilities.ExpiryIsFinal | policy/capabilities.py:190-192 | An expired token stays refused while the clock does not run backwards |
| Capabilities.ReusedIdComesBack | policy/capabilities.py:135-154 | Without fresh ids a revoked id can come back once the revocation file is lost |
| Capabilities.LiveStepTokenIsAllowed | agent_core/plan_executor.py:191-225 | While a step's token is live and unexpired, the token check lets that step through: a mutation on its own file, a command as it is |
| Capabilities.StepTokenIsExact | agent_core/plan_executor.py:191-225 | A step token on a validated path covers its own action on its own file until it expires, and nothing else |
| Paths.SafePathIsStrictDescendant | agent_core/plan_validator.py:28-47 | An accepted path resolves to the same strict descendant of the root in every later boundary check |
| Paths.SafePathsAreDistinct | agent_core/plan_validator.py:28-47 | Accepted paths written differently name different files |
| Paths.SafePathMeans | agent_core/plan_validator.py:28-47 | A path is accepted exactly when it is names joined by slashes, with backslashes read as slashes, not blank, without a null byte or a drive letter |
| Paths.UpThenDown | policy/capabilities.py:216-221 | Resolution drops one component for each step up, stops at the top, and appends proper components |
| Paths.RenderResolves | policy/capabilities.py:203-223 | An absolute path written as text resolves back to itself, whatever the root |
| Paths.TokenScopeMatchesTarget | agent_core/plan_executor.py:205-211 | The scope written for an accepted path binds to exactly the step's target |

## Left out

- Lifecycle.ApprovedPlanIsWhatRuns: identifies plans up to dictionary order and list versus tuple, because the hash sees no more; `PlanValidator.RunStepsAreTheAcceptedSteps` says that the typed steps are the same.
- Atomicity.SuccessAppliesEverything: speaks of paths that the plan's commands leave alone, because the code promises nothing about what TEST_RUN and GIT_RUN write.
- Atomicity.FailureRestoresEverything: the same, and the restored state is decoded text, because reading and writing text normalises line ends.
- Fingerprint.FingerprintIdentifiesFiles: assumes names without line breaks on both sides, because without that it is false; `FingerprintTwins.FingerprintIdentifiesExactly` says when.
- FingerprintTwins.PayloadIdentifiesExactly: speaks of files without line breaks in their names, and does not bound the length of the twin's names, because file systems differ in it.
- ApprovalGate.ReachedStepsFindTheirTargets: assumes that a failed patch write leaves some text in its file, because the file system decides that.
- Capabilities.TokenStore.LoseFile: a lost or unreadable file reads as its default; a file replaced by other valid JSON is not modelled.
- Symbolic links, encodings, line-end translation and partial visibility of writes: files are a map from resolved path to text, and directories stay as they are during a run.
- File size is the size of the encoded text; fingerprints are taken over texts, not raw bytes.
- White space and letter case are those of ASCII.
- Lone surrogates in JSON escapes and non-finite floats.
- A step id `True` in a plan passes the validator as 1 while it prints as `true` in the hash; step ids are integers here.
- How the tools read arguments the validator would refuse: the reading of a step is arbitrary there, and the validator's on accepted steps.
- The argument rules of `policy/cmd_policy.py`: an arbitrary predicate on TEST_RUN arguments that validator and gateway share.
- Error messages of the validator beyond the kind of the first error; the extra checks on approval metadata and on the format of a requested hash.
- The token id that the executor writes into a step's arguments while it runs, after the hash was checked.
- The check of metadata against a later approval of the same plan: a run is compared with whatever metadata is on file when it looks.
- Audit log, timestamps and transaction ids: writes of the log are assumed to succeed, except where a fault is an explicit input.
- The failing step id and the attempted-step counts of the reports: they describe the last recorded result, not always the failing step.
- `impacted_tests_for_modules`, `select_tests_for_changes` and the extraction of call edges from source text.
- Two plans with different hashes that run at once on overlapping paths: the code promises no isolation.
- Concurrent changes of the token files: load, modify and save are not atomic, so histories are sequential.
- The planner, command dispatch, the autonomy budget, strategy proposals and history health reports.
