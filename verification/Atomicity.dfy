/** The executor against its atomic specification: every mutation of the plan, or the files as they were. */
module Atomicity {

  import opened Wrappers
  import opened Text
  import opened Paths
  import opened EditEngine
  import opened Workspace
  import opened Rollback
  import opened Summary
  import opened PlanSchema
  import opened PlanStore
  import opened Fingerprint
  import opened Executor
  import PlanHash

  // ---------------------------------------------------------------------------
  // The atomic specification
  // ---------------------------------------------------------------------------

  /** What one step is meant to do to the files, with no faults and no commands in the way. */
  function Effect(cfg: Config, files: Files, call: Call): Files {
    match Target(cfg, call)
    case None => files
    case Some(p) =>
      match call
      case PatchApply(_, newContent) => files[p := newContent]
      case FileCreate(_, content) => files[p := content]
      case PatchEdit(_, edits, _) =>
        if p in files && FoldEdits(files[p], edits, 1).Success? then files[p := FoldEdits(files[p], edits, 1).value]
        else files
      case _ => files
  }

  /** The left fold of all steps from step `i` on. */
  function AllEffects(cfg: Config, files: Files, steps: seq<Step>, i: nat): Files
    requires i <= |steps|
    decreases |steps| - i
  {
    if i == |steps| then files else AllEffects(cfg, Effect(cfg, files, steps[i].call), steps, i + 1)
  }

  /** The plan's commands leave `p` alone. */
  ghost predicate Spared(envs: nat -> StepEnv, p: Path) {
    forall i :: p !in envs(i).touched
  }

  /** Some error entry of the report names `p`. */
  ghost predicate ErrorAt(cfg: Config, report: Report, p: Path) {
    exists path :: path in report.errors && ResolveUnder(cfg.root, path) == Some(p)
  }

  // ---------------------------------------------------------------------------
  // A failed run: every changed target has its start state in a snapshot
  // ---------------------------------------------------------------------------

  /** `p` still has its start state, or its first snapshot holds that state. */
  ghost predicate Guarded(st: RunState, start: Files, p: Path) {
    match FirstFor(st.snapshots, p)
    case None => StateAt(st.files, p) == StateAt(start, p)
    case Some(s) => s.before == StateAt(start, p)
  }

  /** Snapshots name their target by a path that resolves to it. */
  ghost predicate SnapshotsResolve(cfg: Config, snapshots: seq<Snapshot>) {
    forall s :: s in snapshots ==> ResolveUnder(cfg.root, s.path) == Some(s.target)
  }

  lemma AttemptSparesOthers(cfg: Config, files: Files, call: Call, q: Path, denial: Option<string>, env: StepEnv,
                            p: Path)
    requires p !in env.touched && (call.Mutates() ==> p != q)
    ensures StateAt(Attempt(cfg, files, call, q, denial, env).0, p) == StateAt(files, p)
  {
  }

  lemma PerformSparesOthers(cfg: Config, files: Files, call: Call, q: Path, env: StepEnv, p: Path)
    requires p !in env.touched && (call.Mutates() ==> p != q)
    ensures StateAt(Perform(cfg, files, call, q, env).0, p) == StateAt(files, p)
  {
    AttemptSparesOthers(cfg, files, call, q, Denial(cfg.root, call, q, env.tokens), env, p);
  }

  lemma StepStaysGuarded(cfg: Config, st: RunState, step: Step, env: StepEnv, start: Files, p: Path)
    requires Guarded(st, start, p) && SnapshotsResolve(cfg, st.snapshots) && p !in env.touched
    ensures var next := TryStep(cfg, st, step, env).0;
            Guarded(next, start, p) && SnapshotsResolve(cfg, next.snapshots)
  {
    if !step.call.Mutates() {
      ExecutedFiles(cfg, st, step, env);
      PerformSparesOthers(cfg, st.files, step.call, TargetOr(cfg, step.call), env, p);
    } else if Target(cfg, step.call).Some? {
      var q := Target(cfg, step.call).value;
      var captured := Capture(cfg, st.files, step, q, env);
      if captured.Success? {
        MutationStaysGuarded(cfg, st, step, captured.value, env, start, p);
      }
    }
  }

  /** Running the tool leaves the snapshots alone, and changes files only as the gateway does. */
  lemma ExecutedFiles(cfg: Config, st: RunState, step: Step, env: StepEnv)
    ensures var next := ExecuteAndRecord(cfg, st, step, env).0;
            && next.snapshots == st.snapshots
            && (next.files == st.files
                || next.files == Perform(cfg, st.files, step.call, TargetOr(cfg, step.call), env).0)
  {
  }

  lemma MutationStaysGuarded(cfg: Config, st: RunState, step: Step, s: Snapshot, env: StepEnv, start: Files, p: Path)
    requires step.call.Mutates() && Target(cfg, step.call) == Some(s.target) && s.before == StateAt(st.files, s.target)
    requires s.path == step.call.path
    requires Guarded(st, start, p) && SnapshotsResolve(cfg, st.snapshots) && p !in env.touched
    ensures var next := ExecuteAndRecord(cfg, st.(snapshots := st.snapshots + [s]), step, env).0;
            Guarded(next, start, p) && SnapshotsResolve(cfg, next.snapshots)
  {
    FirstForOfAppend(st.snapshots, s, p);
    ExecutedFiles(cfg, st.(snapshots := st.snapshots + [s]), step, env);
    if p != s.target {
      PerformSparesOthers(cfg, st.files, step.call, s.target, env, p);
    }
  }

  lemma {:induction false} RunStaysGuarded(cfg: Config, st: RunState, steps: seq<Step>, envs: nat -> StepEnv, i: nat,
                                           start: Files, p: Path)
    requires i <= |steps| && Spared(envs, p)
    requires Guarded(st, start, p) && SnapshotsResolve(cfg, st.snapshots)
    ensures var end := RunSteps(cfg, st, steps, envs, i).0;
            Guarded(end, start, p) && SnapshotsResolve(cfg, end.snapshots)
    decreases |steps| - i
  {
    if i < |steps| {
      StepStaysGuarded(cfg, st, steps[i], envs(i), start, p);
      var (next, error) := TryStep(cfg, st, steps[i], envs(i));
      if error.None? {
        RunStaysGuarded(cfg, next, steps, envs, i + 1, start, p);
      }
    }
  }

  /** Rolling back a guarded run returns `p` to its start state, or the report has an error for `p`. */
  lemma RollbackRestores(cfg: Config, st: RunState, faults: Faults, start: Files, p: Path)
    requires Guarded(st, start, p) && SnapshotsResolve(cfg, st.snapshots) && Placed(start, cfg.dirs, p)
    ensures var (files, report) := RollbackFiles(cfg, st.files, st.snapshots, faults);
            && (StateAt(files, p) == StateAt(start, p) || ErrorAt(cfg, report, p))
            && (p !in faults ==> StateAt(files, p) == StateAt(start, p))
            && Guarded(st.(files := files), start, p)
  {
    RollbackAt(cfg, st.files, st.snapshots, faults, p);
    FirstForFindsTarget(st.snapshots, p);
    if FirstFor(st.snapshots, p).Some? && p in faults {
      FaultsAreReported(cfg, st.files, st.snapshots, faults, p);
    }
  }

  // ---------------------------------------------------------------------------
  // A successful run: every step had its full effect
  // ---------------------------------------------------------------------------

  ghost predicate AllGood(results: seq<Record>) {
    forall r :: r in results ==> ResultStatus(r) == SUCCESS
  }

  lemma StepExtendsResults(cfg: Config, st: RunState, step: Step, env: StepEnv)
    ensures st.results <= TryStep(cfg, st, step, env).0.results
  {
  }

  lemma {:induction false} RunExtendsResults(cfg: Config, st: RunState, steps: seq<Step>, envs: nat -> StepEnv, i: nat)
    requires i <= |steps|
    ensures st.results <= RunSteps(cfg, st, steps, envs, i).0.results
    decreases |steps| - i
  {
    if i < |steps| {
      StepExtendsResults(cfg, st, steps[i], envs(i));
      var (next, error) := TryStep(cfg, st, steps[i], envs(i));
      if error.None? {
        RunExtendsResults(cfg, next, steps, envs, i + 1);
      }
    }
  }

  /** What a turn that does not raise recorded, and that it ran the tool. */
  lemma CompletedStep(cfg: Config, st: RunState, step: Step, env: StepEnv) returns (reply: Reply)
    requires TryStep(cfg, st, step, env).1.None?
    ensures var next := TryStep(cfg, st, step, env).0;
            && next.results == st.results + [Record(step.stepId, step.call, reply)]
            && Perform(cfg, st.files, step.call, TargetOr(cfg, step.call), env) == (next.files, Replied(reply))
            && (step.call.Mutates() ==> Target(cfg, step.call).Some?)
  {
    reply := Perform(cfg, st.files, step.call, TargetOr(cfg, step.call), env).1.reply;
  }

  /** A reply that counts as a success comes with the full effect on `p`, whatever the gateway's refusal was. */
  lemma GoodReplyHasItsEffect(cfg: Config, files: Files, step: Step, denial: Option<string>, env: StepEnv, reply: Reply,
                              p: Path)
    requires step.call.Mutates() ==> Target(cfg, step.call).Some?
    requires Attempt(cfg, files, step.call, TargetOr(cfg, step.call), denial, env).1 == Replied(reply)
    requires ResultStatus(Record(step.stepId, step.call, reply)) == SUCCESS && p !in env.touched
    ensures StateAt(Attempt(cfg, files, step.call, TargetOr(cfg, step.call), denial, env).0, p)
         == StateAt(Effect(cfg, files, step.call), p)
  {
    if step.call.PatchEdit? {
      EditFileIsAtomic(cfg, files, TargetOr(cfg, step.call), step.call.edits, step.call.expectedHash, env.write);
    }
  }

  /** A successful result means the full effect on `p`. */
  lemma GoodStepHasItsEffect(cfg: Config, st: RunState, step: Step, env: StepEnv, p: Path)
    requires TryStep(cfg, st, step, env).1.None? && AllGood(TryStep(cfg, st, step, env).0.results)
    requires p !in env.touched
    ensures StateAt(TryStep(cfg, st, step, env).0.files, p) == StateAt(Effect(cfg, st.files, step.call), p)
  {
    var reply := CompletedStep(cfg, st, step, env);
    var r := Record(step.stepId, step.call, reply);
    assert r in TryStep(cfg, st, step, env).0.results;
    assert ResultStatus(r) == SUCCESS;
    var denial := Denial(cfg.root, step.call, TargetOr(cfg, step.call), env.tokens);
    GoodReplyHasItsEffect(cfg, st.files, step, denial, env, reply, p);
  }

  lemma EffectIsLocal(cfg: Config, f: Files, g: Files, call: Call, p: Path)
    requires StateAt(f, p) == StateAt(g, p)
    ensures StateAt(Effect(cfg, f, call), p) == StateAt(Effect(cfg, g, call), p)
  {
  }

  lemma {:induction false} GoodRunHasAllEffects(cfg: Config, st: RunState, steps: seq<Step>, envs: nat -> StepEnv,
                                                i: nat, model: Files, p: Path)
    requires i <= |steps| && Spared(envs, p)
    requires RunSteps(cfg, st, steps, envs, i).1.None? && AllGood(RunSteps(cfg, st, steps, envs, i).0.results)
    requires StateAt(st.files, p) == StateAt(model, p)
    ensures StateAt(RunSteps(cfg, st, steps, envs, i).0.files, p) == StateAt(AllEffects(cfg, model, steps, i), p)
    decreases |steps| - i
  {
    if i < |steps| {
      var next := TryStep(cfg, st, steps[i], envs(i)).0;
      RunExtendsResults(cfg, next, steps, envs, i + 1);
      GoodStepHasItsEffect(cfg, st, steps[i], envs(i), p);
      EffectIsLocal(cfg, st.files, model, steps[i].call, p);
      GoodRunHasAllEffects(cfg, next, steps, envs, i + 1, Effect(cfg, model, steps[i].call), p);
    }
  }

  // ---------------------------------------------------------------------------
  // The refinement
  // ---------------------------------------------------------------------------

  /** The steps that preflight lets through. */
  function StepsAt(l: Launch): seq<Step> {
    match CheckedPlan(l)
    case Failure(_) => []
    case Success(plan) => StepsOf(l.cfg, plan)
  }

  /** The step loop of a run. */
  function Loop(l: Launch): (RunState, Option<string>) {
    RunSteps(l.cfg, RunState(l.files, [], []), StepsAt(l), l.env.steps, 0)
  }

  /** The loop up to step `k`. */
  function LoopUpTo(l: Launch, k: nat): (RunState, Option<string>)
    requires k <= |StepsAt(l)|
  {
    RunSteps(l.cfg, RunState(l.files, [], []), StepsAt(l)[..k], l.env.steps, 0)
  }

  /** The run got past every check and holds the lock. */
  predicate Starts(l: Launch) {
    && CheckedPlan(l).Success?
    && |StepsAt(l)| <= 25
    && l.hash !in l.markers
    && l.env.lock.PayloadWritten?
  }

  /** All steps completed and every result is a success. */
  predicate Succeeds(l: Launch) {
    Loop(l).1.None? && ClassifyResults(Loop(l).0.results) == SUCCESS
  }

  /** Preflight lets a plan through only when it is the approved one, has the hash, and the drift check passes. */
  lemma CheckedMeansApproved(l: Launch)
    requires CheckedPlan(l).Success?
    ensures l.env.preflightFault.None?
    ensures l.hash in l.approvals.plans && CheckedPlan(l) == Success(l.approvals.plans[l.hash])
    ensures PlanHash.ComputePlanHash(l.cfg.sha, l.approvals.plans[l.hash]) == l.hash
    ensures l.hash in l.approvals.metas
    ensures DriftCheckPasses(l.approvals.metas[l.hash],
        WorkspaceFingerprint(l.cfg.sha, l.cfg.root, l.files, l.env.scan))
  {
  }

  /** A run that preflight, the step cap or the lock denies raises and changes no file, and only a failed lock write can
      leave a mark. */
  lemma DenialLeavesNoTrace(l: Launch)
    requires !Starts(l)
    ensures var (after, marks, outcome) := Execute(l);
            && after == l.files && outcome.Aborted?
            && (marks == l.markers || (l.env.lock.PayloadFailed? && !l.env.lock.unlinked &&
                marks == l.markers[l.hash := Claimed]))
  {
  }

  /** The handler never ends in SUCCESS, and leaves a terminal record as it is. */
  lemma RecoverFails(cfg: Config, st: RunState, markers: Markers, h: Hash, run: nat, error: string, env: RunEnv)
    requires h in markers && (markers[h] == InFlight(run) || markers[h] == Executed(run) || markers[h] == Failed(run))
    ensures var (after, marks, outcome) := Recover(cfg, st, markers, h, run, error, env);
            && (outcome.Returned? ==>
                outcome.status == ClassifyError(error) != SUCCESS && outcome.results == st.results &&
                    outcome.report.Some?
                && markers[h] == InFlight(run) && marks == markers[h := Failed(run)])
            && (Terminal(markers[h]) ==> outcome.Aborted? && marks == markers)
            && (markers[h] == InFlight(run) ==> marks == markers || marks == markers[h := Failed(run)])
  {
  }

  /** How a run ends whose loop left `st` and `error`: when it succeeds, and what record it leaves. */
  ghost predicate EndsAsItWent(st: RunState, error: Option<string>, markers: Markers, h: Hash, run: nat, env: RunEnv,
                               end: (Files, Markers, Outcome))
  {
    var (after, marks, outcome) := end;
    var good := error.None? && ClassifyResults(st.results) == SUCCESS;
    && (outcome.Returned? ==> outcome.results == st.results)
    && (outcome.Returned? && outcome.status == SUCCESS <==> good && env.finalize == FinalizeEnv(None, None))
    && (outcome.Returned? && outcome.status == SUCCESS ==> after == st.files && marks == markers[h := Executed(run)])
    && (h in marks && marks[h].Executed? <==> good && env.finalize.before.None?)
    && (h in marks && marks[h].Executed? && env.finalize.after.Some? ==> outcome.Aborted?)
    && (outcome.Returned? && outcome.status != SUCCESS ==> outcome.report.Some? && marks == markers[h := Failed(run)])
  }

  /** The outcomes of the part after the loop, for any loop result. */
  lemma ConcludeSucceeds(cfg: Config, st: RunState, error: Option<string>, markers: Markers, h: Hash, run: nat,
                         env: RunEnv)
    requires h in markers && markers[h] == InFlight(run)
    ensures EndsAsItWent(st, error, markers, h, run, env, Conclude(cfg, st, error, markers, h, run, env))
  {
    if error.Some? {
      RecoverFails(cfg, st, markers, h, run, error.value, env);
    } else {
      var status := Classify(st.results, None);
      var files := if status == SUCCESS then st.files else RollbackFiles(cfg, st.files, st.snapshots, env.rollback).0;
      var (next, raised) := Finalize(markers, h, run, status, env.finalize);
      if raised.Some? {
        RecoverFails(cfg, st.(files := files), next, h, run, raised.value, env);
      }
    }
  }

  /** After the loop, a run that does not end in SUCCESS has put `p` back or reports an error for it. */
  lemma ConcludeRestores(cfg: Config, st: RunState, error: Option<string>, markers: Markers, h: Hash, run: nat,
                         env: RunEnv,
                         start: Files, p: Path)
    requires Guarded(st, start, p) && SnapshotsResolve(cfg, st.snapshots) && Placed(start, cfg.dirs, p)
    ensures var (after, marks, outcome) := Conclude(cfg, st, error, markers, h, run, env);
            && (outcome.Returned? && outcome.status != SUCCESS ==>
                StateAt(after, p) == StateAt(start, p) ||
                    (outcome.report.Some? && ErrorAt(cfg, outcome.report.value, p)))
            && (outcome.Aborted? && p !in env.recoveryRollback ==> StateAt(after, p) == StateAt(start, p))
  {
    RollbackRestores(cfg, st, env.recoveryRollback, start, p);
    RollbackRestores(cfg, st, env.rollback, start, p);
    var undone := RollbackFiles(cfg, st.files, st.snapshots, env.rollback).0;
    RollbackRestores(cfg, st.(files := undone), env.recoveryRollback, start, p);
  }

  /** A started run is the loop followed by its conclusion. */
  lemma StartedRun(l: Launch)
    requires Starts(l)
    ensures var (st, error) := Loop(l);
            Execute(l) == Conclude(l.cfg, st, error, l.markers[l.hash := InFlight(l.run)], l.hash, l.run, l.env)
  {
  }

  /** How a started run ends. */
  lemma StartedOutcome(l: Launch)
    requires Starts(l)
    ensures EndsAsItWent(Loop(l).0, Loop(l).1, l.markers[l.hash := InFlight(l.run)], l.hash, l.run, l.env, Execute(l))
  {
    StartedRun(l);
    ConcludeSucceeds(l.cfg, Loop(l).0, Loop(l).1, l.markers[l.hash := InFlight(l.run)], l.hash, l.run, l.env);
  }

  /** SUCCESS: `p` holds what all steps make of the start state, and the record says EXECUTED. */
  lemma SuccessAppliesEverything(l: Launch, p: Path)
    requires Spared(l.env.steps, p)
    ensures var (after, marks, outcome) := Execute(l);
            outcome.Returned? && outcome.status == SUCCESS ==>
            && StateAt(after, p) == StateAt(AllEffects(l.cfg, l.files, StepsAt(l), 0), p)
            && l.hash !in l.markers && marks == l.markers[l.hash := Executed(l.run)]
  {
    if Starts(l) {
      StartedOutcome(l);
      if Succeeds(l) {
        LoopAppliesEverything(l, p);
      }
    } else {
      DenialLeavesNoTrace(l);
    }
  }

  lemma LoopAppliesEverything(l: Launch, p: Path)
    requires Spared(l.env.steps, p) && Succeeds(l)
    ensures StateAt(Loop(l).0.files, p) == StateAt(AllEffects(l.cfg, l.files, StepsAt(l), 0), p)
  {
    SuccessMeansEveryResult(Loop(l).0.results, None);
    GoodRunHasAllEffects(l.cfg, RunState(l.files, [], []), StepsAt(l), l.env.steps, 0, l.files, p);
  }

  /** Any other status: `p` is as it was when the run started, or the report has an error for it; the record says
      FAILED. */
  lemma FailureRestoresEverything(l: Launch, p: Path)
    requires Spared(l.env.steps, p) && Placed(l.files, l.cfg.dirs, p)
    ensures var (after, marks, outcome) := Execute(l);
            outcome.Returned? && outcome.status != SUCCESS ==>
            && outcome.report.Some?
            && (StateAt(after, p) == StateAt(l.files, p) || ErrorAt(l.cfg, outcome.report.value, p))
            && l.hash !in l.markers && marks == l.markers[l.hash := Failed(l.run)]
  {
    if Starts(l) {
      StartedOutcome(l);
      StartedRunRestores(l, p);
    } else {
      DenialLeavesNoTrace(l);
    }
  }

  lemma StartedRunRestores(l: Launch, p: Path)
    requires Starts(l) && Spared(l.env.steps, p) && Placed(l.files, l.cfg.dirs, p)
    ensures var (after, marks, outcome) := Execute(l);
            && (outcome.Returned? && outcome.status != SUCCESS ==>
                StateAt(after, p) == StateAt(l.files, p) ||
                    (outcome.report.Some? && ErrorAt(l.cfg, outcome.report.value, p)))
            && (outcome.Aborted? && p !in l.env.recoveryRollback ==> StateAt(after, p) == StateAt(l.files, p))
  {
    var (st, error) := Loop(l);
    StartedRun(l);
    RunStaysGuarded(l.cfg, RunState(l.files, [], []), StepsAt(l), l.env.steps, 0, l.files, p);
    ConcludeRestores(l.cfg, st, error, l.markers[l.hash := InFlight(l.run)], l.hash, l.run, l.env, l.files, p);
  }

  /** A run that raises has rolled back too, whether it was denied or failed while finalizing. */
  lemma AbortRestoresEverything(l: Launch, p: Path)
    requires Spared(l.env.steps, p) && Placed(l.files, l.cfg.dirs, p) && p !in l.env.recoveryRollback
    ensures var (after, marks, outcome) := Execute(l);
            outcome.Aborted? ==> StateAt(after, p) == StateAt(l.files, p)
  {
    if Starts(l) {
      StartedRunRestores(l, p);
    } else {
      DenialLeavesNoTrace(l);
    }
  }

  // ---------------------------------------------------------------------------
  // The rollback report
  // ---------------------------------------------------------------------------

  /** A listed path tells what became of the file it names: restored to its start text, or no file as at the start. */
  ghost predicate TellsTheTruth(report: Report, start: Files, after: Files, path: string, p: Path) {
    && (path in report.restored ==> StateAt(start, p).Some? && StateAt(after, p) == StateAt(start, p))
    && (path in report.deleted ==> StateAt(start, p).None? && StateAt(after, p).None?)
  }

  lemma FirstNamedTarget(cfg: Config, snapshots: seq<Snapshot>, path: string, p: Path, q: Path)
    requires SnapshotsResolve(cfg, snapshots) && ResolveUnder(cfg.root, path) == Some(p)
    requires FirstFor(snapshots, q).Some? && FirstFor(snapshots, q).value.path == path
    ensures q == p
  {
    FirstForFindsTarget(snapshots, q);
  }

  lemma ListedMeansVerdict(cfg: Config, st: RunState, faults: Faults, path: string, p: Path, verdict: Verdict)
    requires SnapshotsResolve(cfg, st.snapshots) && ResolveUnder(cfg.root, path) == Some(p)
    requires path in Listed(RollbackFiles(cfg, st.files, st.snapshots, faults).1, verdict)
    ensures FirstFor(st.snapshots, p).Some?
    ensures VerdictOf(cfg, StateAt(st.files, p), FirstFor(st.snapshots, p).value, faults) == verdict
  {
    ReportIsExact(cfg, st.files, st.snapshots, faults, path, verdict);
    var q :| FirstFor(st.snapshots, q).Some? && FirstFor(st.snapshots, q).value.path == path
             && VerdictOf(cfg, StateAt(st.files, q), FirstFor(st.snapshots, q).value, faults) == verdict;
    FirstNamedTarget(cfg, st.snapshots, path, p, q);
  }

  lemma RollbackReportIsTrue(cfg: Config, st: RunState, faults: Faults, start: Files, path: string, p: Path)
    requires SnapshotsResolve(cfg, st.snapshots) && ResolveUnder(cfg.root, path) == Some(p) && Guarded(st, start, p)
    ensures var (files, report) := RollbackFiles(cfg, st.files, st.snapshots, faults);
            TellsTheTruth(report, start, files, path, p) && Guarded(st.(files := files), start, p)
  {
    var (files, report) := RollbackFiles(cfg, st.files, st.snapshots, faults);
    RollbackAt(cfg, st.files, st.snapshots, faults, p);
    FirstForFindsTarget(st.snapshots, p);
    if path in Listed(report, Restored) {
      ListedMeansVerdict(cfg, st, faults, path, p, Restored);
    }
    if path in Listed(report, Deleted) {
      ListedMeansVerdict(cfg, st, faults, path, p, Deleted);
    }
  }

  lemma ConcludeTellsTheTruth(cfg: Config, st: RunState, error: Option<string>, markers: Markers, h: Hash, run: nat,
                              env: RunEnv,
                              start: Files, path: string, p: Path)
    requires SnapshotsResolve(cfg, st.snapshots) && ResolveUnder(cfg.root, path) == Some(p) && Guarded(st, start, p)
    ensures var (after, marks, outcome) := Conclude(cfg, st, error, markers, h, run, env);
            outcome.Returned? && outcome.report.Some? ==> TellsTheTruth(outcome.report.value, start, after, path, p)
  {
    RollbackReportIsTrue(cfg, st, env.recoveryRollback, start, path, p);
    RollbackReportIsTrue(cfg, st, env.rollback, start, path, p);
    var undone := RollbackFiles(cfg, st.files, st.snapshots, env.rollback).0;
    RollbackReportIsTrue(cfg, st.(files := undone), env.recoveryRollback, start, path, p);
  }

  /** The report of a failed run is true: a restored path holds its start text again, a deleted path is no file, as it
      was none at the start. */
  lemma FailureReportIsTrue(l: Launch, path: string, p: Path)
    requires ResolveUnder(l.cfg.root, path) == Some(p) && Spared(l.env.steps, p)
    ensures var (after, marks, outcome) := Execute(l);
            outcome.Returned? && outcome.report.Some? ==> TellsTheTruth(outcome.report.value, l.files, after, path, p)
  {
    if Starts(l) {
      var (st, error) := Loop(l);
      StartedRun(l);
      RunStaysGuarded(l.cfg, RunState(l.files, [], []), StepsAt(l), l.env.steps, 0, l.files, p);
      ConcludeTellsTheTruth(l.cfg, st, error, l.markers[l.hash := InFlight(l.run)],
          l.hash, l.run, l.env, l.files, path, p);
    } else {
      DenialLeavesNoTrace(l);
    }
  }

  // ---------------------------------------------------------------------------
  // The record and the files
  // ---------------------------------------------------------------------------

  /** The record says EXECUTED exactly for a run whose loop succeeded and that reached the terminal write. */
  lemma ExecutedRecordMeansSuccess(l: Launch)
    requires l.hash !in l.markers
    ensures var (after, marks, outcome) := Execute(l);
            && (l.hash in marks && marks[l.hash].Executed? <==> Starts(l) && Succeeds(l) && l.env.finalize.before.None?)
            && (l.hash in marks && marks[l.hash].Executed? ==>
                if l.env.finalize.after.None? then outcome.Returned? && outcome.status == SUCCESS else outcome.Aborted?)
  {
    if Starts(l) {
      StartedOutcome(l);
    } else {
      DenialLeavesNoTrace(l);
    }
  }

  /** EXECUTED stands for applied files, unless something raises after the terminal write: then for rolled-back ones. */
  lemma RecordMatchesFiles(l: Launch, p: Path)
    requires l.hash !in l.markers
    requires Spared(l.env.steps, p) && Placed(l.files, l.cfg.dirs, p) && p !in l.env.recoveryRollback
    ensures var (after, marks, outcome) := Execute(l);
            l.hash in marks && marks[l.hash].Executed? ==>
            StateAt(after, p) ==
            if l.env.finalize.after.None? then StateAt(AllEffects(l.cfg, l.files, StepsAt(l), 0), p)
            else StateAt(l.files, p)
  {
    ExecutedRecordMeansSuccess(l);
    SuccessAppliesEverything(l, p);
    AbortRestoresEverything(l, p);
  }

  // ---------------------------------------------------------------------------
  // A run where the record and the files disagree
  // ---------------------------------------------------------------------------

  /** A step with a live token and no fault. */
  const CALM := StepEnv(false, None, None, None, TokenTrail([], "t", 0, [], 0), Clean, Some(0), None, map[], false)

  /** No fault but one, just after the terminal write. */
  function LateFault(scan: seq<Path>): RunEnv {
    RunEnv(scan, None, PayloadWritten, (i: nat) => CALM, map[], FinalizeEnv(None, Some("audit log unavailable")),
           map[], FinalizeEnv(None, None))
  }

  /** The step creates the file `p`, and nothing stands in its way. */
  ghost predicate CreatesNewFile(cfg: Config, files: Files, call: Call, p: Path) {
    && call.FileCreate? && Target(cfg, call) == Some(p)
    && IsPath(p) && FileAllowed(cfg.root, p)
    && HasParent(cfg.dirs, p) && p !in cfg.dirs && p !in files
    && Utf8Size(call.content) <= MAX_CREATE_SIZE_BYTES
  }

  /** Any approved plan that creates one new file, hit by that fault: the record says EXECUTED and the file is gone. */
  lemma LateFaultSplitsRecordFromFiles(l: Launch, scan: seq<Path>, p: Path)
    requires l.env == LateFault(scan) && l.hash !in l.markers && CheckedPlan(l).Success?
    requires |StepsAt(l)| == 1 && CreatesNewFile(l.cfg, l.files, StepsAt(l)[0].call, p)
    ensures var (after, marks, outcome) := Execute(l);
            && l.hash in marks && marks[l.hash].Executed? && outcome.Aborted? && StateAt(after, p).None?
            && StateAt(AllEffects(l.cfg, l.files, StepsAt(l), 0), p).Some?
  {
    LoneCreateSucceeds(l, p);
    ExecutedRecordMeansSuccess(l);
    AbortRestoresEverything(l, p);
  }

  lemma CalmCreate(cfg: Config, st: RunState, step: Step, p: Path)
    requires CreatesNewFile(cfg, st.files, step.call, p)
    ensures TryStep(cfg, st, step, CALM) ==
            (RunState(st.files[p := step.call.content],
                      st.snapshots + [Snapshot(step.stepId, step.call.path, p, None)],
                      st.results + [Record(step.stepId, step.call, Reply.Created)]), None)
  {
    TokenCheckIsLiveness(cfg.root, step.call, p, CALM.tokens);
  }

  lemma LoneCreateSucceeds(l: Launch, p: Path)
    requires |StepsAt(l)| == 1 && CreatesNewFile(l.cfg, l.files, StepsAt(l)[0].call, p)
    requires l.env.steps(0) == CALM
    ensures Succeeds(l)
    ensures StateAt(AllEffects(l.cfg, l.files, StepsAt(l), 0), p).Some?
  {
    var start, steps := RunState(l.files, [], []), StepsAt(l);
    CalmCreate(l.cfg, start, steps[0], p);
    var next := TryStep(l.cfg, start, steps[0], CALM).0;
    assert RunSteps(l.cfg, next, steps, l.env.steps, 1) == (next, None);
    assert ClassifyResults(next.results) == ClassifyResults([]);
    assert AllEffects(l.cfg, Effect(l.cfg, l.files, steps[0].call), steps, 1) == Effect(l.cfg, l.files, steps[0].call);
  }

  /** A path too short for any sensitive pattern passes the file policy. */
  lemma ShortPathIsAllowed(root: Path, p: Path)
    requires Under(root, p) && |Render(p)| < 4
    ensures FileAllowed(root, p)
  {
  }

  lemma PlainNameIsNew(cfg: Config)
    requires cfg.root == [] && cfg.dirs == {[]}
    ensures CreatesNewFile(cfg, map[], FileCreate("a", ""), ["a"])
  {
    var p: Path := ["a"];
    SplitOfUnseparated("a", '/');
    WalkDown([], p);
    assert [] + p == p && p[..0] == [];
    assert Render(p) == "/" + "a";
    ShortPathIsAllowed([], p);
  }

  lemma CheckedWhenApproved(l: Launch)
    requires l.env.preflightFault.None? && l.hash in l.approvals.plans && l.hash in l.approvals.metas
    requires PlanHash.ComputePlanHash(l.cfg.sha, l.approvals.plans[l.hash]) == l.hash
    requires DriftCheckPasses(l.approvals.metas[l.hash],
        WorkspaceFingerprint(l.cfg.sha, l.cfg.root, l.files, l.env.scan))
    ensures CheckedPlan(l) == Success(l.approvals.plans[l.hash])
  {
  }

  /** A plan approved on an empty workspace, with `call` for each of its steps. */
  function FirstLaunch(sha: string -> string, allowed: seq<string> -> bool, plan: Plan, call: Call): Launch {
    var h := PlanHash.ComputePlanHash(sha, plan);
    var meta := Meta(WorkspaceFingerprint(sha, [], map[], []), true);
    Launch(Config([], {[]}, sha, allowed, (step: ToolStep) => call), map[],
           Approvals(map[h := plan], map[h := meta]), map[],
           h, 0, LateFault([]))
  }

  lemma FirstLaunchIsChecked(sha: string -> string, allowed: seq<string> -> bool, plan: Plan, call: Call)
    ensures CheckedPlan(FirstLaunch(sha, allowed, plan, call)) == Success(plan)
  {
    CheckedWhenApproved(FirstLaunch(sha, allowed, plan, call));
  }

  /** Such a run exists. */
  lemma LateFaultIsPossible(sha: string -> string, allowed: seq<string> -> bool) returns (l: Launch, p: Path)
    ensures l.cfg.sha == sha && l.cfg.testArgvAllowed == allowed
    ensures l.env == LateFault([]) && l.hash !in l.markers && CheckedPlan(l).Success?
    ensures |StepsAt(l)| == 1 && CreatesNewFile(l.cfg, l.files, StepsAt(l)[0].call, p)
  {
    var plan := Plan("p", [ToolStep(1, "FILE_CREATE", "file.create", [])], []);
    l, p := FirstLaunch(sha, allowed, plan, FileCreate("a", "")), ["a"];
    FirstLaunchIsChecked(sha, allowed, plan, FileCreate("a", ""));
    PlainNameIsNew(l.cfg);
  }
}
