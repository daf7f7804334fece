/** The transactional plan executor: the step loop, its failure paths, and what it leaves behind. */
module Executor {

  import opened Wrappers
  import opened Text
  import opened Paths
  import opened EditEngine
  import opened Workspace
  import opened Rollback
  import opened Summary
  import opened PlanSchema
  import opened PlanStore
  import opened Fingerprint

  const TIME_BUDGET := "time budget exceeded"
  const STEP_CAP := "step cap exceeded"
  const ESCAPES := "file path escapes workspace"
  const NOT_A_FILE := "mutation target is not file"

  datatype RunState = RunState(files: Files, snapshots: seq<Snapshot>, results: seq<Record>)

  // ---------------------------------------------------------------------------
  // One step
  // ---------------------------------------------------------------------------

  /** The file a mutation step targets, when its path resolves into the workspace. */
  function Target(cfg: Config, call: Call): Option<Path> {
    if call.Mutates() then ResolveUnder(cfg.root, call.path) else None
  }

  function TargetOr(cfg: Config, call: Call): Path {
    match Target(cfg, call) case Some(p) => p case None => []
  }

  /** Read the target before the step; a directory there raises. */
  function Capture(cfg: Config, files: Files, step: Step, p: Path, env: StepEnv): Result<Snapshot, string>
    requires step.call.Mutates()
  {
    if env.snapshotError.Some? then Failure(env.snapshotError.value)
    else if p in cfg.dirs then Failure(NOT_A_FILE)
    else Success(Snapshot(step.stepId, step.call.path, p, StateAt(files, p)))
  }

  /** Run the tool and record its result; a raise or an exceeded budget ends the run. */
  function ExecuteAndRecord(cfg: Config, st: RunState, step: Step, env: StepEnv): (RunState, Option<string>) {
    if env.guardError.Some? then (st, env.guardError)
    else
      var (files, response) := Perform(cfg, st.files, step.call, TargetOr(cfg, step.call), env);
      match response
      case Raised(message) => (st.(files := files), Some(message))
      case Replied(reply) =>
        (st.(files := files, results := st.results + [Record(step.stepId, step.call, reply)]),
         if TimedOut(reply) || env.lateAfter then Some(TIME_BUDGET) else None)
  }

  /** One turn of the step loop; an error means the turn raised. */
  function TryStep(cfg: Config, st: RunState, step: Step, env: StepEnv): (RunState, Option<string>) {
    if env.lateBefore then (st, Some(TIME_BUDGET))
    else if step.call.Mutates() && Target(cfg, step.call).None? then (st, Some(ESCAPES))
    else if env.tokenError.Some? then (st, env.tokenError)
    else if !step.call.Mutates() then ExecuteAndRecord(cfg, st, step, env)
    else match Capture(cfg, st.files, step, Target(cfg, step.call).value, env)
      case Failure(message) => (st, Some(message))
      case Success(s) => ExecuteAndRecord(cfg, st.(snapshots := st.snapshots + [s]), step, env)
  }

  /** The step loop from step `i` on. */
  function RunSteps(cfg: Config, st: RunState, steps: seq<Step>, envs: nat -> StepEnv, i: nat)
    : (RunState, Option<string>)
    requires i <= |steps|
    decreases |steps| - i
  {
    if i == |steps| then (st, None)
    else
      var (next, error) := TryStep(cfg, st, steps[i], envs(i));
      if error.Some? then (next, error) else RunSteps(cfg, next, steps, envs, i + 1)
  }

  // ---------------------------------------------------------------------------
  // The whole run
  // ---------------------------------------------------------------------------

  /** Faults around the terminal transition: before it is written, or after it. */
  datatype FinalizeEnv = FinalizeEnv(before: Option<string>, after: Option<string>)

  datatype RunEnv = RunEnv(
    scan: seq<Path>,             // the directory scan behind the drift check's fingerprint
    preflightFault: Option<string>, // the request or the metadata is malformed, or reading a file raises
    lock: LockWrite,
    steps: nat -> StepEnv,
    rollback: Faults,            // of the rollback after a failing result
    finalize: FinalizeEnv,
    recoveryRollback: Faults,    // of the rollback in the exception handler
    recoveryFinalize: FinalizeEnv
  )

  /** What the call gives back: status, results and rollback report, or a raise. */
  datatype Outcome = Returned(status: Status, results: seq<Record>, report: Option<Report>) | Aborted(message: string)

  /** Write the summary and the terminal record; an error means that this raised. */
  function Finalize(markers: Markers, h: Hash, run: nat, status: Status, env: FinalizeEnv): (Markers, Option<string>) {
    if env.before.Some? then (markers, env.before)
    else match Transition(markers, h, if status == SUCCESS then Executed(run) else Failed(run))
      case Failure(message) => (markers, Some(message))
      case Success(next) => (next, env.after)
  }

  /** The exception handler: roll back, record a failure class, and finalize; a second raise escapes. */
  ghost function Recover(cfg: Config, st: RunState, markers: Markers, h: Hash, run: nat, error: string, env: RunEnv)
    : (Files, Markers, Outcome)
  {
    var (files, report) := RollbackFiles(cfg, st.files, st.snapshots, env.recoveryRollback);
    var status := Classify(st.results, Some(error));
    var (next, second) := Finalize(markers, h, run, status, env.recoveryFinalize);
    (files, next, if second.Some? then Aborted(second.value) else Returned(status, st.results, Some(report)))
  }

  /** After the loop: classify, roll back a failing run, finalize, and hand any raise to the handler. */
  ghost function Conclude(cfg: Config, st: RunState, error: Option<string>, markers: Markers, h: Hash, run: nat,
                          env: RunEnv)
    : (Files, Markers, Outcome)
  {
    if error.Some? then Recover(cfg, st, markers, h, run, error.value, env)
    else
      var status := Classify(st.results, None);
      var (files, report) :=
        if status == SUCCESS then (st.files, None)
        else
          var (undone, r) := RollbackFiles(cfg, st.files, st.snapshots, env.rollback);
          (undone, Some(r));
      var (next, raised) := Finalize(markers, h, run, status, env.finalize);
      if raised.Some? then Recover(cfg, st.(files := files), next, h, run, raised.value, env)
      else (files, next, Returned(status, st.results, report))
  }

  /** A plan's steps as the tools read them. */
  function StepsOf(cfg: Config, plan: Plan): (steps: seq<Step>)
    ensures |steps| == |plan.steps|
  {
    seq(|plan.steps|, i requires 0 <= i < |plan.steps| => Step(plan.steps[i].stepId, cfg.read(plan.steps[i])))
  }

  /** Everything a run of one plan hash starts from. */
  datatype Launch = Launch(
    cfg: Config,
    files: Files,
    approvals: Approvals,
    markers: Markers,
    hash: Hash,
    run: nat,
    env: RunEnv
  )

  /** Preflight over the approvals on file and the fingerprint of the files as they are. */
  function CheckedPlan(l: Launch): Result<Plan, string> {
    if l.env.preflightFault.Some? then Failure(l.env.preflightFault.value)
    else
      Preflight(l.cfg.sha, l.approvals.plans, l.approvals.metas, l.hash,
                WorkspaceFingerprint(l.cfg.sha, l.cfg.root, l.files, l.env.scan))
  }

  /** A run after preflight. */
  ghost function ExecuteSteps(cfg: Config, files: Files, markers: Markers, h: Hash, run: nat, steps: seq<Step>,
                              env: RunEnv)
    : (Files, Markers, Outcome)
  {
    if |steps| > MAX_STEPS_PER_EXECUTION then (files, markers, Aborted(STEP_CAP))
    else
      var (locked, denied) := AcquireLock(markers, h, run, env.lock);
      if denied.Some? then (files, locked, Aborted(denied.value))
      else
        var (st, error) := RunSteps(cfg, RunState(files, [], []), steps, env.steps, 0);
        Conclude(cfg, st, error, locked, h, run, env)
  }

  /** One call of `execute_plan`. */
  ghost function Execute(l: Launch): (Files, Markers, Outcome) {
    match CheckedPlan(l)
    case Failure(message) => (l.files, l.markers, Aborted(message))
    case Success(plan) => ExecuteSteps(l.cfg, l.files, l.markers, l.hash, l.run, StepsOf(l.cfg, plan), l.env)
  }

  // ---------------------------------------------------------------------------
  // The run as it executes
  // ---------------------------------------------------------------------------

  method ExecuteStep(tree: Tree, snapshots: seq<Snapshot>, results: seq<Record>, step: Step, env: StepEnv)
    returns (snapshots': seq<Snapshot>, results': seq<Record>, error: Option<string>)
    modifies tree
    ensures (RunState(tree.files, snapshots', results'), error)
         == TryStep(tree.cfg, RunState(old(tree.files), snapshots, results), step, env)
  {
    snapshots', results' := snapshots, results;
    if env.lateBefore {
      return snapshots', results', Some(TIME_BUDGET);
    }
    var target := Target(tree.cfg, step.call);
    if step.call.Mutates() && target.None? {
      return snapshots', results', Some(ESCAPES);
    }
    if env.tokenError.Some? {
      return snapshots', results', env.tokenError;
    }
    if step.call.Mutates() {
      var captured := Capture(tree.cfg, tree.files, step, target.value, env);
      if captured.Failure? {
        return snapshots', results', Some(captured.error);
      }
      snapshots' := snapshots' + [captured.value];
    }
    if env.guardError.Some? {
      return snapshots', results', env.guardError;
    }
    var response := tree.ExecuteCall(step.call, TargetOr(tree.cfg, step.call), env);
    match response {
      case Raised(message) =>
        error := Some(message);
      case Replied(reply) =>
        results' := results' + [Record(step.stepId, step.call, reply)];
        error := if TimedOut(reply) || env.lateAfter then Some(TIME_BUDGET) else None;
    }
  }

  method FinalizeExecution(store: Store, h: Hash, run: nat, status: Status, env: FinalizeEnv)
    returns (raised: Option<string>)
    modifies store`executed
    ensures (store.executed, raised) == Finalize(old(store.executed), h, run, status, env)
  {
    if env.before.Some? {
      return env.before;
    }
    raised := store.WriteExecutionTransition(h, if status == SUCCESS then Executed(run) else Failed(run));
    if raised.None? {
      raised := env.after;
    }
  }

  method HandleException(tree: Tree, store: Store, snapshots: seq<Snapshot>, results: seq<Record>, h: Hash, run: nat,
                         error: string, env: RunEnv)
    returns (outcome: Outcome)
    modifies tree, store`executed
    ensures (tree.files, store.executed, outcome)
         == Recover(tree.cfg, RunState(old(tree.files), snapshots, results), old(store.executed), h, run, error, env)
  {
    var status := Classify(results, Some(error));
    var report := RollbackMutations(tree, snapshots, env.recoveryRollback);
    var second := FinalizeExecution(store, h, run, status, env.recoveryFinalize);
    outcome := if second.Some? then Aborted(second.value) else Returned(status, results, Some(report));
  }

  method ExecutePlan(tree: Tree, store: Store, h: Hash, run: nat, env: RunEnv) returns (outcome: Outcome)
    modifies tree, store`executed
    ensures (tree.files, store.executed, outcome)
         == Execute(Launch(tree.cfg, old(tree.files),
             Approvals(store.approved, store.metas), old(store.executed), h, run, env))
  {
    if env.preflightFault.Some? {
      return Aborted(env.preflightFault.value);
    }
    var fingerprint := ComputeWorkspaceFingerprint(tree.cfg.sha, tree.cfg.root, tree.files, env.scan);
    var preflight := store.PreflightExecute(tree.cfg.sha, h, fingerprint);
    if preflight.Failure? {
      return Aborted(preflight.error);
    }
    outcome := ExecuteApproved(tree, store, h, run, StepsOf(tree.cfg, preflight.value), env);
  }

  /** The run after preflight: lock, loop, conclusion. */
  method ExecuteApproved(tree: Tree, store: Store, h: Hash, run: nat, steps: seq<Step>, env: RunEnv)
    returns (outcome: Outcome)
    modifies tree, store`executed
    ensures (tree.files, store.executed, outcome)
         == ExecuteSteps(tree.cfg, old(tree.files), old(store.executed), h, run, steps, env)
  {
    if |steps| > MAX_STEPS_PER_EXECUTION {
      return Aborted(STEP_CAP);
    }
    var denied := store.AcquireExecutionLock(h, run, env.lock);
    if denied.Some? {
      return Aborted(denied.value);
    }
    var snapshots, results := [], [];
    var error: Option<string> := None;
    var i := 0;
    while i < |steps| && error.None?
      invariant 0 <= i <= |steps|
      invariant store.executed == AcquireLock(old(store.executed), h, run, env.lock).0
      invariant RunSteps(tree.cfg, RunState(old(tree.files), [], []), steps, env.steps, 0)
             == if error.Some? then (RunState(tree.files, snapshots, results), error)
                else RunSteps(tree.cfg, RunState(tree.files, snapshots, results), steps, env.steps, i)
    {
      snapshots, results, error := ExecuteStep(tree, snapshots, results, steps[i], env.steps(i));
      i := i + 1;
    }
    if error.Some? {
      outcome := HandleException(tree, store, snapshots, results, h, run, error.value, env);
      return;
    }
    var status := Classify(results, None);
    var report := None;
    if status != SUCCESS {
      var undone := RollbackMutations(tree, snapshots, env.rollback);
      report := Some(undone);
    }
    var raised := FinalizeExecution(store, h, run, status, env.finalize);
    if raised.Some? {
      outcome := HandleException(tree, store, snapshots, results, h, run, raised.value, env);
      return;
    }
    outcome := Returned(status, results, report);
  }
}
