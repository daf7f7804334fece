/** The turns of a run one by one: when a turn completes, what ends the loop, and what the results of a SUCCESS say. */
module Turns {

  import opened Wrappers
  import opened Paths
  import opened Workspace
  import opened Rollback
  import opened Summary
  import opened PlanStore
  import opened Executor
  import opened Atomicity
  import opened RunReport

  // ---------------------------------------------------------------------------
  // When a turn completes
  // ---------------------------------------------------------------------------

  /** Nothing around the step goes wrong: time is left before and after it, its token is issued, its guards pass. */
  predicate Quiet(env: StepEnv) {
    !env.lateBefore && !env.lateAfter && env.tokenError.None? && env.guardError.None?
  }

  /** A mutation has a place in the workspace that is no directory, and its snapshot can be read. */
  ghost predicate TargetReady(cfg: Config, call: Call, env: StepEnv) {
    call.Mutates() ==>
      && env.snapshotError.None?
      && exists p :: Resolve(cfg.root, call.path) == Some(p) && cfg.root <= p && p !in cfg.dirs
  }

  lemma TargetMeans(cfg: Config, call: Call, p: Path)
    requires call.Mutates()
    ensures Target(cfg, call) == Some(p) <==> Resolve(cfg.root, call.path) == Some(p) && cfg.root <= p
  {
  }

  lemma ReadyMeans(cfg: Config, call: Call, env: StepEnv)
    requires call.Mutates()
    ensures TargetReady(cfg, call, env) <==>
            env.snapshotError.None? && Target(cfg, call).Some? && Target(cfg, call).value !in cfg.dirs
  {
    if Target(cfg, call).Some? {
      TargetMeans(cfg, call, Target(cfg, call).value);
    }
    if p :| Resolve(cfg.root, call.path) == Some(p) && cfg.root <= p && p !in cfg.dirs {
      TargetMeans(cfg, call, p);
    }
  }

  /** The tool answers, and not with a timeout. */
  predicate AnswersInTime(cfg: Config, files: Files, call: Call, env: StepEnv) {
    var response := Perform(cfg, files, call, TargetOr(cfg, call), env).1;
    response.Replied? && !TimedOut(response.reply)
  }

  /** A turn completes exactly when nothing around it goes wrong, its target is ready and its tool answers in time. */
  lemma TurnCompletes(cfg: Config, st: RunState, step: Step, env: StepEnv)
    ensures TryStep(cfg, st, step, env).1.None? <==>
            Quiet(env) && TargetReady(cfg, step.call, env) && AnswersInTime(cfg, st.files, step.call, env)
  {
    if step.call.Mutates() {
      ReadyMeans(cfg, step.call, env);
    }
  }

  /** Out of time before the step, the turn does nothing; out of time after it, it records the result and raises. */
  lemma LateTurnRaises(cfg: Config, st: RunState, step: Step, env: StepEnv)
    ensures env.lateBefore ==> TryStep(cfg, st, step, env) == (st, Some(TIME_BUDGET))
    ensures var (next, error) := TryStep(cfg, st, step, env);
            env.lateAfter && |next.results| > |st.results| ==> error == Some(TIME_BUDGET)
  {
  }

  // ---------------------------------------------------------------------------
  // The loop, turn by turn
  // ---------------------------------------------------------------------------

  /** The loop is its first `k` steps followed by the others. */
  lemma {:induction false} RunPrefix(cfg: Config, st: RunState, steps: seq<Step>, envs: nat -> StepEnv, i: nat, k: nat)
    requires i <= k <= |steps|
    ensures var (mid, error) := RunSteps(cfg, st, steps[..k], envs, i);
            RunSteps(cfg, st, steps, envs, i) == if error.Some? then (mid,
                error) else RunSteps(cfg, mid, steps, envs, k)
    decreases k - i
  {
    if i < k {
      var (next, error) := TryStep(cfg, st, steps[i], envs(i));
      assert steps[..k][i] == steps[i];
      if error.None? {
        RunPrefix(cfg, next, steps, envs, i + 1, k);
      }
    }
  }

  /** Step `k` is reached. */
  predicate Reached(l: Launch, k: nat) {
    k < |StepsAt(l)| && LoopUpTo(l, k).1.None?
  }

  /** The turn of step `k`. */
  function Turn(l: Launch, k: nat): (RunState, Option<string>)
    requires Reached(l, k)
  {
    TryStep(l.cfg, LoopUpTo(l, k).0, StepsAt(l)[k], l.env.steps(k))
  }

  lemma NextTurn(l: Launch, k: nat)
    requires Reached(l, k)
    ensures LoopUpTo(l, k + 1) == Turn(l, k)
  {
    var steps, start := StepsAt(l), RunState(l.files, [], []);
    RunPrefix(l.cfg, start, steps[..k + 1], l.env.steps, 0, k);
    assert steps[..k + 1][..k] == steps[..k];
    LastTurn(l.cfg, LoopUpTo(l, k).0, steps[..k + 1], l.env.steps, k);
  }

  lemma LastTurn(cfg: Config, st: RunState, steps: seq<Step>, envs: nat -> StepEnv, k: nat)
    requires |steps| == k + 1
    ensures RunSteps(cfg, st, steps, envs, k) == TryStep(cfg, st, steps[k], envs(k))
  {
    var (next, error) := TryStep(cfg, st, steps[k], envs(k));
    assert RunSteps(cfg, next, steps, envs, k + 1) == (next, None);
  }

  /** A turn that raises ends the loop with its error. */
  lemma RaisingTurnEndsLoop(l: Launch, k: nat)
    requires Reached(l, k) && Turn(l, k).1.Some?
    ensures Loop(l) == Turn(l, k)
  {
    NextTurn(l, k);
    RunPrefix(l.cfg, RunState(l.files, [], []), StepsAt(l), l.env.steps, 0, k + 1);
  }

  /** A loop that ends without an error reached every step. */
  lemma CompleteLoopReaches(l: Launch, k: nat)
    requires Loop(l).1.None? && k <= |StepsAt(l)|
    ensures LoopUpTo(l, k).1.None?
  {
    RunPrefix(l.cfg, RunState(l.files, [], []), StepsAt(l), l.env.steps, 0, k);
  }

  lemma WholeLoop(l: Launch)
    ensures LoopUpTo(l, |StepsAt(l)|) == Loop(l)
  {
    assert StepsAt(l)[..|StepsAt(l)|] == StepsAt(l);
  }

  lemma ReachedBefore(l: Launch, k: nat)
    requires 0 < k <= |StepsAt(l)| && LoopUpTo(l, k).1.None?
    ensures Reached(l, k - 1) && Turn(l, k - 1).1.None? && LoopUpTo(l, k) == Turn(l, k - 1)
  {
    var steps := StepsAt(l);
    RunPrefix(l.cfg, RunState(l.files, [], []), steps[..k], l.env.steps, 0, k - 1);
    assert steps[..k][..k - 1] == steps[..k - 1];
    NextTurn(l, k - 1);
  }

  /** A completed turn appends one result of its step. */
  lemma TurnAddsResult(cfg: Config, st: RunState, step: Step, env: StepEnv)
    requires TryStep(cfg, st, step, env).1.None?
    ensures var results := TryStep(cfg, st, step, env).0.results;
            && |results| == |st.results| + 1 && st.results <= results
            && results[|st.results|].call == step.call && results[|st.results|].stepId == step.stepId
  {
    var reply := CompletedStep(cfg, st, step, env);
  }

  /** The results are one for each of the steps, in order. */
  ghost predicate ResultsOf(results: seq<Record>, steps: seq<Step>) {
    && |results| == |steps|
    && forall j :: 0 <= j < |steps| ==> results[j].call == steps[j].call && results[j].stepId == steps[j].stepId
  }

  lemma ResultsSnoc(before: seq<Record>, after: seq<Record>, steps: seq<Step>, k: nat)
    requires k < |steps| && ResultsOf(before, steps[..k])
    requires |after| == k + 1 && before <= after
    requires after[k].call == steps[k].call && after[k].stepId == steps[k].stepId
    ensures ResultsOf(after, steps[..k + 1])
  {
    forall j | 0 <= j < k ensures after[j].call == steps[j].call && after[j].stepId == steps[j].stepId {
      assert after[j] == before[j] && steps[..k][j] == steps[j];
    }
  }

  /** A reached step has one result for each step before it, in order. */
  lemma {:induction false} ResultsSoFar(l: Launch, k: nat)
    requires k <= |StepsAt(l)| && LoopUpTo(l, k).1.None?
    ensures ResultsOf(LoopUpTo(l, k).0.results, StepsAt(l)[..k])
  {
    if k > 0 {
      ReachedBefore(l, k);
      ResultsSoFar(l, k - 1);
      TurnAddsResult(l.cfg, LoopUpTo(l, k - 1).0, StepsAt(l)[k - 1], l.env.steps(k - 1));
      ResultsSnoc(LoopUpTo(l, k - 1).0.results, LoopUpTo(l, k).0.results, StepsAt(l), k - 1);
    }
  }

  /** The loop ends without an error exactly when every turn completes. */
  lemma LoopCompletes(l: Launch)
    ensures Loop(l).1.None? <==> forall k :: 0 <= k < |StepsAt(l)| ==> Reached(l, k) && Turn(l, k).1.None?
  {
    if Loop(l).1.None? {
      forall k | 0 <= k < |StepsAt(l)| ensures Reached(l, k) && Turn(l, k).1.None? {
        CompleteLoopReaches(l, k);
        CompleteLoopReaches(l, k + 1);
        NextTurn(l, k);
      }
    } else if forall k :: 0 <= k < |StepsAt(l)| ==> Reached(l, k) && Turn(l, k).1.None? {
      WholeLoop(l);
      if |StepsAt(l)| > 0 {
        var last := |StepsAt(l)| - 1;
        assert Reached(l, last);
        NextTurn(l, last);
      }
    }
  }

  /** A loop without an error met nothing that goes wrong around any of its steps, and has one result for each. */
  lemma CompleteLoopWasQuiet(l: Launch)
    requires Loop(l).1.None?
    ensures forall k :: 0 <= k < |StepsAt(l)| ==>
              Quiet(l.env.steps(k)) && TargetReady(l.cfg, StepsAt(l)[k].call, l.env.steps(k))
    ensures ResultsOf(Loop(l).0.results, StepsAt(l))
  {
    LoopCompletes(l);
    WholeLoop(l);
    ResultsSoFar(l, |StepsAt(l)|);
    assert StepsAt(l)[..|StepsAt(l)|] == StepsAt(l);
    forall k | 0 <= k < |StepsAt(l)|
      ensures Quiet(l.env.steps(k)) && TargetReady(l.cfg, StepsAt(l)[k].call, l.env.steps(k))
    {
      assert Reached(l, k);
      TurnCompletes(l.cfg, LoopUpTo(l, k).0, StepsAt(l)[k], l.env.steps(k));
    }
  }

  // ---------------------------------------------------------------------------
  // Out of time
  // ---------------------------------------------------------------------------

  /** Step `k` is reached with no time left, or no time is left once its result is recorded. */
  ghost predicate OutOfTimeAt(l: Launch, k: nat) {
    && Reached(l, k)
    && (|| l.env.steps(k).lateBefore
        || (l.env.steps(k).lateAfter && |LoopUpTo(l, k + 1).0.results| == k + 1))
  }

  /** Out of time ends the loop there: no later step runs, and nothing runs in a step that is reached too late. */
  lemma OutOfTimeEndsLoop(l: Launch, k: nat)
    requires OutOfTimeAt(l, k)
    ensures Loop(l).1 == Some(TIME_BUDGET)
    ensures Loop(l).0 == if l.env.steps(k).lateBefore then LoopUpTo(l, k).0 else LoopUpTo(l, k + 1).0
  {
    NextTurn(l, k);
    ResultsSoFar(l, k);
    LateTurnRaises(l.cfg, LoopUpTo(l, k).0, StepsAt(l)[k], l.env.steps(k));
    RaisingTurnEndsLoop(l, k);
  }

  /** A started run that gets out of time returns TIME_BUDGET_EXCEEDED or raises, and is never recorded as EXECUTED. */
  lemma OutOfTimeIsReported(l: Launch, k: nat)
    requires Starts(l) && OutOfTimeAt(l, k)
    ensures var (after, marks, outcome) := Execute(l);
            && (outcome.Returned? ==> outcome.status == TIME_BUDGET_EXCEEDED)
            && !(l.hash in marks && marks[l.hash].Executed?)
  {
    OutOfTimeEndsLoop(l, k);
    TimeBudgetMessage();
    TimeBudgetIsRecognised(TIME_BUDGET);
    StartedRun(l);
    StartedOutcome(l);
    TimeBudgetIsReturned(l.cfg, Loop(l).0, l.markers[l.hash := InFlight(l.run)], l.hash, l.run, l.env);
  }

  // ---------------------------------------------------------------------------
  // What a status says about the results
  // ---------------------------------------------------------------------------

  /** The reply a step is meant to get; a denied test run passes the classification too. */
  predicate GoodReply(call: Call, reply: Reply) {
    match call
    case PatchApply(_, _) => reply == ApplyText(false)
    case FileCreate(_, _) => reply == Created
    case PatchEdit(_, _, _) => reply.EditDone?
    case GitRun(_) => reply == Command(Some(0), false)
    case TestRun(_, _) => reply == Command(Some(0), false) || reply.Denied?
  }

  /** The status that a bad reply stands for. */
  function BadStatus(call: Call): Status {
    match call
    case TestRun(_, _) => TEST_FAILURE
    case GitRun(_) => FAILED
    case _ => PATCH_REJECTED
  }

  lemma VerdictOnReply(r: Record)
    requires Plausible(r) && !TimedOut(r.reply)
    ensures ResultStatus(r) == if GoodReply(r.call, r.reply) then SUCCESS else BadStatus(r.call)
  {
  }

  /** The first bad result decides. */
  ghost predicate FirstBadAt(results: seq<Record>, k: nat) {
    && k < |results| && !GoodReply(results[k].call, results[k].reply)
    && forall j :: 0 <= j < k ==> GoodReply(results[j].call, results[j].reply)
  }

  lemma {:induction false} FirstBadDecides(results: seq<Record>)
    requires AllPlausible(results) && NoTimeout(results)
    ensures ClassifyResults(results) == SUCCESS <==>
            forall j :: 0 <= j < |results| ==> GoodReply(results[j].call, results[j].reply)
    ensures forall k: nat :: FirstBadAt(results, k) ==> ClassifyResults(results) == BadStatus(results[k].call)
  {
    if results != [] {
      assert results[0] in results;
      VerdictOnReply(results[0]);
      FirstBadDecides(results[1..]);
      forall k: nat | FirstBadAt(results, k)
        ensures ClassifyResults(results) == BadStatus(results[k].call)
      {
        if k > 0 {
          assert GoodReply(results[0].call, results[0].reply);
          assert FirstBadAt(results[1..], k - 1);
        }
      }
      if forall j :: 0 <= j < |results[1..]| ==> GoodReply(results[1..][j].call, results[1..][j].reply) {
        forall j | 0 < j < |results| ensures GoodReply(results[j].call, results[j].reply) {
          assert results[j] == results[1..][j - 1];
        }
      }
    }
  }

  lemma CompleteLoopResults(l: Launch)
    requires Loop(l).1.None?
    ensures AllPlausible(Loop(l).0.results) && NoTimeout(Loop(l).0.results)
  {
    RunResultsArePlausible(l.cfg, RunState(l.files, [], []), StepsAt(l), l.env.steps, 0);
    TimeoutEndsLoop(l.cfg, RunState(l.files, [], []), StepsAt(l), l.env.steps, 0);
  }

  /** SUCCESS is returned exactly when every turn completed, every reply is the one the step is meant to get, and
      nothing
      raised while finalizing. */
  lemma SuccessIsExact(l: Launch)
    requires Starts(l)
    ensures var outcome := Execute(l).2;
            var results := Loop(l).0.results;
            outcome.Returned? && outcome.status == SUCCESS <==>
            && Loop(l).1.None? && l.env.finalize == FinalizeEnv(None, None)
            && forall j :: 0 <= j < |results| ==> GoodReply(results[j].call, results[j].reply)
  {
    StartedOutcome(l);
    if Loop(l).1.None? {
      CompleteLoopResults(l);
      FirstBadDecides(Loop(l).0.results);
    }
  }

  /** A complete loop with a bad reply returns the status of the first one, when finalizing does not raise. */
  lemma FirstBadIsReported(l: Launch, k: nat)
    requires Starts(l) && Loop(l).1.None? && l.env.finalize == FinalizeEnv(None, None)
    requires FirstBadAt(Loop(l).0.results, k)
    ensures var outcome := Execute(l).2;
            outcome.Returned? && outcome.status == BadStatus(Loop(l).0.results[k].call)
  {
    CompleteLoopResults(l);
    FirstBadDecides(Loop(l).0.results);
    StartedRun(l);
    CalmConclusion(l.cfg, Loop(l).0, l.markers[l.hash := InFlight(l.run)], l.hash, l.run, l.env);
  }

  lemma CalmConclusion(cfg: Config, st: RunState, markers: Markers, h: Hash, run: nat, env: RunEnv)
    requires h in markers && markers[h] == InFlight(run) && env.finalize == FinalizeEnv(None, None)
    ensures var outcome := Conclude(cfg, st, None, markers, h, run, env).2;
            outcome.Returned? && outcome.status == ClassifyResults(st.results)
  {
  }

  // ---------------------------------------------------------------------------
  // What a success wrote
  // ---------------------------------------------------------------------------

  /** The files before and after the turn of step `k`. */
  function Before(l: Launch, k: nat): Files
    requires k <= |StepsAt(l)|
  {
    LoopUpTo(l, k).0.files
  }

  /** A good turn of a creation found no file at its target, and made one; a good whole-file patch found one. */
  lemma GoodTurnFinds(cfg: Config, st: RunState, step: Step, env: StepEnv)
    requires TryStep(cfg, st, step, env).1.None? && step.call.Mutates()
    requires var r := TryStep(cfg, st, step, env).0.results; r != [] && GoodReply(step.call, r[|r| - 1].reply)
    ensures var p := TargetOr(cfg, step.call);
            var after := TryStep(cfg, st, step, env).0.files;
            && Target(cfg, step.call) == Some(p)
            && p in after
            && (step.call.FileCreate? <==> p !in st.files)
  {
    var reply := CompletedStep(cfg, st, step, env);
    var p := TargetOr(cfg, step.call);
    GoodAttemptFinds(cfg, st.files, step.call, p, Denial(cfg.root, step.call, p, env.tokens), env, reply);
  }

  lemma GoodAttemptFinds(cfg: Config, files: Files, call: Call, p: Path, denial: Option<string>, env: StepEnv,
                         reply: Reply)
    requires call.Mutates() && GoodReply(call, reply)
    requires Attempt(cfg, files, call, p, denial, env).1 == Replied(reply)
    ensures p in Attempt(cfg, files, call, p, denial, env).0 && (call.FileCreate? <==> p !in files)
  {
    match call
    case PatchApply(_, newContent) => ApplyPatchExactly(files, p, newContent, env.write);
    case FileCreate(_, content) => CreateFileExactly(cfg, files, p, content, env.write);
    case PatchEdit(_, edits, expectedHash) => EditFileIsAtomic(cfg, files, p, edits, expectedHash, env.write);
    case _ =>
  }

  lemma GoodTurn(l: Launch, k: nat)
    requires Succeeds(l) && k < |StepsAt(l)|
    ensures Reached(l, k) && Turn(l, k).1.None? && LoopUpTo(l, k + 1) == Turn(l, k)
    ensures var r := Turn(l, k).0.results; r != [] && GoodReply(StepsAt(l)[k].call, r[|r| - 1].reply)
    ensures Turn(l, k).0.results <= Loop(l).0.results
  {
    LoopCompletes(l);
    NextTurn(l, k);
    ResultsSoFar(l, k + 1);
    WholeLoop(l);
    CompleteLoopWasQuiet(l);
    RunPrefix(l.cfg, RunState(l.files, [], []), StepsAt(l), l.env.steps, 0, k + 1);
    RunExtendsResults(l.cfg, LoopUpTo(l, k + 1).0, StepsAt(l), l.env.steps, k + 1);
    CompleteLoopResults(l);
    FirstBadDecides(Loop(l).0.results);
    assert Turn(l, k).0.results[k] == Loop(l).0.results[k];
  }

  /** In a SUCCESS, a creation found no file at its target and every patch found one, when its step was reached. */
  lemma SuccessFoundTargets(l: Launch, k: nat)
    requires Succeeds(l) && k < |StepsAt(l)| && StepsAt(l)[k].call.Mutates()
    ensures var call := StepsAt(l)[k].call;
            var p := TargetOr(l.cfg, call);
            && Target(l.cfg, call) == Some(p)
            && p in Before(l, k + 1)
            && (call.FileCreate? <==> p !in Before(l, k))
  {
    GoodTurn(l, k);
    GoodTurnFinds(l.cfg, LoopUpTo(l, k).0, StepsAt(l)[k], l.env.steps(k));
  }

  /** In a SUCCESS no file disappears. */
  lemma {:induction false} FilesStay(l: Launch, i: nat, j: nat, p: Path)
    requires Succeeds(l) && i <= j <= |StepsAt(l)| && Spared(l.env.steps, p) && p in Before(l, i)
    ensures p in Before(l, j)
    decreases j - i
  {
    if i < j {
      GoodTurn(l, i);
      if !StepsAt(l)[i].call.Mutates() || TargetOr(l.cfg, StepsAt(l)[i].call) != p {
        var reply := CompletedStep(l.cfg, LoopUpTo(l, i).0, StepsAt(l)[i], l.env.steps(i));
        PerformSparesOthers(l.cfg, Before(l, i), StepsAt(l)[i].call, TargetOr(l.cfg, StepsAt(l)[i].call),
                            l.env.steps(i), p);
      } else {
        SuccessFoundTargets(l, i);
      }
      FilesStay(l, i + 1, j, p);
    }
  }

  /** A run that returns SUCCESS creates no path twice. */
  lemma NothingIsCreatedTwice(l: Launch, i: nat, j: nat, p: Path)
    requires i < j < |StepsAt(l)| && Spared(l.env.steps, p)
    requires StepsAt(l)[i].call.FileCreate? && Target(l.cfg, StepsAt(l)[i].call) == Some(p)
    requires StepsAt(l)[j].call.FileCreate? && Target(l.cfg, StepsAt(l)[j].call) == Some(p)
    ensures var outcome := Execute(l).2;
            !(outcome.Returned? && outcome.status == SUCCESS)
  {
    if Starts(l) {
      StartedOutcome(l);
      if Succeeds(l) {
        SuccessFoundTargets(l, i);
        FilesStay(l, i + 1, j, p);
        SuccessFoundTargets(l, j);
        assert false;
      }
    } else {
      DenialLeavesNoTrace(l);
    }
  }

  /** Step `k` wrote its file: a creation and a whole-file patch always, an edit list when it changed the text. */
  predicate WroteFile(l: Launch, k: nat)
    requires k < |StepsAt(l)|
  {
    StepsAt(l)[k].call.Mutates() && (StepsAt(l)[k].call.PatchEdit? ==> Before(l, k + 1) != Before(l, k))
  }

  lemma AttemptTellsChange(cfg: Config, files: Files, call: Call, p: Path, denial: Option<string>, env: StepEnv,
                           reply: Reply)
    requires call.PatchEdit? && Attempt(cfg, files, call, p, denial, env).1 == Replied(reply) && GoodReply(call, reply)
    ensures reply == EditDone(true) <==> Attempt(cfg, files, call, p, denial, env).0 != files
  {
    EditFileIsAtomic(cfg, files, p, call.edits, call.expectedHash, env.write);
  }

  /** In a SUCCESS, the result of a step says that it wrote exactly when it did. */
  lemma ResultsTellWrites(l: Launch, k: nat)
    requires Succeeds(l) && k < |StepsAt(l)|
    ensures k < |Loop(l).0.results| && Loop(l).0.results[k].call == StepsAt(l)[k].call
    ensures (exists kind :: Wrote(kind, Loop(l).0.results[k])) <==> WroteFile(l, k)
  {
    CompleteLoopWasQuiet(l);
    GoodTurn(l, k);
    ResultsSoFar(l, k + 1);
    var st, step, env := LoopUpTo(l, k).0, StepsAt(l)[k], l.env.steps(k);
    var reply := CompletedStep(l.cfg, st, step, env);
    var p := TargetOr(l.cfg, step.call);
    var r := Loop(l).0.results[k];
    ResultsSoFar(l, k);
    assert Turn(l, k).0.results[k] == r;
    assert r.reply == reply && r.call == step.call;
    KindsOfWrites(r);
    if step.call.PatchEdit? {
      AttemptTellsChange(l.cfg, st.files, step.call, p, Denial(l.cfg.root, step.call, p, env.tokens), env, reply);
    }
  }

  lemma KindsOfWrites(r: Record)
    requires GoodReply(r.call, r.reply)
    ensures (exists kind :: Wrote(kind, r)) <==> r.call.Mutates() && (r.call.PatchEdit? ==> r.reply == EditDone(true))
  {
    assert Wrote(CreatedPaths, r) || Wrote(AppliedPaths, r) || Wrote(EditedPaths, r) <==>
           r.call.Mutates() && (r.call.PatchEdit? ==> r.reply == EditDone(true));
    if kind :| Wrote(kind, r) {
      assert kind == CreatedPaths || kind == AppliedPaths || kind == EditedPaths;
    }
  }

  ghost predicate SomeStepWrote(l: Launch, path: string) {
    exists k :: 0 <= k < |StepsAt(l)| && WroteFile(l, k) && StepsAt(l)[k].call.path == path
  }

  lemma NamedStepWrote(l: Launch, path: string)
    requires Succeeds(l)
    ensures path in ChangedPaths(Loop(l).0.results) <==> SomeStepWrote(l, path)
  {
    var results := Loop(l).0.results;
    CompleteLoopWasQuiet(l);
    ChangedPathsAreExact(results, path);
    if kind :| WrittenAs(results, kind, path) {
      var r :| r in results && Wrote(kind, r) && r.call.path == path;
      var k :| 0 <= k < |results| && results[k] == r;
      ResultsTellWrites(l, k);
    }
    if SomeStepWrote(l, path) {
      var k :| 0 <= k < |StepsAt(l)| && WroteFile(l, k) && StepsAt(l)[k].call.path == path;
      ResultsTellWrites(l, k);
      var kind :| Wrote(kind, results[k]);
      assert results[k] in results;
      assert WrittenAs(results, kind, path);
    }
  }

  /** When a run returns SUCCESS, its changed paths are exactly the paths of the steps that wrote their file. */
  lemma ChangedPathsAreTrue(l: Launch, path: string)
    ensures var outcome := Execute(l).2;
            outcome.Returned? && outcome.status == SUCCESS ==>
            (path in ChangedPaths(outcome.results) <==> SomeStepWrote(l, path))
  {
    if Starts(l) {
      StartedOutcome(l);
      if Succeeds(l) {
        NamedStepWrote(l, path);
      }
    } else {
      DenialLeavesNoTrace(l);
    }
  }
}
