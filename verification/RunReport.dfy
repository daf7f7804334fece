/** What the summary of a run says about the run: tests and changed paths. */
module RunReport {

  import opened Wrappers
  import opened Text
  import opened Paths
  import opened Workspace
  import opened Rollback
  import opened Summary
  import opened PlanStore
  import opened Executor
  import opened Atomicity
  import Capabilities

  // ---------------------------------------------------------------------------
  // Tests
  // ---------------------------------------------------------------------------

  /** What the plan validator requires of a TEST_RUN step. */
  predicate ValidTestRun(cfg: Config, call: Call) {
    call.TestRun? ==> (call.cwd == WORKSPACE_CWD || call.cwd == APP_CWD) && cfg.testArgvAllowed(call.argv)
  }

  ghost predicate AllPlausible(results: seq<Record>) {
    forall r :: r in results ==> Plausible(r)
  }

  ghost predicate NoDeniedTest(results: seq<Record>) {
    forall r :: r in results ==> !IsDeniedTest(r)
  }

  /** What a turn adds to the results, if anything. */
  lemma StepAddsReply(cfg: Config, st: RunState, step: Step, env: StepEnv)
    ensures var next := TryStep(cfg, st, step, env).0;
            var response := Perform(cfg, st.files, step.call, TargetOr(cfg, step.call), env).1;
            next.results == st.results
            || (response.Replied? && next.results == st.results + [Record(step.stepId, step.call, response.reply)])
  {
  }

  /** Every tool answers in its own way, whatever the gateway's refusal was. */
  lemma AttemptIsPlausible(cfg: Config, files: Files, step: Step, p: Path, denial: Option<string>, env: StepEnv)
    ensures var response := Attempt(cfg, files, step.call, p, denial, env).1;
            response.Replied? ==> Plausible(Record(step.stepId, step.call, response.reply))
  {
  }

  lemma StepResultsArePlausible(cfg: Config, st: RunState, step: Step, env: StepEnv)
    requires AllPlausible(st.results)
    ensures AllPlausible(TryStep(cfg, st, step, env).0.results)
  {
    var p := TargetOr(cfg, step.call);
    StepAddsReply(cfg, st, step, env);
    AttemptIsPlausible(cfg, st.files, step, p, Denial(cfg.root, step.call, p, env.tokens), env);
  }

  /** The tokens of the TEST_RUN steps are new, and neither taken away nor expired when the gateway looks. */
  ghost predicate TestTokensStayLive(steps: seq<Step>, envs: nat -> StepEnv) {
    forall k :: 0 <= k < |steps| && steps[k].call.TestRun? ==> TokenStaysLive(steps[k].call, [], envs(k).tokens)
  }

  /** A validated TEST_RUN whose token id is new is denied exactly when its token did not stay live. */
  lemma TestIsDeniedForItsToken(cfg: Config, files: Files, call: Call, env: StepEnv)
    requires call.TestRun? && ValidTestRun(cfg, call)
    requires Capabilities.FreshIds(TokenHistory(call, [], env.tokens)) && env.tokens.id != ""
    ensures var response := Perform(cfg, files, call, [], env).1;
            response.Replied? && response.reply.Denied? <==> !TokenStaysLive(call, [], env.tokens)
  {
    TokenCheckIsLiveness(cfg.root, call, [], env.tokens);
  }

  lemma ValidStepIsNotDenied(cfg: Config, st: RunState, step: Step, env: StepEnv)
    requires ValidTestRun(cfg, step.call) && NoDeniedTest(st.results)
    requires step.call.TestRun? ==> TokenStaysLive(step.call, [], env.tokens)
    ensures NoDeniedTest(TryStep(cfg, st, step, env).0.results)
  {
    StepAddsReply(cfg, st, step, env);
    if step.call.TestRun? {
      TestIsDeniedForItsToken(cfg, st.files, step.call, env);
    }
  }

  lemma {:induction false} RunResultsArePlausible(cfg: Config, st: RunState, steps: seq<Step>, envs: nat -> StepEnv,
                                                  i: nat)
    requires i <= |steps| && AllPlausible(st.results)
    ensures AllPlausible(RunSteps(cfg, st, steps, envs, i).0.results)
    decreases |steps| - i
  {
    if i < |steps| {
      var (next, error) := TryStep(cfg, st, steps[i], envs(i));
      StepResultsArePlausible(cfg, st, steps[i], envs(i));
      if error.None? {
        RunResultsArePlausible(cfg, next, steps, envs, i + 1);
      }
    }
  }

  /** With validated steps and live tokens the gateway denies no TEST_RUN, whatever else goes wrong in the run. */
  lemma {:induction false} ValidatedTestsAreNotDenied(cfg: Config, st: RunState, steps: seq<Step>, envs: nat -> StepEnv,
                                                      i: nat)
    requires i <= |steps| && NoDeniedTest(st.results)
    requires forall s :: s in steps ==> ValidTestRun(cfg, s.call)
    requires TestTokensStayLive(steps, envs)
    ensures NoDeniedTest(RunSteps(cfg, st, steps, envs, i).0.results)
    decreases |steps| - i
  {
    if i < |steps| {
      var (next, error) := TryStep(cfg, st, steps[i], envs(i));
      ValidStepIsNotDenied(cfg, st, steps[i], envs(i));
      if error.None? {
        ValidatedTestsAreNotDenied(cfg, next, steps, envs, i + 1);
      }
    }
  }

  lemma LoopCountsDenialsAsFailures(l: Launch)
    requires Succeeds(l)
    ensures Count(Loop(l).0.results, IsFailedTest) == Count(Loop(l).0.results, IsDeniedTest)
  {
    SuccessMeansEveryResult(Loop(l).0.results, None);
    RunResultsArePlausible(l.cfg, RunState(l.files, [], []), StepsAt(l), l.env.steps, 0);
    SuccessFailsOnlyDeniedTests(Loop(l).0.results);
  }

  /** On SUCCESS the failed tests are exactly the denied ones: the classifier lets a denial through, the summary counts
      it. */
  lemma SuccessCountsDenialsAsFailures(l: Launch)
    ensures var outcome := Execute(l).2;
            outcome.Returned? && outcome.status == SUCCESS ==>
            Count(outcome.results, IsFailedTest) == Count(outcome.results, IsDeniedTest)
  {
    if Starts(l) {
      StartedOutcome(l);
      if Succeeds(l) {
        LoopCountsDenialsAsFailures(l);
      }
    } else {
      DenialLeavesNoTrace(l);
    }
  }

  /** For validated steps whose test tokens stay live, SUCCESS means that no test failed and every test passed. */
  lemma SuccessMeansTestsPassed(l: Launch)
    requires forall s :: s in StepsAt(l) ==> ValidTestRun(l.cfg, s.call)
    requires TestTokensStayLive(StepsAt(l), l.env.steps)
    ensures var outcome := Execute(l).2;
            outcome.Returned? && outcome.status == SUCCESS ==>
            && Count(outcome.results, IsFailedTest) == 0
            && Count(outcome.results, IsPassedTest) == Count(outcome.results, IsTest)
  {
    if Starts(l) {
      StartedOutcome(l);
      if Succeeds(l) {
        LoopCountsDenialsAsFailures(l);
        ValidatedTestsAreNotDenied(l.cfg, RunState(l.files, [], []), StepsAt(l), l.env.steps, 0);
        CountOfNone(Loop(l).0.results, IsDeniedTest);
        TestsPassOrFail(Loop(l).0.results);
      }
    } else {
      DenialLeavesNoTrace(l);
    }
  }

  // ---------------------------------------------------------------------------
  // Timeouts
  // ---------------------------------------------------------------------------

  ghost predicate NoTimeout(results: seq<Record>) {
    forall r :: r in results ==> !TimedOut(r.reply)
  }

  /** Only the last result of a run can be a timeout, and then the time budget ended the run. */
  ghost predicate TimeoutIsLast(results: seq<Record>, error: Option<string>) {
    NoTimeout(results) || (error == Some(TIME_BUDGET) && |results| > 0 && NoTimeout(results[..|results| - 1]))
  }

  lemma StepTimesOut(cfg: Config, st: RunState, step: Step, env: StepEnv)
    requires NoTimeout(st.results)
    ensures var (next, error) := TryStep(cfg, st, step, env);
            TimeoutIsLast(next.results, error)
  {
    var (next, error) := TryStep(cfg, st, step, env);
    if |next.results| > |st.results| {
      assert next.results[..|next.results| - 1] == st.results;
    }
  }

  /** A command that times out is the last thing a run does. */
  lemma {:induction false} TimeoutEndsLoop(cfg: Config, st: RunState, steps: seq<Step>, envs: nat -> StepEnv, i: nat)
    requires i <= |steps| && NoTimeout(st.results)
    ensures var (end, error) := RunSteps(cfg, st, steps, envs, i);
            TimeoutIsLast(end.results, error)
    decreases |steps| - i
  {
    if i < |steps| {
      var (next, error) := TryStep(cfg, st, steps[i], envs(i));
      StepTimesOut(cfg, st, steps[i], envs(i));
      if error.None? {
        TimeoutEndsLoop(cfg, next, steps, envs, i + 1);
      }
    }
  }

  lemma ContainedCharacters(s: string, pattern: string, c: char)
    requires c in pattern
    ensures Contains(s, pattern) ==> c in s
  {
    if Contains(s, pattern) {
      FindFromMatches(s, pattern, 0);
      var i := FindFrom(s, pattern, 0);
      assert c in s[i..i + |pattern|];
    }
  }

  lemma {:induction false} LowerKeeps(s: string)
    requires forall c :: c in s ==> LowerChar(c) == c
    ensures Lower(s) == s
  {
    if s != "" {
      LowerKeeps(s[1..]);
      assert LowerChar(s[0]) == s[0];
    }
  }

  /** Lower-case, and free of a letter in every message test before the one for the time budget. */
  predicate IsTimeBudgetMessage(message: string) {
    "time budget" <= message && forall c :: c in message ==> LowerChar(c) == c && c != 'a' && c != 'f'
  }

  lemma TestsWithAMiss(message: string)
    requires 'a' !in message
    ensures !Contains(message, "not approved") && !Contains(message, "already executed") && !Contains(message, "replay")
    ensures !Contains(message, "workspace drift") && !Contains(message, "step cap")
  {
    Misses(message, "not approved", 4);
    Misses(message, "already executed", 0);
    Misses(message, "replay", 4);
    Misses(message, "workspace drift", 6);
    Misses(message, "step cap", 6);
  }

  /** A text without the character at `k` of the pattern does not contain the pattern. */
  lemma Misses(message: string, pattern: string, k: nat)
    requires k < |pattern| && pattern[k] !in message
    ensures !Contains(message, pattern)
  {
    ContainedCharacters(message, pattern, pattern[k]);
  }

  lemma EarlierTestsMiss(message: string)
    requires 'a' !in message && 'f' !in message && "time budget" <= message
    ensures ClassifyMessage(message) == TIME_BUDGET_EXCEEDED
  {
    TestsWithAMiss(message);
    Misses(message, "drift detected", 3);
    StartsWith(message, "time budget");
  }

  lemma StartsWith(message: string, pattern: string)
    requires pattern <= message
    ensures Contains(message, pattern)
  {
    FindFromSkipsNothing(message, pattern, 0, 0);
  }

  /** The handler's message tests recognise such a message. */
  lemma TimeBudgetIsRecognised(message: string)
    requires IsTimeBudgetMessage(message)
    ensures ClassifyError(message) == TIME_BUDGET_EXCEEDED
  {
    LowerKeeps(message);
    EarlierTestsMiss(message);
  }

  lemma TimeBudgetMessage()
    ensures IsTimeBudgetMessage(TIME_BUDGET)
  {
    assert TIME_BUDGET == "time budget" + " exceeded";
  }

  /** After the loop, a run stopped by the time budget returns that status or raises. */
  lemma TimeBudgetIsReturned(cfg: Config, st: RunState, markers: Markers, h: Hash, run: nat, env: RunEnv)
    ensures var outcome := Conclude(cfg, st, Some(TIME_BUDGET), markers, h, run, env).2;
            outcome.Returned? ==> outcome.status == ClassifyError(TIME_BUDGET)
  {
  }

  /** A run in which some command timed out returns TIME_BUDGET_EXCEEDED, or raises; never another status. */
  lemma TimeoutIsReported(l: Launch)
    requires Starts(l) && !NoTimeout(Loop(l).0.results)
    ensures var outcome := Execute(l).2;
            outcome.Returned? ==> outcome.status == TIME_BUDGET_EXCEEDED
  {
    TimeoutEndsLoop(l.cfg, RunState(l.files, [], []), StepsAt(l), l.env.steps, 0);
    TimeBudgetMessage();
    TimeBudgetIsRecognised(TIME_BUDGET);
    StartedRun(l);
    TimeBudgetIsReturned(l.cfg, Loop(l).0, l.markers[l.hash := InFlight(l.run)], l.hash, l.run, l.env);
  }

  // ---------------------------------------------------------------------------
  // Changed paths
  // ---------------------------------------------------------------------------

  /** Some result says that its step wrote `p`. */
  ghost predicate WrittenAt(cfg: Config, results: seq<Record>, p: Path) {
    exists kind, r :: r in results && Wrote(kind, r) && Target(cfg, r.call) == Some(p)
  }

  lemma WrittenAtGrows(cfg: Config, some: seq<Record>, more: seq<Record>, p: Path)
    requires some <= more && WrittenAt(cfg, some, p)
    ensures WrittenAt(cfg, more, p)
  {
    var kind, r :| r in some && Wrote(kind, r) && Target(cfg, r.call) == Some(p);
    assert r in more;
  }

  /** A successful step that changes `p` says so in its result. */
  lemma ChangeIsRecorded(cfg: Config, st: RunState, step: Step, env: StepEnv, p: Path)
    requires TryStep(cfg, st, step, env).1.None? && AllGood(TryStep(cfg, st, step, env).0.results)
    requires p !in env.touched
    requires StateAt(TryStep(cfg, st, step, env).0.files, p) != StateAt(st.files, p)
    ensures WrittenAt(cfg, TryStep(cfg, st, step, env).0.results, p)
  {
    var reply := CompletedStep(cfg, st, step, env);
    var next := TryStep(cfg, st, step, env).0;
    var q := TargetOr(cfg, step.call);
    if !step.call.Mutates() || p != q {
      PerformSparesOthers(cfg, st.files, step.call, q, env, p);
      assert false;
    }
    var r := Record(step.stepId, step.call, reply);
    assert r in next.results && ResultStatus(r) == SUCCESS;
    match step.call {
      case PatchApply(_, _) => assert Wrote(AppliedPaths, r);
      case FileCreate(_, _) => assert Wrote(CreatedPaths, r);
      case PatchEdit(_, edits, expectedHash) =>
        EditFileIsAtomic(cfg, st.files, q, edits, expectedHash, env.write);
        assert Wrote(EditedPaths, r);
      case _ =>
    }
  }

  lemma {:induction false} RunChangeIsRecorded(cfg: Config, st: RunState, steps: seq<Step>, envs: nat -> StepEnv,
                                               i: nat, p: Path)
    requires i <= |steps| && Spared(envs, p)
    requires RunSteps(cfg, st, steps, envs, i).1.None? && AllGood(RunSteps(cfg, st, steps, envs, i).0.results)
    requires StateAt(RunSteps(cfg, st, steps, envs, i).0.files, p) != StateAt(st.files, p)
    ensures WrittenAt(cfg, RunSteps(cfg, st, steps, envs, i).0.results, p)
    decreases |steps| - i
  {
    if i < |steps| {
      var next := TryStep(cfg, st, steps[i], envs(i)).0;
      RunExtendsResults(cfg, next, steps, envs, i + 1);
      if StateAt(next.files, p) != StateAt(st.files, p) {
        ChangeIsRecorded(cfg, st, steps[i], envs(i), p);
        WrittenAtGrows(cfg, next.results, RunSteps(cfg, st, steps, envs, i).0.results, p);
      } else {
        RunChangeIsRecorded(cfg, next, steps, envs, i + 1, p);
      }
    }
  }

  lemma LoopChangeIsNamed(l: Launch, p: Path)
    requires Succeeds(l) && Spared(l.env.steps, p) && StateAt(Loop(l).0.files, p) != StateAt(l.files, p)
    ensures exists path :: path in ChangedPaths(Loop(l).0.results) && ResolveUnder(l.cfg.root, path) == Some(p)
  {
    var results := Loop(l).0.results;
    SuccessMeansEveryResult(results, None);
    RunChangeIsRecorded(l.cfg, RunState(l.files, [], []), StepsAt(l), l.env.steps, 0, p);
    var kind, r :| r in results && Wrote(kind, r) && Target(l.cfg, r.call) == Some(p);
    assert WrittenAs(results, kind, r.call.path);
    ChangedPathsAreExact(results, r.call.path);
  }

  /** On SUCCESS every path whose text a mutation changed is named in `changed_paths`. */
  lemma ChangedTextIsNamed(l: Launch, p: Path)
    requires Spared(l.env.steps, p)
    ensures var (after, marks, outcome) := Execute(l);
            outcome.Returned? && outcome.status == SUCCESS && StateAt(after, p) != StateAt(l.files, p) ==>
            exists path :: path in ChangedPaths(outcome.results) && ResolveUnder(l.cfg.root, path) == Some(p)
  {
    if Starts(l) {
      StartedOutcome(l);
      if Succeeds(l) && StateAt(Loop(l).0.files, p) != StateAt(l.files, p) {
        LoopChangeIsNamed(l, p);
      }
    } else {
      DenialLeavesNoTrace(l);
    }
  }
}
