/** The approval gate and the drift check, and what they guarantee when a step is reached. */
module ApprovalGate {

  import opened Wrappers
  import opened Text
  import opened Paths
  import opened Workspace
  import opened PlanSchema
  import opened PlanStore
  import opened Executor
  import opened Atomicity
  import opened Fingerprint
  import PlanHash

  // ---------------------------------------------------------------------------
  // The gate
  // ---------------------------------------------------------------------------

  datatype Problem = BadPath | MissingTarget | TargetNotFile | TargetExists | MissingParent

  predicate Exists(cfg: Config, files: Files, p: Path) {
    p in files || p in cfg.dirs
  }

  function Parent(p: Path): Path {
    if p == [] then [] else p[..|p| - 1]
  }

  /** What is wrong with one step, in the order the gate looks. */
  function StepProblem(cfg: Config, files: Files, call: Call): Option<Problem> {
    if !call.Mutates() then None
    else match ResolvePlanPath(cfg.root, call.path)
      case None => Some(BadPath)
      case Some(p) =>
        if call.FileCreate? then
          if Exists(cfg, files, p) then Some(TargetExists)
          else if !Exists(cfg, files, Parent(p)) then Some(MissingParent)
          else None
        else if !Exists(cfg, files, p) then Some(MissingTarget)
        else if p !in files then Some(TargetNotFile)
        else None
  }

  /** The text is a relative path without parent parts that names the place `p` in the workspace. */
  ghost predicate NamesPlace(root: Path, path: string, p: Path) {
    && !IsBlank(path) && path[0] != '/' && ".." !in Split(path, '/')
    && Resolve(root, path) == Some(p) && root <= p
  }

  /** The gate's verdict on a mutation, reason by reason. */
  lemma ProblemMeans(cfg: Config, files: Files, call: Call)
    requires call.Mutates()
    ensures StepProblem(cfg, files, call) == Some(BadPath) <==> !exists p :: NamesPlace(cfg.root, call.path, p)
    ensures forall p :: NamesPlace(cfg.root, call.path, p) ==>
              var there := p in files || p in cfg.dirs;
              var parent := if p == [] then p else p[..|p| - 1];
              && (StepProblem(cfg, files, call) == Some(MissingTarget) <==> !call.FileCreate? && !there)
              && (StepProblem(cfg, files, call) == Some(TargetNotFile) <==> !call.FileCreate? && there && p !in files)
              && (StepProblem(cfg, files, call) == Some(TargetExists) <==> call.FileCreate? && there)
              && (StepProblem(cfg, files, call) == Some(MissingParent) <==>
                  call.FileCreate? && !there && parent !in files && parent !in cfg.dirs)
  {
    if ResolvePlanPath(cfg.root, call.path).Some? {
      assert NamesPlace(cfg.root, call.path, ResolvePlanPath(cfg.root, call.path).value);
    }
    forall p ensures NamesPlace(cfg.root, call.path, p) ==> ResolvePlanPath(cfg.root, call.path) == Some(p) {
    }
  }

  ghost predicate GatePasses(cfg: Config, files: Files, steps: seq<Step>) {
    forall k :: 0 <= k < |steps| ==> StepProblem(cfg, files, steps[k].call).None?
  }

  /** The gate reports the first offending step. */
  method ValidatePlanApprovalGate(cfg: Config, files: Files, steps: seq<Step>) returns (problem: Option<Problem>)
    ensures problem.None? <==> GatePasses(cfg, files, steps)
    ensures problem.Some? ==> exists k :: 0 <= k < |steps| && StepProblem(cfg, files, steps[k].call) == problem
                                && forall j :: 0 <= j < k ==> StepProblem(cfg, files, steps[j].call).None?
  {
    for k := 0 to |steps|
      invariant forall j :: 0 <= j < k ==> StepProblem(cfg, files, steps[j].call).None?
    {
      var call := steps[k].call;
      if !call.Mutates() {
        continue;
      }
      var target := ResolvePlanPath(cfg.root, call.path);
      if target.None? {
        assert StepProblem(cfg, files, steps[k].call) == Some(BadPath);
        return Some(BadPath);
      }
      var p := target.value;
      if call.PatchApply? || call.PatchEdit? {
        if !Exists(cfg, files, p) {
          assert StepProblem(cfg, files, steps[k].call) == Some(MissingTarget);
          return Some(MissingTarget);
        }
        if p !in files {
          assert StepProblem(cfg, files, steps[k].call) == Some(TargetNotFile);
          return Some(TargetNotFile);
        }
      }
      if call.FileCreate? {
        if Exists(cfg, files, p) {
          assert StepProblem(cfg, files, steps[k].call) == Some(TargetExists);
          return Some(TargetExists);
        }
        if !Exists(cfg, files, Parent(p)) {
          assert StepProblem(cfg, files, steps[k].call) == Some(MissingParent);
          return Some(MissingParent);
        }
      }
    }
    problem := None;
  }

  datatype Refusal = NotPending | GateFailed(problem: Problem)

  /** Approve a pending plan: the gate, the move, then the fingerprint of the files as approved. */
  method ApprovePlan(store: Store, h: Hash, steps: seq<Step>, cfg: Config, files: Files, entries: seq<Path>)
    returns (refusal: Option<Refusal>)
    modifies store
    ensures refusal.None? <==> h in old(store.pending) && GatePasses(cfg, files, steps)
    ensures refusal.Some? ==> store.pending == old(store.pending) && store.approved == old(store.approved)
                              && store.metas == old(store.metas)
    ensures refusal.None? ==>
            && store.approved == old(store.approved)[h := old(store.pending)[h]]
            && store.pending == old(store.pending) - {h}
            && store.metas == old(store.metas)[h := Meta(WorkspaceFingerprint(cfg.sha, cfg.root, files, entries), true)]
    ensures store.executed == old(store.executed)
  {
    if h !in store.pending {
      return Some(NotPending);
    }
    var problem := ValidatePlanApprovalGate(cfg, files, steps);
    if problem.Some? {
      return Some(GateFailed(problem.value));
    }
    var moved := store.MarkPlanApproved(h);
    var fingerprint := ComputeWorkspaceFingerprint(cfg.sha, cfg.root, files, entries);
    store.WriteApprovedPlanMeta(h, Meta(fingerprint, true));
    refusal := None;
  }

  // ---------------------------------------------------------------------------
  // What holds when a step is reached
  // ---------------------------------------------------------------------------

  /** Some step before `k` creates `p`. */
  ghost predicate CreatedBefore(cfg: Config, steps: seq<Step>, i: nat, k: nat, p: Path) {
    exists j :: i <= j < k && j < |steps| && steps[j].call.FileCreate? && Target(cfg, steps[j].call) == Some(p)
  }

  /** A patch write that fails leaves some text in the file, never no file. */
  ghost predicate PatchesKeepTheirFile(steps: seq<Step>, envs: nat -> StepEnv) {
    forall i :: 0 <= i < |steps| && !steps[i].call.FileCreate? && envs(i).write.Torn? ==> envs(i).write.left.Some?
  }

  /** A tool that answers makes a file appear only by creating it, whatever the gateway's refusal was. */
  lemma AttemptChangesPresence(cfg: Config, files: Files, call: Call, q: Path, denial: Option<string>, env: StepEnv,
                               p: Path)
    requires p !in env.touched && (call.FileCreate? || env.write.Clean? || env.write.left.Some?)
    requires Attempt(cfg, files, call, q, denial, env).1.Replied?
    ensures p in Attempt(cfg, files, call, q, denial, env).0 <==> p in files || (call.FileCreate? && q == p)
  {
    if !call.Mutates() || p != q {
      AttemptSparesOthers(cfg, files, call, q, denial, env, p);
    }
  }

  /** A completed step makes a file appear only by creating it, and no step makes one disappear. */
  lemma StepChangesPresence(cfg: Config, st: RunState, step: Step, env: StepEnv, p: Path)
    requires p !in env.touched && (step.call.FileCreate? || env.write.Clean? || env.write.left.Some?)
    requires TryStep(cfg, st, step, env).1.None?
    ensures p in TryStep(cfg, st, step, env).0.files <==>
            p in st.files || (step.call.FileCreate? && Target(cfg, step.call) == Some(p))
  {
    var reply := CompletedStep(cfg, st, step, env);
    var q := TargetOr(cfg, step.call);
    AttemptChangesPresence(cfg, st.files, step.call, q, Denial(cfg.root, step.call, q, env.tokens), env, p);
  }

  lemma CreatedBeforeStep(cfg: Config, steps: seq<Step>, i: nat, k: nat, p: Path)
    requires i < k <= |steps|
    ensures CreatedBefore(cfg, steps, i, k, p) <==>
            (steps[i].call.FileCreate? && Target(cfg, steps[i].call) == Some(p)) ||
                CreatedBefore(cfg, steps, i + 1, k, p)
  {
  }

  lemma {:induction false} PresenceAtEnd(cfg: Config, st: RunState, steps: seq<Step>, envs: nat -> StepEnv, i: nat,
                                         p: Path)
    requires i <= |steps| && Spared(envs, p) && PatchesKeepTheirFile(steps, envs)
    requires RunSteps(cfg, st, steps, envs, i).1.None?
    ensures p in RunSteps(cfg, st, steps, envs, i).0.files <==>
            p in st.files || CreatedBefore(cfg, steps, i, |steps|, p)
    decreases |steps| - i
  {
    if i < |steps| {
      StepChangesPresence(cfg, st, steps[i], envs(i), p);
      PresenceAtEnd(cfg, TryStep(cfg, st, steps[i], envs(i)).0, steps, envs, i + 1, p);
      CreatedBeforeStep(cfg, steps, i, |steps|, p);
    }
  }

  /** When step `k` is reached, `p` is a file exactly when it was one at the start or an earlier step created it. */
  lemma PresenceWhenReached(cfg: Config, st: RunState, steps: seq<Step>, envs: nat -> StepEnv, k: nat, p: Path)
    requires k <= |steps| && Spared(envs, p) && PatchesKeepTheirFile(steps, envs)
    requires RunSteps(cfg, st, steps[..k], envs, 0).1.None?
    ensures p in RunSteps(cfg, st, steps[..k], envs, 0).0.files <==> p in st.files || CreatedBefore(cfg, steps, 0, k, p)
  {
    PresenceAtEnd(cfg, st, steps[..k], envs, 0, p);
    CreatedInPrefix(cfg, steps, k, p);
  }

  lemma CreatedInPrefix(cfg: Config, steps: seq<Step>, k: nat, p: Path)
    requires k <= |steps|
    ensures CreatedBefore(cfg, steps[..k], 0, k, p) <==> CreatedBefore(cfg, steps, 0, k, p)
  {
    assert forall j :: 0 <= j < k ==> steps[..k][j] == steps[j];
  }

  /** The gate's word on the approved files, for the files a step targets. */
  lemma GateSpeaksOfTarget(cfg: Config, files: Files, call: Call)
    requires call.Mutates() && StepProblem(cfg, files, call).None?
    ensures Target(cfg, call).Some?
    ensures Target(cfg, call).value in files <==> !call.FileCreate?
  {
  }

  /** The approval on file for the plan: the gate passed on `seen`, whose fingerprint is on record. */
  ghost predicate Approved(l: Launch, dirs: set<Path>, seen: Files, entries: seq<Path>) {
    && GatePasses(l.cfg.(dirs := dirs), seen, StepsAt(l))
    && l.hash in l.approvals.metas
    && l.approvals.metas[l.hash] == Meta(WorkspaceFingerprint(l.cfg.sha, l.cfg.root, seen, entries), true)
    && PlainNames(seen) && Scans(l.cfg.root, seen, entries)
  }

  /** The covered files at approval are the covered files when preflight passes. */
  lemma NoDriftSinceApproval(l: Launch, dirs: set<Path>, seen: Files, entries: seq<Path>, p: Path)
    requires HexDigests(l.cfg.sha) && PlanHash.CollisionFree(l.cfg.sha)
    requires Approved(l, dirs, seen, entries) && CheckedPlan(l).Success?
    requires PlainNames(l.files) && Scans(l.cfg.root, l.files, l.env.scan)
    requires Under(l.cfg.root, p) && Covered(p[|l.cfg.root|..])
    ensures StateAt(seen, p) == StateAt(l.files, p)
  {
    CheckedMeansApproved(l);
    FingerprintIdentifiesFiles(l.cfg.sha, l.cfg.root, seen, l.files, entries, l.env.scan);
    assert p in seen <==> p in CoveredFiles(l.cfg.root, seen);
    assert p in l.files <==> p in CoveredFiles(l.cfg.root, l.files);
  }

  /** When approval and preflight both passed, a covered target of step `k` is a file when the step is reached exactly
      when the step patches it or an earlier step created it: patches find their file, and a creation finds none that
      the plan did not make itself. */
  lemma ReachedStepsFindTheirTargets(l: Launch, dirs: set<Path>, seen: Files, entries: seq<Path>, k: nat)
    requires HexDigests(l.cfg.sha) && PlanHash.CollisionFree(l.cfg.sha)
    requires Approved(l, dirs, seen, entries) && CheckedPlan(l).Success?
    requires PlainNames(l.files) && Scans(l.cfg.root, l.files, l.env.scan)
    requires k < |StepsAt(l)| && StepsAt(l)[k].call.Mutates() && PatchesKeepTheirFile(StepsAt(l), l.env.steps)
    requires LoopUpTo(l, k).1.None?
    ensures Target(l.cfg, StepsAt(l)[k].call).Some?
    ensures var call := StepsAt(l)[k].call;
            var p := Target(l.cfg, call).value;
            Covered(p[|l.cfg.root|..]) && Spared(l.env.steps, p) ==>
              (p in LoopUpTo(l, k).0.files <==> !call.FileCreate? || CreatedBefore(l.cfg, StepsAt(l), 0, k, p))
  {
    var steps := StepsAt(l);
    var call := steps[k].call;
    assert StepProblem(l.cfg.(dirs := dirs), seen, steps[k].call).None?;
    GateSpeaksOfTarget(l.cfg.(dirs := dirs), seen, call);
    var p := Target(l.cfg, call).value;
    assert Target(l.cfg.(dirs := dirs), call) == Some(p);
    if Covered(p[|l.cfg.root|..]) && Spared(l.env.steps, p) {
      NoDriftSinceApproval(l, dirs, seen, entries, p);
      assert p in seen <==> p in l.files;
      PresenceWhenReached(l.cfg, RunState(l.files, [], []), steps, l.env.steps, k, p);
    }
  }
}
