/** When a plan hash is spent: the exact states from which some continuation still runs a step under it. */
module Consumption {

  import opened Wrappers
  import opened PlanSchema
  import opened PlanStore
  import opened PlanHash
  import opened Lifecycle

  // ---------------------------------------------------------------------------
  // Open hashes
  // ---------------------------------------------------------------------------

  /** Run `r` is about to write or to remove the record of `h`. */
  predicate ClaimsHash(s: State, h: Hash, r: nat) {
    r in s.workers && s.workers[r].hash == h && Claims(s.workers[r])
  }

  predicate OwnerHasSteps(s: State, h: Hash, r: nat) {
    r in s.workers && s.workers[r].hash == h && StepIsDue(s.workers[r])
  }

  /** No record; or a claim whose run is still at it; or a run in flight with steps left. */
  ghost predicate Open(s: State, h: Hash) {
    match MarkerOf(s, h)
    case None => true
    case Some(Claimed) => exists r :: ClaimsHash(s, h, r)
    case Some(InFlight(run)) => OwnerHasSteps(s, h, run)
    case Some(_) => false
  }

  /** Some continuation runs a step under `h`. */
  ghost predicate CanStillRun(sha: string -> string, schedule: seq<Action>, h: Hash) {
    exists more, i :: RunsLater(sha, schedule, more, h, i)
  }

  /** Event `i` of the continued schedule is new and a step under `h`. */
  ghost predicate RunsLater(sha: string -> string, schedule: seq<Action>, more: seq<Action>, h: Hash, i: nat) {
    && |Run(sha, schedule).history| <= i < |Run(sha, schedule + more).history|
    && Run(sha, schedule + more).history[i].hash == h
  }

  // ---------------------------------------------------------------------------
  // A spent hash stays spent
  // ---------------------------------------------------------------------------

  /** The place a run may move to in one step without the record of its hash being free. */
  ghost predicate NoNewRights(w: Worker, v: Worker) {
    && v.hash == w.hash
    && (Claims(v) ==> Claims(w))
    && (StepIsDue(v) ==> StepIsDue(w) || Claims(w))
  }

  predicate OthersStay(s: State, t: State, run: nat) {
    run in t.workers && (t.workers == s.workers || t.workers == s.workers[run := t.workers[run]])
  }

  lemma PreflightKeepsOthers(sha: string -> string, s: State, action: Action)
    requires IsPreflightAction(action) && action.run in s.workers
    ensures OthersStay(s, PreflightStep(sha, s, action), action.run) &&
        PreflightStep(sha, s, action).history == s.history
  {
  }

  lemma PreflightGivesNoRights(sha: string -> string, s: State, action: Action)
    requires IsPreflightAction(action) && action.run in s.workers
    ensures var t := PreflightStep(sha, s, action);
            && action.run in t.workers && NoNewRights(s.workers[action.run], t.workers[action.run])
            && t.history == s.history && OthersStay(s, t, action.run)
  {
    PreflightKeepsOthers(sha, s, action);
  }

  lemma RecordKeepsOthers(s: State, action: Action)
    requires IsRecordAction(action) && action.run in s.workers
    ensures OthersStay(s, RecordStep(s, action), action.run) && RecordStep(s, action).history == s.history
  {
  }

  lemma RecordGivesNoRights(s: State, action: Action)
    requires IsRecordAction(action) && action.run in s.workers
    ensures var t := RecordStep(s, action);
            && action.run in t.workers && t.workers[action.run].hash == s.workers[action.run].hash
            && (s.workers[action.run].hash in s.markers ==> NoNewRights(s.workers[action.run], t.workers[action.run]))
            && t.history == s.history && OthersStay(s, t, action.run)
  {
    RecordKeepsOthers(s, action);
  }

  lemma LoopGivesNoRights(s: State, action: Action)
    requires IsLoopAction(action) && action.run in s.workers
    ensures var t := LoopStep(s, action);
            && action.run in t.workers && NoNewRights(s.workers[action.run], t.workers[action.run])
            && (!StepIsDue(s.workers[action.run]) ==> t.history == s.history)
            && s.history <= t.history && |t.history| <= |s.history| + 1
            && (forall i :: |s.history| <= i < |t.history| ==> t.history[i].hash == s.workers[action.run].hash)
            && OthersStay(s, t, action.run)
  {
  }

  lemma SettleKeepsOthers(s: State, action: Action)
    requires IsSettleAction(action) && action.run in s.workers
    ensures OthersStay(s, SettleStep(s, action), action.run) && SettleStep(s, action).history == s.history
  {
  }

  lemma SettleGivesNoRights(s: State, action: Action)
    requires IsSettleAction(action) && action.run in s.workers
    ensures var t := SettleStep(s, action);
            && action.run in t.workers && NoNewRights(s.workers[action.run], t.workers[action.run])
            && t.history == s.history && OthersStay(s, t, action.run)
  {
    SettleKeepsOthers(s, action);
  }

  /** What one step of a run does to the runs and the history. */
  lemma StepGivesNoRights(sha: string -> string, s: State, action: Action)
    requires !IsFileAction(action) && !action.Start? && action.run in s.workers
    ensures var w := s.workers[action.run];
            var t := Next(sha, s, action);
            && OthersStay(s, t, action.run) && t.workers[action.run].hash == w.hash
            && (w.hash in s.markers ==> NoNewRights(w, t.workers[action.run]))
            && s.history <= t.history
            && (!StepIsDue(w) ==> t.history == s.history)
            && forall i :: |s.history| <= i < |t.history| ==> t.history[i].hash == w.hash
  {
    if IsPreflightAction(action) {
      PreflightGivesNoRights(sha, s, action);
    } else if IsRecordAction(action) {
      RecordGivesNoRights(s, action);
    } else if IsLoopAction(action) {
      LoopGivesNoRights(s, action);
    } else {
      SettleGivesNoRights(s, action);
    }
  }

  /** Steps of files and new runs touch no record, no history and no run that exists. */
  lemma OutsideStep(sha: string -> string, s: State, action: Action)
    requires IsFileAction(action) || action.Start? || action.run !in s.workers
    ensures var t := Next(sha, s, action);
            && t.markers == s.markers && t.history == s.history
            && forall r :: r in t.workers ==>
                 if r in s.workers then t.workers[r] == s.workers[r] else t.workers[r].pc == Starting
  {
  }

  /** A run of a spent hash holds no claim and has no steps left. */
  lemma SpentRunIsIdle(sha: string -> string, s: State, h: Hash, r: nat)
    requires Inv(sha, s) && !Open(s, h) && r in s.workers && s.workers[r].hash == h
    ensures !Claims(s.workers[r]) && !StepIsDue(s.workers[r])
  {
    assert WorkerHolds(sha, s, r);
    if Claims(s.workers[r]) {
      assert ClaimsHash(s, h, r);
    }
  }

  /** One step leaves a spent hash spent, and runs no step under it. */
  lemma SpentStays(sha: string -> string, s: State, action: Action, h: Hash)
    requires Inv(sha, s) && !Open(s, h)
    ensures var t := Next(sha, s, action);
            && !Open(t, h) && s.history <= t.history
            && forall i :: |s.history| <= i < |t.history| ==> t.history[i].hash != h
  {
    if IsFileAction(action) || action.Start? || action.run !in s.workers {
      OutsideStep(sha, s, action);
      OutsideStaysSpent(sha, s, Next(sha, s, action), h);
    } else {
      StepGivesNoRights(sha, s, action);
      StepOnRecord(sha, s, action, h);
      if s.workers[action.run].hash == h {
        SpentRunIsIdle(sha, s, h, action.run);
      }
      StepStaysSpent(s, Next(sha, s, action), action.run, h);
    }
  }

  lemma OutsideStaysSpent(sha: string -> string, s: State, t: State, h: Hash)
    requires !Open(s, h) && t.markers == s.markers
    requires forall r :: r in t.workers ==>
               if r in s.workers then t.workers[r] == s.workers[r] else t.workers[r].pc == Starting
    ensures !Open(t, h)
  {
    if r :| ClaimsHash(t, h, r) && MarkerOf(t, h) == Some(Claimed) {
      assert ClaimsHash(s, h, r);
    }
  }

  /** A hash stays spent when its record stays or becomes terminal, and its runs get no new rights. */
  lemma StepStaysSpent(s: State, t: State, run: nat, h: Hash)
    requires !Open(s, h) && run in s.workers && OthersStay(s, t, run) && t.workers[run].hash == s.workers[run].hash
    requires s.workers[run].hash == h ==> !Claims(t.workers[run]) && !StepIsDue(t.workers[run])
    requires MarkerOf(t, h) == MarkerOf(s, h) || (MarkerOf(t, h).Some? && Terminal(MarkerOf(t, h).value))
    ensures !Open(t, h)
  {
    if r :| ClaimsHash(t, h, r) && MarkerOf(t, h) == Some(Claimed) {
      assert ClaimsHash(s, h, r);
    }
  }

  /** In no continuation is a step run under a spent hash. */
  lemma {:induction false} SpentForGood(sha: string -> string, schedule: seq<Action>, more: seq<Action>, h: Hash)
    requires !Open(Run(sha, schedule), h)
    ensures var s, t := Run(sha, schedule), Run(sha, schedule + more);
            && !Open(t, h) && s.history <= t.history
            && forall i :: |s.history| <= i < |t.history| ==> t.history[i].hash != h
    decreases |more|
  {
    if more == [] {
      assert schedule + more == schedule;
    } else {
      var init, last := more[..|more| - 1], more[|more| - 1];
      SpentForGood(sha, schedule, init, h);
      EveryScheduleKeepsInv(sha, schedule + init);
      SpentStays(sha, Run(sha, schedule + init), last, h);
      ScheduleSnoc(sha, schedule, more);
    }
  }

  // ---------------------------------------------------------------------------
  // An open hash can still run
  // ---------------------------------------------------------------------------

  /** Some continuation of the schedule leads to `t`. */
  ghost predicate CanReach(sha: string -> string, schedule: seq<Action>, t: State) {
    exists more :: Run(sha, schedule + more) == t
  }

  lemma ReachesNow(sha: string -> string, schedule: seq<Action>)
    ensures CanReach(sha, schedule, Run(sha, schedule))
  {
    assert schedule + [] == schedule;
    assert Run(sha, schedule + []) == Run(sha, schedule);
  }

  lemma ReachesNext(sha: string -> string, schedule: seq<Action>, s: State, action: Action)
    requires CanReach(sha, schedule, s)
    ensures CanReach(sha, schedule, Next(sha, s, action))
  {
    var more :| Run(sha, schedule + more) == s;
    var longer := more + [action];
    ScheduleSnoc(sha, schedule, longer);
    assert longer[..|longer| - 1] == more;
    assert Run(sha, schedule + longer) == Next(sha, s, action);
  }

  /** A plan that a run of `h` can carry out, and that has something to do. */
  ghost predicate Runnable(sha: string -> string, h: Hash, plan: Plan) {
    ComputePlanHash(sha, plan) == h && 0 < |plan.steps| <= 25
  }

  /** With the same records and history, run `r` of `h` stands at `pc` with the plan. */
  ghost predicate StandsAt(s: State, t: State, h: Hash, plan: Plan, r: nat, pc: Pc) {
    && r in t.workers && t.workers[r] == Worker(h, Some(plan), pc)
    && t.history == s.history
  }

  /** A run number that no run has. */
  lemma FreshRun(workers: map<nat, Worker>) returns (r: nat)
    ensures r !in workers
  {
    r := Bound(workers.Keys);
  }

  lemma {:induction false} Bound(runs: set<nat>) returns (r: nat)
    ensures forall q :: q in runs ==> q < r
  {
    if runs == {} {
      r := 0;
    } else {
      var q :| q in runs;
      var rest := Bound(runs - {q});
      r := if rest > q then rest else q + 1;
      assert runs == (runs - {q}) + {q};
    }
  }

  /** The plan can be submitted and approved, and a new run of it started. */
  lemma CanStart(sha: string -> string, schedule: seq<Action>, s: State, h: Hash, plan: Plan, r: nat) returns (t: State)
    requires CanReach(sha, schedule, s) && r !in s.workers && Runnable(sha, h, plan)
    ensures CanReach(sha, schedule, t)
    ensures t == s.(pending := s.pending - {h}, approved := s.approved[h := plan],
        metas := s.metas[h := Meta("", true)],
                    workers := s.workers[r := Worker(h, None, Starting)])
  {
    var submitted := FileStep(sha, s, Submit(plan));
    ReachesFiled(sha, schedule, s, Submit(plan));
    var copied := FileStep(sha, submitted, CopyToApproved(h));
    ReachesFiled(sha, schedule, submitted, CopyToApproved(h));
    var moved := FileStep(sha, copied, RemovePending(h));
    ReachesFiled(sha, schedule, copied, RemovePending(h));
    var approved := FileStep(sha, moved, WriteMeta(h, Meta("", true)));
    ReachesFiled(sha, schedule, moved, WriteMeta(h, Meta("", true)));
    t := Next(sha, approved, Start(r, h));
    ReachesNext(sha, schedule, approved, Start(r, h));
    assert submitted.pending - {h} == s.pending - {h};
  }

  lemma ReachesFiled(sha: string -> string, schedule: seq<Action>, s: State, action: Action)
    requires CanReach(sha, schedule, s) && IsFileAction(action)
    ensures CanReach(sha, schedule, FileStep(sha, s, action))
  {
    ReachesNext(sha, schedule, s, action);
  }

  lemma Dispatch(sha: string -> string, s: State, action: Action)
    requires !IsFileAction(action) && !action.Start? && action.run in s.workers
    ensures IsPreflightAction(action) ==> Next(sha, s, action) == PreflightStep(sha, s, action)
    ensures IsRecordAction(action) ==> Next(sha, s, action) == RecordStep(s, action)
    ensures IsLoopAction(action) ==> Next(sha, s, action) == LoopStep(s, action)
    ensures IsSettleAction(action) ==> Next(sha, s, action) == SettleStep(s, action)
  {
  }

  lemma Loads(sha: string -> string, s: State, h: Hash, plan: Plan, r: nat)
    requires r in s.workers && s.workers[r] == Worker(h, None, Starting) && h in s.approved && s.approved[h] == plan
    ensures PreflightStep(sha, s, Load(r)) == s.(workers := s.workers[r := Worker(h, Some(plan), Loaded)])
  {
  }

  lemma ChecksHash(sha: string -> string, s: State, h: Hash, plan: Plan, r: nat)
    requires r in s.workers && s.workers[r] == Worker(h, Some(plan), Loaded)
    requires h in s.metas && ComputePlanHash(sha, plan) == h
    ensures PreflightStep(sha, s, CheckHash(r)) == Move(s, r, Verified)
  {
  }

  lemma ChecksDrift(sha: string -> string, s: State, h: Hash, plan: Plan, r: nat)
    requires r in s.workers && s.workers[r] == Worker(h, Some(plan), Verified)
    requires h in s.metas && s.metas[h] == Meta("", true) && |plan.steps| <= 25
    ensures PreflightStep(sha, s, CheckDrift(r, "")) == Move(s, r, Cleared)
  {
  }

  lemma ReachesDispatched(sha: string -> string, schedule: seq<Action>, s: State, action: Action)
    requires CanReach(sha, schedule, s) && !IsFileAction(action) && !action.Start? && action.run in s.workers
    ensures IsPreflightAction(action) ==> CanReach(sha, schedule, PreflightStep(sha, s, action))
    ensures IsRecordAction(action) ==> CanReach(sha, schedule, RecordStep(s, action))
    ensures IsLoopAction(action) ==> CanReach(sha, schedule, LoopStep(s, action))
    ensures IsSettleAction(action) ==> CanReach(sha, schedule, SettleStep(s, action))
  {
    ReachesNext(sha, schedule, s, action);
    Dispatch(sha, s, action);
  }

  /** Then preflight lets it through. */
  lemma CanClear(sha: string -> string, schedule: seq<Action>, s: State, h: Hash, plan: Plan, r: nat) returns (t: State)
    requires CanReach(sha, schedule, s) && Runnable(sha, h, plan)
    requires r in s.workers && s.workers[r] == Worker(h, None, Starting)
    requires h in s.approved && s.approved[h] == plan && h in s.metas && s.metas[h] == Meta("", true)
    ensures CanReach(sha, schedule, t) && t.markers == s.markers && StandsAt(s, t, h, plan, r, Cleared)
  {
    Loads(sha, s, h, plan, r);
    ReachesDispatched(sha, schedule, s, Load(r));
    var one := s.(workers := s.workers[r := Worker(h, Some(plan), Loaded)]);
    ChecksHash(sha, one, h, plan, r);
    ReachesDispatched(sha, schedule, one, CheckHash(r));
    var two := Move(one, r, Verified);
    ChecksDrift(sha, two, h, plan, r);
    ReachesDispatched(sha, schedule, two, CheckDrift(r, ""));
    t := Move(two, r, Cleared);
  }

  lemma CreatesRecord(s: State, h: Hash, r: nat)
    requires r in s.workers && s.workers[r].hash == h && s.workers[r].pc == Cleared && h !in s.markers
    ensures RecordStep(s, CreateRecord(r)) == Move(s, r, Claiming).(markers := s.markers[h := Claimed])
  {
  }

  lemma WritesPayload(s: State, h: Hash, r: nat)
    requires r in s.workers && s.workers[r].hash == h && s.workers[r].pc == Claiming
    ensures RecordStep(s, WritePayload(r, true)) == Move(s, r, Running(0)).(markers := s.markers[h := InFlight(r)])
    ensures RecordStep(s, WritePayload(r, false)) == Move(s, r, Unclaiming)
  {
  }

  lemma RemovesRecord(s: State, h: Hash, r: nat)
    requires r in s.workers && s.workers[r].hash == h && s.workers[r].pc == Unclaiming
    ensures RecordStep(s, RemoveRecord(r, true)) == Move(s, r, Finished).(markers := s.markers - {h})
  {
  }

  /** Then it takes the lock. */
  lemma CanLock(sha: string -> string, schedule: seq<Action>, s: State, h: Hash, plan: Plan, r: nat) returns (t: State)
    requires CanReach(sha, schedule, s) && h !in s.markers && StandsAt(s, s, h, plan, r, Cleared)
    ensures CanReach(sha, schedule, t) && StandsAt(s, t, h, plan, r, Running(0))
    ensures t.markers == s.markers[h := InFlight(r)]
  {
    CreatesRecord(s, h, r);
    ReachesDispatched(sha, schedule, s, CreateRecord(r));
    var one := Move(s, r, Claiming).(markers := s.markers[h := Claimed]);
    assert one.workers[r] == Worker(h, Some(plan), Claiming);
    WritesPayload(one, h, r);
    ReachesDispatched(sha, schedule, one, WritePayload(r, true));
    t := Move(one, r, Running(0)).(markers := one.markers[h := InFlight(r)]);
  }

  /** A hash without a record can be brought to a run that holds its lock. */
  lemma CanLaunch(sha: string -> string, schedule: seq<Action>, s: State, h: Hash, plan: Plan)
    returns (t: State, r: nat)
    requires CanReach(sha, schedule, s) && h !in s.markers && Runnable(sha, h, plan)
    ensures CanReach(sha, schedule, t) && StandsAt(s, t, h, plan, r, Running(0))
    ensures t.markers == s.markers[h := InFlight(r)]
  {
    r := FreshRun(s.workers);
    var started := CanStart(sha, schedule, s, h, plan, r);
    var cleared := CanClear(sha, schedule, started, h, plan, r);
    t := CanLock(sha, schedule, cleared, h, plan, r);
  }

  /** A run with steps left can run one. */
  lemma CanStep(sha: string -> string, schedule: seq<Action>, s: State, r: nat) returns (t: State)
    requires CanReach(sha, schedule, s) && r in s.workers && StepIsDue(s.workers[r])
    ensures CanReach(sha, schedule, t) && t.markers == s.markers
    ensures var w := s.workers[r];
            && t.history == s.history + [Event(r, w.hash, w.plan.value, w.pc.next)]
            && r in t.workers && t.workers[r] == w.(pc := Running(w.pc.next + 1))
  {
    ReachesDispatched(sha, schedule, s, RunStep(r));
    t := LoopStep(s, RunStep(r));
  }

  /** A claim can be given up. */
  lemma CanUnclaim(sha: string -> string, schedule: seq<Action>, s: State, h: Hash, r: nat) returns (t: State)
    requires CanReach(sha, schedule, s) && ClaimsHash(s, h, r)
    ensures CanReach(sha, schedule, t) && h !in t.markers && t.history == s.history
  {
    var at := s;
    if s.workers[r].pc.Claiming? {
      WritesPayload(s, h, r);
      ReachesDispatched(sha, schedule, s, WritePayload(r, false));
      at := Move(s, r, Unclaiming);
    }
    RemovesRecord(at, h, r);
    ReachesDispatched(sha, schedule, at, RemoveRecord(r, true));
    t := Move(at, r, Finished).(markers := at.markers - {h});
  }

  lemma ReachedRun(sha: string -> string, schedule: seq<Action>, t: State, h: Hash, i: nat)
    requires CanReach(sha, schedule, t)
    requires |Run(sha, schedule).history| <= i < |t.history| && t.history[i].hash == h
    ensures CanStillRun(sha, schedule, h)
  {
    var more :| Run(sha, schedule + more) == t;
    assert RunsLater(sha, schedule, more, h, i);
  }

  lemma OpenCanRun(sha: string -> string, schedule: seq<Action>, h: Hash, plan: Plan)
    requires Open(Run(sha, schedule), h) && Runnable(sha, h, plan)
    ensures CanStillRun(sha, schedule, h)
  {
    var s := Run(sha, schedule);
    ReachesNow(sha, schedule);
    var at, r := s, 0;
    if MarkerOf(s, h).Some? && MarkerOf(s, h).value.InFlight? {
      r := MarkerOf(s, h).value.run;
    } else {
      if MarkerOf(s, h) == Some(Claimed) {
        var q :| ClaimsHash(s, h, q);
        at := CanUnclaim(sha, schedule, s, h, q);
      }
      at, r := CanLaunch(sha, schedule, at, h, plan);
    }
    var t := CanStep(sha, schedule, at, r);
    ReachedRun(sha, schedule, t, h, |at.history|);
  }

  /** After any schedule, some continuation runs a step under `h` exactly when `h` has no record, or a run is still
      claiming it, or its run is in flight with steps left. A claim left behind by a crash or a failed removal blocks
      the hash for good, although no step was run. */
  lemma HashCanStillRun(sha: string -> string, schedule: seq<Action>, h: Hash, plan: Plan)
    requires Runnable(sha, h, plan)
    ensures CanStillRun(sha, schedule, h) <==> Open(Run(sha, schedule), h)
  {
    if Open(Run(sha, schedule), h) {
      OpenCanRun(sha, schedule, h, plan);
    } else if CanStillRun(sha, schedule, h) {
      var more, i :| RunsLater(sha, schedule, more, h, i);
      SpentForGood(sha, schedule, more, h);
      assert false;
    }
  }

  // ---------------------------------------------------------------------------
  // A run can complete
  // ---------------------------------------------------------------------------

  /** A run in its loop can run all its steps. */
  lemma {:induction false} CanRunAll(sha: string -> string, schedule: seq<Action>, s: State, h: Hash, plan: Plan,
                                     r: nat, k: nat)
    returns (t: State)
    requires CanReach(sha, schedule, s) && k <= |plan.steps| && StandsAt(s, s, h, plan, r, Running(k))
    ensures CanReach(sha, schedule, t) && t.markers == s.markers
    ensures r in t.workers && t.workers[r] == Worker(h, Some(plan), Running(|plan.steps|))
    decreases |plan.steps| - k
  {
    if k == |plan.steps| {
      t := s;
    } else {
      var next := CanStep(sha, schedule, s, r);
      t := CanRunAll(sha, schedule, next, h, plan, r, k + 1);
    }
  }

  /** Then it can record its success. */
  lemma CanSettle(sha: string -> string, schedule: seq<Action>, s: State, h: Hash, plan: Plan, r: nat)
    returns (t: State)
    requires CanReach(sha, schedule, s) && MarkerOf(s, h) == Some(InFlight(r))
    requires r in s.workers && s.workers[r] == Worker(h, Some(plan), Running(|plan.steps|))
    ensures CanReach(sha, schedule, t) && MarkerOf(t, h) == Some(Executed(r))
  {
    LeavesLoop(s, plan, r);
    ReachesDispatched(sha, schedule, s, LeaveLoop(r, true));
    var one := Move(s, r, Settling(true, true));
    ReadsRecord(one, h, r);
    ReachesDispatched(sha, schedule, one, ReadRecord(r));
    var two := Move(one, r, Overwriting(true, true));
    WritesRecord(two, h, r);
    ReachesDispatched(sha, schedule, two, WriteRecord(r));
    t := Move(two, r, Settled(true)).(markers := two.markers[h := Executed(r)]);
  }

  lemma LeavesLoop(s: State, plan: Plan, r: nat)
    requires r in s.workers && s.workers[r].plan == Some(plan) && s.workers[r].pc == Running(|plan.steps|)
    ensures LoopStep(s, LeaveLoop(r, true)) == Move(s, r, Settling(true, true))
  {
  }

  lemma ReadsRecord(s: State, h: Hash, r: nat)
    requires r in s.workers && s.workers[r].hash == h && s.workers[r].pc == Settling(true, true)
    requires MarkerOf(s, h) == Some(InFlight(r))
    ensures SettleStep(s, ReadRecord(r)) == Move(s, r, Overwriting(true, true))
  {
  }

  lemma WritesRecord(s: State, h: Hash, r: nat)
    requires r in s.workers && s.workers[r].hash == h && s.workers[r].pc == Overwriting(true, true)
    ensures SettleStep(s, WriteRecord(r)) == Move(s, r, Settled(true)).(markers := s.markers[h := Executed(r)])
  {
  }

  /** After any schedule, a plan whose hash has no record can be carried out and recorded as EXECUTED. */
  lemma UnusedHashCanComplete(sha: string -> string, schedule: seq<Action>, h: Hash, plan: Plan)
    returns (more: seq<Action>)
    requires Runnable(sha, h, plan) && h !in Run(sha, schedule).markers
    ensures MarkerOf(Run(sha, schedule + more), h).Some? && MarkerOf(Run(sha, schedule + more), h).value.Executed?
  {
    ReachesNow(sha, schedule);
    var running, r := CanLaunch(sha, schedule, Run(sha, schedule), h, plan);
    var ran := CanRunAll(sha, schedule, running, h, plan, r, 0);
    var done := CanSettle(sha, schedule, ran, h, plan, r);
    more :| Run(sha, schedule + more) == done;
  }
}
