/** The plan lifecycle as a protocol: any number of runs, approvals and rewrites interleaved over one store. */
module Lifecycle {

  import opened Wrappers
  import opened PlanSchema
  import opened PlanStore
  import opened PlanHash

  // ---------------------------------------------------------------------------
  // State
  // ---------------------------------------------------------------------------

  /** Where one call of `execute_plan` stands. Guarded places are inside the executor's `try`. */
  datatype Pc =
    | Starting                             // about to load the approved plan
    | Loaded                               // holds the plan, about to load metadata and compare hashes
    | Verified                             // hash matches, about to check for drift
    | Cleared                              // preflight and step cap passed, about to create the record
    | Claiming                             // record created, payload not written yet
    | Unclaiming                           // payload failed, about to remove the record
    | Running(next: nat)                   // in the step loop
    | Settling(success: bool, guarded: bool)  // about to read the record for the terminal transition
    | Overwriting(success: bool, guarded: bool) // transition checked, about to write the record
    | Settled(guarded: bool)               // terminal record written, reporting
    | Finished
    | Crashed

  /** One run: its hash, the plan it loaded, and where it stands. */
  datatype Worker = Worker(hash: Hash, plan: Option<Plan>, pc: Pc)

  /** A step that was run. */
  datatype Event = Event(run: nat, hash: Hash, plan: Plan, index: nat)

  datatype State = State(
    pending: map<Hash, Plan>,
    approved: map<Hash, Plan>,
    metas: map<Hash, Meta>,
    markers: Markers,
    workers: map<nat, Worker>,
    history: seq<Event>
  )

  const INITIAL := State(map[], map[], map[], map[], map[], [])

  // ---------------------------------------------------------------------------
  // Steps
  // ---------------------------------------------------------------------------

  datatype Action =
    // Operators and other writers of the plan files
    | Submit(plan: Plan)
    | CopyToApproved(hash: Hash)
    | RemovePending(hash: Hash)
    | WriteMeta(hash: Hash, meta: Meta)
    | RewriteApproved(hash: Hash, replacement: Option<Plan>)
    // Runs
    | Start(run: nat, hash: Hash)
    | Load(run: nat)
    | CheckHash(run: nat)
    | CheckDrift(run: nat, fingerprint: string)
    | CreateRecord(run: nat)
    | WritePayload(run: nat, ok: bool)
    | RemoveRecord(run: nat, ok: bool)
    | RunStep(run: nat)
    | LeaveLoop(run: nat, success: bool)
    | ReadRecord(run: nat)
    | WriteRecord(run: nat)
    | Fault(run: nat)
    | Finish(run: nat)
    | Crash(run: nat)

  function Move(s: State, run: nat, pc: Pc): State
    requires run in s.workers
  {
    s.(workers := s.workers[run := s.workers[run].(pc := pc)])
  }

  /** The terminal record a run aims for. */
  function Goal(run: nat, success: bool): Marker {
    if success then Executed(run) else Failed(run)
  }

  /** Where a raise leads while finalizing: to the handler once, then out. */
  function AfterRaise(guarded: bool): Pc {
    if guarded then Settling(false, false) else Finished
  }

  /** One step on the plan files. */
  function FileStep(sha: string -> string, s: State, action: Action): State {
    match action
    case Submit(plan) => s.(pending := s.pending[ComputePlanHash(sha, plan) := plan])
    case CopyToApproved(h) => if h in s.pending then s.(approved := s.approved[h := s.pending[h]]) else s
    case RemovePending(h) => s.(pending := s.pending - {h})
    case WriteMeta(h, meta) => s.(metas := s.metas[h := meta])
    case RewriteApproved(h, replacement) =>
      s.(approved := if replacement.Some? then s.approved[h := replacement.value] else s.approved - {h})
    case _ => s
  }

  /** One preflight step of a run. */
  function PreflightStep(sha: string -> string, s: State, action: Action): State
    requires action.Load? || action.CheckHash? || action.CheckDrift?
    requires action.run in s.workers
  {
    var run := action.run;
    var w := s.workers[run];
    match action
    case Load(_) =>
      if w.pc != Starting then s
      else if w.hash in s.approved then
        s.(workers := s.workers[run := Worker(w.hash, Some(s.approved[w.hash]), Loaded)])
      else Move(s, run, Finished)
    case CheckHash(_) =>
      if w.pc != Loaded || w.plan.None? then s
      else
        var matches := w.hash in s.metas && ComputePlanHash(sha, w.plan.value) == w.hash;
        Move(s, run, if matches then Verified else Finished)
    case CheckDrift(_, fingerprint) =>
      if w.pc != Verified || w.plan.None? then s
      else
        var same := w.hash in s.metas && DriftCheckPasses(s.metas[w.hash], fingerprint);
        Move(s, run, if same && |w.plan.value.steps| <= MAX_STEPS_PER_EXECUTION then Cleared else Finished)
  }

  /** One step of a run on the execution record, before its loop. */
  function RecordStep(s: State, action: Action): State
    requires IsRecordAction(action) && action.run in s.workers
  {
    var run := action.run;
    var w := s.workers[run];
    var h := w.hash;
    match action
    case CreateRecord(_) =>
      if w.pc != Cleared then s
      else if h in s.markers then Move(s, run, Finished)
      else Move(s, run, Claiming).(markers := s.markers[h := Claimed])
    case WritePayload(_, ok) =>
      if w.pc != Claiming then s
      else if ok then Move(s, run, Running(0)).(markers := s.markers[h := InFlight(run)])
      else Move(s, run, Unclaiming)
    case RemoveRecord(_, ok) =>
      if w.pc != Unclaiming then s
      else Move(s, run, Finished).(markers := if ok then s.markers - {h} else s.markers)
  }

  /** One turn of a run's loop, the end of the loop, or a crash anywhere. */
  function LoopStep(s: State, action: Action): State
    requires IsLoopAction(action) && action.run in s.workers
  {
    var run := action.run;
    var w := s.workers[run];
    match action
    case RunStep(_) =>
      if !w.pc.Running? || w.plan.None? || w.pc.next >= |w.plan.value.steps| then s
      else Move(s, run, Running(w.pc.next + 1)).(history := s.history + [Event(run, w.hash, w.plan.value, w.pc.next)])
    case LeaveLoop(_, success) =>
      if !w.pc.Running? || w.plan.None? then s
      else Move(s, run, Settling(success && w.pc.next == |w.plan.value.steps|, true))
    case Crash(_) => Move(s, run, Crashed)
  }

  /** One step of a run on its terminal record. */
  function SettleStep(s: State, action: Action): State
    requires IsSettleAction(action) && action.run in s.workers
  {
    var run := action.run;
    var w := s.workers[run];
    var h := w.hash;
    match action
    case ReadRecord(_) =>
      if !w.pc.Settling? then s
      else if h in s.markers && AllowedTransition(s.markers[h], Goal(run, w.pc.success)) then
        Move(s, run, Overwriting(w.pc.success, w.pc.guarded))
      else Move(s, run, AfterRaise(w.pc.guarded))
    case WriteRecord(_) =>
      if !w.pc.Overwriting? then s
      else Move(s, run, Settled(w.pc.guarded)).(markers := s.markers[h := Goal(run, w.pc.success)])
    case Fault(_) =>
      if !(w.pc.Settling? || w.pc.Overwriting? || w.pc.Settled?) then s
      else Move(s, run, AfterRaise(w.pc.guarded))
    case Finish(_) =>
      if !w.pc.Settled? then s else Move(s, run, Finished)
  }

  predicate IsRecordAction(action: Action) {
    action.CreateRecord? || action.WritePayload? || action.RemoveRecord?
  }

  predicate IsLoopAction(action: Action) {
    action.RunStep? || action.LeaveLoop? || action.Crash?
  }

  predicate IsSettleAction(action: Action) {
    action.ReadRecord? || action.WriteRecord? || action.Fault? || action.Finish?
  }

  predicate IsFileAction(action: Action) {
    action.Submit? || action.CopyToApproved? || action.RemovePending? || action.WriteMeta? || action.RewriteApproved?
  }

  predicate IsPreflightAction(action: Action) {
    action.Load? || action.CheckHash? || action.CheckDrift?
  }

  /** One step of the protocol; a step that is not enabled changes nothing. */
  function Next(sha: string -> string, s: State, action: Action): State {
    if IsFileAction(action) then FileStep(sha, s, action)
    else if action.Start? then
      if action.run in s.workers then s else s.(workers := s.workers[action.run := Worker(action.hash, None, Starting)])
    else if action.run !in s.workers then s
    else if IsPreflightAction(action) then PreflightStep(sha, s, action)
    else if IsRecordAction(action) then RecordStep(s, action)
    else if IsLoopAction(action) then LoopStep(s, action)
    else SettleStep(s, action)
  }

  /** The state after a schedule: any interleaving is one. */
  function Run(sha: string -> string, schedule: seq<Action>): State {
    if schedule == [] then INITIAL
    else Next(sha, Run(sha, schedule[..|schedule| - 1]), schedule[|schedule| - 1])
  }

  // ---------------------------------------------------------------------------
  // The invariant
  // ---------------------------------------------------------------------------

  /** The run a record belongs to, once its payload is written. */
  function Owner(m: Marker): Option<nat> {
    match m
    case Claimed => None
    case InFlight(run) => Some(run)
    case Executed(run) => Some(run)
    case Failed(run) => Some(run)
  }

  function MarkerOf(s: State, h: Hash): Option<Marker> {
    if h in s.markers then Some(s.markers[h]) else None
  }

  predicate Claims(w: Worker) {
    w.pc.Claiming? || w.pc.Unclaiming?
  }

  predicate Runs(w: Worker) {
    w.pc.Running? || w.pc.Settling? || w.pc.Overwriting? || w.pc.Settled?
  }

  predicate Checked(w: Worker) {
    w.pc.Verified? || w.pc.Cleared? || Claims(w) || Runs(w)
  }

  predicate OwnedBy(s: State, h: Hash, run: nat) {
    h in s.markers && Owner(s.markers[h]) == Some(run)
  }

  /** A claim has its empty record, a run owns its record, and both hold a plan with the right hash. */
  ghost predicate WorkerHolds(sha: string -> string, s: State, r: nat)
    requires r in s.workers
  {
    var w := s.workers[r];
    && (Claims(w) ==> w.hash in s.markers && s.markers[w.hash] == Claimed)
    && (Runs(w) ==> OwnedBy(s, w.hash, r))
    && (w.pc.Running? || w.pc.Overwriting? ==> MarkerOf(s, w.hash) == Some(InFlight(r)))
    && (Checked(w) ==> w.plan.Some? && ComputePlanHash(sha, w.plan.value) == w.hash)
  }

  ghost predicate WorkersHold(sha: string -> string, s: State) {
    forall r :: r in s.workers ==> WorkerHolds(sha, s, r)
  }

  /** At most one run is between creating a record and writing its payload. */
  ghost predicate ClaimsAreUnique(s: State) {
    forall r, q | r in s.workers && q in s.workers && Claims(s.workers[r]) && Claims(s.workers[q]) ::
      s.workers[r].hash == s.workers[q].hash ==> r == q
  }

  /** An event belongs to the owner of its record and to the plan that run holds. */
  ghost predicate EventHolds(sha: string -> string, s: State, e: Event) {
    && e.run in s.workers
    && s.workers[e.run].hash == e.hash
    && s.workers[e.run].plan == Some(e.plan)
    && s.workers[e.run].pc != Starting
    && ComputePlanHash(sha, e.plan) == e.hash
    && OwnedBy(s, e.hash, e.run)
    && (s.workers[e.run].pc.Running? ==> e.index < s.workers[e.run].pc.next)
  }

  ghost predicate HistoryHolds(sha: string -> string, s: State) {
    forall e :: e in s.history ==> EventHolds(sha, s, e)
  }

  /** Each step of a hash is run at most once, in order. */
  ghost predicate IndicesIncrease(history: seq<Event>) {
    forall i, j :: 0 <= i < j < |history| && history[i].hash == history[j].hash ==> history[i].index < history[j].index
  }

  ghost predicate Inv(sha: string -> string, s: State) {
    WorkersHold(sha, s) && ClaimsAreUnique(s) && HistoryHolds(sha, s) && IndicesIncrease(s.history)
  }

  // ---------------------------------------------------------------------------
  // Every step keeps the invariant
  // ---------------------------------------------------------------------------

  /** Moving one run to a place with no more rights than it has keeps the invariant. */
  lemma MoveKeepsInv(sha: string -> string, s: State, run: nat, pc: Pc)
    requires Inv(sha, s) && run in s.workers
    requires var w, v := s.workers[run], s.workers[run].(pc := pc);
             && (Claims(v) ==> Claims(w)) && (Runs(v) ==> Runs(w)) && (Checked(v) ==> Checked(w))
             && pc != Starting && !pc.Running?
             && (pc.Overwriting? ==> MarkerOf(s, w.hash) == Some(InFlight(run)))
    ensures Inv(sha, Move(s, run, pc))
  {
    var t := Move(s, run, pc);
    forall r | r in t.workers ensures WorkerHolds(sha, t, r) {
      assert r in s.workers ==> WorkerHolds(sha, s, r);
    }
    forall e | e in t.history ensures EventHolds(sha, t, e) {
      assert EventHolds(sha, s, e);
    }
  }

  lemma FileStepKeepsInv(sha: string -> string, s: State, action: Action)
    requires Inv(sha, s) && IsFileAction(action)
    ensures Inv(sha, FileStep(sha, s, action))
  {
    var t := FileStep(sha, s, action);
    forall r | r in t.workers ensures WorkerHolds(sha, t, r) {
      assert r in s.workers ==> WorkerHolds(sha, s, r);
    }
    forall e | e in t.history ensures EventHolds(sha, t, e) {
      assert EventHolds(sha, s, e);
    }
  }

  /** A run that is starting, or has just been given its plan, holds no record and has no event. */
  lemma FreshWorkerKeepsInv(sha: string -> string, s: State, run: nat, w: Worker)
    requires Inv(sha, s) && !Checked(w)
    requires run !in s.workers || s.workers[run].pc == Starting
    ensures Inv(sha, s.(workers := s.workers[run := w]))
  {
    var t := s.(workers := s.workers[run := w]);
    forall r | r in t.workers ensures WorkerHolds(sha, t, r) {
      assert r in s.workers ==> WorkerHolds(sha, s, r);
    }
    forall e | e in t.history ensures EventHolds(sha, t, e) {
      assert EventHolds(sha, s, e);
    }
  }

  lemma VerifyKeepsInv(sha: string -> string, s: State, run: nat)
    requires Inv(sha, s) && run in s.workers && s.workers[run].pc == Loaded
    requires s.workers[run].plan.Some? && ComputePlanHash(sha, s.workers[run].plan.value) == s.workers[run].hash
    ensures Inv(sha, Move(s, run, Verified))
  {
    var t := Move(s, run, Verified);
    forall r | r in t.workers ensures WorkerHolds(sha, t, r) {
      assert r in s.workers ==> WorkerHolds(sha, s, r);
    }
    forall e | e in t.history ensures EventHolds(sha, t, e) {
      assert EventHolds(sha, s, e);
    }
  }

  lemma PreflightStepKeepsInv(sha: string -> string, s: State, action: Action)
    requires Inv(sha, s) && IsPreflightAction(action) && action.run in s.workers
    ensures Inv(sha, PreflightStep(sha, s, action))
  {
    var run := action.run;
    var w := s.workers[run];
    match action
    case Load(_) =>
      if w.pc == Starting {
        if w.hash in s.approved {
          FreshWorkerKeepsInv(sha, s, run, Worker(w.hash, Some(s.approved[w.hash]), Loaded));
        } else {
          MoveKeepsInv(sha, s, run, Finished);
        }
      }
    case CheckHash(_) =>
      if w.pc == Loaded && w.plan.Some? {
        if w.hash in s.metas && ComputePlanHash(sha, w.plan.value) == w.hash {
          VerifyKeepsInv(sha, s, run);
        } else {
          MoveKeepsInv(sha, s, run, Finished);
        }
      }
    case CheckDrift(_, _) =>
      if w.pc == Verified {
        MoveKeepsInv(sha, s, run, Cleared);
        MoveKeepsInv(sha, s, run, Finished);
      }
  }

  /** Creating the record: nobody held this hash before. */
  lemma CreateRecordKeepsInv(sha: string -> string, s: State, run: nat)
    requires Inv(sha, s) && run in s.workers && s.workers[run].pc == Cleared && s.workers[run].hash !in s.markers
    ensures Inv(sha, Move(s, run, Claiming).(markers := s.markers[s.workers[run].hash := Claimed]))
  {
    var t := Move(s, run, Claiming).(markers := s.markers[s.workers[run].hash := Claimed]);
    forall r | r in t.workers ensures WorkerHolds(sha, t, r) {
      assert r in s.workers ==> WorkerHolds(sha, s, r);
    }
    forall e | e in t.history ensures EventHolds(sha, t, e) {
      assert EventHolds(sha, s, e);
    }
  }

  /** Writing the payload: the claim becomes a run, and no step of this hash was run before. */
  lemma WritePayloadKeepsInv(sha: string -> string, s: State, run: nat)
    requires Inv(sha, s) && run in s.workers && s.workers[run].pc == Claiming
    ensures Inv(sha, Move(s, run, Running(0)).(markers := s.markers[s.workers[run].hash := InFlight(run)]))
  {
    var t := Move(s, run, Running(0)).(markers := s.markers[s.workers[run].hash := InFlight(run)]);
    forall r | r in t.workers ensures WorkerHolds(sha, t, r) {
      assert r in s.workers ==> WorkerHolds(sha, s, r);
    }
    forall e | e in t.history ensures EventHolds(sha, t, e) {
      assert EventHolds(sha, s, e);
    }
  }

  /** Removing the record again: it was only claimed, so no step of this hash was run. */
  lemma RemoveRecordKeepsInv(sha: string -> string, s: State, run: nat)
    requires Inv(sha, s) && run in s.workers && s.workers[run].pc == Unclaiming
    ensures Inv(sha, Move(s, run, Finished).(markers := s.markers - {s.workers[run].hash}))
    ensures forall e :: e in s.history ==> e.hash != s.workers[run].hash
  {
    var t := Move(s, run, Finished).(markers := s.markers - {s.workers[run].hash});
    forall r | r in t.workers ensures WorkerHolds(sha, t, r) {
      assert WorkerHolds(sha, s, r) && WorkerHolds(sha, s, run);
    }
    forall e | e in s.history ensures e.hash != s.workers[run].hash && EventHolds(sha, t, e) {
      assert EventHolds(sha, s, e);
    }
  }

  /** Running a step: earlier events of this hash are this run's own, with smaller indices. */
  lemma RunStepKeepsInv(sha: string -> string, s: State, run: nat)
    requires Inv(sha, s) && run in s.workers && s.workers[run].pc.Running? && s.workers[run].plan.Some?
    ensures var w := s.workers[run];
            var e := Event(run, w.hash, w.plan.value, w.pc.next);
            Inv(sha, Move(s, run, Running(w.pc.next + 1)).(history := s.history + [e]))
  {
    var w := s.workers[run];
    var e := Event(run, w.hash, w.plan.value, w.pc.next);
    var t := Move(s, run, Running(w.pc.next + 1)).(history := s.history + [e]);
    assert WorkerHolds(sha, s, run);
    forall r | r in t.workers ensures WorkerHolds(sha, t, r) {
      assert WorkerHolds(sha, s, r);
    }
    forall d | d in t.history
      ensures EventHolds(sha, t, d) && (d in s.history && d.hash == e.hash ==> d.index < e.index)
    {
      if d in s.history {
        assert EventHolds(sha, s, d);
      }
    }
    AppendedIndicesIncrease(s.history, e);
  }

  lemma AppendedIndicesIncrease(history: seq<Event>, e: Event)
    requires IndicesIncrease(history) && forall d :: d in history && d.hash == e.hash ==> d.index < e.index
    ensures IndicesIncrease(history + [e])
  {
    var all := history + [e];
    forall i, j | 0 <= i < j < |all| && all[i].hash == all[j].hash ensures all[i].index < all[j].index {
      assert all[i] == history[i] && history[i] in history;
    }
  }

  /** Writing the terminal record: the owner stays the same. */
  lemma WriteRecordKeepsInv(sha: string -> string, s: State, run: nat)
    requires Inv(sha, s) && run in s.workers && s.workers[run].pc.Overwriting?
    ensures var w := s.workers[run];
            Inv(sha, Move(s, run, Settled(w.pc.guarded)).(markers := s.markers[w.hash := Goal(run, w.pc.success)]))
  {
    var w := s.workers[run];
    var t := Move(s, run, Settled(w.pc.guarded)).(markers := s.markers[w.hash := Goal(run, w.pc.success)]);
    forall r | r in t.workers ensures WorkerHolds(sha, t, r) {
      assert r in s.workers ==> WorkerHolds(sha, s, r);
    }
    forall e | e in t.history ensures EventHolds(sha, t, e) {
      assert EventHolds(sha, s, e);
    }
  }

  lemma RecordStepKeepsInv(sha: string -> string, s: State, action: Action)
    requires Inv(sha, s) && IsRecordAction(action) && action.run in s.workers
    ensures Inv(sha, RecordStep(s, action))
  {
    var run := action.run;
    var w := s.workers[run];
    match action
    case CreateRecord(_) =>
      if w.pc == Cleared {
        if w.hash in s.markers { MoveKeepsInv(sha, s, run, Finished); } else { CreateRecordKeepsInv(sha, s, run); }
      }
    case WritePayload(_, ok) =>
      if w.pc == Claiming {
        if ok { WritePayloadKeepsInv(sha, s, run); } else { MoveKeepsInv(sha, s, run, Unclaiming); }
      }
    case RemoveRecord(_, ok) =>
      if w.pc == Unclaiming {
        if ok { RemoveRecordKeepsInv(sha, s, run); } else { MoveKeepsInv(sha, s, run, Finished); }
      }
  }

  lemma LoopStepKeepsInv(sha: string -> string, s: State, action: Action)
    requires Inv(sha, s) && IsLoopAction(action) && action.run in s.workers
    ensures Inv(sha, LoopStep(s, action))
  {
    var run := action.run;
    var w := s.workers[run];
    match action
    case RunStep(_) =>
      if StepIsDue(w) {
        RunStepKeepsInv(sha, s, run);
        RunStepMoves(s, run);
      }
    case LeaveLoop(_, success) =>
      if w.pc.Running? && w.plan.Some? {
        MoveKeepsInv(sha, s, run, Settling(success && w.pc.next == |w.plan.value.steps|, true));
      }
    case Crash(_) =>
      MoveKeepsInv(sha, s, run, Crashed);
  }

  predicate StepIsDue(w: Worker) {
    w.pc.Running? && w.plan.Some? && w.pc.next < |w.plan.value.steps|
  }

  lemma RunStepMoves(s: State, run: nat)
    requires run in s.workers && StepIsDue(s.workers[run])
    ensures var w := s.workers[run];
            LoopStep(s, RunStep(run)) ==
            Move(s, run, Running(w.pc.next + 1)).(history := s.history + [Event(run, w.hash, w.plan.value, w.pc.next)])
  {
  }

  lemma SettleStepKeepsInv(sha: string -> string, s: State, action: Action)
    requires Inv(sha, s) && IsSettleAction(action) && action.run in s.workers
    ensures Inv(sha, SettleStep(s, action))
  {
    var run := action.run;
    var w := s.workers[run];
    match action
    case ReadRecord(_) =>
      if w.pc.Settling? {
        assert WorkerHolds(sha, s, run);
        if w.hash in s.markers && AllowedTransition(s.markers[w.hash], Goal(run, w.pc.success)) {
          MoveKeepsInv(sha, s, run, Overwriting(w.pc.success, w.pc.guarded));
        } else {
          MoveKeepsInv(sha, s, run, AfterRaise(w.pc.guarded));
        }
      }
    case WriteRecord(_) =>
      if w.pc.Overwriting? { WriteRecordKeepsInv(sha, s, run); }
    case Fault(_) =>
      if w.pc.Settling? || w.pc.Overwriting? || w.pc.Settled? { MoveKeepsInv(sha, s, run, AfterRaise(w.pc.guarded)); }
    case Finish(_) =>
      if w.pc.Settled? { MoveKeepsInv(sha, s, run, Finished); }
  }

  lemma NextKeepsInv(sha: string -> string, s: State, action: Action)
    requires Inv(sha, s)
    ensures Inv(sha, Next(sha, s, action))
  {
    if IsFileAction(action) {
      FileStepKeepsInv(sha, s, action);
    } else if action.Start? {
      if action.run !in s.workers {
        FreshWorkerKeepsInv(sha, s, action.run, Worker(action.hash, None, Starting));
      }
    } else if action.run in s.workers {
      if IsPreflightAction(action) {
        PreflightStepKeepsInv(sha, s, action);
      } else if IsRecordAction(action) {
        RecordStepKeepsInv(sha, s, action);
      } else if IsLoopAction(action) {
        LoopStepKeepsInv(sha, s, action);
      } else {
        SettleStepKeepsInv(sha, s, action);
      }
    }
  }

  lemma {:induction false} EveryScheduleKeepsInv(sha: string -> string, schedule: seq<Action>)
    ensures Inv(sha, Run(sha, schedule))
  {
    if schedule != [] {
      EveryScheduleKeepsInv(sha, schedule[..|schedule| - 1]);
      NextKeepsInv(sha, Run(sha, schedule[..|schedule| - 1]), schedule[|schedule| - 1]);
    }
  }

  // ---------------------------------------------------------------------------
  // Safety
  // ---------------------------------------------------------------------------

  /** In every interleaving, all steps run under one hash were run by one run, each at most once and in order. */
  lemma AtMostOneRunPerHash(sha: string -> string, schedule: seq<Action>, i: nat, j: nat)
    requires i < j < |Run(sha, schedule).history|
    requires Run(sha, schedule).history[i].hash == Run(sha, schedule).history[j].hash
    ensures Run(sha, schedule).history[i].run == Run(sha, schedule).history[j].run
    ensures Run(sha, schedule).history[i].index < Run(sha, schedule).history[j].index
  {
    EveryScheduleKeepsInv(sha, schedule);
    var s := Run(sha, schedule);
    assert s.history[i] in s.history && s.history[j] in s.history;
    assert EventHolds(sha, s, s.history[i]) && EventHolds(sha, s, s.history[j]);
  }

  /** However the plan files are rewritten, a step run under a hash belongs to a plan with that hash, one plan for the
      whole run. */
  lemma StepsBelongToApprovedPlan(sha: string -> string, schedule: seq<Action>, i: nat, j: nat)
    requires i < |Run(sha, schedule).history| && j < |Run(sha, schedule).history|
    ensures var d, e := Run(sha, schedule).history[i], Run(sha, schedule).history[j];
            && ComputePlanHash(sha, e.plan) == e.hash
            && (d.hash == e.hash ==> d.plan == e.plan)
  {
    EveryScheduleKeepsInv(sha, schedule);
    var s := Run(sha, schedule);
    assert s.history[i] in s.history && s.history[j] in s.history;
    assert EventHolds(sha, s, s.history[i]) && EventHolds(sha, s, s.history[j]);
  }

  /** What runs under the hash of a submitted plan is that plan, up to the order of its dictionaries. */
  lemma ApprovedPlanIsWhatRuns(sha: string -> string, schedule: seq<Action>, i: nat, plan: Plan)
    requires CollisionFree(sha) && PlainPlan(plan)
    requires i < |Run(sha, schedule).history| && Run(sha, schedule).history[i].hash == ComputePlanHash(sha, plan)
    requires PlainPlan(Run(sha, schedule).history[i].plan)
    ensures SamePlan(Run(sha, schedule).history[i].plan, plan)
  {
    StepsBelongToApprovedPlan(sha, schedule, i, i);
    HashIdentifiesPlan(sha, Run(sha, schedule).history[i].plan, plan);
  }

  /** The record of one hash moves only forward; it disappears only while merely claimed, before any step was run. */
  ghost predicate Advances(before: Option<Marker>, after: Option<Marker>, stepsRun: bool) {
    || after == before
    || (before.None? && after == Some(Claimed))
    || (before == Some(Claimed) && !stepsRun && (after.None? || after.value.InFlight?))
    || (before.Some? && after.Some? && AllowedTransition(before.value, after.value) &&
        Owner(before.value) == Owner(after.value))
  }

  ghost predicate StepsRun(s: State, h: Hash) {
    exists e :: e in s.history && e.hash == h
  }

  /** While a record is merely claimed, no step of its hash was run. */
  lemma ClaimedHashIsUnused(sha: string -> string, s: State, h: Hash)
    requires Inv(sha, s) && h in s.markers && s.markers[h] == Claimed
    ensures !StepsRun(s, h)
  {
    forall e | e in s.history ensures e.hash != h {
      assert EventHolds(sha, s, e);
    }
  }

  /** A step of run changes at most the record of its own hash, in one of four ways. */
  lemma StepOnRecord(sha: string -> string, s: State, action: Action, h: Hash)
    requires !IsFileAction(action) && !action.Start? && action.run in s.workers
    ensures var w := s.workers[action.run];
            var before, after := MarkerOf(s, h), MarkerOf(Next(sha, s, action), h);
            || after == before
            || (h == w.hash && before.None? && after == Some(Claimed))
            || (h == w.hash && w.pc.Claiming? && after == Some(InFlight(action.run)))
            || (h == w.hash && w.pc.Unclaiming? && after.None?)
            || (h == w.hash && w.pc.Overwriting? && after == Some(Goal(action.run, w.pc.success)))
  {
  }

  /** Every step of the protocol moves every record forward or leaves it. */
  lemma RecordsAdvance(sha: string -> string, s: State, action: Action, h: Hash)
    requires Inv(sha, s)
    ensures Advances(MarkerOf(s, h), MarkerOf(Next(sha, s, action), h), StepsRun(s, h))
  {
    if !IsFileAction(action) && !action.Start? && action.run in s.workers {
      StepOnRecord(sha, s, action, h);
      assert WorkerHolds(sha, s, action.run);
      if h in s.markers && s.markers[h] == Claimed {
        ClaimedHashIsUnused(sha, s, h);
      }
    }
  }

  /** Once a record is written it stays with its run, and a terminal record never changes. */
  lemma {:induction false} RecordsAreForever(sha: string -> string, schedule: seq<Action>, more: seq<Action>, h: Hash)
    requires h in Run(sha, schedule).markers && Run(sha, schedule).markers[h] != Claimed
    ensures var before, after := Run(sha, schedule), Run(sha, schedule + more);
            && h in after.markers && Owner(after.markers[h]) == Owner(before.markers[h])
            && (Terminal(before.markers[h]) ==> after.markers[h] == before.markers[h])
    decreases |more|
  {
    if more == [] {
      assert schedule + more == schedule;
    } else {
      var init, last := more[..|more| - 1], more[|more| - 1];
      RecordsAreForever(sha, schedule, init, h);
      EveryScheduleKeepsInv(sha, schedule + init);
      RecordsAdvance(sha, Run(sha, schedule + init), last, h);
      ScheduleSnoc(sha, schedule, more);
    }
  }

  lemma RunSnoc(sha: string -> string, all: seq<Action>, init: seq<Action>, last: Action)
    requires all == init + [last]
    ensures Run(sha, all) == Next(sha, Run(sha, init), last)
  {
    assert all[..|all| - 1] == init;
  }

  lemma ScheduleSnoc(sha: string -> string, schedule: seq<Action>, more: seq<Action>)
    requires more != []
    ensures Run(sha, schedule + more) == Next(sha, Run(sha, schedule + more[..|more| - 1]), more[|more| - 1])
  {
    SnocOfConcat(schedule, more);
    RunSnoc(sha, schedule + more, schedule + more[..|more| - 1], more[|more| - 1]);
  }

  lemma SnocOfConcat(schedule: seq<Action>, more: seq<Action>)
    requires more != []
    ensures schedule + more == (schedule + more[..|more| - 1]) + [more[|more| - 1]]
  {
  }

  ghost predicate Untouched(s: State, t: State, run: nat) {
    run in s.workers && run in t.workers && t.workers[run] == s.workers[run]
  }

  lemma CrashedBeforeLoop(sha: string -> string, s: State, action: Action, run: nat)
    requires run in s.workers && s.workers[run].pc == Crashed
    requires !IsFileAction(action) && action.run in s.workers
    ensures IsPreflightAction(action) ==> Untouched(s, PreflightStep(sha, s, action), run)
    ensures IsRecordAction(action) ==> Untouched(s, RecordStep(s, action), run)
  {
  }

  lemma CrashedInLoop(s: State, action: Action, run: nat)
    requires run in s.workers && s.workers[run].pc == Crashed
    requires !IsFileAction(action) && action.run in s.workers
    ensures IsLoopAction(action) ==> Untouched(s, LoopStep(s, action), run)
    ensures IsSettleAction(action) ==> Untouched(s, SettleStep(s, action), run)
  {
  }

  /** A crashed run is never moved again. */
  lemma CrashedRunStays(sha: string -> string, s: State, action: Action, run: nat)
    requires run in s.workers && s.workers[run].pc == Crashed
    ensures Untouched(s, Next(sha, s, action), run)
  {
    if !IsFileAction(action) && !action.Start? && action.run in s.workers {
      CrashedBeforeLoop(sha, s, action, run);
      CrashedInLoop(s, action, run);
    }
  }

  lemma CrashedRunKeepsRecord(sha: string -> string, s: State, action: Action, run: nat)
    requires Inv(sha, s) && run in s.workers && s.workers[run].pc == Crashed
    requires MarkerOf(s, s.workers[run].hash) == Some(InFlight(run))
    ensures MarkerOf(Next(sha, s, action), s.workers[run].hash) == Some(InFlight(run))
  {
    if !IsFileAction(action) && !action.Start? && action.run in s.workers {
      StepOnRecord(sha, s, action, s.workers[run].hash);
      assert WorkerHolds(sha, s, action.run);
    }
  }

  /** A run that crashed in flight leaves its record in flight for good: nothing retries or reopens it. */
  lemma {:induction false} CrashStaysConsumed(sha: string -> string, schedule: seq<Action>, more: seq<Action>, run: nat)
    requires var s := Run(sha, schedule);
             && run in s.workers && s.workers[run].pc == Crashed
             && MarkerOf(s, s.workers[run].hash) == Some(InFlight(run))
    ensures var s, t := Run(sha, schedule), Run(sha, schedule + more);
            && run in t.workers && t.workers[run] == s.workers[run]
            && MarkerOf(t, s.workers[run].hash) == Some(InFlight(run))
    decreases |more|
  {
    if more == [] {
      assert schedule + more == schedule;
    } else {
      CrashStaysConsumed(sha, schedule, more[..|more| - 1], run);
      EveryScheduleKeepsInv(sha, schedule + more[..|more| - 1]);
      CrashedRunKeepsRecord(sha, Run(sha, schedule + more[..|more| - 1]), more[|more| - 1], run);
      CrashedRunStays(sha, Run(sha, schedule + more[..|more| - 1]), more[|more| - 1], run);
      ScheduleSnoc(sha, schedule, more);
    }
  }

  /** Submitting and approving the same plan again does not make it runnable: no other run ever runs a step of it. */
  lemma ReapprovalDoesNotReopen(sha: string -> string, schedule: seq<Action>, more: seq<Action>, h: Hash, run: nat,
                                i: nat)
    requires OwnedBy(Run(sha, schedule), h, run)
    requires i < |Run(sha, schedule + more).history| && Run(sha, schedule + more).history[i].hash == h
    ensures Run(sha, schedule + more).history[i].run == run
  {
    RecordsAreForever(sha, schedule, more, h);
    EveryScheduleKeepsInv(sha, schedule + more);
    var t := Run(sha, schedule + more);
    assert t.history[i] in t.history;
    assert EventHolds(sha, t, t.history[i]);
  }

  // ---------------------------------------------------------------------------
  // Progress: which steps were run
  // ---------------------------------------------------------------------------

  /** The indices of the steps run under one hash, in the order they were run. */
  function IndicesOf(history: seq<Event>, h: Hash): seq<nat> {
    if history == [] then []
    else
      var last := history[|history| - 1];
      IndicesOf(history[..|history| - 1], h) + if last.hash == h then [last.index] else []
  }

  /** 0, 1, ..., n - 1. */
  function FirstSteps(n: nat): seq<nat> {
    seq(n, i => i)
  }

  /** The steps run under `h` are the first `n`, once each and in order. */
  ghost predicate Ran(s: State, h: Hash, n: nat) {
    IndicesOf(s.history, h) == FirstSteps(n)
  }

  ghost predicate RanAll(s: State, h: Hash, run: nat) {
    && run in s.workers
    && s.workers[run].plan.Some?
    && s.workers[run].pc != Starting
    && Ran(s, h, |s.workers[run].plan.value.steps|)
  }

  ghost predicate WorkerProgress(s: State, r: nat)
    requires r in s.workers
  {
    var w := s.workers[r];
    && (w.pc.Running? ==> Ran(s, w.hash, w.pc.next))
    && ((w.pc.Settling? || w.pc.Overwriting?) && w.pc.success ==> RanAll(s, w.hash, r))
  }

  ghost predicate Progress(s: State) {
    && (forall r :: r in s.workers ==> WorkerProgress(s, r))
    && (forall h :: h in s.markers && s.markers[h].Executed? ==> RanAll(s, h, s.markers[h].run))
  }

  lemma {:induction false} UnusedHashHasNoIndices(history: seq<Event>, h: Hash)
    requires forall e :: e in history ==> e.hash != h
    ensures IndicesOf(history, h) == []
  {
    if history != [] {
      assert history[|history| - 1] in history;
      forall e | e in history[..|history| - 1] ensures e.hash != h {
        assert e in history;
      }
      UnusedHashHasNoIndices(history[..|history| - 1], h);
    }
  }

  lemma IndicesOfAppend(history: seq<Event>, e: Event, h: Hash)
    ensures IndicesOf(history + [e], h) == IndicesOf(history, h) + if e.hash == h then [e.index] else []
  {
    assert (history + [e])[..|history|] == history;
  }

  /** Moving one run and changing records keeps progress, when the moved run and any new EXECUTED record account for
      theirs. */
  lemma UpdateKeepsProgress(s: State, run: nat, v: Worker, m: Markers)
    requires Progress(s)
    requires run in s.workers && s.workers[run].pc != Starting ==> v.plan == s.workers[run].plan && v.pc != Starting
    requires WorkerProgress(s.(workers := s.workers[run := v], markers := m), run)
    requires forall h :: h in m && m[h].Executed? ==>
             (h in s.markers && s.markers[h] == m[h]) || RanAll(s.(workers := s.workers[run := v]), h, m[h].run)
    ensures Progress(s.(workers := s.workers[run := v], markers := m))
  {
    var t := s.(workers := s.workers[run := v], markers := m);
    forall r | r in t.workers ensures WorkerProgress(t, r) {
      assert r != run ==> WorkerProgress(s, r);
    }
    forall h | h in t.markers && t.markers[h].Executed? ensures RanAll(t, h, t.markers[h].run) {
      if h in s.markers && s.markers[h] == t.markers[h] {
        assert RanAll(s, h, s.markers[h].run);
      } else {
        assert RanAll(s.(workers := s.workers[run := v]), h, m[h].run);
      }
    }
  }

  /** Moving a run without touching a record; a place that claims success needs all its steps run. */
  lemma MoveKeepsProgress(s: State, run: nat, pc: Pc)
    requires Progress(s) && run in s.workers && pc != Starting && !pc.Running?
    requires (pc.Settling? || pc.Overwriting?) && pc.success ==> RanAll(s, s.workers[run].hash, run)
    ensures Progress(Move(s, run, pc))
  {
    UpdateKeepsProgress(s, run, s.workers[run].(pc := pc), s.markers);
  }

  /** Running a step extends the indices of its own hash by the next one, and nobody else is counting that hash. */
  lemma RunStepKeepsProgress(sha: string -> string, s: State, run: nat)
    requires Inv(sha, s) && Progress(s) && run in s.workers && s.workers[run].pc.Running? && s.workers[run].plan.Some?
    ensures var w := s.workers[run];
            var e := Event(run, w.hash, w.plan.value, w.pc.next);
            Progress(Move(s, run, Running(w.pc.next + 1)).(history := s.history + [e]))
  {
    var w := s.workers[run];
    var e := Event(run, w.hash, w.plan.value, w.pc.next);
    var t := Move(s, run, Running(w.pc.next + 1)).(history := s.history + [e]);
    assert WorkerHolds(sha, s, run) && WorkerProgress(s, run);
    forall r | r in t.workers ensures WorkerProgress(t, r) {
      assert WorkerHolds(sha, s, r) && WorkerProgress(s, r);
      IndicesOfAppend(s.history, e, t.workers[r].hash);
    }
    forall h | h in t.markers && t.markers[h].Executed? ensures RanAll(t, h, t.markers[h].run) {
      IndicesOfAppend(s.history, e, h);
    }
  }

  lemma FileStepKeepsProgress(sha: string -> string, s: State, action: Action)
    requires Progress(s) && IsFileAction(action)
    ensures Progress(FileStep(sha, s, action))
  {
    var t := FileStep(sha, s, action);
    forall r | r in t.workers ensures WorkerProgress(t, r) {
      assert WorkerProgress(s, r);
    }
    forall h | h in t.markers && t.markers[h].Executed? ensures RanAll(t, h, t.markers[h].run) {
      assert RanAll(s, h, s.markers[h].run);
    }
  }

  lemma PreflightStepKeepsProgress(sha: string -> string, s: State, action: Action)
    requires Progress(s) && IsPreflightAction(action) && action.run in s.workers
    ensures Progress(PreflightStep(sha, s, action))
  {
    var w := s.workers[action.run];
    MoveKeepsProgress(s, action.run, Finished);
    MoveKeepsProgress(s, action.run, Verified);
    MoveKeepsProgress(s, action.run, Cleared);
    if action.Load? && w.pc == Starting && w.hash in s.approved {
      UpdateKeepsProgress(s, action.run, Worker(w.hash, Some(s.approved[w.hash]), Loaded), s.markers);
    }
  }

  lemma RecordStepKeepsProgress(sha: string -> string, s: State, action: Action)
    requires Inv(sha, s) && Progress(s) && IsRecordAction(action) && action.run in s.workers
    ensures Progress(RecordStep(s, action))
  {
    var run := action.run;
    var w := s.workers[run];
    var h := w.hash;
    match action
    case CreateRecord(_) =>
      if w.pc == Cleared && h in s.markers {
        MoveKeepsProgress(s, run, Finished);
      } else if w.pc == Cleared {
        UpdateKeepsProgress(s, run, w.(pc := Claiming), s.markers[h := Claimed]);
      }
    case WritePayload(_, ok) =>
      if w.pc == Claiming && ok {
        PayloadKeepsProgress(sha, s, run);
      } else if w.pc == Claiming {
        MoveKeepsProgress(s, run, Unclaiming);
      }
    case RemoveRecord(_, ok) =>
      if w.pc == Unclaiming {
        UpdateKeepsProgress(s, run, w.(pc := Finished), if ok then s.markers - {h} else s.markers);
      }
  }

  lemma PayloadKeepsProgress(sha: string -> string, s: State, run: nat)
    requires Inv(sha, s) && Progress(s) && run in s.workers && s.workers[run].pc == Claiming
    ensures Progress(Move(s, run, Running(0)).(markers := s.markers[s.workers[run].hash := InFlight(run)]))
  {
    var h := s.workers[run].hash;
    assert WorkerHolds(sha, s, run);
    ClaimedHashIsUnused(sha, s, h);
    UnusedHashHasNoIndices(s.history, h);
    UpdateKeepsProgress(s, run, s.workers[run].(pc := Running(0)), s.markers[h := InFlight(run)]);
  }

  lemma LoopStepKeepsProgress(sha: string -> string, s: State, action: Action)
    requires Inv(sha, s) && Progress(s) && IsLoopAction(action) && action.run in s.workers
    ensures Progress(LoopStep(s, action))
  {
    var w := s.workers[action.run];
    assert WorkerProgress(s, action.run);
    match action
    case RunStep(_) =>
      if w.pc.Running? && w.plan.Some? {
        RunStepKeepsProgress(sha, s, action.run);
      }
    case LeaveLoop(_, success) =>
      if w.pc.Running? && w.plan.Some? {
        MoveKeepsProgress(s, action.run, Settling(success && w.pc.next == |w.plan.value.steps|, true));
      }
    case Crash(_) =>
      MoveKeepsProgress(s, action.run, Crashed);
  }

  lemma SettleStepKeepsProgress(sha: string -> string, s: State, action: Action)
    requires Inv(sha, s) && Progress(s) && IsSettleAction(action) && action.run in s.workers
    ensures Progress(SettleStep(s, action))
  {
    var run := action.run;
    var w := s.workers[run];
    match action
    case ReadRecord(_) =>
      if w.pc.Settling? {
        ReadRecordKeepsProgress(s, run);
      }
    case WriteRecord(_) =>
      if w.pc.Overwriting? {
        WriteRecordKeepsProgress(s, run);
      }
    case Fault(_) =>
      if w.pc.Settling? || w.pc.Overwriting? || w.pc.Settled? {
        assert WorkerProgress(s, run);
        MoveKeepsProgress(s, run, AfterRaise(w.pc.guarded));
      }
    case Finish(_) =>
      MoveKeepsProgress(s, run, Finished);
  }

  lemma ReadRecordKeepsProgress(s: State, run: nat)
    requires Progress(s) && run in s.workers && s.workers[run].pc.Settling?
    ensures var pc := s.workers[run].pc;
            Progress(Move(s, run, Overwriting(pc.success, pc.guarded))) &&
                Progress(Move(s, run, AfterRaise(pc.guarded)))
  {
    var pc := s.workers[run].pc;
    assert WorkerProgress(s, run);
    MoveKeepsProgress(s, run, Overwriting(pc.success, pc.guarded));
    MoveKeepsProgress(s, run, AfterRaise(pc.guarded));
  }

  lemma WriteRecordKeepsProgress(s: State, run: nat)
    requires Progress(s) && run in s.workers && s.workers[run].pc.Overwriting?
    ensures var w := s.workers[run];
            Progress(Move(s, run, Settled(w.pc.guarded)).(markers := s.markers[w.hash := Goal(run, w.pc.success)]))
  {
    var w := s.workers[run];
    assert WorkerProgress(s, run);
    UpdateKeepsProgress(s, run, w.(pc := Settled(w.pc.guarded)), s.markers[w.hash := Goal(run, w.pc.success)]);
  }

  lemma StartKeepsProgress(s: State, run: nat, h: Hash)
    requires Progress(s) && run !in s.workers
    ensures Progress(s.(workers := s.workers[run := Worker(h, None, Starting)]))
  {
    UpdateKeepsProgress(s, run, Worker(h, None, Starting), s.markers);
  }

  lemma NextKeepsProgress(sha: string -> string, s: State, action: Action)
    requires Inv(sha, s) && Progress(s)
    ensures Progress(Next(sha, s, action))
  {
    if IsFileAction(action) {
      FileStepKeepsProgress(sha, s, action);
    } else if action.Start? {
      if action.run !in s.workers {
        StartKeepsProgress(s, action.run, action.hash);
      }
    } else if action.run in s.workers {
      if IsPreflightAction(action) {
        PreflightStepKeepsProgress(sha, s, action);
      } else if IsRecordAction(action) {
        RecordStepKeepsProgress(sha, s, action);
      } else if IsLoopAction(action) {
        LoopStepKeepsProgress(sha, s, action);
      } else {
        SettleStepKeepsProgress(sha, s, action);
      }
    }
  }

  lemma {:induction false} EveryScheduleKeepsProgress(sha: string -> string, schedule: seq<Action>)
    ensures Progress(Run(sha, schedule))
  {
    if schedule != [] {
      EveryScheduleKeepsInv(sha, schedule[..|schedule| - 1]);
      EveryScheduleKeepsProgress(sha, schedule[..|schedule| - 1]);
      NextKeepsProgress(sha, Run(sha, schedule[..|schedule| - 1]), schedule[|schedule| - 1]);
    }
  }

  /** A record that says EXECUTED, in any state of any interleaving: every step of the approved plan was run, once each
      and in order. */
  lemma ExecutedMeansEveryStepRan(sha: string -> string, schedule: seq<Action>, h: Hash)
    requires MarkerOf(Run(sha, schedule), h).Some? && Run(sha, schedule).markers[h].Executed?
    ensures var s := Run(sha, schedule);
            var run := s.markers[h].run;
            && run in s.workers && s.workers[run].plan.Some?
            && IndicesOf(s.history, h) == FirstSteps(|s.workers[run].plan.value.steps|)
  {
    EveryScheduleKeepsProgress(sha, schedule);
    assert RanAll(Run(sha, schedule), h, Run(sha, schedule).markers[h].run);
  }

  // ---------------------------------------------------------------------------
  // The store's operations are these steps, uninterrupted
  // ---------------------------------------------------------------------------

  /** The preflight steps with nothing in between: cleared exactly when preflight succeeds within the step cap, with its
      plan. */
  lemma UninterruptedPreflight(sha: string -> string, s: State, run: nat, fingerprint: string)
    requires run in s.workers && s.workers[run] == Worker(s.workers[run].hash, None, Starting)
    ensures var h := s.workers[run].hash;
            var t := PreflightStep(sha, PreflightStep(sha, PreflightStep(sha, s, Load(run)), CheckHash(run)),
                                   CheckDrift(run, fingerprint));
            match Preflight(sha, s.approved, s.metas, h, fingerprint)
            case Failure(_) => t.workers[run].pc == Finished && t.markers == s.markers && t.history == s.history
            case Success(plan) =>
              && t.markers == s.markers && t.history == s.history
              && t.workers[run].plan == Some(plan)
              && t.workers[run].pc == if |plan.steps| <= 25 then Cleared else Finished
  {
    var loaded := PreflightStep(sha, s, Load(run));
    assert s.workers[run].hash in s.approved ==>
           loaded.workers[run] == Worker(s.workers[run].hash, Some(s.approved[s.workers[run].hash]), Loaded);
    var checked := PreflightStep(sha, loaded, CheckHash(run));
    assert checked.workers[run].pc == Verified || checked.workers[run].pc == Finished;
  }

  /** A raise while finalizing inside the handler's reach, and then the handler's own transition, with nothing in
      between:
      a run still in flight ends as FAILED, a recorded one stays as recorded. A raise in the handler ends the run. */
  lemma UninterruptedRecovery(s: State, run: nat)
    requires run in s.workers
    requires var pc := s.workers[run].pc; pc.Settling? || pc.Overwriting? || pc.Settled?
    ensures var h := s.workers[run].hash;
            var raised := SettleStep(s, Fault(run));
            if s.workers[run].pc.guarded then
              SettleStep(SettleStep(raised, ReadRecord(run)), WriteRecord(run)).markers ==
              match Transition(s.markers, h, Failed(run)) case Success(markers) => markers case Failure(_) => s.markers
            else raised.markers == s.markers && raised.workers[run].pc == Finished
  {
    if s.workers[run].pc.guarded {
      var raised := SettleStep(s, Fault(run));
      assert raised == Move(s, run, Settling(false, false));
      UninterruptedTransition(raised, run);
    }
  }

  /** Creating the record and writing its payload, with nothing in between, is the store's lock operation. */
  lemma UninterruptedLock(s: State, run: nat)
    requires run in s.workers && s.workers[run].pc == Cleared
    ensures var t := RecordStep(RecordStep(s, CreateRecord(run)), WritePayload(run, true));
            && t.markers == AcquireLock(s.markers, s.workers[run].hash, run, PayloadWritten).0
            && (t.workers[run].pc == Running(0) <==>
                AcquireLock(s.markers, s.workers[run].hash, run, PayloadWritten).1.None?)
  {
    var h := s.workers[run].hash;
    var claimed := RecordStep(s, CreateRecord(run));
    assert h in s.markers ==> claimed == Move(s, run, Finished);
    assert h !in s.markers ==> claimed == Move(s, run, Claiming).(markers := s.markers[h := Claimed]);
  }

  /** A lock whose payload fails, with or without a successful removal, is the store's failed lock operation. */
  lemma UninterruptedFailedLock(s: State, run: nat, message: string, unlinked: bool)
    requires run in s.workers && s.workers[run].pc == Cleared
    ensures var t := RecordStep(RecordStep(RecordStep(s, CreateRecord(run)), WritePayload(run, false)),
                                RemoveRecord(run, unlinked));
            && t.markers == AcquireLock(s.markers, s.workers[run].hash, run, PayloadFailed(message, unlinked)).0
            && t.workers[run].pc == Finished
  {
    var h := s.workers[run].hash;
    var claimed := RecordStep(s, CreateRecord(run));
    if h in s.markers {
      assert claimed == Move(s, run, Finished);
    } else {
      assert claimed == Move(s, run, Claiming).(markers := s.markers[h := Claimed]);
      assert s.markers[h := Claimed] - {h} == s.markers;
    }
  }

  /** Reading and overwriting the record, with nothing in between, is the store's transition. */
  lemma UninterruptedTransition(s: State, run: nat)
    requires run in s.workers && s.workers[run].pc.Settling?
    ensures var w := s.workers[run];
            var t := SettleStep(SettleStep(s, ReadRecord(run)), WriteRecord(run));
            match Transition(s.markers, w.hash, Goal(run, w.pc.success))
            case Success(markers) => t.markers == markers && t.workers[run].pc == Settled(w.pc.guarded)
            case Failure(_) => t.markers == s.markers && t.workers[run].pc == AfterRaise(w.pc.guarded)
  {
  }
}
