/** The plan store: pending plans, approved plans with their metadata, and the execution markers. */
module PlanStore {

  import opened Wrappers
  import opened PlanSchema
  import PlanHash

  type Hash = string

  /** The most steps one run may take. */
  const MAX_STEPS_PER_EXECUTION := 25

  /** Approval metadata, as far as the drift check reads it. */
  datatype Meta = Meta(fingerprint: string, driftCheckEnabled: bool)

  /** The approved plans on file with their metadata. */
  datatype Approvals = Approvals(plans: map<Hash, Plan>, metas: map<Hash, Meta>)

  /** The drift check passes: it is switched off, or the fingerprint is the approved one. */
  predicate DriftCheckPasses(meta: Meta, current: string) {
    !meta.driftCheckEnabled || current == meta.fingerprint
  }

  /** The execution record of a plan hash: a file created but not filled, or a state and the run that wrote it. */
  datatype Marker =
    | Claimed
    | InFlight(run: nat)
    | Executed(run: nat)
    | Failed(run: nat)

  type Markers = map<Hash, Marker>

  /** How writing the lock's payload goes: it fails, and removing the file again may fail too. */
  datatype LockWrite = PayloadWritten | PayloadFailed(message: string, unlinked: bool)

  // ---------------------------------------------------------------------------
  // Preflight
  // ---------------------------------------------------------------------------

  const PLAN_NOT_FOUND := "approved plan not found"
  const META_NOT_FOUND := "approved plan metadata not found"
  const HASH_MISMATCH := "plan hash mismatch"
  const DRIFT_DETECTED := "workspace drift detected"

  /** Preflight on the stored plan and metadata: load once, compare the recomputed hash, check for drift. */
  function Preflight(sha: string -> string, approved: map<Hash, Plan>, metas: map<Hash, Meta>, h: Hash,
                     fingerprint: string)
    : Result<Plan, string>
  {
    if h !in approved then Failure(PLAN_NOT_FOUND)
    else if h !in metas then Failure(META_NOT_FOUND)
    else if PlanHash.ComputePlanHash(sha, approved[h]) != h then Failure(HASH_MISMATCH)
    else if !DriftCheckPasses(metas[h], fingerprint) then Failure(DRIFT_DETECTED)
    else Success(approved[h])
  }

  /** A plan approved under its own hash passes preflight exactly as long as the fingerprint is the approved one,
      whatever
      else is on file. */
  lemma ApprovalLastsUntilDrift(sha: string -> string, approved: map<Hash, Plan>, metas: map<Hash, Meta>, plan: Plan,
                                fingerprint: string, current: string)
    ensures var h := PlanHash.ComputePlanHash(sha, plan);
            Preflight(sha, approved[h := plan], metas[h := Meta(fingerprint, true)], h, current)
            == if current == fingerprint then Success(plan) else Failure(DRIFT_DETECTED)
    ensures var h := PlanHash.ComputePlanHash(sha, plan);
            Preflight(sha, approved[h := plan], metas[h := Meta(fingerprint, false)], h, current) == Success(plan)
  {
  }

  // ---------------------------------------------------------------------------
  // The execution record
  // ---------------------------------------------------------------------------

  /** The transition table; a record without a readable state allows nothing. */
  predicate AllowedTransition(prior: Marker, next: Marker) {
    prior.InFlight? && (next.Executed? || next.Failed?)
  }

  predicate Terminal(m: Marker) {
    m.Executed? || m.Failed?
  }

  const RECORD_NOT_FOUND := "execution record not found"
  const INVALID_TRANSITION := "invalid execution state transition"
  const ALREADY_EXECUTED := "approved plan already executed"

  /** Read the record, check the transition, overwrite. */
  function Transition(markers: Markers, h: Hash, next: Marker): Result<Markers, string> {
    if h !in markers then Failure(RECORD_NOT_FOUND)
    else if !AllowedTransition(markers[h], next) then Failure(INVALID_TRANSITION)
    else Success(markers[h := next])
  }

  /** Exclusive create, then write the payload, removing the file again if that fails. */
  function AcquireLock(markers: Markers, h: Hash, run: nat, write: LockWrite): (Markers, Option<string>) {
    if h in markers then (markers, Some(ALREADY_EXECUTED))
    else match write
      case PayloadWritten => (markers[h := InFlight(run)], None)
      case PayloadFailed(message, unlinked) =>
        (if unlinked then markers else markers[h := Claimed], Some(message))
  }

  // ---------------------------------------------------------------------------
  // The store
  // ---------------------------------------------------------------------------

  class Store {
    var pending: map<Hash, Plan>
    var approved: map<Hash, Plan>
    var metas: map<Hash, Meta>
    var executed: Markers

    constructor ()
      ensures pending == map[] && approved == map[] && metas == map[] && executed == map[]
    {
      pending, approved, metas, executed := map[], map[], map[], map[];
    }

    method StorePendingPlan(h: Hash, plan: Plan)
      modifies this`pending
      ensures pending == old(pending)[h := plan]
    {
      pending := pending[h := plan];
    }

    /** Move a pending plan to the approved directory, replacing an earlier approval. */
    method MarkPlanApproved(h: Hash) returns (r: Result<Plan, string>)
      modifies this`pending, this`approved
      ensures h !in old(pending) ==> r.Failure? && pending == old(pending) && approved == old(approved)
      ensures h in old(pending) ==>
              && r == Success(old(pending)[h])
              && approved == old(approved)[h := old(pending)[h]]
              && pending == old(pending) - {h}
    {
      if h !in pending {
        return Failure("pending plan not found");
      }
      var plan := pending[h];
      approved := approved[h := plan];
      pending := pending - {h};
      r := Success(plan);
    }

    method WriteApprovedPlanMeta(h: Hash, meta: Meta)
      modifies this`metas
      ensures metas == old(metas)[h := meta]
    {
      metas := metas[h := meta];
    }

    /** Preflight on the files of the store, which stay as they are. */
    method PreflightExecute(sha: string -> string, h: Hash, fingerprint: string) returns (r: Result<Plan, string>)
      ensures r == Preflight(sha, approved, metas, h, fingerprint)
      ensures r.Success? ==> h in approved && r.value == approved[h] && PlanHash.ComputePlanHash(sha, r.value) == h
    {
      if h !in approved {
        return Failure(PLAN_NOT_FOUND);
      }
      var plan := approved[h];
      if h !in metas {
        return Failure(META_NOT_FOUND);
      }
      var computed := PlanHash.ComputePlanHash(sha, plan);
      if computed != h {
        return Failure(HASH_MISMATCH);
      }
      if !DriftCheckPasses(metas[h], fingerprint) {
        return Failure(DRIFT_DETECTED);
      }
      r := Success(plan);
    }

    method AcquireExecutionLock(h: Hash, run: nat, write: LockWrite) returns (error: Option<string>)
      modifies this`executed
      ensures (executed, error) == AcquireLock(old(executed), h, run, write)
      ensures error.None? ==> h !in old(executed)
    {
      if h in executed {
        return Some(ALREADY_EXECUTED);
      }
      executed := executed[h := Claimed];
      match write {
        case PayloadWritten =>
          executed := executed[h := InFlight(run)];
          assert executed == old(executed)[h := InFlight(run)];
          error := None;
        case PayloadFailed(message, unlinked) =>
          if unlinked {
            executed := executed - {h};
            assert executed == old(executed);
          }
          error := Some(message);
      }
    }

    method WriteExecutionTransition(h: Hash, next: Marker) returns (error: Option<string>)
      modifies this`executed
      ensures match Transition(old(executed), h, next)
              case Success(markers) => executed == markers && error.None?
              case Failure(message) => executed == old(executed) && error == Some(message)
      ensures h in old(executed) && Terminal(old(executed)[h]) ==> executed == old(executed) && error.Some?
    {
      if h !in executed {
        return Some(RECORD_NOT_FOUND);
      }
      var current := executed[h];
      if !AllowedTransition(current, next) {
        return Some(INVALID_TRANSITION);
      }
      executed := executed[h := next];
      error := None;
    }
  }
}
