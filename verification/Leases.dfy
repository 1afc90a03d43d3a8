/** Lease expiry, reconciliation and renewal: an expired lease is only suspect, and nothing short of definite
    absence frees what an Attempt holds. */
module Leases {
  import opened Core
  import opened Attempts
  import opened Paths
  import opened Resources

  datatype LeaseState = LeaseValid | Suspect | Inactive

  /** `reconcile` is the action of the source's assessment; the other one is none. */
  datatype Assessment = Assessment(state: LeaseState, reconcile: bool)

  datatype Observation = SeenLive | DurablyResumable | DefinitelyAbsent | Uncertain | SideEffecting

  datatype ReconcileAction = NotRequired | RenewSame | ResumeSame | ReplaceAndRelease | ReleaseRetiring | RetainAndReconcile

  function Assess(a: Attempt, now: int): Assessment {
    if !Holds(a) then Assessment(Inactive, false)
    else if a.lease.retiring then Assessment(Suspect, true)
    else if a.lease.expiresAt <= now then Assessment(Suspect, true)
    else Assessment(LeaseValid, false)
  }

  function Reconcile(a: Attempt, seen: Observation, now: int): ReconcileAction {
    if !Assess(a, now).reconcile then NotRequired
    else if a.lease.retiring then (if seen == DefinitelyAbsent then ReleaseRetiring else RetainAndReconcile)
    else
      match seen
      case SeenLive => RenewSame
      case DurablyResumable => ResumeSame
      case DefinitelyAbsent => ReplaceAndRelease
      case _ => RetainAndReconcile
  }

  datatype RenewalError = NonPositiveTtl | NotRenewable | WrongDispatch | NotLive | NoActiveCheckpoint | GraphTerminal | BadPath | LocksDiffer | NotLater

  /** What a renewal is asked with. */
  datatype RenewalProof = RenewalProof(dispatchKey: string, live: bool, checkpointActive: bool, graphTerminal: bool, held: seq<string>)

  function Renew(a: Attempt, now: int, ttl: int, proof: RenewalProof): Result<Attempt, RenewalError> {
    if ttl <= 0 then Err(NonPositiveTtl)
    else if !Holds(a) || a.lease.retiring then Err(NotRenewable)
    else if proof.dispatchKey != a.dispatchKey then Err(WrongDispatch)
    else if !proof.live then Err(NotLive)
    else if !proof.checkpointActive then Err(NoActiveCheckpoint)
    else if proof.graphTerminal then Err(GraphTerminal)
    else
      match CanonicalPaths(a.lease.resourceKeys)
      case Err(_) => Err(BadPath)
      case Ok(required) =>
        match CanonicalPaths(proof.held)
        case Err(_) => Err(BadPath)
        case Ok(held) =>
          if required != held then Err(LocksDiffer)
          else if now + ttl <= a.lease.expiresAt then Err(NotLater)
          else Ok(a.(lease := a.lease.(expiresAt := now + ttl)))
  }

  /** Release is decided exactly when the executor is definitely absent and its lease is suspect. */
  lemma {:induction false} ReleaseIff(a: Attempt, seen: Observation, now: int)
    ensures Reconcile(a, seen, now) in {ReplaceAndRelease, ReleaseRetiring} <==>
      seen == DefinitelyAbsent && Holds(a) && (a.lease.retiring || a.lease.expiresAt <= now)
    ensures Reconcile(a, seen, now) == NotRequired <==> !Holds(a) || (!a.lease.retiring && now < a.lease.expiresAt)
    ensures Reconcile(a, seen, now) == ReleaseRetiring ==> a.lease.retiring
    ensures Reconcile(a, seen, now) == RenewSame <==> seen == SeenLive && InFlight(a.status) && !a.lease.retiring && a.lease.expiresAt <= now
    ensures Reconcile(a, seen, now) == ResumeSame <==> seen == DurablyResumable && InFlight(a.status) && !a.lease.retiring && a.lease.expiresAt <= now
    ensures Assess(a, now).state == Inactive <==> !Holds(a)
    ensures Assess(a, now).state == LeaseValid <==> InFlight(a.status) && !a.lease.retiring && now < a.lease.expiresAt
    ensures Assess(a, now).reconcile <==> Assess(a, now).state == Suspect
  {
  }

  /** A renewal needs every proof, changes only the expiry, and makes a lease that is valid until then. */
  lemma {:induction false} RenewIff(a: Attempt, now: int, ttl: int, proof: RenewalProof)
    ensures Renew(a, now, ttl, proof).Ok? <==>
      && ttl > 0 && InFlight(a.status) && !a.lease.retiring && proof.dispatchKey == a.dispatchKey && proof.live
      && proof.checkpointActive && !proof.graphTerminal
      && CanonicalPaths(a.lease.resourceKeys).Ok? && CanonicalPaths(proof.held) == CanonicalPaths(a.lease.resourceKeys)
      && a.lease.expiresAt < now + ttl
    ensures Renew(a, now, ttl, proof).Ok? ==>
      var a' := Renew(a, now, ttl, proof).value;
      && a' == a.(lease := a'.lease) && a'.lease == a.lease.(expiresAt := a'.lease.expiresAt)
      && a'.lease.expiresAt > a.lease.expiresAt && Assess(a', now).state == LeaseValid
      && (forall later :: now <= later < a'.lease.expiresAt ==> Reconcile(a', DefinitelyAbsent, later) == NotRequired)
  {
  }
}
