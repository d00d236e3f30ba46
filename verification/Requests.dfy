/** The request and lease operations of src-core/src/requests.rs, each as one atomic step. */
module Requests {
  import opened Basics
  import opened States
  import opened Books
  import opened Tables
  import opened Selection
  import opened Quota

  const DEFAULT_RECONCILE_TTL: int := 600_000

  // -------------------------------------------------------------- submission

  function ActiveRequests(requests: map<Id, Request>, key: Id): set<Id> {
    set q | q in requests && requests[q].key == key && requests[q].state.CountsAsActive()
  }

  /** Insert the request and its idempotency key. */
  function Enter(db: Db, s: Submission, r: Id, state: RequestState): Db {
    db.(requests := db.requests[r := Request(s.user, s.key, s.endpoint, s.model, s.content, state)],
        idem := db.idem[s.Idem() := IdemRow(s.content, r)])
  }

  /** Insert the request and hold its amount, reaching `state`. */
  ghost function EnterReserved(db: Db, s: Submission, r: Id, state: RequestState): Result<Db> {
    if !(r !in db.requests) then Err(RowExists) else
    var placed :- ReserveDual(db.books, r, s.user, s.key, s.kind, s.amount);
    match placed
    case Placed(books) => Ok(Enter(db, s, r, state).(books := books))
    case AlreadyReserved => Err(ReservationRequestConflict)
    case Short(available) => Err(QuotaInsufficient(available, s.amount))
  }

  /** begin_request (with a local cost policy) and begin_billed_request (without). */
  ghost function Begin(db: Db, s: Submission, policy: Option<Kind>, needPolicy: bool, r: Id): Transaction {
    if !db.KeyActive(s.user, s.key) then Err(InvalidRequestIdentity) else
    if s.Idem() in db.idem then
      var row := db.idem[s.Idem()];
      Ok((db, if row.content == s.content then Existing(row.request) else Conflict))
    else
      :- Need(!needPolicy || policy.Some?, BudgetPolicyMissing);
      :- Need(r !in db.requests, RowExists);
      Ok((Enter(db, s, r, RequestState.Received), Reply.Created(r)))
  }

  ghost function PreflightReserve(db: Db, s: Submission, r: Id, now: int): Transaction {
    if !(s.amount > 0 && s.ttl >= 0 && Fits(now + s.ttl)) then Err(InvalidQuotaAmount) else
    :- Need(db.KeyActive(s.user, s.key), InvalidRequestIdentity);
    if s.Idem() in db.idem then
      var row := db.idem[s.Idem()];
      Ok((db, if row.content == s.content then Existing(row.request) else Conflict))
    else
      :- Need(|ActiveRequests(db.requests, s.key)| < db.site.keys[s.key].maxConcurrency, KeyConcurrencyExceeded);
      match EnterReserved(db, s, r, RequestState.Reserved)
      case Ok(db') => Ok((db', Reply.Created(r)))
      // This refusal is a reply, not an error, but it returns before the commit.
      case Err(QuotaInsufficient(available, required)) => Ok((db, Insufficient(available, required)))
      case Err(e) => Err(e)
  }

  /** validate_scheduler_request. */
  predicate ValidTerms(s: Submission, t: Terms) {
    && s.amount > 0 && s.ttl >= 0 && t.predicted > 0 && t.margin >= 0
    && t.maxAge >= 0 && t.leaseTtl > 0 && t.reconcileTtl > 0
  }

  /** The checks both scheduler entrances make before they look for a replay. */
  function Admit(db: Db, p: Principal, s: Submission, t: Terms, policy: Option<Kind>): Check {
    if !ValidTerms(s, t) then Fail(InvalidQuotaAmount)
    else if p.user != s.user || p.key != s.key then Fail(InvalidRequestIdentity)
    else if s.endpoint !in p.scopes then Fail(MissingScope)
    else if !db.KeyActive(s.user, s.key) then Fail(InvalidRequestIdentity)
    else Need(policy == Some(s.kind), BudgetPolicyMissing)
  }

  function FreshLease(account: Id, kind: Kind, t: Terms, now: int): Lease {
    Lease(account, kind, LeaseState.Held, now + t.leaseTtl, Some(now + t.reconcileTtl))
  }

  function NewJob(db: Db, r: Id, id: Id, user: Id, now: int, t: Option<Terms>): Result<Db> {
    if !(forall q :: q in db.jobs ==> db.jobs[q].id != id) then Err(RowExists) else
    Ok(db.(jobs := db.jobs[r := Job(id, user, JobState.Queued, now, None, None, t)]))
  }

  /** preflight_reserve_with_lease, and preflight_video_job when `job` names the job to create. */
  ghost function PreflightWithLease(db: Db, p: Principal, s: Submission, t: Terms, policy: Option<Kind>,
                                    job: Option<Id>, r: Id, now: int): Transaction {
    if !(job.None? || (s.endpoint == VIDEOS && s.kind.VideoJob?)) then Err(InvalidConfiguration) else
    :- Admit(db, p, s, t, policy);
    if s.Idem() in db.idem then
      var row := db.idem[s.Idem()];
      :- Need(row.content == s.content, IdempotencyConflict);
      :- Need(row.request in db.leases && db.leases[row.request].kind == s.kind, ReservationRequestConflict);
      Ok((db, Existing(row.request)))
    else AcquireLease(db, p, s, t, job, r, now)
  }

  /** A new request with its reservation and its lease. */
  ghost function EnterLeased(db: Db, s: Submission, t: Terms, r: Id, state: RequestState, now: int): (e: Result<Db>)
    ensures e.Ok? ==> r in e.value.leases
  {
    var account :- Select(db.site.upstream, db.leases, t, s.kind, now);
    :- Need(Fits(now + s.ttl) && Fits(now + t.leaseTtl) && Fits(now + t.reconcileTtl), InvalidQuotaAmount);
    var entered :- EnterReserved(db, s, r, state);
    :- Need(r !in db.leases, RowExists);
    Ok(entered.(leases := entered.leases[r := FreshLease(account, s.kind, t, now)]))
  }

  /** And, for a video, with its job and attempt. */
  ghost function AcquireLease(db: Db, p: Principal, s: Submission, t: Terms, job: Option<Id>, r: Id, now: int): Transaction {
    var leased :- EnterLeased(db, s, t, r, if job.Some? then RequestState.Queued else RequestState.Reserved, now);
    if job.None? then Ok((leased, Reply.Created(r)))
    else
      :- Need(r !in db.jobs && r !in db.attempts, RowExists);
      var queued :- NewJob(leased, r, job.value, p.user, now, None);
      Ok((queued.(attempts := queued.attempts[r := Attempt(leased.leases[r].account, AttemptState.Queued)]), Reply.Created(r)))
  }

  ghost function EnqueueVideo(db: Db, p: Principal, s: Submission, t: Terms, policy: Option<Kind>,
                              job: Id, r: Id, now: int): Transaction {
    if !(s.endpoint == VIDEOS && s.kind.VideoJob?) then Err(InvalidConfiguration) else
    :- Admit(db, p, s, t, policy);
    if s.Idem() in db.idem then
      var row := db.idem[s.Idem()];
      :- Need(row.content == s.content, IdempotencyConflict);
      :- Need(row.request in db.jobs, ReservationRequestConflict);
      Ok((db, Existing(row.request)))
    else QueueJob(db, p, s, t, job, r, now)
  }

  /** A new request with its reservation and a job that waits for its lease. */
  ghost function QueueJob(db: Db, p: Principal, s: Submission, t: Terms, job: Id, r: Id, now: int): Transaction {
    if !Fits(now + s.ttl) then Err(InvalidQuotaAmount) else
    var db1 :- EnterReserved(db, s, r, RequestState.Queued);
    :- Need(r !in db.jobs, RowExists);
    var db2 :- NewJob(db1, r, job, p.user, now, Some(t));
    Ok((db2, Reply.Created(r)))
  }

  /** transition_request. */
  function Transition(db: Db, r: Id, expected: RequestState, next: RequestState): Transaction {
    if !expected.CanTransitionTo(next) then Err(InvalidTransition) else
    :- Need(r in db.requests && db.requests[r].state == expected, InvalidTransition);
    Ok((db.SetState(r, next), Done))
  }

  // ------------------------------------------------------------------ leases

  function OwnedLease(db: Db, p: Principal, r: Id): Check {
    if r !in db.leases then Fail(LeaseNotFound)
    else Need(r in db.requests && db.requests[r].user == p.user && db.requests[r].key == p.key, InvalidRequestIdentity)
  }

  function HeartbeatLease(db: Db, p: Principal, r: Id, now: int, ttl: int): Transaction {
    if !(ttl > 0 && Fits(now + ttl)) then Err(InvalidQuotaAmount) else
    :- OwnedLease(db, p, r);
    var l := db.leases[r];
    Ok((if l.state.Live() then db.(leases := db.leases[r := l.(state := LeaseState.Active, expires := now + ttl)]) else db, Done))
  }

  /** request_upstream_cancel: the request is asked to cancel; a video job is not told. */
  function CancelLease(db: Db, p: Principal, r: Id): Transaction {
    match OwnedLease(db, p, r)
    case Fail(e) => Err(e)
    case Pass =>
    if !db.leases[r].state.Live() || db.requests[r].state.CancelRequested? then Ok((db, Done))
    else
      :- Need(db.requests[r].state.CanTransitionTo(RequestState.CancelRequested), InvalidTransition);
      Ok((db.SetState(r, RequestState.CancelRequested), Done))
  }

  function LeaseAfter(o: LeaseOutcome): LeaseState {
    match o
    case Success(_, _) => LeaseState.Succeeded
    case Rejected(accepted) => if accepted then LeaseState.Unknown else LeaseState.Failed
    case TransportUnknown => LeaseState.Unknown
    case CanceledUpstream(_) => LeaseState.Failed
  }

  function SettlementFor(o: LeaseOutcome): Settlement {
    match o
    case Success(actual, _) => Charged(actual)
    case Rejected(accepted) => if accepted then Undecided else Settlement.Released
    case TransportUnknown => Undecided
    case CanceledUpstream(_) => Settlement.Released
  }

  function GoalFor(o: LeaseOutcome): RequestState {
    match o
    case Success(_, _) => RequestState.Succeeded
    case Rejected(accepted) => if accepted then RequestState.Unknown else RequestState.Failed
    case TransportUnknown => RequestState.Unknown
    case CanceledUpstream(_) => RequestState.Canceled
  }

  function JobAfter(o: LeaseOutcome): JobState {
    match o
    case Success(_, _) => JobState.Succeeded
    case Rejected(accepted) => if accepted then JobState.Unknown else JobState.Failed
    case TransportUnknown => JobState.Unknown
    case CanceledUpstream(_) => JobState.Canceled
  }

  function AttemptFor(j: JobState): AttemptState {
    match j
    case Created => AttemptState.Queued
    case Queued => AttemptState.Queued
    case Running => AttemptState.Running
    case CancelRequested => AttemptState.CancelRequested
    case Canceled => AttemptState.Canceled
    case Succeeded => AttemptState.Succeeded
    case Failed => AttemptState.Failed
    case Unknown => AttemptState.Unknown
  }

  /** Move the request as a lease outcome demands; an unknown outcome leaves it unknown. */
  function RequestAfter(db: Db, r: Id, goal: RequestState): Result<Db>
    requires r in db.requests
  {
    if !goal.Unknown? then SettleRequest(db, r, goal)
    else if db.requests[r].state.Unknown? then Ok(db)
    else
      :- Need(db.requests[r].state.CanTransitionTo(RequestState.Unknown), InvalidTransition);
      Ok(db.SetState(r, RequestState.Unknown))
  }

  /** sync_video_job_settlement: the job and its attempt follow the lease, and the
      worker's claim is cleared. A lease without a job has nothing to sync. */
  function SyncJob(db: Db, r: Id, to: JobState): Result<Db> {
    if r !in db.jobs then Ok(db)
    else
      :- Need(r in db.attempts, InvalidConfiguration);
      :- Need(r in db.requests && db.jobs[r].user == db.requests[r].user, InvalidConfiguration);
      :- Need(db.jobs[r].state == to || db.jobs[r].state.CanTransitionTo(to), InvalidConfiguration);
      Ok(db.(jobs := db.jobs[r := db.jobs[r].(state := to, owner := None, claimExpires := None)],
             attempts := db.attempts[r := db.attempts[r].(state := AttemptFor(to))]))
  }

  /** Close (or leave undecided) a lease, its reservation, its request and its job together. */
  function SettleRows(db: Db, r: Id, o: LeaseOutcome, until: Option<int>): Result<Db>
    requires r in db.leases && r in db.requests && r in db.books.reservations
  {
    var db1 :- RequestAfter(db, r, GoalFor(o));
    var books :- ApplySettlement(db.books, r, SettlementFor(o));
    var l := db.leases[r].(state := LeaseAfter(o), reconcileUntil := until);
    var db2 := db1.(books := books, leases := db.leases[r := l]);
    if l.kind.VideoJob? then SyncJob(db2, r, JobAfter(o)) else Ok(db2)
  }

  /** The reconcile deadline an outcome leaves behind: kept or set when undecided. */
  function UntilAfter(l: Lease, o: LeaseOutcome, now: int): Result<Option<int>> {
    if !LeaseAfter(o).Unknown? then Ok(None)
    else
      :- Need(Fits(now + DEFAULT_RECONCILE_TTL), InvalidQuotaAmount);
      Ok(if l.reconcileUntil.Some? then l.reconcileUntil else Some(now + DEFAULT_RECONCILE_TTL))
  }

  /** settle_upstream_lease_with_status_inner. */
  ghost function SettleLease(db: Db, p: Principal, r: Id, o: LeaseOutcome, now: int, allowUnknown: bool): Transaction {
    match OwnedLease(db, p, r)
    case Fail(e) => Err(e)
    case Pass =>
    var l := db.leases[r];
    :- Need(!(allowUnknown && l.state.Live()), InvalidConfiguration);
    var reconciling := allowUnknown && l.state.Unknown?;
    if !l.state.Live() && !reconciling then Ok((db, Applied(false)))
    else
      :- Need(!reconciling || (l.reconcileUntil.Some? && now <= l.reconcileUntil.value), InvalidConfiguration);
      :- Need(r in db.books.reservations, ReservationNotFound);
      :- Need(OwnsReservation(db, p, r), ReservationOwnerMismatch);
      var until :- UntilAfter(l, o, now);
      var db' :- SettleRows(db, r, o, until);
      Ok((db', Applied(true)))
  }

  /** reconcile_unknown_upstream_lease demands evidence of how the upstream call ended. */
  predicate Evident(o: LeaseOutcome) {
    match o
    case Success(_, evidence) => evidence
    case Rejected(accepted) => !accepted
    case TransportUnknown => false
    case CanceledUpstream(evidence) => evidence
  }

  ghost function Reconcile(db: Db, p: Principal, r: Id, o: LeaseOutcome, now: int): Transaction {
    if !Evident(o) then Err(InvalidConfiguration) else
    SettleLease(db, p, r, o, now, true)
  }

  // ---------------------------------------------------------------- recovery

  predicate Expired(db: Db, r: Id, now: int) {
    r in db.leases && db.leases[r].state.Live() && db.leases[r].expires <= now
  }

  /** What recovery needs of each expired row so that its transaction commits. */
  predicate Recoverable(db: Db, r: Id)
    requires r in db.leases
  {
    && r in db.books.reservations
    && r in db.requests
    && (db.requests[r].state.Unknown? || db.requests[r].state.CanTransitionTo(RequestState.Unknown))
    && (db.leases[r].kind.VideoJob? ==> SyncJob(db, r, JobState.Unknown).Ok?)
  }

  function ExpiredLeases(db: Db, now: int): set<Id> {
    set r | r in db.leases && Expired(db, r, now)
  }

  /** Suspend these leases with everything that depends on them. */
  function RecoverRows(db: Db, s: set<Id>, now: int): Db {
    db.(books := Suspend(db.books, s),
        requests := map r | r in db.requests ::
          if r in s then db.requests[r].(state := RequestState.Unknown) else db.requests[r],
        leases := map r | r in db.leases ::
          if r in s
          then db.leases[r].(state := LeaseState.Unknown, reconcileUntil := Some(now + DEFAULT_RECONCILE_TTL))
          else db.leases[r],
        jobs := map r | r in db.jobs ::
          if r in s && r in db.leases && db.leases[r].kind.VideoJob?
          then db.jobs[r].(state := JobState.Unknown, owner := None, claimExpires := None) else db.jobs[r],
        attempts := map r | r in db.attempts ::
          if r in s && r in db.leases && db.leases[r].kind.VideoJob? && r in db.jobs
          then db.attempts[r].(state := AttemptState.Unknown) else db.attempts[r])
  }

  function Recovered(db: Db, now: int): Db { RecoverRows(db, ExpiredLeases(db, now), now) }

  /** recover_expired_upstream_leases: every expired lease at once, or none. */
  ghost function RecoverExpired(db: Db, now: int): Transaction {
    if !((exists r :: Expired(db, r, now)) ==> Fits(now + DEFAULT_RECONCILE_TTL)) then Err(InvalidQuotaAmount) else
    :- Need(forall r :: Expired(db, r, now) ==> Recoverable(db, r), InvalidConfiguration);
    Ok((Recovered(db, now), Done))
  }
}
