/**
 The four state machines of a request - request, reservation, lease, and job with its
 attempt - agree in every reachable store, and the books stay sound because they do.
 */
module Coherence {
  import opened Basics
  import opened States
  import opened Books
  import opened Tables
  import opened Quota
  import opened Requests

  // -------------------------------------------------------------- invariant

  /** The states of all rows of one request. */
  datatype Case = Case(
    request: Option<RequestState>, reservation: Option<ReservationState>, lease: Option<LeaseState>,
    job: Option<JobState>, attempt: Option<AttemptState>, quoted: bool, charged: bool)

  function CaseOf(db: Db, r: Id): Case {
    Case(if r in db.requests then Some(db.requests[r].state) else None,
         if r in db.books.reservations then Some(db.books.reservations[r].state) else None,
         if r in db.leases then Some(db.leases[r].state) else None,
         if r in db.jobs then Some(db.jobs[r].state) else None,
         if r in db.attempts then Some(db.attempts[r].state) else None,
         r in db.billing.quotes, r in db.billing.settlements)
  }

  /** What a lease's state says about its reservation and its request. */
  predicate LeaseAgrees(l: LeaseState, x: ReservationState, s: RequestState) {
    match l
    case Held => x.Held? && s.Open()
    case Active => x.Held? && s.Open()
    case Unknown => x.Unknown? && s.Unknown?
    case Succeeded => s.Settled? && (x.Committed? || x.Unknown?)
    case Failed => s.Settled? && x.Released?
  }

  /** What a leased job's state says about its lease and its request. */
  predicate JobAgrees(j: JobState, l: LeaseState, s: RequestState) {
    match j
    case Created => false
    case Queued => l.Live() && !s.Reserved?
    case Running => l.Active? && (s.Dispatched? || s.Completing? || s.CancelRequested?)
    case CancelRequested => l.Live() && s.CancelRequested?
    case Canceled => l.Failed?
    case Succeeded => l.Succeeded?
    case Failed => l.Failed?
    case Unknown => l.Unknown?
  }

  /** A job that has no lease yet still holds its quota, or was canceled and freed it. */
  predicate QueuedAgrees(j: JobState, x: ReservationState, s: RequestState) {
    || (j.Queued? && x.Held? && (s.Queued? || s.Dispatched? || s.Completing?))
    || (j.Canceled? && x.Released? && s.Settled?)
  }

  predicate Agrees(c: Case) {
    && (c.request.None? ==> c == Case(None, None, None, None, None, false, false))
    && (c.request.Some? ==>
      var s := c.request.value;
      && (c.reservation.None? <==> s.Received?)
      && (c.reservation.Some? ==> !s.Validating?)
      && (c.lease.Some? || c.job.Some? || c.quoted ==> c.reservation.Some?)
      && (c.attempt.Some? <==> c.lease.Some? && c.job.Some?)
      && (c.quoted ==> c.lease.None? && c.job.None? && (s.Billable() || s.Settled?))
      && (c.charged ==> c.quoted && c.reservation == Some(ReservationState.Committed) && s.Settled?)
      && (c.lease.Some? ==> LeaseAgrees(c.lease.value, c.reservation.value, s))
      && (c.job.Some? && c.lease.None? ==> QueuedAgrees(c.job.value, c.reservation.value, s))
      && (c.job.Some? && c.lease.Some? ==>
            JobAgrees(c.job.value, c.lease.value, s) && c.attempt.value == AttemptFor(c.job.value)))
  }

  /** The rows of one request name the same owner, kind and account. */
  predicate Tied(db: Db, r: Id) {
    && (r in db.books.reservations && r in db.requests ==>
          db.books.reservations[r].user == db.requests[r].user && db.books.reservations[r].key == db.requests[r].key)
    && (r in db.leases && r in db.books.reservations ==> db.leases[r].kind == db.books.reservations[r].kind)
    && (r in db.attempts && r in db.leases ==> db.attempts[r].account == db.leases[r].account)
    && (r in db.jobs && r in db.requests ==> db.jobs[r].user == db.requests[r].user)
    && (r in db.jobs && r in db.books.reservations ==> db.books.reservations[r].kind.VideoJob?)
    && (r in db.billing.quotes && r in db.books.reservations ==>
          db.books.reservations[r].kind.Credits? && db.books.reservations[r].amount == db.billing.quotes[r].max)
  }

  ghost predicate AllAgree(db: Db) {
    forall r :: Agrees(CaseOf(db, r)) && Tied(db, r)
  }

  lemma CaseAgrees(db: Db, r: Id)
    requires AllAgree(db)
    ensures Agrees(CaseOf(db, r)) && Tied(db, r)
  {
  }

  ghost predicate Coherent(db: Db) {
    Sound(db.books) && AllAgree(db)
  }

  // ------------------------------------------------------------------ frames

  predicate SameRow<T(==)>(m: map<Id, T>, m': map<Id, T>, q: Id) {
    (q in m <==> q in m') && (q in m ==> m[q] == m'[q])
  }

  /** An operation on request r leaves every other request's rows alone. */
  ghost predicate OnlyTouches(db: Db, db': Db, r: Id) {
    forall q :: q != r ==>
      && SameRow(db.requests, db'.requests, q)
      && SameRow(db.books.reservations, db'.books.reservations, q)
      && SameRow(db.leases, db'.leases, q)
      && SameRow(db.jobs, db'.jobs, q)
      && SameRow(db.attempts, db'.attempts, q)
      && SameRow(db.billing.quotes, db'.billing.quotes, q)
      && SameRow(db.billing.settlements, db'.billing.settlements, q)
  }

  lemma OthersAgree(db: Db, db': Db, r: Id)
    requires AllAgree(db) && OnlyTouches(db, db', r)
    requires Agrees(CaseOf(db', r)) && Tied(db', r)
    ensures AllAgree(db')
  {
    forall q ensures Agrees(CaseOf(db', q)) && Tied(db', q) {
      if q != r {
        assert Agrees(CaseOf(db, q)) && Tied(db, q);
        assert SameRow(db.requests, db'.requests, q);
        assert CaseOf(db', q) == CaseOf(db, q);
      }
    }
  }

  // -------------------------------------------------------------- submission

  lemma BeginKeepsAgreement(db: Db, s: Submission, policy: Option<Kind>, needPolicy: bool, r: Id)
    requires AllAgree(db)
    ensures AllAgree(After(db, Begin(db, s, policy, needPolicy, r)))
  {
    var db' := After(db, Begin(db, s, policy, needPolicy, r));
    forall q ensures Agrees(CaseOf(db', q)) && Tied(db', q) {
      assert Agrees(CaseOf(db, q)) && Tied(db, q);
    }
  }

  lemma EnterReservedKeepsAgreement(db: Db, s: Submission, r: Id)
    requires AllAgree(db) && EnterReserved(db, s, r, RequestState.Reserved).Ok?
    ensures AllAgree(EnterReserved(db, s, r, RequestState.Reserved).value)
  {
    var db' := EnterReserved(db, s, r, RequestState.Reserved).value;
    forall q ensures Agrees(CaseOf(db', q)) && Tied(db', q) {
      assert Agrees(CaseOf(db, q)) && Tied(db, q);
    }
  }

  lemma PreflightKeepsAgreement(db: Db, s: Submission, r: Id, now: int)
    requires AllAgree(db)
    ensures AllAgree(After(db, PreflightReserve(db, s, r, now)))
  {
    if EnterReserved(db, s, r, RequestState.Reserved).Ok? {
      EnterReservedKeepsAgreement(db, s, r);
    }
  }

  lemma LeasedShape(db: Db, p: Principal, s: Submission, t: Terms, policy: Option<Kind>,
                    job: Option<Id>, r: Id, now: int)
    requires PreflightWithLease(db, p, s, t, policy, job, r, now).Ok? && s.Idem() !in db.idem
    ensures r !in db.requests
    ensures var db', state := After(db, PreflightWithLease(db, p, s, t, policy, job, r, now)),
                              if job.Some? then RequestState.Queued else RequestState.Reserved;
      && EnterReserved(db, s, r, state).Ok?
      && db' == EnterReserved(db, s, r, state).value.(leases := db'.leases, jobs := db'.jobs, attempts := db'.attempts)
      && (forall q :: q != r ==> SameRow(db.leases, db'.leases, q) && SameRow(db.jobs, db'.jobs, q)
                                 && SameRow(db.attempts, db'.attempts, q))
      && r in db'.leases && db'.leases[r].state.Held?
      && (r in db'.jobs && r !in db.jobs ==> db'.jobs[r].createdAt == now && db'.jobs[r].user == s.user)
      && (r in db.jobs ==> r in db'.jobs && db'.jobs[r] == db.jobs[r])
  {
  }

  lemma PreflightLeaseKeepsAgreement(db: Db, p: Principal, s: Submission, t: Terms, policy: Option<Kind>,
                                     job: Option<Id>, r: Id, now: int)
    requires AllAgree(db)
    ensures AllAgree(After(db, PreflightWithLease(db, p, s, t, policy, job, r, now)))
  {
    hide AllAgree;
    var tx := PreflightWithLease(db, p, s, t, policy, job, r, now);
    if tx.Ok? && s.Idem() !in db.idem {
      LeasedShape(db, p, s, t, policy, job, r, now);
      CaseAgrees(db, r);
      OthersAgree(db, After(db, tx), r);
    } else {
      assert After(db, tx) == db;
    }
  }

  lemma EnqueuedShape(db: Db, p: Principal, s: Submission, t: Terms, policy: Option<Kind>, job: Id, r: Id, now: int)
    requires EnqueueVideo(db, p, s, t, policy, job, r, now).Ok? && s.Idem() !in db.idem
    ensures r !in db.requests && r !in db.jobs && s.kind.VideoJob? && p.user == s.user
    ensures s.endpoint == VIDEOS && ValidTerms(s, t)
    ensures var db' := After(db, EnqueueVideo(db, p, s, t, policy, job, r, now));
      && EnterReserved(db, s, r, RequestState.Queued).Ok?
      && db' == EnterReserved(db, s, r, RequestState.Queued).value.(jobs := db'.jobs)
      && db'.jobs == db.jobs[r := Job(job, p.user, JobState.Queued, now, None, None, Some(t))]
  {
  }

  lemma EnqueueKeepsAgreement(db: Db, p: Principal, s: Submission, t: Terms, policy: Option<Kind>,
                              job: Id, r: Id, now: int)
    requires AllAgree(db)
    ensures AllAgree(After(db, EnqueueVideo(db, p, s, t, policy, job, r, now)))
  {
    var tx := EnqueueVideo(db, p, s, t, policy, job, r, now);
    if tx.Ok? && s.Idem() !in db.idem {
      EnqueuedShape(db, p, s, t, policy, job, r, now);
      assert Agrees(CaseOf(db, r)) && Tied(db, r);
      OthersAgree(db, After(db, tx), r);
    } else {
      assert After(db, tx) == db;
    }
  }

  // ------------------------------------------------- moves of a single request

  /** Forward moves a caller may make by hand. */
  predicate Forward(expected: RequestState, next: RequestState) {
    next.Queued? || next.Dispatched? || next.Completing?
  }

  lemma TransitionKeepsAgreement(db: Db, r: Id, expected: RequestState, next: RequestState)
    requires AllAgree(db) && Forward(expected, next)
    ensures AllAgree(After(db, Transition(db, r, expected, next)))
  {
    var db' := After(db, Transition(db, r, expected, next));
    forall q ensures Agrees(CaseOf(db', q)) && Tied(db', q) {
      assert Agrees(CaseOf(db, q)) && Tied(db, q);
    }
  }

  lemma HeartbeatLeaseKeepsAgreement(db: Db, p: Principal, r: Id, now: int, ttl: int)
    requires AllAgree(db)
    ensures AllAgree(After(db, HeartbeatLease(db, p, r, now, ttl)))
  {
    var db' := After(db, HeartbeatLease(db, p, r, now, ttl));
    forall q ensures Agrees(CaseOf(db', q)) && Tied(db', q) {
      assert Agrees(CaseOf(db, q)) && Tied(db, q);
    }
  }

  lemma CancelLeaseKeepsAgreement(db: Db, p: Principal, r: Id)
    requires AllAgree(db)
    ensures AllAgree(After(db, CancelLease(db, p, r)))
  {
    var db' := After(db, CancelLease(db, p, r));
    forall q ensures Agrees(CaseOf(db', q)) && Tied(db', q) {
      assert Agrees(CaseOf(db, q)) && Tied(db, q);
    }
  }

  lemma ApplySettlementTouches(b: Books, r: Id, s: Settlement)
    requires r in b.reservations && ApplySettlement(b, r, s).Ok?
    ensures var b' := ApplySettlement(b, r, s).value;
      && b'.reservations.Keys == b.reservations.Keys
      && b'.accounts == b.accounts
      && (forall q :: q in b.reservations && q != r ==> b'.reservations[q] == b.reservations[q])
      && b'.reservations[r] == b.reservations[r].(state :=
           match s
           case Released => ReservationState.Released
           case Charged(actual) => if actual.Some? then ReservationState.Committed else ReservationState.Unknown
           case Undecided => ReservationState.Unknown)
  {
  }

  lemma SettleKeepsAgreement(db: Db, p: Principal, r: Id, s: Settlement, goal: Option<RequestState>)
    requires AllAgree(db) && r !in db.leases && r !in db.jobs
    ensures AllAgree(After(db, Settle(db, p, r, s, goal)))
  {
    var tx := Settle(db, p, r, s, goal);
    var db' := After(db, tx);
    if tx.Ok? && r in db.books.reservations && db.books.reservations[r].state.Held? {
      ApplySettlementTouches(db.books, r, s);
      assert Agrees(CaseOf(db, r)) && Tied(db, r);
      OthersAgree(db, db', r);
    }
  }

  /** What lease settlement writes, and what it found there. */
  lemma SettledRows(db: Db, r: Id, o: LeaseOutcome, until: Option<int>)
    requires r in db.leases && r in db.requests && r in db.books.reservations
    requires SettleRows(db, r, o, until).Ok?
    ensures var db', l, goal := SettleRows(db, r, o, until).value, db.leases[r], GoalFor(o);
      && (if goal.Unknown? then db.requests[r].state.Unknown? || db.requests[r].state.CanTransitionTo(goal)
          else CanSettleAs(db.requests[r].state, goal))
      && db'.requests == db.requests[r := db.requests[r].(state :=
           if goal.Unknown? then RequestState.Unknown else RequestState.Settled)]
      && ApplySettlement(db.books, r, SettlementFor(o)).Ok?
      && db'.books == ApplySettlement(db.books, r, SettlementFor(o)).value
      && db'.leases == db.leases[r := l.(state := LeaseAfter(o), reconcileUntil := until)]
      && db'.billing == db.billing && db'.idem == db.idem && db'.site == db.site && db'.cursor == db.cursor
      && (if r in db.jobs && l.kind.VideoJob? then
            && r in db.attempts
            && (db.jobs[r].state == JobAfter(o) || db.jobs[r].state.CanTransitionTo(JobAfter(o)))
            && db'.jobs == db.jobs[r := db.jobs[r].(state := JobAfter(o), owner := None, claimExpires := None)]
            && db'.attempts == db.attempts[r := db.attempts[r].(state := AttemptFor(JobAfter(o)))]
          else db'.jobs == db.jobs && db'.attempts == db.attempts)
  {
  }

  /** The states a settlement leaves agree, whichever outcome is reported. */
  lemma SettledStatesAgree(c: Case, d: Case, o: LeaseOutcome)
    requires Agrees(c) && c.lease.Some? && (c.lease.value.Live() || (c.lease.value.Unknown? && !LeaseAfter(o).Unknown?))
    requires d.request == Some(if GoalFor(o).Unknown? then RequestState.Unknown else RequestState.Settled)
    requires d.reservation == Some(match SettlementFor(o)
                                   case Released => ReservationState.Released
                                   case Charged(actual) => if actual.Some? then ReservationState.Committed else ReservationState.Unknown
                                   case Undecided => ReservationState.Unknown)
    requires d.lease == Some(LeaseAfter(o)) && d.quoted == c.quoted && d.charged == c.charged
    requires if c.job.Some? then d.job == Some(JobAfter(o)) && d.attempt == Some(AttemptFor(JobAfter(o)))
             else d.job == c.job && d.attempt == c.attempt
    ensures Agrees(d)
  {
  }

  /** Where one request's rows stand after its lease settles. */
  lemma SettledCase(db: Db, r: Id, o: LeaseOutcome, until: Option<int>)
    requires Agrees(CaseOf(db, r)) && Tied(db, r)
    requires r in db.leases && r in db.requests && r in db.books.reservations
    requires db.leases[r].state.Live() || (db.leases[r].state.Unknown? && !LeaseAfter(o).Unknown?)
    requires SettleRows(db, r, o, until).Ok?
    ensures var db' := SettleRows(db, r, o, until).value;
      Agrees(CaseOf(db', r)) && Tied(db', r) && OnlyTouches(db, db', r)
  {
    hide SettleRows, ApplySettlement, JobAgrees, LeaseAgrees, QueuedAgrees;
    SettledRows(db, r, o, until);
    ApplySettlementTouches(db.books, r, SettlementFor(o));
    SettledStatesAgree(CaseOf(db, r), CaseOf(SettleRows(db, r, o, until).value, r), o);
  }

  /** The heart of it: a lease that is live, or unknown, has a reservation that still
      holds, so lease settlement closes it exactly once. */
  lemma SettleRowsKeepsAgreement(db: Db, r: Id, o: LeaseOutcome, until: Option<int>)
    requires AllAgree(db) && r in db.leases && r in db.requests && r in db.books.reservations
    requires db.leases[r].state.Live() || (db.leases[r].state.Unknown? && !LeaseAfter(o).Unknown?)
    requires SettleRows(db, r, o, until).Ok?
    ensures AllAgree(SettleRows(db, r, o, until).value)
  {
    var db' := SettleRows(db, r, o, until).value;
    assert Agrees(CaseOf(db, r)) && Tied(db, r);
    SettledCase(db, r, o, until);
    OthersAgree(db, db', r);
  }

  lemma SettleLeaseKeepsAgreement(db: Db, p: Principal, r: Id, o: LeaseOutcome, now: int, allowUnknown: bool)
    requires AllAgree(db) && (allowUnknown ==> Evident(o))
    ensures AllAgree(After(db, SettleLease(db, p, r, o, now, allowUnknown)))
  {
    var tx := SettleLease(db, p, r, o, now, allowUnknown);
    if tx.Ok? && After(db, tx) != db {
      var until := UntilAfter(db.leases[r], o, now).value;
      SettleRowsKeepsAgreement(db, r, o, until);
    }
  }
}
