/**
 What the holder of a lease can bring about (src-core/src/requests.rs:484-761): which reports
 are applied, what each does to the money, and until when.
 */
module Reports {
  import opened Basics
  import opened States
  import opened Books
  import opened Tables
  import opened Quota
  import opened Requests
  import opened Jobs
  import opened BillingOps
  import opened EventGroups
  import opened Coherence
  import opened CoherenceJobs
  import opened History
  import opened Runs
  import opened Theorems

  predicate Owner(db: Db, p: Principal, r: Id) {
    r in db.requests && db.requests[r].user == p.user && db.requests[r].key == p.key
  }

  predicate IsApplied(t: Transaction) { t.Ok? && t.value.1 == Applied(true) }

  // ----------------------------------------------------------- what is paid

  /** How a closing, or suspending, moves every account. */
  ghost predicate Pays(b: Books, b': Books, x: Reservation, refund: int, given: int, charge: int) {
    forall a :: Shifts(b, b', a, if x.On(a) then refund else 0, if x.On(a) then -given else 0, if x.On(a) then charge else 0)
  }

  lemma SettlementPays(b: Books, r: Id, s: Settlement)
    requires Sound(b) && r in b.reservations && b.reservations[r].Holds() && ApplySettlement(b, r, s).Ok?
    ensures var x, b' := b.reservations[r], ApplySettlement(b, r, s).value;
      match s
      case Released => Pays(b, b', x, x.amount, x.amount, 0)
      case Charged(Some(c)) => 0 <= c <= x.amount && Pays(b, b', x, x.amount - c, x.amount, c)
      case _ => Pays(b, b', x, 0, 0, 0)
  {
    assert Filed(b, r);
    forall a
      ensures var x, b' := b.reservations[r], ApplySettlement(b, r, s).value;
        match s
        case Released => Shifts(b, b', a, if x.On(a) then x.amount else 0, if x.On(a) then -x.amount else 0, 0)
        case Charged(Some(c)) =>
          Shifts(b, b', a, if x.On(a) then x.amount - c else 0, if x.On(a) then -x.amount else 0, if x.On(a) then c else 0)
        case _ => Shifts(b, b', a, 0, 0, 0)
    {
      match s
      case Released => FreeFigures(b, r, a);
      case Charged(Some(c)) => ChargeFigures(b, r, c, a);
      case _ => SuspendFigures(b, {r}, a);
    }
  }

  ghost function Report(db: Db, p: Principal, r: Id, o: LeaseOutcome, now: int, reconciling: bool): Transaction {
    if reconciling then Reconcile(db, p, r, o, now) else SettleLease(db, p, r, o, now, false)
  }

  /** What the owner is charged. A success that names its cost commits exactly that, at most
      the amount held, and gives back the rest; a refusal or a cancellation gives back all; of
      anything else the hold stays as it is. */
  lemma ReportPays(db: Db, p: Principal, r: Id, o: LeaseOutcome, now: int, reconciling: bool)
    requires Healthy(db) && IsApplied(Report(db, p, r, o, now, reconciling))
    ensures r in db.books.reservations
    ensures var x, b' := db.books.reservations[r], After(db, Report(db, p, r, o, now, reconciling)).books;
      match o
      case Success(Some(c), _) => 0 <= c <= x.amount && Pays(db.books, b', x, x.amount - c, x.amount, c)
      case Rejected(false) => Pays(db.books, b', x, x.amount, x.amount, 0)
      case CanceledUpstream(_) => Pays(db.books, b', x, x.amount, x.amount, 0)
      case _ => Pays(db.books, b', x, 0, 0, 0)
  {
    hide Report, SettleRows, Pays, Sound, ApplySettlement, Healthy;
    HealthyBooks(db);
    ReportRows(db, p, r, o, now, reconciling);
    SettledRows(db, r, o, UntilAfter(db.leases[r], o, now).value);
    SettlementPays(db.books, r, SettlementFor(o));
  }

  /** An applied report writes the rows of a lease that holds its reservation still. */
  lemma ReportRows(db: Db, p: Principal, r: Id, o: LeaseOutcome, now: int, reconciling: bool)
    requires Healthy(db) && IsApplied(Report(db, p, r, o, now, reconciling))
    ensures Agrees(CaseOf(db, r)) && Tied(db, r)
    ensures r in db.leases && r in db.requests && r in db.books.reservations && db.books.reservations[r].Holds()
    ensures db.leases[r].state.Live() || (db.leases[r].state.Unknown? && !LeaseAfter(o).Unknown?)
    ensures var until := UntilAfter(db.leases[r], o, now);
      && until.Ok? && SettleRows(db, r, o, until.value).Ok?
      && After(db, Report(db, p, r, o, now, reconciling)) == SettleRows(db, r, o, until.value).value
  {
    hide SettleRows, Healthy;
    HealthyCase(db, r);
  }

  lemma HealthyCase(db: Db, r: Id)
    requires Healthy(db)
    ensures Agrees(CaseOf(db, r)) && Tied(db, r)
  {
  }

  // -------------------------------------------------- where the rows end up

  /** The states a report leaves, of everything that hangs on the lease. */
  lemma ReportMoves(db: Db, p: Principal, r: Id, o: LeaseOutcome, now: int, reconciling: bool)
    requires Healthy(db) && IsApplied(Report(db, p, r, o, now, reconciling))
    ensures r in db.leases && r in db.requests && r in db.books.reservations
    ensures var db' := After(db, Report(db, p, r, o, now, reconciling));
      && OnlyTouches(db, db', r)
      && r in db'.leases && r in db'.requests && r in db'.books.reservations && (r in db.jobs ==> r in db'.jobs)
      && var l, s, x := db'.leases[r].state, db'.requests[r].state, db'.books.reservations[r].state;
      && (r in db.jobs ==> db'.jobs[r].owner.None? && db'.jobs[r].claimExpires.None?)
      && match o
         case Success(actual, _) =>
           && l.Succeeded? && s.Settled? && (if actual.Some? then x.Committed? else x.Unknown?)
           && (r in db.jobs ==> db'.jobs[r].state.Succeeded?)
         case Rejected(accepted) =>
           if accepted then l.Unknown? && s.Unknown? && x.Unknown? && (r in db.jobs ==> db'.jobs[r].state.Unknown?)
           else l.Failed? && s.Settled? && x.Released? && (r in db.jobs ==> db'.jobs[r].state.Failed?)
         case TransportUnknown => l.Unknown? && s.Unknown? && x.Unknown? && (r in db.jobs ==> db'.jobs[r].state.Unknown?)
         case CanceledUpstream(_) => l.Failed? && s.Settled? && x.Released? && (r in db.jobs ==> db'.jobs[r].state.Canceled?)
  {
    hide Report, SettleRows, Healthy, Agrees, ApplySettlement, OnlyTouches;
    ReportRows(db, p, r, o, now, reconciling);
    var until := UntilAfter(db.leases[r], o, now).value;
    if r in db.jobs { JobsAreVideo(db, r); }
    SettledRows(db, r, o, until);
    ApplySettlementTouches(db.books, r, SettlementFor(o));
    SettledCase(db, r, o, until);
  }

  lemma JobsAreVideo(db: Db, r: Id)
    requires Agrees(CaseOf(db, r)) && Tied(db, r) && r in db.jobs && r in db.leases
    ensures db.leases[r].kind.VideoJob?
  {
  }

  // ------------------------------------------------- which reports are taken

  /** What a live lease can still end as: a request that was asked to cancel, and a job that
      was, can only have been canceled or be in doubt; a job that no worker has claimed
      cannot have succeeded. */
  predicate Possible(db: Db, r: Id, o: LeaseOutcome)
    requires r in db.requests
  {
    var asked := db.requests[r].state.CancelRequested?;
    match o
    case Success(_, _) => !asked && (r in db.jobs ==> db.jobs[r].state.Running?)
    case Rejected(accepted) => accepted || (!asked && (r in db.jobs ==> db.jobs[r].state.Running? || db.jobs[r].state.Queued?))
    case TransportUnknown => true
    case CanceledUpstream(_) => asked && (r in db.jobs ==> db.jobs[r].state.CancelRequested?)
  }

  predicate Affords(db: Db, r: Id, o: LeaseOutcome)
    requires r in db.books.reservations
  {
    o.Success? && o.actual.Some? ==> 0 <= o.actual.value <= db.books.reservations[r].amount
  }

  predicate InDoubt(o: LeaseOutcome) { o.TransportUnknown? || (o.Rejected? && o.accepted) }

  /** The job behind a lease may follow it. */
  predicate JobFollows(db: Db, r: Id, o: LeaseOutcome) {
    r in db.jobs ==> db.jobs[r].state == JobAfter(o) || db.jobs[r].state.CanTransitionTo(JobAfter(o))
  }

  lemma RowsAreWrittenExactly(db: Db, r: Id, o: LeaseOutcome, until: Option<int>)
    requires Agrees(CaseOf(db, r)) && Tied(db, r) && r in db.leases && r in db.requests && r in db.books.reservations
    ensures SettleRows(db, r, o, until).Ok? <==>
      RequestAfter(db, r, GoalFor(o)).Ok? && Affords(db, r, o) && JobFollows(db, r, o)
  {
    hide LeaseAgrees, JobAgrees, QueuedAgrees;
    if r in db.jobs { JobsAreVideo(db, r); }
  }

  lemma LiveLeaseTakes(db: Db, r: Id, o: LeaseOutcome)
    requires Agrees(CaseOf(db, r)) && r in db.leases && r in db.requests && db.leases[r].state.Live()
    ensures RequestAfter(db, r, GoalFor(o)).Ok? && JobFollows(db, r, o) <==> Possible(db, r, o)
  {
  }

  lemma DoubtfulLeaseTakes(db: Db, r: Id, o: LeaseOutcome)
    requires Agrees(CaseOf(db, r)) && r in db.leases && r in db.requests && db.leases[r].state.Unknown? && !InDoubt(o)
    ensures RequestAfter(db, r, GoalFor(o)).Ok? && JobFollows(db, r, o)
  {
  }

  /** Exactly the reports of a live lease that are applied. */
  lemma ReportIsAppliedExactly(db: Db, p: Principal, r: Id, o: LeaseOutcome, now: int)
    requires Healthy(db) && r in db.leases && db.leases[r].state.Live()
    ensures r in db.requests && r in db.books.reservations
    ensures IsApplied(SettleLease(db, p, r, o, now, false)) <==>
      Owner(db, p, r) && Possible(db, r, o) && Affords(db, r, o) && (InDoubt(o) ==> now + 600_000 <= MAX_I64)
  {
    hide Healthy, SettleRows, RequestAfter, Agrees, JobFollows, Possible, Affords;
    HealthyCase(db, r);
    LeasedRows(db, r);
    var until := UntilAfter(db.leases[r], o, now);
    RowsAreWrittenExactly(db, r, o, if until.Ok? then until.value else None);
    LiveLeaseTakes(db, r, o);
  }

  lemma LeasedRows(db: Db, r: Id)
    requires Agrees(CaseOf(db, r)) && r in db.leases
    ensures r in db.requests && r in db.books.reservations
  {
  }

  /** Exactly the evidence that settles a lease in doubt: final, referenced, affordable, and
      within the lease's window. */
  lemma ReconciledExactly(db: Db, p: Principal, r: Id, o: LeaseOutcome, now: int)
    requires Healthy(db) && r in db.leases && db.leases[r].state.Unknown?
    ensures r in db.requests && r in db.books.reservations
    ensures IsApplied(Reconcile(db, p, r, o, now)) <==>
      && Owner(db, p, r) && Affords(db, r, o)
      && db.leases[r].reconcileUntil.Some? && now <= db.leases[r].reconcileUntil.value
      && match o
         case Success(_, evidence) => evidence
         case CanceledUpstream(evidence) => evidence
         case Rejected(accepted) => !accepted
         case TransportUnknown => false
  {
    hide Healthy, SettleRows, RequestAfter, Agrees, JobFollows, Affords;
    HealthyCase(db, r);
    LeasedRows(db, r);
    if Evident(o) {
      RowsAreWrittenExactly(db, r, o, None);
      DoubtfulLeaseTakes(db, r, o);
    }
  }

  /** A finished lease takes no report, and a live one no reconciliation. */
  lemma OthersAreNotReported(db: Db, p: Principal, r: Id, o: LeaseOutcome, now: int)
    requires r in db.leases
    ensures db.leases[r].state.Live() ==> Reconcile(db, p, r, o, now).Err?
    ensures !db.leases[r].state.Live() ==> After(db, SettleLease(db, p, r, o, now, false)) == db
    ensures Finished(db, r) ==> After(db, Reconcile(db, p, r, o, now)) == db
  {
  }

  /** A charge above what is held, or below nothing, is refused by name, and the rest of the
      report with it. */
  lemma OverchargeIsRefused(db: Db, p: Principal, r: Id, c: int, evidence: bool, now: int)
    requires Healthy(db) && r in db.leases && db.leases[r].state.Live() && Owner(db, p, r)
    requires Possible(db, r, Success(Some(c), evidence))
    ensures r in db.books.reservations
    ensures c > db.books.reservations[r].amount ==>
      SettleLease(db, p, r, Success(Some(c), evidence), now, false) == Err(ActualAmountExceedsReservation)
    ensures c < 0 ==> SettleLease(db, p, r, Success(Some(c), evidence), now, false) == Err(InvalidQuotaAmount)
  {
    hide Healthy;
    HealthyCase(db, r);
    HealthyBooks(db);
    LeasedRows(db, r);
    assert Filed(db.books, r);
  }

  /** A lease that is not there, and one that is another's, are told apart. */
  lemma LeaseErrors(db: Db, p: Principal, r: Id, o: LeaseOutcome, now: int, ttl: int)
    requires r !in db.leases || !Owner(db, p, r)
    ensures var e := Err(if r in db.leases then InvalidRequestIdentity else LeaseNotFound);
      && CancelLease(db, p, r) == e && SettleLease(db, p, r, o, now, false) == e
      && (0 < ttl && now + ttl <= MAX_I64 ==> HeartbeatLease(db, p, r, now, ttl) == e)
  {
  }

  // ---------------------------------------------------------------- how long

  /** A report in doubt keeps the lease's own window, or opens one of ten minutes. */
  lemma DoubtKeepsWindow(db: Db, p: Principal, r: Id, o: LeaseOutcome, now: int)
    requires Healthy(db) && IsApplied(SettleLease(db, p, r, o, now, false)) && InDoubt(o)
    ensures r in db.leases && r in After(db, SettleLease(db, p, r, o, now, false)).leases
    ensures After(db, SettleLease(db, p, r, o, now, false)).leases[r].reconcileUntil
         == Some(if db.leases[r].reconcileUntil.Some? then db.leases[r].reconcileUntil.value else now + 600_000)
  {
    hide SettleRows, AllAgree;
    HealthyCase(db, r);
    SettledRows(db, r, o, UntilAfter(db.leases[r], o, now).value);
  }

  /** Recovery takes exactly the live leases that have run out, and each can be reconciled for
      ten minutes from then on. */
  lemma RecoveryOpensWindow(db: Db, now: int, p: Principal, r: Id, o: LeaseOutcome, later: int)
    requires Healthy(db) && RecoverExpired(db, now).Ok? && r in db.leases
    ensures var db' := After(db, RecoverExpired(db, now));
      && r in db'.leases
      && (db'.leases[r].state.Unknown? <==>
            db.leases[r].state.Unknown? || (db.leases[r].state.Live() && db.leases[r].expires <= now))
      && (db.leases[r].state.Live() && db.leases[r].expires <= now && Owner(db, p, r) && Evident(o)
          && r in db.books.reservations && Affords(db, r, o) ==>
            (IsApplied(Reconcile(db', p, r, o, later)) <==> later <= now + 600_000))
  {
    hide Reconcile, Healthy, Recovered;
    var db' := After(db, RecoverExpired(db, now));
    RecoveredHealthy(db, now);
    RecoveredLease(db, now, r);
    HealthyCase(db, r);
    if db'.leases[r].state.Unknown? { ReconciledExactly(db', p, r, o, later); }
    if r in db.requests && r in db.books.reservations { RecoveredRequest(db, now, r); }
  }

  lemma RecoveredHealthy(db: Db, now: int)
    requires Healthy(db)
    ensures Healthy(After(db, RecoverExpired(db, now)))
  {
    hide Healthy, RecoverExpired;
    StepKeepsHealthy(db, Recover(now));
  }

  lemma RecoveredLease(db: Db, now: int, r: Id)
    requires r in db.leases
    ensures r in Recovered(db, now).leases
    ensures Recovered(db, now).leases[r]
         == if db.leases[r].state.Live() && db.leases[r].expires <= now
            then db.leases[r].(state := LeaseState.Unknown, reconcileUntil := Some(now + 600_000)) else db.leases[r]
  {
  }

  lemma RecoveredRequest(db: Db, now: int, r: Id)
    requires r in db.requests && r in db.books.reservations
    ensures var db' := Recovered(db, now);
      && r in db'.requests && db'.requests[r] == db.requests[r].(state := db'.requests[r].state)
      && r in db'.books.reservations && db'.books.reservations[r].amount == db.books.reservations[r].amount
  {
  }

  /** A heartbeat puts off recovery by its ttl, to the moment. */
  lemma HeartbeatLasts(db: Db, p: Principal, r: Id, now: int, ttl: int)
    requires Healthy(db)
    ensures r in db.leases ==>
      (HeartbeatLease(db, p, r, now, ttl).Ok? <==> Owner(db, p, r) && 0 < ttl && now + ttl <= MAX_I64)
    ensures HeartbeatLease(db, p, r, now, ttl).Ok? ==>
      var db' := After(db, HeartbeatLease(db, p, r, now, ttl));
      && r in db.leases && r in db'.leases
      && (db.leases[r].state.Live() ==> db'.leases[r].state.Active? && forall t :: Expired(db', r, t) <==> now + ttl <= t)
      && (!db.leases[r].state.Live() ==> db' == db)
  {
  }

  // ------------------------------------------------------------ cancellation

  /** The owner of a live lease can always ask for its request to be canceled; nothing but
      the request's state shows it. */
  lemma CancelIsAsked(db: Db, p: Principal, r: Id)
    requires Healthy(db) && r in db.leases
    ensures r in db.requests
    ensures CancelLease(db, p, r).Ok? <==> Owner(db, p, r)
    ensures CancelLease(db, p, r).Ok? ==>
      After(db, CancelLease(db, p, r))
      == if db.leases[r].state.Live() then db.(requests := db.requests[r := db.requests[r].(state := RequestState.CancelRequested)])
         else db
  {
    HealthyCase(db, r);
    assert db.requests[r].state.CancelRequested? ==> db.requests[r := db.requests[r].(state := RequestState.CancelRequested)] == db.requests;
  }

  // -------------------------------------------------------- moving by hand

  /** transition_request compares and sets: it takes a legal edge from the very state it
      expects, and changes nothing else. */
  lemma MovesExactly(db: Db, r: Id, expected: RequestState, next: RequestState)
    ensures var t := Transition(db, r, expected, next);
      && (t.Ok? <==> r in db.requests && db.requests[r].state == expected && expected.CanTransitionTo(next))
      && (t.Ok? ==> t.value.0 == db.(requests := db.requests[r := db.requests[r].(state := next)]))
  {
  }

  /** So of several who expect the same state, the first to move wins. */
  lemma FirstMoverWins(db: Db, r: Id, expected: RequestState, next: RequestState, other: RequestState)
    requires Transition(db, r, expected, next).Ok?
    ensures Transition(After(db, Transition(db, r, expected, next)), r, expected, other) == Err(InvalidTransition)
  {
    EdgesLowerRank(expected, next, JobState.Created, JobState.Created);
  }

  // --------------------------------------------------------------- strangers

  /** Who is behind an operation on a request, where one is named. */
  predicate Personal(op: Op) {
    op.PlainSettle? || op.BeatLease? || op.AskCancel? || op.SettleUpstream? || op.ReconcileUpstream? || op.StartJob? || op.CancelJob?
  }

  /** No one but its owner moves a request, its lease or its job. */
  lemma StrangersAreRefused(db: Db, op: Op)
    requires Healthy(db) && Personal(op) && !Owner(db, op.p, op.id)
    ensures Step(db, op).Err?
  {
    hide Settle, SettleLease, HeartbeatLease, CancelLease, MarkRunning, CancelVideo, Healthy, Owner;
    match op
    case PlainSettle(p, r, s, goal) => StrangersSettleNothing(db, p, r, s, goal);
    case SettleUpstream(p, r, o, now) => StrangersReportNothing(db, p, r, o, now, false);
    case ReconcileUpstream(p, r, o, now) => StrangersReportNothing(db, p, r, o, now, true);
    case BeatLease(p, r, now, ttl) => StrangersHoldNothing(db, p, r, now, ttl);
    case AskCancel(p, r) => StrangersHoldNothing(db, p, r, 0, 0);
    case StartJob(p, r) => StrangersRunNothing(db, p, r);
    case CancelJob(p, r) => StrangersRunNothing(db, p, r);
  }

  lemma StrangersHoldNothing(db: Db, p: Principal, r: Id, now: int, ttl: int)
    requires !Owner(db, p, r)
    ensures HeartbeatLease(db, p, r, now, ttl).Err? && CancelLease(db, p, r).Err?
  {
  }

  lemma StrangersRunNothing(db: Db, p: Principal, r: Id)
    requires !Owner(db, p, r)
    ensures MarkRunning(db, p, r).Err? && CancelVideo(db, p, r).Err?
  {
  }

  lemma StrangersReportNothing(db: Db, p: Principal, r: Id, o: LeaseOutcome, now: int, allowUnknown: bool)
    requires !Owner(db, p, r)
    ensures SettleLease(db, p, r, o, now, allowUnknown).Err?
  {
  }

  lemma StrangersSettleNothing(db: Db, p: Principal, r: Id, s: Settlement, goal: Option<RequestState>)
    requires !Owner(db, p, r) && Healthy(db)
    ensures Settle(db, p, r, s, goal).Err?
  {
    hide Healthy;
    HealthyCase(db, r);
  }
}
