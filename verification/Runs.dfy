/**
 Arbitrary runs of the engine. A run is any list of operations, each a whole
 transaction; what every run keeps is proved here from what every step keeps.
 */
module Runs {
  import opened Basics
  import opened States
  import opened Books
  import opened Tables
  import opened Selection
  import opened Quota
  import opened Requests
  import opened Jobs
  import opened BillingOps
  import opened EventGroups
  import opened Coherence
  import opened CoherenceJobs
  import opened History

  datatype Op =
    | SetUser(user: Id, active: bool)
    | SetKey(key: Id, row: ApiKey)
    | SetUpstream(account: Id, upstream: Upstream)
    | GrantPool(user: Id, kind: Kind, amount: int)
    | GrantFromPool(key: Id, kind: Kind, amount: int)
    | GrantFromUpstream(key: Id, amount: int, snapshot: Snapshot, now: int)
    | GrantKey(key: Id, kind: Kind, amount: int)
    | BeginRequest(s: Submission, policy: Option<Kind>, needPolicy: bool, id: Id)
    | Preflight(s: Submission, id: Id, now: int)
    | PreflightLease(p: Principal, s: Submission, terms: Terms, policy: Option<Kind>, job: Option<Id>, id: Id, now: int)
    | Enqueue(p: Principal, s: Submission, terms: Terms, policy: Option<Kind>, jobId: Id, id: Id, now: int)
    | MoveRequest(id: Id, expected: RequestState, next: RequestState)
    | PlainSettle(p: Principal, id: Id, settlement: Settlement, goal: Option<RequestState>)
    | BeatLease(p: Principal, id: Id, now: int, ttl: int)
    | AskCancel(p: Principal, id: Id)
    | SettleUpstream(p: Principal, id: Id, outcome: LeaseOutcome, now: int)
    | ReconcileUpstream(p: Principal, id: Id, outcome: LeaseOutcome, now: int)
    | Recover(now: int)
    | ClaimHead(worker: Id, now: int)
    | ClaimOne(worker: Id, id: Id, now: int)
    | BeatJob(worker: Id, id: Id, now: int, ttl: int)
    | StartJob(p: Principal, id: Id)
    | CancelJob(p: Principal, id: Id)
    | QuoteCredits(id: Id, quote: Quote, against: Option<Snapshot>, now: int)
    | TakeReceipt(receipt: Receipt)
    | CheckGroups

  function SetSite(db: Db, site: Site): Transaction {
    Ok((db.(site := site), Done))
  }

  ghost function Step(db: Db, op: Op): Transaction {
    match op
    case SetUser(u, active) => SetSite(db, db.site.(users := if active then db.site.users + {u} else db.site.users - {u}))
    case SetKey(k, row) => SetSite(db, db.site.(keys := db.site.keys[k := row]))
    case SetUpstream(a, row) => SetSite(db, db.site.(upstream := db.site.upstream[a := row]))
    case GrantPool(u, kind, amount) => PoolGrant(db, u, kind, amount)
    case GrantFromPool(k, kind, amount) => AllocateFromPool(db, k, kind, amount)
    case GrantFromUpstream(k, amount, s, now) => AllocateFromUpstream(db, k, amount, s, now)
    case GrantKey(k, kind, amount) => KeyGrant(db, k, kind, amount)
    case BeginRequest(s, policy, need, r) => Begin(db, s, policy, need, r)
    case Preflight(s, r, now) => PreflightReserve(db, s, r, now)
    case PreflightLease(p, s, t, policy, job, r, now) => PreflightWithLease(db, p, s, t, policy, job, r, now)
    case Enqueue(p, s, t, policy, job, r, now) => EnqueueVideo(db, p, s, t, policy, job, r, now)
    case MoveRequest(r, expected, next) => Transition(db, r, expected, next)
    case PlainSettle(p, r, s, goal) => Settle(db, p, r, s, goal)
    case BeatLease(p, r, now, ttl) => HeartbeatLease(db, p, r, now, ttl)
    case AskCancel(p, r) => CancelLease(db, p, r)
    case SettleUpstream(p, r, o, now) => SettleLease(db, p, r, o, now, false)
    case ReconcileUpstream(p, r, o, now) => Reconcile(db, p, r, o, now)
    case Recover(now) => RecoverExpired(db, now)
    case ClaimHead(w, now) => ClaimNext(db, w, now)
    case ClaimOne(w, r, now) => ClaimById(db, r, w, now)
    case BeatJob(w, r, now, ttl) => HeartbeatJob(db, w, r, now, ttl)
    case StartJob(p, r) => MarkRunning(db, p, r)
    case CancelJob(p, r) => CancelVideo(db, p, r)
    case QuoteCredits(r, q, s, now) => ReserveQuote(db, r, q, s, now)
    case TakeReceipt(x) => ApplyReceipt(db, x)
    case CheckGroups => Ok((db.(books := Quarantine(db.books, Suspects(db.books))), Done))
  }

  /** What the callers of the public entry points undertake: manual transitions only
      move forward up to Completing, and a reservation behind a lease or a job is
      settled through its lease. Upstream accounts keep their concurrency, Keys their user. */
  predicate Admissible(db: Db, op: Op) {
    match op
    case MoveRequest(_, expected, next) => Forward(expected, next)
    case PlainSettle(_, r, _, _) => r !in db.leases && r !in db.jobs
    case SetUpstream(a, row) =>
      row.maxConcurrency > 0 && (a in db.site.upstream ==> row.maxConcurrency == db.site.upstream[a].maxConcurrency)
    case SetKey(k, row) => k in db.site.keys ==> row.user == db.site.keys[k].user
    case _ => true
  }

  ghost function Next(db: Db, op: Op): Db { After(db, Step(db, op)) }

  ghost function Run(db: Db, ops: seq<Op>): Db
    decreases |ops|
  {
    if ops == [] then db else Run(Next(db, ops[0]), ops[1..])
  }

  ghost predicate Legal(db: Db, ops: seq<Op>)
    decreases |ops|
  {
    ops == [] || (Admissible(db, ops[0]) && Legal(Next(db, ops[0]), ops[1..]))
  }

  // ------------------------------------------------------------ joining runs

  lemma {:induction false} RunsJoin(db: Db, first: seq<Op>, rest: seq<Op>)
    ensures Run(db, first + rest) == Run(Run(db, first), rest)
    ensures Legal(db, first + rest) <==> Legal(db, first) && Legal(Run(db, first), rest)
    decreases |first|
  {
    if first == [] {
      assert first + rest == rest;
    } else {
      assert (first + rest)[1..] == first[1..] + rest;
      RunsJoin(Next(db, first[0]), first[1..], rest);
    }
  }

  lemma RunOfTwo(db: Db, ops: seq<Op>)
    requires |ops| == 2
    ensures Run(db, ops) == Next(Next(db, ops[0]), ops[1])
    ensures Legal(db, ops) <==> Admissible(db, ops[0]) && Admissible(Next(db, ops[0]), ops[1])
  {
    var rest := ops[1..];
    assert rest[1..] == [];
    assert Run(Next(db, ops[0]), rest) == Run(Next(Next(db, ops[0]), rest[0]), []);
    assert Legal(Next(Next(db, ops[0]), rest[0]), []);
  }

  lemma RunOfThree(db: Db, ops: seq<Op>)
    requires |ops| == 3
    ensures Run(db, ops) == Next(Next(Next(db, ops[0]), ops[1]), ops[2])
    ensures Legal(db, ops) <==>
      Admissible(db, ops[0]) && Admissible(Next(db, ops[0]), ops[1]) && Admissible(Next(Next(db, ops[0]), ops[1]), ops[2])
  {
    RunOfTwo(Next(db, ops[0]), ops[1..]);
  }

  // ------------------------------------------------------------- agreement

  lemma SiteKeepsAgreement(db: Db, site: Site)
    requires AllAgree(db)
    ensures AllAgree(db.(site := site)) && Advances(db, db.(site := site))
  {
    OthersAgreeAll(db, db.(site := site));
    OthersAdvance(db, db.(site := site), 0);
  }

  lemma OthersAgreeAll(db: Db, db': Db)
    requires AllAgree(db) && db'.requests == db.requests && db'.books.reservations == db.books.reservations
    requires db'.leases == db.leases && db'.jobs == db.jobs && db'.attempts == db.attempts && db'.billing == db.billing
    ensures AllAgree(db')
  {
    assert Agrees(CaseOf(db, 0)) && Tied(db, 0);
    OthersAgree(db, db', 0);
  }

  lemma BooksKeepAgreement(db: Db, books: Books)
    requires AllAgree(db) && books.reservations == db.books.reservations && db.books.ledger <= books.ledger
    ensures AllAgree(db.(books := books)) && Advances(db, db.(books := books))
  {
    OthersAgreeAll(db, db.(books := books));
    OthersAdvance(db, db.(books := books), 0);
  }

  /** Operations that hand out quota. */
  predicate Grants(op: Op) {
    op.GrantPool? || op.GrantFromPool? || op.GrantFromUpstream? || op.GrantKey?
  }

  predicate SiteOp(op: Op) { op.SetUser? || op.SetKey? || op.SetUpstream? }

  predicate SubmissionOp(op: Op) { op.BeginRequest? || op.Preflight? || op.PreflightLease? || op.Enqueue? }

  predicate LeaseOp(op: Op) {
    op.MoveRequest? || op.PlainSettle? || op.BeatLease? || op.AskCancel? || op.SettleUpstream? || op.ReconcileUpstream? || op.Recover?
  }

  predicate JobOp(op: Op) { op.ClaimHead? || op.ClaimOne? || op.BeatJob? || op.StartJob? || op.CancelJob? }

  predicate BillingOp(op: Op) { op.QuoteCredits? || op.TakeReceipt? || op.CheckGroups? }

  lemma SiteOrGrantKeepsAgreement(db: Db, op: Op)
    requires AllAgree(db) && (SiteOp(op) || Grants(op))
    ensures AllAgree(Next(db, op)) && Advances(db, Next(db, op))
  {
    if SiteOp(op) { SiteKeepsAgreement(db, Next(db, op).site); } else { BooksKeepAgreement(db, Next(db, op).books); }
  }

  lemma SubmissionKeepsAgreement(db: Db, op: Op)
    requires AllAgree(db) && SubmissionOp(op)
    ensures AllAgree(Next(db, op)) && Advances(db, Next(db, op))
  {
    match op
    case BeginRequest(s, policy, need, r) => BeginKeepsAgreement(db, s, policy, need, r); BeginAdvances(db, s, policy, need, r);
    case Preflight(s, r, now) => PreflightKeepsAgreement(db, s, r, now); PreflightAdvances(db, s, r, now);
    case PreflightLease(p, s, t, policy, job, r, now) =>
      PreflightLeaseKeepsAgreement(db, p, s, t, policy, job, r, now);
      PreflightLeaseAdvances(db, p, s, t, policy, job, r, now);
    case Enqueue(p, s, t, policy, job, r, now) =>
      EnqueueKeepsAgreement(db, p, s, t, policy, job, r, now);
      EnqueueAdvances(db, p, s, t, policy, job, r, now);
  }

  lemma LeaseOpKeepsAgreement(db: Db, op: Op)
    requires AllAgree(db) && LeaseOp(op) && Admissible(db, op)
    ensures AllAgree(Next(db, op)) && Advances(db, Next(db, op))
  {
    match op
    case MoveRequest(r, expected, next) => TransitionKeepsAgreement(db, r, expected, next); TransitionAdvances(db, r, expected, next);
    case PlainSettle(p, r, s, goal) => SettleKeepsAgreement(db, p, r, s, goal); SettleAdvances(db, p, r, s, goal);
    case BeatLease(p, r, now, ttl) => HeartbeatLeaseKeepsAgreement(db, p, r, now, ttl); HeartbeatLeaseAdvances(db, p, r, now, ttl);
    case AskCancel(p, r) => CancelLeaseKeepsAgreement(db, p, r); CancelLeaseAdvances(db, p, r);
    case SettleUpstream(p, r, o, now) => SettleLeaseKeepsAgreement(db, p, r, o, now, false); SettleLeaseAdvances(db, p, r, o, now, false);
    case ReconcileUpstream(p, r, o, now) =>
      if Evident(o) { SettleLeaseKeepsAgreement(db, p, r, o, now, true); SettleLeaseAdvances(db, p, r, o, now, true); } else { Stays(db); }
    case Recover(now) => RecoveryKeepsAgreement(db, now); RecoveryAdvances(db, now);
  }

  lemma ClaimsAdvance(db: Db, r: Id, worker: Id, now: int)
    ensures Advances(db, After(db, ClaimNext(db, worker, now)))
    ensures Advances(db, After(db, ClaimById(db, r, worker, now)))
  {
    Stays(db);
    if Pick(db).Some? { ClaimAdvances(db, Pick(db).value, worker, now); }
    if Waiting(db, r) { ClaimAdvances(db, r, worker, now); }
  }

  lemma JobOpKeepsAgreement(db: Db, op: Op)
    requires AllAgree(db) && JobOp(op)
    ensures AllAgree(Next(db, op)) && Advances(db, Next(db, op))
  {
    hide AllAgree, Advances, ClaimNext, ClaimById, HeartbeatJob, MarkRunning, CancelVideo;
    match op
    case ClaimHead(w, now) => ClaimsKeepAgreement(db, 0, w, now); ClaimsAdvance(db, 0, w, now);
    case ClaimOne(w, r, now) => ClaimsKeepAgreement(db, r, w, now); ClaimsAdvance(db, r, w, now);
    case BeatJob(w, r, now, ttl) => HeartbeatJobKeepsAgreement(db, w, r, now, ttl); HeartbeatJobAdvances(db, w, r, now, ttl);
    case StartJob(p, r) => MarkRunningKeepsAgreement(db, p, r); MarkRunningAdvances(db, p, r);
    case CancelJob(p, r) => CancelVideoKeepsAgreement(db, p, r); CancelVideoAdvances(db, p, r);
  }

  lemma BillingOpKeepsAgreement(db: Db, op: Op)
    requires AllAgree(db) && BillingOp(op)
    ensures AllAgree(Next(db, op)) && Advances(db, Next(db, op))
  {
    match op
    case QuoteCredits(r, q, s, now) => QuoteKeepsAgreement(db, r, q, s, now); QuoteAdvances(db, r, q, s, now);
    case TakeReceipt(x) => ReceiptKeepsAgreement(db, x); ReceiptAdvances(db, x);
    case CheckGroups => BooksKeepAgreement(db, Next(db, op).books);
  }

  lemma StepKeepsAgreement(db: Db, op: Op)
    requires AllAgree(db) && Admissible(db, op)
    ensures AllAgree(Next(db, op)) && Advances(db, Next(db, op))
  {
    if SiteOp(op) || Grants(op) { SiteOrGrantKeepsAgreement(db, op); }
    else if SubmissionOp(op) { SubmissionKeepsAgreement(db, op); }
    else if LeaseOp(op) { LeaseOpKeepsAgreement(db, op); }
    else if JobOp(op) { JobOpKeepsAgreement(db, op); }
    else { BillingOpKeepsAgreement(db, op); }
  }

  // -------------------------------------------------- how the books move

  /** m is what turns the books of db into those of db'. */
  ghost predicate MovesBy(db: Db, db': Db, m: Move) {
    Allowed(db.books, m) && db'.books == Apply(db.books, m)
  }

  predicate Open(b: Books, a: AccountId) {
    a in b.accounts && b.accounts[a].enabled && b.accounts[a].migration.Ready?
  }

  lemma ReserveMoves(b: Books, r: Id, user: Id, key: Id, kind: Kind, amount: int) returns (m: Move)
    requires amount > 0
    requires ReserveDual(b, r, user, key, kind, amount).Ok? && ReserveDual(b, r, user, key, kind, amount).value.Placed?
    ensures Allowed(b, m) && m.PlaceRow? && m.request == r && m.row.amount == amount
    ensures m.row.user == user && m.row.key == key && Open(b, m.row.keyAccount)
    ensures m.row.cap.Some? ==> Open(b, m.row.cap.value)
    ensures ReserveDual(b, r, user, key, kind, amount).value.books == Apply(b, m)
  {
    var a, c := KeyOf(user, key, kind), CapOf(user, kind);
    m := PlaceRow(r, Reservation(user, key, kind, amount, ReservationState.Held, a, if c in b.accounts then Some(c) else None));
  }

  /** Holds are placed by active Keys, on enabled accounts that await no reconciliation. */
  predicate PlacedByActiveKey(db: Db, m: Move)
    requires m.PlaceRow?
  {
    && db.KeyActive(m.row.user, m.row.key)
    && Open(db.books, m.row.keyAccount) && (m.row.cap.Some? ==> Open(db.books, m.row.cap.value))
  }

  /** The charge is the one this receipt asks for. */
  predicate ChargedByReceipt(db: Db, op: Op, m: Move)
    requires m.ChargeRow?
  {
    && op.TakeReceipt? && m.request == op.receipt.request && m.request in db.billing.quotes
    && Decisive(op.receipt) && m.actual == ChargeOf(op.receipt)
  }

  lemma SettlementMoves(b: Books, r: Id, s: Settlement) returns (m: Move)
    requires r in b.reservations && b.reservations[r].Holds() && ApplySettlement(b, r, s).Ok?
    ensures Allowed(b, m) && ApplySettlement(b, r, s).value == Apply(b, m) && !m.GrantTo? && !m.PlaceRow?
    ensures m.ChargeRow? ==> m.actual <= b.reservations[m.request].amount
  {
    match s
    case Released => m := FreeRow(r);
    case Charged(Some(actual)) => m := ChargeRow(r, actual);
    case _ => m := SuspendRows({r});
  }

  lemma SettleLeaseMoves(db: Db, p: Principal, r: Id, o: LeaseOutcome, now: int, allowUnknown: bool) returns (m: Move)
    requires AllAgree(db) && (allowUnknown ==> Evident(o))
    ensures MovesBy(db, After(db, SettleLease(db, p, r, o, now, allowUnknown)), m) && !m.GrantTo? && !m.PlaceRow?
    ensures m.ChargeRow? ==> m.actual <= db.books.reservations[m.request].amount
  {
    var tx := SettleLease(db, p, r, o, now, allowUnknown);
    m := Stay;
    if tx.Ok? && (db.leases[r].state.Live() || (allowUnknown && db.leases[r].state.Unknown?)) {
      assert Agrees(CaseOf(db, r)) && Tied(db, r);
      SettledRows(db, r, o, UntilAfter(db.leases[r], o, now).value);
      m := SettlementMoves(db.books, r, SettlementFor(o));
    }
  }

  lemma RecoveryMoves(db: Db, now: int) returns (m: Move)
    requires AllAgree(db)
    ensures MovesBy(db, After(db, RecoverExpired(db, now)), m) && (m.Stay? || m.SuspendRows?)
  {
    m := Stay;
    if RecoverExpired(db, now).Ok? {
      m := SuspendRows(ExpiredLeases(db, now));
      forall r | r in ExpiredLeases(db, now) ensures r in db.books.reservations && db.books.reservations[r].Holds() {
        assert Agrees(CaseOf(db, r)) && Tied(db, r);
      }
    }
  }

  lemma ReceiptMoves(db: Db, x: Receipt) returns (m: Move)
    requires AllAgree(db)
    ensures MovesBy(db, After(db, ApplyReceipt(db, x)), m) && !m.GrantTo? && !m.PlaceRow?
    ensures m.ChargeRow? ==> ChargedByReceipt(db, TakeReceipt(x), m)
  {
    var tx, r := ApplyReceipt(db, x), x.request;
    m := Stay;
    if tx.Ok? && x !in db.billing.receipts && r !in db.billing.settlements {
      if Decisive(x) {
        m := ChargeRow(r, ChargeOf(x));
      } else if db.books.reservations[r].state.Held? {
        m := SuspendRows({r});
      }
    }
  }

  lemma CancelVideoMoves(db: Db, p: Principal, r: Id) returns (m: Move)
    ensures MovesBy(db, After(db, CancelVideo(db, p, r)), m) && (m.Stay? || m.FreeRow?)
  {
    var tx := CancelVideo(db, p, r);
    m := Stay;
    if tx.Ok? && (db.jobs[r].state.Queued? || db.jobs[r].state.Running? || db.jobs[r].state.Created?)
       && r !in db.attempts && db.books.reservations[r].state.Held? {
      m := FreeRow(r);
    }
  }

  /** The account a grant goes to. */
  function ReceiverOf(db: Db, op: Op): AccountId
    requires Grants(op)
  {
    if op.GrantPool? then CapOf(op.user, op.kind)
    else
      var owner := if op.key in db.site.keys then db.site.keys[op.key].user else 0;
      KeyOf(owner, op.key, if op.GrantFromUpstream? then Credits else op.kind)
  }

  lemma GrantMoves(db: Db, op: Op) returns (m: Move)
    requires Grants(op)
    ensures MovesBy(db, Next(db, op), m)
    ensures m == if Step(db, op).Ok? then GrantTo(ReceiverOf(db, op), op.amount) else Stay
  {
    m := if Step(db, op).Ok? then GrantTo(ReceiverOf(db, op), op.amount) else Stay;
  }

  /** The books of a request that is entered with its hold. */
  lemma EntryMoves(db: Db, s: Submission, r: Id, state: RequestState) returns (m: Move)
    requires EnterReserved(db, s, r, state).Ok? && s.amount > 0 && db.KeyActive(s.user, s.key)
    ensures Allowed(db.books, m) && EnterReserved(db, s, r, state).value.books == Apply(db.books, m)
    ensures m.PlaceRow? && PlacedByActiveKey(db, m)
  {
    m := ReserveMoves(db.books, r, s.user, s.key, s.kind, s.amount);
  }

  lemma PreflightMoves(db: Db, s: Submission, r: Id, now: int) returns (m: Move)
    ensures MovesBy(db, After(db, PreflightReserve(db, s, r, now)), m) && (m.Stay? || (m.PlaceRow? && PlacedByActiveKey(db, m)))
  {
    hide EnterReserved;
    m := Stay;
    if After(db, PreflightReserve(db, s, r, now)) != db { m := EntryMoves(db, s, r, RequestState.Reserved); }
  }

  lemma LeaseEntranceMoves(db: Db, p: Principal, s: Submission, t: Terms, policy: Option<Kind>, job: Option<Id>, r: Id, now: int)
    returns (m: Move)
    ensures MovesBy(db, After(db, PreflightWithLease(db, p, s, t, policy, job, r, now)), m)
    ensures m.Stay? || (m.PlaceRow? && PlacedByActiveKey(db, m))
  {
    hide EnterReserved, AcquireLease;
    m := Stay;
    if PreflightWithLease(db, p, s, t, policy, job, r, now).Ok? && s.Idem() !in db.idem {
      LeasedShape(db, p, s, t, policy, job, r, now);
      m := EntryMoves(db, s, r, if job.Some? then RequestState.Queued else RequestState.Reserved);
    }
  }

  lemma EnqueueMoves(db: Db, p: Principal, s: Submission, t: Terms, policy: Option<Kind>, job: Id, r: Id, now: int)
    returns (m: Move)
    ensures MovesBy(db, After(db, EnqueueVideo(db, p, s, t, policy, job, r, now)), m)
    ensures m.Stay? || (m.PlaceRow? && PlacedByActiveKey(db, m))
  {
    hide EnterReserved, QueueJob;
    m := Stay;
    if EnqueueVideo(db, p, s, t, policy, job, r, now).Ok? && s.Idem() !in db.idem {
      EnqueuedShape(db, p, s, t, policy, job, r, now);
      m := EntryMoves(db, s, r, RequestState.Queued);
    }
  }

  lemma SubmissionMoves(db: Db, op: Op) returns (m: Move)
    requires SubmissionOp(op)
    ensures MovesBy(db, Next(db, op), m) && (m.Stay? || (m.PlaceRow? && PlacedByActiveKey(db, m)))
  {
    hide PreflightReserve, PreflightWithLease, EnqueueVideo;
    m := Stay;
    match op
    case BeginRequest(_, _, _, _) =>
    case Preflight(s, r, now) => m := PreflightMoves(db, s, r, now);
    case PreflightLease(p, s, t, policy, job, r, now) => m := LeaseEntranceMoves(db, p, s, t, policy, job, r, now);
    case Enqueue(p, s, t, policy, job, r, now) => m := EnqueueMoves(db, p, s, t, policy, job, r, now);
  }

  lemma LeaseOpMoves(db: Db, op: Op) returns (m: Move)
    requires AllAgree(db) && LeaseOp(op)
    ensures MovesBy(db, Next(db, op), m) && !m.GrantTo? && !m.PlaceRow?
    ensures m.ChargeRow? ==> m.actual <= db.books.reservations[m.request].amount
  {
    m := Stay;
    match op
    case PlainSettle(p, r, s, goal) =>
      if Step(db, op).Ok? && db.books.reservations[r].state.Held? {
        SettleShape(db, p, r, s, goal);
        m := SettlementMoves(db.books, r, s);
      }
    case SettleUpstream(p, r, o, now) => m := SettleLeaseMoves(db, p, r, o, now, false);
    case ReconcileUpstream(p, r, o, now) => if Evident(o) { m := SettleLeaseMoves(db, p, r, o, now, true); }
    case Recover(now) => m := RecoveryMoves(db, now);
    case _ =>
  }

  lemma ClaimLeavesBooks(db: Db, r: Id, worker: Id, now: int)
    requires r in db.jobs
    ensures After(db, Claim(db, r, worker, now)).books == db.books
  {
    hide Select;
  }

  lemma JobOpLeavesBooks(db: Db, op: Op)
    requires JobOp(op) && !op.CancelJob?
    ensures Next(db, op).books == db.books
  {
    hide Claim;
    if op.ClaimHead? && Pick(db).Some? { ClaimLeavesBooks(db, Pick(db).value, op.worker, op.now); }
    if op.ClaimOne? && Waiting(db, op.id) { ClaimLeavesBooks(db, op.id, op.worker, op.now); }
  }

  lemma JobOpMoves(db: Db, op: Op) returns (m: Move)
    requires JobOp(op)
    ensures MovesBy(db, Next(db, op), m) && (m.Stay? || m.FreeRow?)
  {
    hide CancelVideo, ClaimNext, ClaimById, HeartbeatJob, MarkRunning;
    m := Stay;
    if op.CancelJob? { m := CancelVideoMoves(db, op.p, op.id); } else { JobOpLeavesBooks(db, op); }
  }

  lemma BillingOpMoves(db: Db, op: Op) returns (m: Move)
    requires AllAgree(db) && BillingOp(op)
    ensures MovesBy(db, Next(db, op), m) && !m.GrantTo?
    ensures m.ChargeRow? ==> ChargedByReceipt(db, op, m)
    ensures m.PlaceRow? ==> PlacedByActiveKey(db, m)
  {
    m := Stay;
    match op
    case QuoteCredits(r, q, s, now) =>
      if Step(db, op).Ok? && r !in db.billing.quotes {
        QuoteShape(db, r, q, s, now);
        m := ReserveMoves(db.books, r, db.requests[r].user, db.requests[r].key, Credits, q.max);
      }
    case TakeReceipt(x) => m := ReceiptMoves(db, x);
    case CheckGroups => m := QuarantineAccounts(Suspects(db.books));
  }

  /** Every operation changes the books by one allowed move; only grants hand out quota,
      and only a receipt can charge more than was reserved. */
  lemma StepMoves(db: Db, op: Op) returns (m: Move)
    requires AllAgree(db) && Admissible(db, op)
    ensures MovesBy(db, Next(db, op), m)
    ensures m.GrantTo? ==> Grants(op) && m == GrantTo(ReceiverOf(db, op), op.amount)
    ensures m.PlaceRow? ==> PlacedByActiveKey(db, m)
    ensures m.ChargeRow? ==> m.actual <= db.books.reservations[m.request].amount || ChargedByReceipt(db, op, m)
  {
    if Grants(op) { m := GrantMoves(db, op); }
    else if SiteOp(op) { m := Stay; }
    else if SubmissionOp(op) { m := SubmissionMoves(db, op); }
    else if LeaseOp(op) { m := LeaseOpMoves(db, op); }
    else if JobOp(op) { m := JobOpMoves(db, op); }
    else { m := BillingOpMoves(db, op); }
  }
}
