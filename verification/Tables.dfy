/** The Core store's tables as values, and the inputs, replies and errors of its operations. */
module Tables {
  import opened Basics
  import opened States
  import opened Books

  // ------------------------------------------------------------------- rows

  datatype ApiKey = ApiKey(user: Id, active: bool, maxConcurrency: int)

  /** A requests row. `content` is the canonical hash of endpoint, model and body. */
  datatype Request = Request(
    user: Id, key: Id, endpoint: Id, model: Id, content: Id, state: RequestState)

  datatype IdemKey = IdemKey(user: Id, key: Id, endpoint: Id, clientKey: Id)
  datatype IdemRow = IdemRow(content: Id, request: Id)

  datatype Observation = Observation(
    units: Option<int>, scale: int, fromReader: bool, markedFresh: bool, observedAt: int, staleAt: int)

  /** An upstream account with its newest observation of each resource kind. */
  datatype Upstream = Upstream(
    provider: Id, region: Option<Id>, capabilities: set<Id>, enabled: bool, available: bool,
    cooldownUntil: Option<int>, maxConcurrency: int, newest: map<Kind, Observation>)

  datatype Strategy = HighestNormalizedAvailable | LeastActiveSlots

  /** The scheduling constraints of a SchedulerLeaseRequest. */
  datatype Terms = Terms(
    provider: Option<Id>, region: Option<Id>, capabilities: set<Id>,
    allowed: Option<set<Id>>, dedicated: Option<Id>, strategy: Strategy,
    predicted: int, margin: int, maxAge: int, leaseTtl: int, reconcileTtl: int)

  /** An upstream_leases row. UNIQUE(request_id, resource_kind) and the one kind a
      request's reservation has make the request its key. */
  datatype Lease = Lease(
    account: Id, kind: Kind, state: LeaseState, expires: int, reconcileUntil: Option<int>)

  /** A jobs row; request_id is UNIQUE. `terms` are the queue_* columns. */
  datatype Job = Job(
    id: Id, user: Id, state: JobState, createdAt: int,
    owner: Option<Id>, claimExpires: Option<int>, terms: Option<Terms>)

  /** A job_attempts row; attempt_no is always 1 and lease_id is UNIQUE. */
  datatype Attempt = Attempt(account: Id, state: AttemptState)

  datatype Quote = Quote(
    id: Id, fingerprint: Option<Id>, endpoint: Id, model: Id, max: int,
    credits: bool, named: bool, source: Id, expires: int)

  datatype ReceiptStatus = Final | FailedNoCharge | Pending | Unknown | Unverified
  datatype Receipt = Receipt(
    request: Id, status: ReceiptStatus, actual: Option<nat>, credits: bool,
    named: bool, source: Id, task: Option<Id>, observedAt: int)
  datatype StoredStatus = Observed(status: ReceiptStatus) | Conflicting

  datatype BillingSettlement = BillingSettlement(actual: nat, overQuote: bool, reconcile: bool)

  datatype BlockReason = OverQuote | ReceiptConflict
  datatype Block = Block(request: Id, reason: BlockReason, max: int, actual: int, excess: int)

  // ------------------------------------------------------------------ store

  datatype Site = Site(users: set<Id>, keys: map<Id, ApiKey>, upstream: map<Id, Upstream>)

  /** `receipts` is keyed by the receipt: UNIQUE(request_id, receipt_hash). */
  datatype Billing = Billing(
    quotes: map<Id, Quote>, receipts: map<Receipt, StoredStatus>,
    settlements: map<Id, BillingSettlement>, blocks: map<Id, Block>)

  datatype Db = Db(
    site: Site, books: Books, requests: map<Id, Request>, idem: map<IdemKey, IdemRow>,
    leases: map<Id, Lease>, jobs: map<Id, Job>, attempts: map<Id, Attempt>,
    cursor: Option<Id>, billing: Billing)
  {
    function SetState(r: Id, state: RequestState): Db
      requires r in requests
    {
      this.(requests := requests[r := requests[r].(state := state)])
    }

    predicate KeyActive(p: Id, k: Id) { k in site.keys && site.keys[k].user == p && site.keys[k].active }
  }

  const EmptyDb := Db(Site({}, map[], map[]), NoBooks, map[], map[], map[], map[], map[], None,
                      Billing(map[], map[], map[], map[]))

  // ------------------------------------------------------- inputs and replies

  /** An authenticated caller; a scope is named by the endpoint it opens. */
  datatype Principal = Principal(user: Id, key: Id, scopes: set<Id>)

  const VIDEOS: Id := 0

  datatype Submission = Submission(
    user: Id, key: Id, endpoint: Id, model: Id, clientKey: Id, content: Id,
    kind: Kind, amount: int, ttl: int)
  {
    function Idem(): IdemKey { IdemKey(user, key, endpoint, clientKey) }
  }

  /** What the upstream is known to have done. `evidence` is a nonblank upstream reference. */
  datatype LeaseOutcome =
    | Success(actual: Option<int>, evidence: bool)
    | Rejected(accepted: bool)
    | TransportUnknown
    | CanceledUpstream(evidence: bool)

  datatype Settlement = Charged(actual: Option<int>) | Released | Undecided

  datatype Error =
    | InvalidQuotaAmount | InvalidRequestIdentity | MissingScope | IdempotencyConflict
    | NoFreshObservation | NoUpstreamCapacity | CapabilityMismatch | AccountCooling
    | LeaseNotFound | RequestNotFound | ReservationNotFound | ReservationRequestConflict
    | ReservationSettlementConflict | ReservationOwnerMismatch | ActualAmountExceedsReservation
    | KeyQuotaNotConfigured | QuotaMigrationPending | BudgetAccountDisabled
    | QuotaInsufficient(available: int, required: int)
    | QuotaPoolNotConfigured | QuotaPoolInsufficient(available: int, required: int)
    | UpstreamCreditsUnavailable | UpstreamCommitmentsExceedBalance
    | UpstreamCreditLimitExceeded(available: int, required: int)
    | KeyConcurrencyExceeded | InvalidTransition | InvalidConfiguration | BudgetPolicyMissing
    | BillingQuoteMismatch | BillingQuoteExpired | BillingQuoteConflict | ApiKeyBillingBlocked
    | BillingReceiptInvalid | RowExists | UserNotActive | ApiKeyNotFound | Validation

  datatype Reply =
    | Done
    | Remaining(credits: int)
    | Created(request: Id)
    | Existing(request: Id)
    | Conflict
    | Insufficient(available: int, required: int)
    | Applied(applied: bool)
    | Claimed(claim: Option<Id>)
    | ReceiptSettled(actual: nat, over: bool)
    | ReceiptPending
    | ReceiptDuplicate

  /** An operation's result: a committed transaction, or an error that rolled it back. */
  datatype Result<+T> = Ok(value: T) | Err(error: Error)
  {
    predicate IsFailure() { Err? }
    function PropagateFailure<U>(): Result<U> requires Err? { Err(error) }
    function Extract(): T requires Ok? { value }
  }

  datatype Check = Pass | Fail(error: Error)
  {
    predicate IsFailure() { Fail? }
    function PropagateFailure<U>(): Result<U> requires Fail? { Err(error) }
  }

  function Need(condition: bool, error: Error): Check {
    if condition then Pass else Fail(error)
  }

  /** i64 checked addition of a time and a span. */
  predicate Fits(x: int) { x <= MAX_I64 }

  type Transaction = Result<(Db, Reply)>

  /** What the caller of an operation sees. */
  function Answer(t: Transaction): Result<Reply> {
    match t
    case Ok(pair) => Ok(pair.1)
    case Err(e) => Err(e)
  }

  /** The store after an operation: unchanged when it failed. */
  function After(db: Db, t: Transaction): Db {
    match t
    case Ok(pair) => pair.0
    case Err(_) => db
  }
}
