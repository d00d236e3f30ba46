/**
 The Core store as the object it is: its tables are fields, and each operation reads and
 writes them row by row, in the order of the source, undoing everything when it fails.
 Every method is tied to the atomic step that specifies it.
 */
module Store {
  import opened Basics
  import opened States
  import opened Books
  import opened Tables
  import opened Selection
  import opened Quota
  import opened Requests
  import opened Jobs
  import opened BillingOps
  import opened EventGroups
  import opened Coherence
  import opened Runs
  import opened Theorems

  /** The operation turned `was` into `now` and answered `reply`, as the step t says. */
  ghost predicate Did(was: Db, t: Transaction, now: Db, reply: Result<Reply>) {
    now == After(was, t) && reply == Answer(t)
  }

  /** So every method keeps what every operation of a run keeps. */
  lemma MethodsKeepHealthy(was: Db, op: Op, now: Db, reply: Result<Reply>)
    requires Healthy(was) && Admissible(was, op) && Did(was, Step(was, op), now, reply)
    ensures Healthy(now) && (reply.Err? ==> now == was)
  {
    StepKeepsHealthy(was, op);
  }

  /** The same short of the rollback: after an error the tables may be half written. */
  ghost predicate Drafted(was: Db, t: Transaction, now: Db, reply: Result<Reply>) {
    now.site == was.site && reply == Answer(t) && (t.Ok? ==> now == t.value.0)
  }

  /** The error of a step, if it has one. */
  function Refusal<T>(r: Result<T>): Check {
    if r.Ok? then Pass else Fail(r.error)
  }

  class CoreStore {
    var site: Site
    var books: Books
    var requests: map<Id, Request>
    var idem: map<IdemKey, IdemRow>
    var leases: map<Id, Lease>
    var jobs: map<Id, Job>
    var attempts: map<Id, Attempt>
    var cursor: Option<Id>
    var billing: Billing

    constructor ()
      ensures State() == EmptyDb
    {
      site, books, billing := EmptyDb.site, NoBooks, EmptyDb.billing;
      requests, idem, leases, jobs, attempts, cursor := map[], map[], map[], map[], map[], None;
    }

    function State(): Db
      reads this
    {
      Db(site, books, requests, idem, leases, jobs, attempts, cursor, billing)
    }

    /** Dropping a transaction that was not committed. */
    method Rollback(was: Db)
      modifies this
      ensures State() == was
    {
      site := was.site;
      books := was.books;
      billing := was.billing;
      requests := was.requests;
      idem := was.idem;
      leases := was.leases;
      jobs := was.jobs;
      attempts := was.attempts;
      cursor := was.cursor;
    }

    // --------------------------------------------------------------- balances

    method HeldBalance(a: AccountId) returns (held: int)
      ensures held == HeldOn(books, a)
    {
      held := 0;
      var rest := books.reservations;
      while rest != map[]
        invariant held + HeldTotal(rest, a) == HeldTotal(books.reservations, a)
        decreases |rest|
      {
        var r :| r in rest;
        HeldSplit(rest, a, r);
        held := held + HoldOf(rest[r], a);
        rest := rest - {r};
      }
    }

    /** budget_balance_in_transaction: every figure is summed afresh from the rows. */
    method BudgetBalance(a: AccountId) returns (available: int, held: int, settled: int)
      ensures available == Available(books, a)
      ensures held == HeldOn(books, a)
      ensures settled == SettledOn(books, a)
    {
      available, settled := 0, 0;
      for i := 0 to |books.ledger|
        invariant available == Total(Deltas, a, books.ledger[..i])
        invariant settled == Total(Commits, a, books.ledger[..i])
      {
        assert books.ledger[..i + 1][..i] == books.ledger[..i];
        available := available + Weigh(Deltas, a, books.ledger[i]);
        settled := settled + Weigh(Commits, a, books.ledger[i]);
      }
      assert books.ledger[..|books.ledger|] == books.ledger;
      held := HeldBalance(a);
    }

    /** allocated_key_quota_in_transaction, and the sum of upstream_credit_capacity_in_transaction. */
    method SumAccounts(f: Figure, s: set<AccountId>) returns (sum: int)
      ensures sum == SumOf(f, books, s)
    {
      sum := 0;
      var rest := s;
      while rest != {}
        invariant sum + SumOf(f, books, rest) == SumOf(f, books, s)
        decreases |rest|
      {
        var a :| a in rest;
        SumSplit(f, books, rest, a);
        var available, held, _ := BudgetBalance(a);
        sum := sum + match f
          case Spendable => available
          case Bound => available + held
          case BoundAtLeastZero => if available + held > 0 then available + held else 0;
        rest := rest - {a};
      }
    }

    // ------------------------------------------------------------------ grants

    /** Create the account at version 1 or advance it, then write the adjust row. */
    method InsertGrant(a: AccountId, amount: int)
      modifies this`books
      ensures books == Grant(old(books), a, amount)
    {
      if a in books.accounts {
        books := books.(accounts := books.accounts[a := books.accounts[a].(version := books.accounts[a].version + 1)]);
      } else {
        books := books.(accounts := books.accounts[a := Account(true, 1, Ready)]);
      }
      books := books.(ledger := books.ledger + [Entry(a, Adjust, amount, amount, None, books.accounts[a].version)]);
    }

    method QuotaPoolGrant(user: Id, kind: Kind, amount: int) returns (reply: Result<Reply>)
      modifies this`books
      ensures Did(old(State()), PoolGrant(old(State()), user, kind, amount), State(), reply)
    {
      if amount <= 0 { return Err(InvalidQuotaAmount); }
      :- Need(user in site.users, UserNotActive);
      :- ReadyCheck(books, CapOf(user, kind));
      InsertGrant(CapOf(user, kind), amount);
      return Ok(Done);
    }

    method KeyQuotaAllocateFromPool(key: Id, kind: Kind, amount: int) returns (reply: Result<Reply>)
      modifies this`books
      ensures Did(old(State()), AllocateFromPool(old(State()), key, kind, amount), State(), reply)
    {
      if amount <= 0 { return Err(InvalidQuotaAmount); }
      var user :- OwnerOf(State(), key);
      :- Need(CapOf(user, kind) in books.accounts, QuotaPoolNotConfigured);
      :- ReadyCheck(books, CapOf(user, kind));
      var pool, _, _ := BudgetBalance(CapOf(user, kind));
      var bound := SumAccounts(Bound, PoolKeys(State(), user, kind));
      var allocatable := if pool - bound > 0 then pool - bound else 0;
      :- Need(amount <= allocatable, QuotaPoolInsufficient(allocatable, amount));
      :- ReadyCheck(books, KeyOf(user, key, kind));
      InsertGrant(KeyOf(user, key, kind), amount);
      return Ok(Done);
    }

    method UpstreamCreditCapacity(s: Snapshot, now: int) returns (free: Result<int>)
      ensures free == Capacity(books, s, now)
    {
      if !(s.updatedAt > 0 && 0 <= now - s.updatedAt <= SNAPSHOT_MAX_AGE) { return Err(UpstreamCreditsUnavailable); }
      var committed := SumAccounts(BoundAtLeastZero, CreditKeys(books));
      :- Need(committed <= s.total, UpstreamCommitmentsExceedBalance);
      return Ok(s.total - committed);
    }

    method KeyQuotaAllocateFromUpstream(key: Id, amount: int, s: Snapshot, now: int) returns (reply: Result<Reply>)
      modifies this`books
      ensures Did(old(State()), AllocateFromUpstream(old(State()), key, amount, s, now), State(), reply)
    {
      if amount <= 0 { return Err(InvalidQuotaAmount); }
      var free :- UpstreamCreditCapacity(s, now);
      :- Need(amount <= free, UpstreamCreditLimitExceeded(free, amount));
      var user :- OwnerOf(State(), key);
      :- ReadyCheck(books, KeyOf(user, key, Credits));
      InsertGrant(KeyOf(user, key, Credits), amount);
      return Ok(Remaining(free - amount));
    }

    method KeyQuotaGrant(key: Id, kind: Kind, amount: int) returns (reply: Result<Reply>)
      modifies this`books
      ensures Did(old(State()), KeyGrant(old(State()), key, kind, amount), State(), reply)
    {
      if amount <= 0 { return Err(InvalidQuotaAmount); }
      var user :- OwnerOf(State(), key);
      :- ReadyCheck(books, KeyOf(user, key, kind));
      InsertGrant(KeyOf(user, key, kind), amount);
      return Ok(Done);
    }

    method QuarantineGroup(group: seq<AccountId>)
      modifies this`books
      ensures books == Quarantine(old(books), set a | a in group)
    {
      for i := 0 to |group|
        invariant books == Quarantine(old(books), set a | a in group[..i])
      {
        if group[i] in books.accounts {
          books := books.(accounts := books.accounts[group[i] := books.accounts[group[i]].(migration := ReconcileRequired)]);
        }
      }
      assert group[..|group|] == group;
    }

    /** reconcile_quota_event_groups: quarantine the accounts of every group the checker rejects. */
    method ReconcileQuotaEventGroups() returns (invalid: nat)
      modifies this`books
      ensures books == Quarantine(old(books), Suspects(old(books)))
      ensures invalid == |Faulty(old(books), old(books).reservations.Keys)|
    {
      invalid := 0;
      var pending := books.reservations.Keys;
      ghost var was := books;
      while pending != {}
        invariant pending <= was.reservations.Keys
        invariant books == Quarantine(was, SuspectsAmong(was, was.reservations.Keys - pending))
        invariant invalid == |Faulty(was, was.reservations.Keys - pending)|
        decreases |pending|
      {
        var r :| r in pending;
        ghost var done := was.reservations.Keys - pending;
        pending := pending - {r};
        assert was.reservations.Keys - pending == done + {r};
        QuarantineKeepsVerdicts(was, SuspectsAmong(was, done), r);
        SuspectsGrow(was, done, r);
        var ok := ValidateGroup(books, r);
        if !ok {
          invalid := invalid + 1;
          QuarantineGroup(AccountsOf(books.reservations[r]));
          QuarantineMore(was, SuspectsAmong(was, done), set a | a in AccountsOf(was.reservations[r]));
        }
      }
      assert was.reservations.Keys - {} == was.reservations.Keys;
      SuspectsAreOfRejected(was);
    }

    // ------------------------------------------------------------ reservations

    method SetReservationState(r: Id, to: ReservationState)
      requires r in books.reservations
      modifies this`books
      ensures books == old(books).(reservations := old(books.reservations)[r := old(books.reservations)[r].(state := to)])
    {
      books := books.(reservations := books.reservations[r := books.reservations[r].(state := to)]);
    }

    /** insert_reservation_budget_event: the Key's row, then the cap's. */
    method InsertReservationBudgetEvent(r: Id, x: Reservation, event: EventKind, amount: int, delta: int)
      modifies this`books
      ensures books == old(books).(ledger := old(books.ledger) + Events(old(books), r, x, event, amount, delta))
    {
      books := books.(ledger := books.ledger + [Entry(x.keyAccount, event, amount, delta, Some(r), VersionOf(books, x.keyAccount))]);
      if x.cap.Some? {
        books := books.(ledger := books.ledger + [Entry(x.cap.value, event, amount, delta, Some(r), VersionOf(books, x.cap.value))]);
      }
    }

    method ReserveDualInTransaction(r: Id, user: Id, key: Id, kind: Kind, amount: int) returns (outcome: Result<ReserveReply>)
      modifies this`books
      ensures outcome == ReserveDual(old(books), r, user, key, kind, amount)
      ensures books == if outcome.Ok? && outcome.value.Placed? then outcome.value.books else old(books)
    {
      if r in books.reservations {
        var x := books.reservations[r];
        if x.user != user || x.kind != kind || x.key != key {
          return Err(ReservationRequestConflict);
        }
        return Ok(AlreadyReserved);
      }
      var a, c := KeyOf(user, key, kind), CapOf(user, kind);
      :- Need(a in books.accounts, KeyQuotaNotConfigured);
      :- ReadyCheck(books, a);
      var available, _, _ := BudgetBalance(a);
      :- ReadyCheck(books, c);
      if c in books.accounts {
        var capped, _, _ := BudgetBalance(c);
        if capped < available { available := capped; }
      }
      if available < amount {
        return Ok(Short(available));
      }
      var x := Reservation(user, key, kind, amount, ReservationState.Held, a, if c in books.accounts then Some(c) else None);
      books := books.(reservations := books.reservations[r := x]);
      InsertReservationBudgetEvent(r, x, Reserve, amount, -amount);
      return Ok(Placed(books));
    }

    method ChargeReservation(r: Id, actual: int)
      requires r in books.reservations
      modifies this`books
      ensures books == Charge(old(books), r, actual)
    {
      var x := books.reservations[r];
      SetReservationState(r, ReservationState.Committed);
      InsertReservationBudgetEvent(r, x, Commit, actual, x.amount - actual);
    }

    method SuspendReservation(r: Id)
      requires r in books.reservations
      modifies this`books
      ensures books == Suspend(old(books), {r})
    {
      SetReservationState(r, ReservationState.Unknown);
      assert books.reservations == Suspend(old(books), {r}).reservations;
    }

    method ApplyDualSettlement(r: Id, s: Settlement) returns (c: Check)
      requires r in books.reservations
      modifies this`books
      ensures match ApplySettlement(old(books), r, s)
              case Ok(after) => c.Pass? && books == after
              case Err(e) => c == Fail(e) && books == old(books)
    {
      var x := books.reservations[r];
      match s {
      case Released =>
        SetReservationState(r, ReservationState.Released);
        InsertReservationBudgetEvent(r, x, Release, x.amount, x.amount);
      case Charged(Some(actual)) =>
        if actual < 0 { return Fail(InvalidQuotaAmount); }
        if actual > x.amount { return Fail(ActualAmountExceedsReservation); }
        ChargeReservation(r, actual);
      case _ =>
        SuspendReservation(r);
      }
      return Pass;
    }

    // ---------------------------------------------------------------- requests

    method TransitionRequestOnConnection(r: Id, expected: RequestState, next: RequestState) returns (c: Check)
      modifies this`requests
      ensures match Transition(old(State()), r, expected, next)
              case Ok(_) => c.Pass? && requests == old(requests)[r := old(requests)[r].(state := next)]
              case Err(e) => c == Fail(e) && requests == old(requests)
    {
      if !expected.CanTransitionTo(next) { return Fail(InvalidTransition); }
      if r !in requests || requests[r].state != expected { return Fail(InvalidTransition); }
      requests := requests[r := requests[r].(state := next)];
      return Pass;
    }

    /** The states settle_request_state passes through before Settled. */
    method Progression(current: RequestState, goal: RequestState) returns (path: Option<seq<RequestState>>)
      requires !goal.Settled?
      ensures path.None? ==> !CanSettleAs(current, goal)
      ensures path.Some? ==>
        && (CanSettleAs(current, goal) <==> Steps(current, path.value))
        && (path.value != [] ==> Steps(path.value[|path.value| - 1], []))
        && forall k :: 0 < k < |path.value| ==> path.value[k - 1].CanTransitionTo(path.value[k])
    {
      match goal
      case Succeeded =>
        if current.Unknown? { return Some([RequestState.Succeeded]); }
        var progression := [RequestState.Reserved, RequestState.Queued, RequestState.Dispatched,
                            RequestState.Completing, RequestState.Succeeded];
        for i := 0 to |progression|
          invariant forall k :: 0 <= k < i ==> progression[k] != current
        {
          if progression[i] == current { return Some(progression[i + 1..]); }
        }
        assert progression[0] != current && progression[1] != current && progression[2] != current
               && progression[3] != current && progression[4] != current;
        return None;
      case Failed => return Some([goal]);
      case Unknown => return Some([goal]);
      case Canceled =>
        if !current.CancelRequested? && !current.Unknown? { return None; }
        return Some([goal]);
      case _ => return None;
    }

    /** settle_request_state moves one legal edge at a time; where it ends has a closed form. */
    method SettleRequestState(r: Id, current: RequestState, goal: RequestState) returns (c: Check)
      requires r in requests && requests[r].state == current
      modifies this`requests
      ensures c == Need(CanSettleAs(current, goal), InvalidTransition)
      ensures c.Pass? ==> requests == old(requests)[r := old(requests)[r].(state := SettledAs(current, goal))]
    {
      if goal.Settled? {
        assert requests == requests[r := requests[r].(state := current)];
        return Pass;
      }
      var path := Progression(current, goal);
      if path.None? { return Fail(InvalidTransition); }
      var expected := current;
      for i := 0 to |path.value|
        invariant expected == if i == 0 then current else path.value[i - 1]
        invariant i > 0 ==> current.CanTransitionTo(path.value[0])
        invariant requests == old(requests)[r := old(requests)[r].(state := expected)]
      {
        var moved := TransitionRequestOnConnection(r, expected, path.value[i]);
        if moved.Fail? { return moved; }
        expected := path.value[i];
      }
      c := TransitionRequestOnConnection(r, expected, RequestState.Settled);
    }

    // -------------------------------------------------------------- submission

    /** The rows every entrance inserts first: the request and its idempotency key. */
    method InsertRequest(s: Submission, r: Id) returns (c: Check)
      modifies this`requests, this`idem
      ensures c == Need(r !in old(requests), RowExists)
      ensures requests == if c.Pass? then Enter(old(State()), s, r, RequestState.Received).requests else old(requests)
      ensures idem == if c.Pass? then Enter(old(State()), s, r, RequestState.Received).idem else old(idem)
    {
      if r in requests { return Fail(RowExists); }
      requests := requests[r := Request(s.user, s.key, s.endpoint, s.model, s.content, RequestState.Received)];
      idem := idem[s.Idem() := IdemRow(s.content, r)];
      return Pass;
    }

    /** Insert the request, validate it and hold its amount. */
    method EnterAndReserve(s: Submission, r: Id) returns (c: Check)
      modifies this`requests, this`idem, this`books
      ensures c == Refusal(EnterReserved(old(State()), s, r, RequestState.Reserved))
      ensures c.Pass? ==> State() == EnterReserved(old(State()), s, r, RequestState.Reserved).value
    {
      c := InsertRequest(s, r);
      if c.Fail? { return; }
      c := TransitionRequestOnConnection(r, RequestState.Received, RequestState.Validating);
      var outcome := ReserveDualInTransaction(r, s.user, s.key, s.kind, s.amount);
      match outcome {
      case Err(e) => return Fail(e);
      case Ok(AlreadyReserved) => return Fail(ReservationRequestConflict);
      case Ok(Short(available)) => return Fail(QuotaInsufficient(available, s.amount));
      case Ok(Placed(_)) =>
        c := TransitionRequestOnConnection(r, RequestState.Validating, RequestState.Reserved);
        assert requests == Enter(old(State()), s, r, RequestState.Reserved).requests;
      }
    }

    method BeginRequestInternal(s: Submission, policy: Option<Kind>, needPolicy: bool, r: Id) returns (reply: Result<Reply>)
      modifies this`requests, this`idem
      ensures Did(old(State()), Begin(old(State()), s, policy, needPolicy, r), State(), reply)
    {
      if !(State().KeyActive(s.user, s.key)) { return Err(InvalidRequestIdentity); }
      if s.Idem() in idem {
        var row := idem[s.Idem()];
        return Ok(if row.content == s.content then Existing(row.request) else Conflict);
      }
      :- Need(!needPolicy || policy.Some?, BudgetPolicyMissing);
      :- InsertRequest(s, r);
      return Ok(Reply.Created(r));
    }

    method PreflightReserveRequest(s: Submission, r: Id, now: int) returns (reply: Result<Reply>)
      modifies this
      ensures Did(old(State()), PreflightReserve(old(State()), s, r, now), State(), reply)
    {
      var was := State();
      :- Need(s.amount > 0 && s.ttl >= 0 && Fits(now + s.ttl), InvalidQuotaAmount);
      :- Need(State().KeyActive(s.user, s.key), InvalidRequestIdentity);
      if s.Idem() in idem {
        var row := idem[s.Idem()];
        return Ok(if row.content == s.content then Existing(row.request) else Conflict);
      }
      :- Need(|ActiveRequests(requests, s.key)| < site.keys[s.key].maxConcurrency, KeyConcurrencyExceeded);
      var entered := EnterAndReserve(s, r);
      match entered {
      case Pass => return Ok(Reply.Created(r));
      case Fail(QuotaInsufficient(available, required)) =>
        Rollback(was);
        return Ok(Insufficient(available, required));
      case Fail(e) =>
        Rollback(was);
        return Err(e);
      }
    }

    method SelectUpstreamCandidate(t: Terms, kind: Kind, now: int) returns (account: Result<Id>)
      ensures account == Select(site.upstream, leases, t, kind, now)
    {
      account := SelectCandidate(site.upstream, leases, t, kind, now);
      ChoiceIsUnique(site.upstream, leases, t, kind, now, account, Select(site.upstream, leases, t, kind, now));
    }

    method PreflightReserveWithLease(p: Principal, s: Submission, t: Terms, policy: Option<Kind>,
                                     job: Option<Id>, r: Id, now: int) returns (reply: Result<Reply>)
      modifies this
      ensures Did(old(State()), PreflightWithLease(old(State()), p, s, t, policy, job, r, now), State(), reply)
    {
      if !(job.None? || (s.endpoint == VIDEOS && s.kind.VideoJob?)) { return Err(InvalidConfiguration); }
      :- Admit(State(), p, s, t, policy);
      if s.Idem() in idem {
        var row := idem[s.Idem()];
        :- Need(row.content == s.content, IdempotencyConflict);
        :- Need(row.request in leases && leases[row.request].kind == s.kind, ReservationRequestConflict);
        return Ok(Existing(row.request));
      }
      var was := State();
      reply := AcquireLeaseInTransaction(p, s, t, job, r, now);
      if reply.Err? { Rollback(was); }
    }

    method EnterAndLease(s: Submission, t: Terms, r: Id, now: int) returns (c: Check)
      modifies this
      ensures c == Refusal(EnterLeased(old(State()), s, t, r, RequestState.Reserved, now))
      ensures site == old(site)
      ensures c.Pass? ==> State() == EnterLeased(old(State()), s, t, r, RequestState.Reserved, now).value
    {
      var account := SelectUpstreamCandidate(t, s.kind, now);
      if account.Err? { return Fail(account.error); }
      if !(Fits(now + s.ttl) && Fits(now + t.leaseTtl) && Fits(now + t.reconcileTtl)) { return Fail(InvalidQuotaAmount); }
      c := EnterAndReserve(s, r);
      if c.Fail? { return; }
      if r in leases { return Fail(RowExists); }
      leases := leases[r := FreshLease(account.value, s.kind, t, now)];
    }

    method AcquireLeaseInTransaction(p: Principal, s: Submission, t: Terms, job: Option<Id>, r: Id, now: int)
      returns (reply: Result<Reply>)
      modifies this
      ensures Drafted(old(State()), AcquireLease(old(State()), p, s, t, job, r, now), State(), reply)
    {
      var entered := EnterAndLease(s, t, r, now);
      :- entered;
      if job.Some? {
        LeasedAsQueued(old(State()), s, t, r, now);
        :- InsertVideoJobAndAttempt(p, r, job.value, leases[r].account, now);
      }
      return Ok(Reply.Created(r));
    }

    method InsertVideoJob(p: Principal, r: Id, id: Id, terms: Option<Terms>, now: int) returns (c: Check)
      requires r in requests && requests[r].state.Reserved?
      modifies this`requests, this`jobs
      ensures match NewJob(old(State()), r, id, p.user, now, terms)
              case Ok(db) => c.Pass? && jobs == db.jobs && requests == old(State()).SetState(r, RequestState.Queued).requests
              case Err(e) => c == Fail(e)
    {
      if exists q :: q in jobs && jobs[q].id == id { return Fail(RowExists); }
      jobs := jobs[r := Job(id, p.user, JobState.Queued, now, None, None, terms)];
      c := TransitionRequestOnConnection(r, RequestState.Reserved, RequestState.Queued);
    }

    method InsertVideoJobAndAttempt(p: Principal, r: Id, id: Id, account: Id, now: int) returns (c: Check)
      requires r in requests && requests[r].state.Reserved?
      modifies this`requests, this`jobs, this`attempts
      ensures if r in old(jobs) || r in old(attempts) then c == Fail(RowExists)
              else match NewJob(old(State()), r, id, p.user, now, None)
                   case Ok(db) => c.Pass? && jobs == db.jobs
                     && requests == old(State()).SetState(r, RequestState.Queued).requests
                     && attempts == old(attempts)[r := Attempt(account, AttemptState.Queued)]
                   case Err(e) => c == Fail(e)
    {
      if r in jobs || r in attempts { return Fail(RowExists); }
      c := InsertVideoJob(p, r, id, None, now);
      if c.Pass? {
        attempts := attempts[r := Attempt(account, AttemptState.Queued)];
      }
    }

    method EnqueueVideoJob(p: Principal, s: Submission, t: Terms, policy: Option<Kind>,
                           job: Id, r: Id, now: int) returns (reply: Result<Reply>)
      modifies this
      ensures Did(old(State()), EnqueueVideo(old(State()), p, s, t, policy, job, r, now), State(), reply)
    {
      if !(s.endpoint == VIDEOS && s.kind.VideoJob?) { return Err(InvalidConfiguration); }
      :- Admit(State(), p, s, t, policy);
      if s.Idem() in idem {
        var row := idem[s.Idem()];
        :- Need(row.content == s.content, IdempotencyConflict);
        :- Need(row.request in jobs, ReservationRequestConflict);
        return Ok(Existing(row.request));
      }
      var was := State();
      reply := QueueJobInTransaction(p, s, t, job, r, now);
      if reply.Err? { Rollback(was); }
    }

    method QueueJobInTransaction(p: Principal, s: Submission, t: Terms, job: Id, r: Id, now: int)
      returns (reply: Result<Reply>)
      modifies this
      ensures Drafted(old(State()), QueueJob(old(State()), p, s, t, job, r, now), State(), reply)
    {
      if !Fits(now + s.ttl) { return Err(InvalidQuotaAmount); }
      :- EnterAndReserve(s, r);
      EnteredAsQueued(old(State()), s, r);
      :- Need(r !in jobs, RowExists);
      :- InsertVideoJob(p, r, job, Some(t), now);
      return Ok(Reply.Created(r));
    }

    // -------------------------------------------------------------- settlement

    method SettleReservation(p: Principal, r: Id, s: Settlement, goal: Option<RequestState>) returns (reply: Result<Reply>)
      modifies this
      ensures Did(old(State()), Settle(old(State()), p, r, s, goal), State(), reply)
    {
      if r !in books.reservations { return Err(ReservationNotFound); }
      :- Need(OwnsReservation(State(), p, r), ReservationOwnerMismatch);
      if !books.reservations[r].state.Held? {
        if !ReplayAgrees(books, r, s) { return Err(ReservationSettlementConflict); }
        return Ok(Done);
      }
      var was := State();
      var c := Pass;
      if goal.Some? && r in requests {
        c := SettleRequestState(r, requests[r].state, goal.value);
      }
      if c.Pass? {
        c := ApplyDualSettlement(r, s);
      }
      if c.Fail? {
        Rollback(was);
        return Err(c.error);
      }
      return Ok(Done);
    }

    method TransitionRequest(r: Id, expected: RequestState, next: RequestState) returns (reply: Result<Reply>)
      modifies this`requests
      ensures Did(old(State()), Transition(old(State()), r, expected, next), State(), reply)
    {
      var moved := TransitionRequestOnConnection(r, expected, next);
      :- moved;
      return Ok(Done);
    }

    method HeartbeatUpstreamLease(p: Principal, r: Id, now: int, ttl: int) returns (reply: Result<Reply>)
      modifies this`leases
      ensures Did(old(State()), HeartbeatLease(old(State()), p, r, now, ttl), State(), reply)
    {
      if !(ttl > 0 && Fits(now + ttl)) { return Err(InvalidQuotaAmount); }
      :- OwnedLease(State(), p, r);
      if leases[r].state.Live() {
        leases := leases[r := leases[r].(state := LeaseState.Active, expires := now + ttl)];
      }
      return Ok(Done);
    }

    method RequestUpstreamCancel(p: Principal, r: Id) returns (reply: Result<Reply>)
      modifies this`requests
      ensures Did(old(State()), CancelLease(old(State()), p, r), State(), reply)
    {
      var owned := OwnedLease(State(), p, r);
      :- owned;
      if leases[r].state.Live() && !requests[r].state.CancelRequested? {
        var asked := TransitionRequestOnConnection(r, requests[r].state, RequestState.CancelRequested);
        :- asked;
      }
      return Ok(Done);
    }

    method SyncVideoJobSettlement(r: Id, to: JobState) returns (c: Check)
      modifies this`jobs, this`attempts
      ensures c == Refusal(SyncJob(old(State()), r, to))
      ensures State() == if c.Pass? then SyncJob(old(State()), r, to).value else old(State())
    {
      if r !in jobs { return Pass; }
      if r !in attempts { return Fail(InvalidConfiguration); }
      if r !in requests || jobs[r].user != requests[r].user { return Fail(InvalidConfiguration); }
      if jobs[r].state != to && !jobs[r].state.CanTransitionTo(to) { return Fail(InvalidConfiguration); }
      jobs := jobs[r := jobs[r].(state := to, owner := None, claimExpires := None)];
      attempts := attempts[r := attempts[r].(state := AttemptFor(to))];
      return Pass;
    }

    method MoveRequestTo(r: Id, goal: RequestState) returns (c: Check)
      requires r in requests
      modifies this`requests
      ensures c == Refusal(RequestAfter(old(State()), r, goal))
      ensures c.Pass? ==> State() == RequestAfter(old(State()), r, goal).value
    {
      if !goal.Unknown? {
        c := SettleRequestState(r, requests[r].state, goal);
      } else if requests[r].state.Unknown? {
        c := Pass;
      } else {
        c := TransitionRequestOnConnection(r, requests[r].state, RequestState.Unknown);
      }
    }

    /** The writes of a lease settlement, in order: request, reservation, lease, job. */
    method SettleLeaseRows(r: Id, o: LeaseOutcome, until: Option<int>) returns (c: Check)
      requires r in leases && r in requests && r in books.reservations
      modifies this`requests, this`books, this`leases, this`jobs, this`attempts
      ensures c == Refusal(SettleRows(old(State()), r, o, until))
      ensures c.Pass? ==> State() == SettleRows(old(State()), r, o, until).value
    {
      c := MoveRequestTo(r, GoalFor(o));
      if c.Fail? { return; }
      c := ApplyDualSettlement(r, SettlementFor(o));
      if c.Fail? { return; }
      leases := leases[r := leases[r].(state := LeaseAfter(o), reconcileUntil := until)];
      if leases[r].kind.VideoJob? {
        c := SyncVideoJobSettlement(r, JobAfter(o));
      }
    }

    method SettleUpstreamLease(p: Principal, r: Id, o: LeaseOutcome, now: int, allowUnknown: bool) returns (reply: Result<Reply>)
      modifies this
      ensures Did(old(State()), SettleLease(old(State()), p, r, o, now, allowUnknown), State(), reply)
    {
      var owned := OwnedLease(State(), p, r);
      :- owned;
      var l := leases[r];
      :- Need(!(allowUnknown && l.state.Live()), InvalidConfiguration);
      var reconciling := allowUnknown && l.state.Unknown?;
      if !l.state.Live() && !reconciling {
        return Ok(Applied(false));
      }
      :- Need(!reconciling || (l.reconcileUntil.Some? && now <= l.reconcileUntil.value), InvalidConfiguration);
      :- Need(r in books.reservations, ReservationNotFound);
      :- Need(OwnsReservation(State(), p, r), ReservationOwnerMismatch);
      var until :- UntilAfter(l, o, now);
      var was := State();
      var c := SettleLeaseRows(r, o, until);
      if c.Fail? {
        Rollback(was);
        return Err(c.error);
      }
      return Ok(Applied(true));
    }

    method ReconcileUnknownUpstreamLease(p: Principal, r: Id, o: LeaseOutcome, now: int) returns (reply: Result<Reply>)
      modifies this
      ensures Did(old(State()), Reconcile(old(State()), p, r, o, now), State(), reply)
    {
      if !Evident(o) { return Err(InvalidConfiguration); }
      reply := SettleUpstreamLease(p, r, o, now, true);
    }

    // ---------------------------------------------------------------- recovery

    method RecoverLease(r: Id, now: int) returns (c: Check)
      requires r in leases && leases[r].state.Live()
      modifies this`requests, this`books, this`leases, this`jobs, this`attempts
      ensures c.Pass? <==> Recoverable(old(State()), r) && Fits(now + DEFAULT_RECONCILE_TTL)
      ensures c.Pass? ==> State() == RecoverRows(old(State()), {r}, now)
    {
      if r !in books.reservations { return Fail(ReservationNotFound); }
      c := ApplyDualSettlement(r, Undecided);
      if !Fits(now + DEFAULT_RECONCILE_TTL) { return Fail(InvalidQuotaAmount); }
      leases := leases[r := leases[r].(state := LeaseState.Unknown, reconcileUntil := Some(now + DEFAULT_RECONCILE_TTL))];
      if leases[r].kind.VideoJob? {
        c := SyncVideoJobSettlement(r, JobState.Unknown);
        if c.Fail? { return; }
      }
      if r !in requests { return Fail(RequestNotFound); }
      c := MoveRequestTo(r, RequestState.Unknown);
      if c.Pass? { RecoverOne(old(State()), State(), r, now); }
    }

    method RecoverExpiredUpstreamLeases(now: int) returns (reply: Result<Reply>)
      modifies this
      ensures State() == After(old(State()), RecoverExpired(old(State()), now))
      ensures reply.Ok? <==> RecoverExpired(old(State()), now).Ok?
    {
      var was := State();
      var c := RecoverLeases(ExpiredLeases(was, now), now);
      if c.Fail? {
        Rollback(was);
        return Err(c.error);
      }
      assert forall r :: Expired(was, r, now) ==> r in ExpiredLeases(was, now);
      return Ok(Done);
    }

    method RecoverLeases(expired: set<Id>, now: int) returns (c: Check)
      requires forall r :: r in expired ==> Expired(State(), r, now)
      modifies this
      ensures c.Pass? ==> Halfway(old(State()), expired, State(), now)
      ensures c.Fail? ==> exists r :: r in expired && !Recovers(old(State()), r, now)
    {
      ghost var was := State();
      var pending := expired;
      RecoverNone(was, now);
      while pending != {}
        invariant pending <= expired
        invariant Halfway(was, expired - pending, State(), now)
        decreases |pending|
      {
        var r :| r in pending;
        ghost var done := expired - pending;
        assert Expired(was, r, now);
        StillToRecover(was, done, r, now);
        c := RecoverLease(r, now);
        if c.Fail? { return; }
        RecoverCompose(was, done, r, now);
        pending := pending - {r};
        assert expired - pending == done + {r};
      }
      assert expired - {} == expired;
      return Pass;
    }

    // ------------------------------------------------------------------- queue

    /** next_video_queue_user: of the users above the floor, the one whose oldest waiting
        job is oldest; the lower user id on a tie. */
    method NextVideoQueueUser(floor: Option<Id>) returns (user: Option<Id>)
      ensures user == NextUser(State(), floor)
    {
      var best: Option<Id> := None;
      var pending := jobs.Keys;
      while pending != {}
        invariant pending <= jobs.Keys
        invariant best.None? ==> forall q :: WaitingAbove(State(), floor, q) ==> q in pending
        invariant best.Some? ==>
          && WaitingAbove(State(), floor, best.value)
          && forall q :: WaitingAbove(State(), floor, q) ==> q in pending || Earlier(jobs[best.value], jobs[q])
        decreases |pending|
      {
        var r :| r in pending;
        pending := pending - {r};
        if WaitingAbove(State(), floor, r) && (best.None? || !Earlier(jobs[best.value], jobs[r])) {
          best := Some(r);
        }
      }
      user := if best.None? then None else Some(jobs[best.value].user);
    }

    /** The oldest waiting job of a user; the lower job id on a tie. */
    method OldestVideoJobOf(user: Id) returns (oldest: Option<Id>)
      ensures oldest == OldestOf(State(), user)
    {
      oldest := None;
      var pending := jobs.Keys;
      while pending != {}
        invariant pending <= jobs.Keys
        invariant oldest.None? ==> forall q :: QueuedFor(State(), user, q) ==> q in pending
        invariant oldest.Some? ==>
          && QueuedFor(State(), user, oldest.value)
          && forall q :: QueuedFor(State(), user, q) ==> q in pending || Precedes(State(), oldest.value, q)
        decreases |pending|
      {
        var r :| r in pending;
        pending := pending - {r};
        if QueuedFor(State(), user, r) && (oldest.None? || !Precedes(State(), oldest.value, r)) {
          oldest := Some(r);
        }
      }
      if oldest.Some? {
        assert Oldest(State(), user, oldest.value);
        assert Precedes(State(), oldest.value, OldestOf(State(), user).value);
      }
    }

    method ClaimNextVideoJob(worker: Id, now: int) returns (reply: Result<Reply>)
      modifies this
      ensures Did(old(State()), ClaimNext(old(State()), worker, now), State(), reply)
    {
      var user := NextVideoQueueUser(cursor);
      if user.None? && cursor.Some? {
        user := NextVideoQueueUser(None);
      }
      PickIsTwoQueries(State());
      if user.None? { return Ok(Claimed(None)); }
      var job := OldestVideoJobOf(user.value);
      if job.None? { return Ok(Claimed(None)); }
      reply := ClaimVideoJob(job.value, worker, now);
    }

    method ClaimVideoJobById(r: Id, worker: Id, now: int) returns (reply: Result<Reply>)
      modifies this
      ensures Did(old(State()), ClaimById(old(State()), r, worker, now), State(), reply)
    {
      if !Waiting(State(), r) { return Ok(Claimed(None)); }
      reply := ClaimVideoJob(r, worker, now);
    }

    method ClaimVideoJob(r: Id, worker: Id, now: int) returns (reply: Result<Reply>)
      requires r in jobs
      modifies this
      ensures Did(old(State()), Claim(old(State()), r, worker, now), State(), reply)
    {
      var was := State();
      reply := ClaimVideoJobInTransaction(r, worker, now);
      if reply.Err? { Rollback(was); }
    }

    method ProvisionLease(r: Id, now: int) returns (c: Check)
      requires r in jobs && r !in attempts
      modifies this`leases, this`attempts
      ensures c == Refusal(Provision(old(State()), r, now))
      ensures State() == if c.Pass? then Provision(old(State()), r, now).value else old(State())
    {
      var j := jobs[r];
      if !(r in requests && requests[r].user == j.user && requests[r].endpoint == VIDEOS) { return Fail(InvalidConfiguration); }
      if j.terms.None? { return Fail(InvalidConfiguration); }
      var t := j.terms.value;
      if !(t.predicted > 0 && t.margin >= 0 && t.maxAge >= 0 && t.leaseTtl > 0 && t.reconcileTtl > 0) { return Fail(InvalidQuotaAmount); }
      if r !in books.reservations { return Fail(ReservationNotFound); }
      var x := books.reservations[r];
      if !(x.user == j.user && x.kind.VideoJob? && x.state.Held?) { return Fail(InvalidConfiguration); }
      var account := SelectUpstreamCandidate(t, VideoJob, now);
      if account.Err? { return Fail(account.error); }
      if !(Fits(now + t.leaseTtl) && Fits(now + t.reconcileTtl)) { return Fail(InvalidQuotaAmount); }
      if r in leases { return Fail(RowExists); }
      leases := leases[r := FreshLease(account.value, VideoJob, t, now)];
      attempts := attempts[r := Attempt(account.value, AttemptState.Queued)];
      return Pass;
    }

    method ClaimVideoJobInTransaction(r: Id, worker: Id, now: int) returns (reply: Result<Reply>)
      requires r in jobs
      modifies this`requests, this`leases, this`jobs, this`attempts, this`cursor
      ensures Drafted(old(State()), Claim(old(State()), r, worker, now), State(), reply)
    {
      if r !in attempts {
        var provided := ProvisionLease(r, now);
        :- provided;
      } else if r !in leases {
        return Err(ReservationNotFound);
      }
      :- Need(r in attempts && r in leases && r in requests, InvalidConfiguration);
      var j, l, a := jobs[r], leases[r], attempts[r];
      :- Need(j.state.Queued? && requests[r].state.Queued? && a.state.Queued? && a.account == l.account
              && l.kind.VideoJob? && l.state.Held?, InvalidConfiguration);
      var dispatched := TransitionRequestOnConnection(r, RequestState.Queued, RequestState.Dispatched);
      jobs := jobs[r := j.(state := JobState.Running, owner := Some(worker), claimExpires := Some(l.expires))];
      attempts := attempts[r := a.(state := AttemptState.Running)];
      leases := leases[r := l.(state := LeaseState.Active)];
      cursor := Some(j.user);
      return Ok(Claimed(Some(r)));
    }

    // ----------------------------------------------------------- claimed jobs

    method HeartbeatVideoJob(worker: Id, r: Id, now: int, ttl: int) returns (reply: Result<Reply>)
      modifies this`jobs, this`leases
      ensures Did(old(State()), HeartbeatJob(old(State()), worker, r, now, ttl), State(), reply)
    {
      if !(ttl > 0 && Fits(now + ttl)) { return Err(InvalidQuotaAmount); }
      :- Need(r in jobs, RequestNotFound);
      var j := jobs[r];
      :- Need(j.state.Running? || j.state.CancelRequested?, InvalidConfiguration);
      :- Need(j.owner == Some(worker) && j.claimExpires.Some? && j.claimExpires.value > now, InvalidConfiguration);
      :- Need(r in attempts, InvalidConfiguration);
      :- Need(attempts[r].state.Running? || attempts[r].state.CancelRequested?, InvalidConfiguration);
      :- Need(r in leases, ReservationNotFound);
      var l := leases[r];
      :- Need(l.kind.VideoJob? && l.state.Active? && l.expires > now, InvalidConfiguration);
      jobs := jobs[r := j.(claimExpires := Some(now + ttl))];
      leases := leases[r := l.(expires := now + ttl)];
      return Ok(Done);
    }

    method MarkVideoJobRunning(p: Principal, r: Id) returns (reply: Result<Reply>)
      modifies this`requests, this`jobs, this`attempts, this`leases
      ensures Did(old(State()), MarkRunning(old(State()), p, r), State(), reply)
    {
      if !(PrincipalActive(State(), p)) { return Err(InvalidRequestIdentity); }
      :- Need(OwnsJob(State(), p, r), RequestNotFound);
      var j := jobs[r];
      if j.state.Running? { return Ok(Done); }
      :- Need(j.state.Queued? && r in attempts, InvalidConfiguration);
      :- Need(r in leases, ReservationNotFound);
      :- Need(leases[r].account == attempts[r].account && leases[r].kind.VideoJob?, InvalidConfiguration);
      if requests[r].state.Queued? {
        var dispatched := TransitionRequestOnConnection(r, RequestState.Queued, RequestState.Dispatched);
        :- dispatched;
      } else if !requests[r].state.Dispatched? {
        return Err(InvalidConfiguration);
      }
      jobs := jobs[r := j.(state := JobState.Running)];
      if attempts[r].state.Queued? {
        attempts := attempts[r := attempts[r].(state := AttemptState.Running)];
      }
      if leases[r].state.Held? {
        leases := leases[r := leases[r].(state := LeaseState.Active)];
      }
      assert attempts == MarkRunning(old(State()), p, r).value.0.attempts;
      assert leases == MarkRunning(old(State()), p, r).value.0.leases;
      assert requests == MarkRunning(old(State()), p, r).value.0.requests;
      return Ok(Done);
    }

    method RequestVideoCancel(p: Principal, r: Id) returns (reply: Result<Reply>)
      modifies this
      ensures Did(old(State()), CancelVideo(old(State()), p, r), State(), reply)
    {
      if !(PrincipalActive(State(), p)) { return Err(InvalidRequestIdentity); }
      :- Need(OwnsJob(State(), p, r), RequestNotFound);
      var state := requests[r].state;
      if jobs[r].state.Terminal() || jobs[r].state.Unknown? || jobs[r].state.CancelRequested? { return Ok(Done); }
      :- Need(state.Queued? || state.Dispatched? || state.Completing?, InvalidConfiguration);
      var was := State();
      reply := CancelOpenJob(r);
      if reply.Err? { Rollback(was); }
    }

    method CancelOpenJob(r: Id) returns (reply: Result<Reply>)
      requires r in jobs && r in requests && requests[r].state.CanTransitionTo(RequestState.CancelRequested)
      modifies this`requests, this`jobs, this`attempts, this`books
      ensures Drafted(old(State()), CancelOpen(old(State()), r), State(), reply)
    {
      ghost var was := State();
      AskToCancel(r);
      if r in attempts {
        if attempts[r].state.Queued? || attempts[r].state.Running? {
          attempts := attempts[r := attempts[r].(state := AttemptState.CancelRequested)];
        }
        assert attempts == CancelOpen(was, r).value.0.attempts;
        return Ok(Done);
      }
      if r !in books.reservations { return Err(ReservationNotFound); }
      CancelUnclaimed(r);
      assert jobs == CancelOpen(was, r).value.0.jobs;
      return Ok(Done);
    }

    method AskToCancel(r: Id)
      requires r in jobs && r in requests && requests[r].state.CanTransitionTo(RequestState.CancelRequested)
      modifies this`requests, this`jobs
      ensures requests == old(requests)[r := old(requests)[r].(state := RequestState.CancelRequested)]
      ensures jobs == old(jobs)[r := old(jobs)[r].(state := JobState.CancelRequested)]
    {
      var asked := TransitionRequestOnConnection(r, requests[r].state, RequestState.CancelRequested);
      jobs := jobs[r := jobs[r].(state := JobState.CancelRequested)];
    }

    /** A job without an attempt gives its hold back and ends at once. */
    method CancelUnclaimed(r: Id)
      requires r in books.reservations && r in jobs && r in requests && requests[r].state.CancelRequested?
      modifies this`books, this`requests, this`jobs
      ensures books == if old(books).reservations[r].state.Held? then Free(old(books), r) else old(books)
      ensures requests == old(requests)[r := old(requests)[r].(state := RequestState.Settled)]
      ensures jobs == old(jobs)[r := old(jobs)[r].(state := JobState.Canceled)]
    {
      if books.reservations[r].state.Held? {
        var released := ApplyDualSettlement(r, Settlement.Released);
      }
      jobs := jobs[r := jobs[r].(state := JobState.Canceled)];
      var settled := SettleRequestState(r, RequestState.CancelRequested, RequestState.Canceled);
    }

    // ----------------------------------------------------------------- billing

    method ReserveCreditQuote(r: Id, q: Quote, snapshot: Option<Snapshot>, now: int) returns (reply: Result<Reply>)
      modifies this
      ensures Did(old(State()), ReserveQuote(old(State()), r, q, snapshot, now), State(), reply)
    {
      if !(q.credits && q.max > 0 && q.named && q.fingerprint.Some?) { return Err(BillingQuoteMismatch); }
      :- Need(r in requests, RequestNotFound);
      var x := requests[r];
      :- Need(q.expires > now, BillingQuoteExpired);
      :- Need(x.endpoint == q.endpoint && x.model == q.model && x.content == q.fingerprint.value, BillingQuoteMismatch);
      if r in billing.quotes {
        if !(billing.quotes[r] == q && r in books.reservations) { return Err(BillingQuoteConflict); }
        return Ok(Existing(r));
      }
      if snapshot.Some? {
        var free :- UpstreamCreditCapacity(snapshot.value, now);
      }
      :- Need(x.state.Received?, InvalidTransition);
      :- Need(State().KeyActive(x.user, x.key), InvalidRequestIdentity);
      :- Need(x.key !in billing.blocks, ApiKeyBillingBlocked);
      :- Need(|ActiveRequests(requests, x.key) - {r}| < site.keys[x.key].maxConcurrency, KeyConcurrencyExceeded);
      var was := State();
      reply := HoldQuote(r, q);
      if reply.Err? { Rollback(was); }
    }

    method HoldQuote(r: Id, q: Quote) returns (reply: Result<Reply>)
      requires r in requests && requests[r].state.Received?
      modifies this`requests, this`books, this`billing
      ensures Drafted(old(State()), PlaceQuote(old(State()), r, q), State(), reply)
    {
      ghost var was := State();
      var x := requests[r];
      var validating := TransitionRequestOnConnection(r, RequestState.Received, RequestState.Validating);
      var outcome :- ReserveDualInTransaction(r, x.user, x.key, Credits, q.max);
      match outcome {
      case AlreadyReserved => return Err(ReservationRequestConflict);
      case Short(available) => return Err(QuotaInsufficient(available, q.max));
      case Placed(_) =>
      }
      if exists k :: k in billing.quotes && billing.quotes[k].id == q.id { return Err(RowExists); }
      billing := billing.(quotes := billing.quotes[r := q]);
      var reserved := TransitionRequestOnConnection(r, RequestState.Validating, RequestState.Reserved);
      assert requests == was.SetState(r, RequestState.Reserved).requests;
      return Ok(Reply.Created(r));
    }

    method ApplyCreditReceipt(x: Receipt) returns (reply: Result<Reply>)
      modifies this
      ensures Did(old(State()), ApplyReceipt(old(State()), x), State(), reply)
    {
      var r := x.request;
      :- Need(Readable(x), BillingReceiptInvalid);
      :- Need(r in requests, RequestNotFound);
      if x in billing.receipts {
        var filed := billing.receipts[x];
        return Ok(if filed.Conflicting? || filed.status.Final? || filed.status.FailedNoCharge? then ReceiptDuplicate else ReceiptPending);
      }
      :- Need(r in billing.quotes, BillingQuoteMismatch);
      :- Need(r in books.reservations, ReservationNotFound);
      :- Need(Identified(State(), r), BillingReceiptInvalid);
      if r in billing.settlements {
        reply := TakeSecondReceipt(x);
        return;
      }
      var was := State();
      if Decisive(x) {
        reply := TakeDecisiveReceipt(x);
      } else {
        reply := TakeUndecidedReceipt(x);
      }
      if reply.Err? { Rollback(was); }
    }

    method TakeSecondReceipt(x: Receipt) returns (reply: Result<Reply>)
      requires x.request in requests && x.request in billing.quotes && x.request in billing.settlements
      modifies this`billing
      ensures Did(old(State()), SecondReceipt(old(State()), x), State(), reply)
    {
      var r := x.request;
      if !Decisive(x) { return Ok(ReceiptDuplicate); }
      if ChargeOf(x) == billing.settlements[r].actual {
        billing := FileReceipt(billing, x, FiledAs(x));
        return Ok(ReceiptDuplicate);
      }
      billing := FileReceipt(billing, x, Conflicting);
      billing := BlockKey(billing, requests[r].key, Block(r, ReceiptConflict, billing.quotes[r].max, ChargeOf(x), 0));
      billing := billing.(settlements := billing.settlements[r := billing.settlements[r].(reconcile := true)]);
      return Ok(Conflict);
    }

    method TakeUndecidedReceipt(x: Receipt) returns (reply: Result<Reply>)
      requires x.request in requests && x.request in books.reservations
      modifies this`requests, this`books, this`billing
      ensures Drafted(old(State()), UndecidedReceipt(old(State()), x), State(), reply)
    {
      var r := x.request;
      billing := FileReceipt(billing, x, FiledAs(x));
      if books.reservations[r].state.Held? {
        SuspendReservation(r);
      }
      :- MoveRequestTo(r, RequestState.Unknown);
      assert requests == old(State()).SetState(r, RequestState.Unknown).requests;
      return Ok(ReceiptPending);
    }

    method TakeDecisiveReceipt(x: Receipt) returns (reply: Result<Reply>)
      requires Decisive(x)
      requires x.request in requests && x.request in books.reservations && x.request in billing.quotes
      modifies this`requests, this`books, this`billing
      ensures Drafted(old(State()), DecisiveReceipt(old(State()), x), State(), reply)
    {
      billing := FileReceipt(billing, x, FiledAs(x));
      var r, actual, max := x.request, ChargeOf(x), billing.quotes[x.request].max;
      :- Need(books.reservations[r].Holds(), ReservationSettlementConflict);
      var over := actual > max;
      ChargeReservation(r, actual);
      InsertSettlement(r, actual, max);
      :- SettleRequestState(r, requests[r].state, if x.status.FailedNoCharge? then RequestState.Failed else RequestState.Succeeded);
      BlockOverQuote(r, requests[r].key, actual, max);
      return Ok(ReceiptSettled(actual, over));
    }

    method InsertSettlement(r: Id, actual: nat, max: int)
      modifies this`billing
      ensures billing == RecordCharge(old(billing), r, actual, max)
    {
      var over := actual > max;
      billing := billing.(settlements := billing.settlements[r := BillingSettlement(actual, over, over)]);
    }

    method BlockOverQuote(r: Id, key: Id, actual: nat, max: int)
      modifies this`billing
      ensures billing == BlockIfOver(old(billing), r, key, actual, max)
    {
      if actual > max {
        billing := BlockKey(billing, key, Block(r, OverQuote, max, actual, actual - max));
      }
    }
  }

  /** The first query sorts by age and user. */
  predicate Earlier(x: Job, y: Job) {
    x.createdAt < y.createdAt || (x.createdAt == y.createdAt && x.user <= y.user)
  }

  ghost function NextUser(db: Db, floor: Option<Id>): Option<Id> {
    var h := HeadOf(db, floor);
    if h.None? then None else Some(db.jobs[h.value].user)
  }

  /** The rows of the second query, which does not ask whether the user is active. */
  predicate QueuedFor(db: Db, user: Id, r: Id) {
    && r in db.jobs && db.jobs[r].state.Queued? && db.jobs[r].user == user
    && r in db.requests && db.requests[r].state.Queued? && db.requests[r].user == user
  }

  ghost predicate Oldest(db: Db, user: Id, r: Id) {
    QueuedFor(db, user, r) && forall q :: QueuedFor(db, user, q) ==> Precedes(db, r, q)
  }

  ghost function OldestOf(db: Db, user: Id): Option<Id> {
    if r :| Oldest(db, user, r) then Some(r) else None
  }

  lemma HeadIsOldest(db: Db, floor: Option<Id>)
    requires HeadOf(db, floor).Some?
    ensures OldestOf(db, db.jobs[HeadOf(db, floor).value].user) == HeadOf(db, floor)
  {
    var h := HeadOf(db, floor).value;
    var user := db.jobs[h].user;
    assert forall q :: QueuedFor(db, user, q) ==> WaitingAbove(db, floor, q);
    assert Oldest(db, user, h);
    var o := OldestOf(db, user).value;
    assert Precedes(db, h, o) && Precedes(db, o, h);
  }

  /** Asking for the next user, wrapping around once, and then for its oldest job picks
      the head of the queue. */
  lemma PickIsTwoQueries(db: Db)
    ensures var above := NextUser(db, db.cursor);
      var user := if above.None? && db.cursor.Some? then NextUser(db, None) else above;
      if user.None? then Pick(db) == None else Pick(db) == OldestOf(db, user.value)
  {
    if HeadOf(db, db.cursor).Some? { HeadIsOldest(db, db.cursor); }
    if HeadOf(db, None).Some? { HeadIsOldest(db, None); }
  }

  ghost predicate Recovers(db: Db, r: Id, now: int) {
    r in db.leases && Recoverable(db, r) && Fits(now + DEFAULT_RECONCILE_TTL)
  }

  /** Of the expired leases, those of s have been recovered. */
  ghost predicate Halfway(was: Db, s: set<Id>, now: Db, time: int) {
    && now == RecoverRows(was, s, time)
    && (forall r :: r in s ==> Recovers(was, r, time))
  }

  lemma RecoverNone(db: Db, now: int)
    ensures RecoverRows(db, {}, now) == db
  {
    var db' := RecoverRows(db, {}, now);
    assert db'.books.reservations == db.books.reservations;
    assert db'.requests == db.requests && db'.leases == db.leases;
    assert db'.jobs == db.jobs && db'.attempts == db.attempts;
  }

  lemma StillToRecover(db: Db, s: set<Id>, r: Id, now: int)
    requires r !in s && r in db.leases
    ensures var half := RecoverRows(db, s, now);
      && r in half.leases && half.leases[r] == db.leases[r]
      && (Recoverable(half, r) <==> Recoverable(db, r))
  {
    var half := RecoverRows(db, s, now);
    assert SameRow(db.requests, half.requests, r) && SameRow(db.jobs, half.jobs, r) && SameRow(db.attempts, half.attempts, r);
    assert SyncJob(half, r, JobState.Unknown).Ok? <==> SyncJob(db, r, JobState.Unknown).Ok?;
  }

  lemma RecoverCompose(db: Db, s: set<Id>, r: Id, now: int)
    ensures RecoverRows(RecoverRows(db, s, now), {r}, now) == RecoverRows(db, s + {r}, now)
  {
    var half := RecoverRows(db, s, now);
    var x, y := RecoverRows(half, {r}, now), RecoverRows(db, s + {r}, now);
    assert x.books.reservations == y.books.reservations;
    assert x.requests == y.requests;
    assert x.leases == y.leases;
    JobsCompose(db, s, r, now);
  }

  lemma JobsCompose(db: Db, s: set<Id>, r: Id, now: int)
    ensures var x, y := RecoverRows(RecoverRows(db, s, now), {r}, now), RecoverRows(db, s + {r}, now);
      x.jobs == y.jobs && x.attempts == y.attempts
  {
  }

  lemma RecoverOne(db: Db, db': Db, r: Id, now: int)
    requires r in db.leases && Recoverable(db, r)
    requires db' == db.(books := db'.books, requests := db'.requests, leases := db'.leases, jobs := db'.jobs, attempts := db'.attempts)
    requires db'.books == Suspend(db.books, {r})
    requires db'.requests == db.requests[r := db.requests[r].(state := RequestState.Unknown)]
    requires db'.leases == db.leases[r := db.leases[r].(state := LeaseState.Unknown, reconcileUntil := Some(now + DEFAULT_RECONCILE_TTL))]
    requires if db.leases[r].kind.VideoJob?
             then db'.jobs == SyncJob(db, r, JobState.Unknown).value.jobs && db'.attempts == SyncJob(db, r, JobState.Unknown).value.attempts
             else db'.jobs == db.jobs && db'.attempts == db.attempts
    ensures db' == RecoverRows(db, {r}, now)
  {
    var y := RecoverRows(db, {r}, now);
    assert db'.requests == y.requests;
    assert db'.leases == y.leases;
    RecoverOneJob(db, r, now);
  }

  lemma RecoverOneJob(db: Db, r: Id, now: int)
    requires r in db.leases && Recoverable(db, r)
    ensures var y := RecoverRows(db, {r}, now);
      if db.leases[r].kind.VideoJob?
      then SyncJob(db, r, JobState.Unknown).value.jobs == y.jobs && SyncJob(db, r, JobState.Unknown).value.attempts == y.attempts
      else db.jobs == y.jobs && db.attempts == y.attempts
  {
    var y := RecoverRows(db, {r}, now);
    if db.leases[r].kind.VideoJob? {
      assert SyncJob(db, r, JobState.Unknown).value.jobs == y.jobs;
      assert SyncJob(db, r, JobState.Unknown).value.attempts == y.attempts;
    } else {
      assert db.jobs == y.jobs;
      assert db.attempts == y.attempts;
    }
  }

  /** Entering a request as queued is entering it as reserved and queueing it. */
  lemma EnteredAsQueued(db: Db, s: Submission, r: Id)
    ensures var x, y := EnterReserved(db, s, r, RequestState.Reserved), EnterReserved(db, s, r, RequestState.Queued);
      if x.Ok? then y.Ok? && r in x.value.requests && x.value.requests[r].state.Reserved?
                    && y.value == x.value.SetState(r, RequestState.Queued)
      else y == x
  {
  }

  lemma LeasedAsQueued(db: Db, s: Submission, t: Terms, r: Id, now: int)
    ensures var x, y := EnterLeased(db, s, t, r, RequestState.Reserved, now), EnterLeased(db, s, t, r, RequestState.Queued, now);
      if x.Ok? then y.Ok? && r in x.value.requests && x.value.requests[r].state.Reserved?
                    && y.value == x.value.SetState(r, RequestState.Queued)
                    && x.value.jobs == db.jobs && x.value.attempts == db.attempts && x.value.site == db.site
      else y == x
  {
    EnteredAsQueued(db, s, r);
  }

  /** The first move along a path that ends by settling. */
  predicate Steps(current: RequestState, path: seq<RequestState>) {
    current.CanTransitionTo(if path == [] then RequestState.Settled else path[0])
  }

  function Faulty(b: Books, s: set<Id>): set<Id>
    requires s <= b.reservations.Keys
  {
    set r | r in s && !Accepts(b, r, PER_ACCOUNT_AS_WRITTEN)
  }

  function SuspectsAmong(b: Books, s: set<Id>): set<AccountId>
    requires s <= b.reservations.Keys
  {
    set r, a | r in Faulty(b, s) && a in AccountsOf(b.reservations[r]) :: a
  }

  lemma SuspectsGrow(b: Books, s: set<Id>, r: Id)
    requires s <= b.reservations.Keys && r in b.reservations && r !in s
    ensures Faulty(b, s + {r}) == Faulty(b, s) + if Accepts(b, r, PER_ACCOUNT_AS_WRITTEN) then {} else {r}
    ensures SuspectsAmong(b, s + {r})
         == SuspectsAmong(b, s) + if Accepts(b, r, PER_ACCOUNT_AS_WRITTEN) then {} else set a | a in AccountsOf(b.reservations[r])
  {
  }

  lemma QuarantineMore(b: Books, s: set<AccountId>, t: set<AccountId>)
    ensures Quarantine(Quarantine(b, s), t) == Quarantine(b, s + t)
  {
  }

  lemma SuspectsAreOfRejected(b: Books)
    ensures SuspectsAmong(b, b.reservations.Keys) == Suspects(b)
  {
  }

  /** Quarantine changes nothing the checker looks at. */
  lemma QuarantineKeepsVerdicts(b: Books, s: set<AccountId>, r: Id)
    requires r in b.reservations
    ensures Accepts(Quarantine(b, s), r, PER_ACCOUNT_AS_WRITTEN) == Accepts(b, r, PER_ACCOUNT_AS_WRITTEN)
  {
    var q := Quarantine(b, s);
    assert forall a :: VersionOf(q, a) == VersionOf(b, a);
    assert forall e :: RowFits(q, b.reservations[r], e) == RowFits(b, b.reservations[r], e);
  }
}
