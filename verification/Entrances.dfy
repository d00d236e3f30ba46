/**
 What a new request needs to get in (src-core/src/requests.rs:124-482, 857-1114,
 src-core/src/quota.rs:1774-1999, 2523-2652), and what it holds once it is.
 */
module Entrances {
  import opened Basics
  import opened States
  import opened Books
  import opened Tables
  import opened Selection
  import opened Quota
  import opened Requests
  import opened Jobs
  import opened BillingOps
  import opened EventGroups
  import opened Coherence
  import opened CoherenceJobs
  import opened History
  import opened Runs
  import opened Theorems
  import opened Reports

  // ------------------------------------------------------------------ holding

  /** The accounts a hold of this Key and kind stands on: the Key's, and the user's cap if
      there is one. */
  predicate Under(b: Books, user: Id, key: Id, kind: Kind, a: AccountId) {
    a == KeyOf(user, key, kind) || (a == CapOf(user, kind) && a in b.accounts)
  }

  /** All of them can bear the hold; the Key's must exist. */
  ghost predicate Bears(b: Books, user: Id, key: Id, kind: Kind, amount: int) {
    forall a :: Under(b, user, key, kind, a) ==>
      a in b.accounts && b.accounts[a].enabled && b.accounts[a].migration.Ready? && amount <= Available(b, a)
  }

  /** r holds the amount on each of them, and nothing else has moved. */
  ghost predicate HoldsFor(b: Books, b': Books, r: Id, user: Id, key: Id, kind: Kind, amount: int) {
    && b'.accounts == b.accounts
    && r !in b.reservations
    && b'.reservations == b.reservations[r := Reservation(user, key, kind, amount, ReservationState.Held, KeyOf(user, key, kind),
                                                           if CapOf(user, kind) in b.accounts then Some(CapOf(user, kind)) else None)]
    && forall a :: Shifts(b, b', a, if Under(b, user, key, kind, a) then -amount else 0,
                          if Under(b, user, key, kind, a) then amount else 0, 0)
  }

  ghost function Hold(b: Books, r: Id, user: Id, key: Id, kind: Kind, amount: int): Books
    requires r !in b.reservations && Bears(b, user, key, kind, amount)
    ensures ReserveDual(b, r, user, key, kind, amount) == Ok(Placed(Hold(b, r, user, key, kind, amount)))
  {
    assert Under(b, user, key, kind, KeyOf(user, key, kind));
    assert CapOf(user, kind) in b.accounts ==> Under(b, user, key, kind, CapOf(user, kind));
    ReserveDual(b, r, user, key, kind, amount).value.books
  }

  /** A new hold is placed if and only if every account it stands on can bear it. */
  lemma HeldExactly(b: Books, r: Id, user: Id, key: Id, kind: Kind, amount: int)
    requires r !in b.reservations
    ensures var t := ReserveDual(b, r, user, key, kind, amount);
      && (t.Ok? && t.value.Placed? <==> Bears(b, user, key, kind, amount))
      && (t.Ok? && t.value.Placed? ==> HoldsFor(b, t.value.books, r, user, key, kind, amount))
      && (t.Ok? ==> !t.value.AlreadyReserved?)
  {
    var t := ReserveDual(b, r, user, key, kind, amount);
    if Bears(b, user, key, kind, amount) { assert t == Ok(Placed(Hold(b, r, user, key, kind, amount))); }
    if t.Ok? && t.value.Placed? {
      var x := Reservation(user, key, kind, amount, ReservationState.Held, KeyOf(user, key, kind),
                           if CapOf(user, kind) in b.accounts then Some(CapOf(user, kind)) else None);
      assert t.value.books == Place(b, r, x);
      forall a
        ensures Shifts(b, t.value.books, a, if Under(b, user, key, kind, a) then -amount else 0,
                       if Under(b, user, key, kind, a) then amount else 0, 0)
      {
        PlaceFigures(b, r, x, a);
      }
    }
  }

  predicate Off(b: Books, a: AccountId) { a in b.accounts && !b.accounts[a].enabled }
  predicate Pending(b: Books, a: AccountId) { a in b.accounts && b.accounts[a].enabled && !b.accounts[a].migration.Ready? }

  /** What else stands in the way of a new hold: no account of the Key, or one of the two out
      of service, the Key's looked at first. */
  lemma HoldRefusals(b: Books, r: Id, user: Id, key: Id, kind: Kind, amount: int)
    requires r !in b.reservations
    ensures var t, a, c := ReserveDual(b, r, user, key, kind, amount), KeyOf(user, key, kind), CapOf(user, kind);
      && (t == Err(KeyQuotaNotConfigured) <==> a !in b.accounts)
      && (t == Err(BudgetAccountDisabled) <==> Off(b, a) || (a in b.accounts && !Pending(b, a) && Off(b, c)))
      && (t == Err(QuotaMigrationPending) <==> Pending(b, a) || (a in b.accounts && !Off(b, a) && Pending(b, c)))
      && (t.Ok? <==> a in b.accounts && !Off(b, a) && !Pending(b, a) && !Off(b, c) && !Pending(b, c))
  {
  }

  /** A request that has a reservation gets no second one: its own is recognised, and any
      other user, Key or kind is refused. */
  lemma HeldOnce(b: Books, r: Id, user: Id, key: Id, kind: Kind, amount: int)
    requires r in b.reservations
    ensures var x, t := b.reservations[r], ReserveDual(b, r, user, key, kind, amount);
      t == if (x.user, x.key, x.kind) == (user, key, kind) then Ok(AlreadyReserved) else Err(ReservationRequestConflict)
  {
  }

  /** A refusal for want of balance names what the poorest account has. */
  lemma ShortByLeast(b: Books, r: Id, user: Id, key: Id, kind: Kind, amount: int)
    requires r !in b.reservations
    requires var t := ReserveDual(b, r, user, key, kind, amount); t.Ok? && t.value.Short?
    ensures var n := ReserveDual(b, r, user, key, kind, amount).value.available;
      && n < amount
      && (forall a :: Under(b, user, key, kind, a) ==> n <= Available(b, a))
      && (exists a :: Under(b, user, key, kind, a) && n == Available(b, a))
  {
    var n := ReserveDual(b, r, user, key, kind, amount).value.available;
    assert Under(b, user, key, kind, KeyOf(user, key, kind));
    if n != Available(b, KeyOf(user, key, kind)) { assert Under(b, user, key, kind, CapOf(user, kind)); }
  }

  // ---------------------------------------------------------------- entering

  /** The request r as submitted, in this state, with its client key. */
  predicate Entered(db: Db, db': Db, s: Submission, r: Id, state: RequestState) {
    && db'.requests == db.requests[r := Request(s.user, s.key, s.endpoint, s.model, s.content, state)]
    && db'.idem == db.idem[IdemKey(s.user, s.key, s.endpoint, s.clientKey) := IdemRow(s.content, r)]
    && db'.site == db.site && db'.billing == db.billing && db'.cursor == db.cursor
  }

  predicate New(db: Db, s: Submission) { IdemKey(s.user, s.key, s.endpoint, s.clientKey) !in db.idem }

  predicate ActiveKey(db: Db, user: Id, key: Id) {
    key in db.site.keys && db.site.keys[key].user == user && db.site.keys[key].active
  }

  predicate Makes(t: Transaction, r: Id) { t.Ok? && t.value.1 == Reply.Created(r) }

  lemma EntersExactly(db: Db, s: Submission, r: Id, state: RequestState)
    requires Healthy(db) && r !in db.requests
    ensures r !in db.books.reservations && r !in db.leases && r !in db.jobs && r !in db.attempts
    ensures var e := EnterReserved(db, s, r, state);
      && (e.Ok? <==> Bears(db.books, s.user, s.key, s.kind, s.amount))
      && (e.Ok? ==> Entered(db, e.value, s, r, state) && HoldsFor(db.books, e.value.books, r, s.user, s.key, s.kind, s.amount)
                    && e.value.leases == db.leases && e.value.jobs == db.jobs && e.value.attempts == db.attempts)
  {
    hide Healthy, ReserveDual, Bears, HoldsFor;
    HealthyCase(db, r);
    HeldExactly(db.books, r, s.user, s.key, s.kind, s.amount);
  }

  /** begin_request and begin_billed_request ask for an active Key and, the first, for a
      policy; they hold nothing and count nothing. */
  lemma BeginsExactly(db: Db, s: Submission, policy: Option<Kind>, need: bool, r: Id)
    requires r !in db.requests
    ensures var t := Begin(db, s, policy, need, r);
      && (Makes(t, r) <==> ActiveKey(db, s.user, s.key) && New(db, s) && (need ==> policy.Some?))
      && (Makes(t, r) ==> Entered(db, t.value.0, s, r, RequestState.Received)
                          && t.value.0 == db.(requests := t.value.0.requests, idem := t.value.0.idem))
  {
  }

  /** The requests of a Key that count against its concurrency. */
  ghost function Counted(db: Db, key: Id): set<Id> {
    set q | q in db.requests && db.requests[q].key == key
            && db.requests[q].state in {RequestState.Received, RequestState.Validating, RequestState.Reserved, RequestState.Queued,
                                        RequestState.Dispatched, RequestState.Completing, RequestState.Unknown}
  }

  lemma CountedAreActive(db: Db, key: Id)
    ensures ActiveRequests(db.requests, key) == Counted(db, key)
  {
  }

  predicate WellFormed(s: Submission, now: int) { 0 < s.amount && 0 <= s.ttl && now + s.ttl <= MAX_I64 }

  /** preflight_reserve refuses a Key at its limit, whatever else is wrong with the balance;
      below it, the request is made exactly when its hold can be borne. */
  lemma ReservesExactly(db: Db, s: Submission, r: Id, now: int)
    requires Healthy(db) && r !in db.requests
    ensures var t, admitted := PreflightReserve(db, s, r, now), WellFormed(s, now) && ActiveKey(db, s.user, s.key) && New(db, s);
      && (t == Err(KeyConcurrencyExceeded) <==> admitted && |Counted(db, s.key)| >= db.site.keys[s.key].maxConcurrency)
      && (Makes(t, r) <==>
            admitted && |Counted(db, s.key)| < db.site.keys[s.key].maxConcurrency
            && Bears(db.books, s.user, s.key, s.kind, s.amount))
      && (Makes(t, r) ==>
            && Entered(db, t.value.0, s, r, RequestState.Reserved)
            && HoldsFor(db.books, t.value.0.books, r, s.user, s.key, s.kind, s.amount)
            && t.value.0.leases == db.leases && t.value.0.jobs == db.jobs && t.value.0.attempts == db.attempts)
      && (!Makes(t, r) ==> After(db, t) == db)
      && (t.Ok? && t.value.1.Insufficient? ==>
            t.value.1.required == s.amount
            && ReserveDual(db.books, r, s.user, s.key, s.kind, s.amount) == Ok(Short(t.value.1.available)))
  {
    hide Healthy, EnterReserved, ReserveDual, Bears, HoldsFor, Entered, ActiveRequests, Counted;
    ShortIsTold(db, s, r, RequestState.Reserved);
    CountedAreActive(db, s.key);
    EntersExactly(db, s, r, RequestState.Reserved);
    HoldErrors(db, s, r, RequestState.Reserved);
  }

  lemma ShortIsTold(db: Db, s: Submission, r: Id, state: RequestState)
    ensures var e := EnterReserved(db, s, r, state);
      e.Err? && e.error.QuotaInsufficient? ==>
        e.error.required == s.amount && ReserveDual(db.books, r, s.user, s.key, s.kind, s.amount) == Ok(Short(e.error.available))
  {
  }

  /** No refusal of a hold looks like one of a limit. */
  lemma HoldErrors(db: Db, s: Submission, r: Id, state: RequestState)
    ensures EnterReserved(db, s, r, state) != Err(KeyConcurrencyExceeded)
  {
  }

  // -------------------------------------------------------------- scheduling

  /** The account is what the terms name. */
  predicate Suits(a: Id, u: Upstream, t: Terms) {
    && (t.provider.Some? ==> u.provider == t.provider.value)
    && (t.region.Some? ==> u.region == Some(t.region.value))
    && (forall c :: c in t.capabilities ==> c in u.capabilities)
    && (t.allowed.Some? ==> a in t.allowed.value)
    && (t.dedicated.Some? ==> a == t.dedicated.value)
  }

  predicate InService(u: Upstream, now: int) {
    u.enabled && u.available && (u.cooldownUntil.Some? ==> u.cooldownUntil.value <= now)
  }

  /** Its newest observation of this kind is a fresh reading. */
  predicate Known(u: Upstream, t: Terms, kind: Kind, now: int) {
    kind in u.newest &&
    var o := u.newest[kind];
    && o.fromReader && o.markedFresh && o.observedAt <= now < o.staleAt && now - o.observedAt <= t.maxAge
    && o.scale > 0 && o.units.Some? && o.units.value >= 0
  }

  /** It shows enough, and a slot is left. */
  predicate HasRoom(db: Db, t: Terms, kind: Kind, now: int, a: Id)
    requires a in db.site.upstream && Known(db.site.upstream[a], t, kind, now)
  {
    var u := db.site.upstream[a];
    && u.newest[kind].units.value / u.newest[kind].scale >= t.predicted + t.margin
    && |set q | q in db.leases && db.leases[q].account == a
                && db.leases[q].state in {LeaseState.Held, LeaseState.Active, LeaseState.Unknown}| < u.maxConcurrency
  }

  /** The account can serve these terms now. */
  ghost predicate Serves(db: Db, t: Terms, kind: Kind, now: int, a: Id) {
    a in db.site.upstream &&
    var u := db.site.upstream[a];
    Suits(a, u, t) && InService(u, now) && Known(u, t, kind, now) && HasRoom(db, t, kind, now, a)
  }

  lemma SlotsAreLeases(leases: map<Id, Lease>, a: Id)
    ensures (set q | q in leases && leases[q].account == a && leases[q].state in {LeaseState.Held, LeaseState.Active, LeaseState.Unknown})
         == Occupants(leases, a)
  {
  }

  lemma ServesIsEligible(db: Db, t: Terms, kind: Kind, now: int, a: Id)
    ensures Serves(db, t, kind, now, a) <==> Eligible(db.site.upstream, db.leases, t, kind, now, a)
  {
    SlotsAreLeases(db.leases, a);
  }

  function UnitsOf(db: Db, kind: Kind, a: Id): int
    requires a in db.site.upstream && kind in db.site.upstream[a].newest && db.site.upstream[a].newest[kind].units.Some?
    requires db.site.upstream[a].newest[kind].scale > 0
  {
    db.site.upstream[a].newest[kind].units.value / db.site.upstream[a].newest[kind].scale
  }

  /** More units or fewer leases, as the strategy says, and on a tie the lower id. */
  ghost predicate ChosenOver(db: Db, t: Terms, kind: Kind, now: int, a: Id, c: Id)
    requires Serves(db, t, kind, now, a) && Serves(db, t, kind, now, c)
  {
    match t.strategy
    case HighestNormalizedAvailable =>
      var m, n := UnitsOf(db, kind, a), UnitsOf(db, kind, c); m > n || (m == n && a <= c)
    case LeastActiveSlots =>
      var m, n := Slots(db.leases, a), Slots(db.leases, c); m < n || (m == n && a <= c)
  }

  ghost predicate Preferred(db: Db, t: Terms, kind: Kind, now: int, a: Id) {
    Serves(db, t, kind, now, a) && forall c :: Serves(db, t, kind, now, c) ==> ChosenOver(db, t, kind, now, a, c)
  }

  lemma BestIsChosenOver(db: Db, t: Terms, kind: Kind, now: int, a: Id, c: Id)
    requires Best(db.site.upstream, db.leases, t, kind, now, a) && Serves(db, t, kind, now, c)
    ensures Serves(db, t, kind, now, a) && ChosenOver(db, t, kind, now, a, c)
  {
    ServesIsEligible(db, t, kind, now, a);
    ServesIsEligible(db, t, kind, now, c);
    assert NotAfter(db.site.upstream, db.leases, t, kind, now, a, c);
  }

  /** An account is chosen if and only if one serves, and then it is the preferred one. */
  lemma ChoosesExactly(db: Db, t: Terms, kind: Kind, now: int)
    ensures var c := Select(db.site.upstream, db.leases, t, kind, now);
      && (c.Ok? <==> t.predicted + t.margin <= MAX_I64 && exists a :: Serves(db, t, kind, now, a))
      && (c.Ok? ==> Preferred(db, t, kind, now, c.value))
  {
    hide Serves, Eligible, Best, ChosenOver;
    var c := Select(db.site.upstream, db.leases, t, kind, now);
    forall a ensures Serves(db, t, kind, now, a) <==> Eligible(db.site.upstream, db.leases, t, kind, now, a) {
      ServesIsEligible(db, t, kind, now, a);
    }
    if c.Ok? {
      BestServes(db, t, kind, now, c.value);
      forall a | Serves(db, t, kind, now, a) ensures ChosenOver(db, t, kind, now, c.value, a) {
        BestIsChosenOver(db, t, kind, now, c.value, a);
      }
    }
  }

  lemma BestServes(db: Db, t: Terms, kind: Kind, now: int, a: Id)
    requires Best(db.site.upstream, db.leases, t, kind, now, a)
    ensures Serves(db, t, kind, now, a)
  {
    ServesIsEligible(db, t, kind, now, a);
  }

  /** A refusal names what the accounts lack: none suits, none of those is in service, none
      of those is known, or none has room. */
  lemma RefusalNamesLack(db: Db, t: Terms, kind: Kind, now: int)
    ensures var c, up := Select(db.site.upstream, db.leases, t, kind, now), db.site.upstream;
      c.Err? ==>
        && (c.error == InvalidQuotaAmount <==> t.predicted + t.margin > MAX_I64)
        && (t.predicted + t.margin <= MAX_I64 ==>
              && (c.error == CapabilityMismatch <==> forall a :: a in up ==> !Suits(a, up[a], t))
              && (c.error == AccountCooling <==>
                    && (exists a :: a in up && Suits(a, up[a], t))
                    && forall a :: a in up && Suits(a, up[a], t) ==> !InService(up[a], now))
              && (c.error == NoFreshObservation <==>
                    && (exists a :: a in up && Suits(a, up[a], t) && InService(up[a], now))
                    && forall a :: a in up && Suits(a, up[a], t) && InService(up[a], now) ==> !Known(up[a], t, kind, now))
              && (c.error == NoUpstreamCapacity <==>
                    exists a :: a in up && Suits(a, up[a], t) && InService(up[a], now) && Known(up[a], t, kind, now)))
  {
    hide Eligible, Suits, InService, Known, Matches, Usable, Selection.Observed;
    var up := db.site.upstream;
    forall a | a in up
      ensures Suits(a, up[a], t) <==> Matches(a, up[a], t)
      ensures InService(up[a], now) <==> Usable(up[a], now)
      ensures Known(up[a], t, kind, now) <==> Selection.Observed(up[a], kind, t, now)
    {
      SameFilters(a, up[a], t, kind, now);
    }
    assert forall a :: a in up ==>
      && (Passes1(up, t, a) <==> Suits(a, up[a], t))
      && (Passes2(up, t, now, a) <==> Suits(a, up[a], t) && InService(up[a], now))
      && (Passes3(up, t, kind, now, a) <==> Suits(a, up[a], t) && InService(up[a], now) && Known(up[a], t, kind, now));
  }

  lemma SameFilters(a: Id, u: Upstream, t: Terms, kind: Kind, now: int)
    ensures Suits(a, u, t) <==> Matches(a, u, t)
    ensures InService(u, now) <==> Usable(u, now)
    ensures Known(u, t, kind, now) <==> Selection.Observed(u, kind, t, now)
  {
  }

  /** What both scheduling entrances ask of a submission before they look for a replay. */
  predicate Admitted(db: Db, p: Principal, s: Submission, t: Terms, policy: Option<Kind>) {
    && s.amount > 0 && s.ttl >= 0 && t.predicted > 0 && t.margin >= 0 && t.maxAge >= 0 && t.leaseTtl > 0 && t.reconcileTtl > 0
    && p.user == s.user && p.key == s.key && s.endpoint in p.scopes
    && ActiveKey(db, s.user, s.key) && policy == Some(s.kind)
  }

  /** And what each answers for: the numbers first, then who asks, then the scope, the Key and
      the policy. */
  lemma AdmissionNamesLack(db: Db, p: Principal, s: Submission, t: Terms, policy: Option<Kind>)
    ensures var c := Admit(db, p, s, t, policy);
      var numbers := s.amount > 0 && s.ttl >= 0 && t.predicted > 0 && t.margin >= 0 && t.maxAge >= 0 && t.leaseTtl > 0 && t.reconcileTtl > 0;
      var own, scoped := p.user == s.user && p.key == s.key, s.endpoint in p.scopes;
      && (c.Pass? <==> Admitted(db, p, s, t, policy))
      && (c == Fail(InvalidQuotaAmount) <==> !numbers)
      && (c == Fail(InvalidRequestIdentity) <==> numbers && (!own || (scoped && !ActiveKey(db, s.user, s.key))))
      && (c == Fail(MissingScope) <==> numbers && own && !scoped)
      && (c == Fail(BudgetPolicyMissing) <==> numbers && own && scoped && ActiveKey(db, s.user, s.key) && policy != Some(s.kind))
  {
  }

  predicate Video(s: Submission) { s.endpoint == VIDEOS && s.kind == VideoJob }

  predicate JobIdUsed(db: Db, id: Id) { exists q :: q in db.jobs && db.jobs[q].id == id }

  predicate InTime(now: int, span: int) { now + span <= MAX_I64 }

  /** The lease a scheduled request gets: on the preferred account, until both its deadlines. */
  ghost predicate Leased(db: Db, db': Db, s: Submission, t: Terms, r: Id, now: int) {
    && r in db'.leases && db'.leases == db.leases[r := db'.leases[r]]
    && db'.leases[r] == Lease(db'.leases[r].account, s.kind, LeaseState.Held, now + t.leaseTtl, Some(now + t.reconcileTtl))
    && Preferred(db, t, s.kind, now, db'.leases[r].account)
  }

  /** preflight_reserve_with_lease, and preflight_video_job: exactly when a request is made,
      and everything it then has. No limit of the Key is asked for. */
  lemma SchedulesExactly(db: Db, p: Principal, s: Submission, t: Terms, policy: Option<Kind>, job: Option<Id>, r: Id, now: int)
    requires Healthy(db) && r !in db.requests
    ensures var tx := PreflightWithLease(db, p, s, t, policy, job, r, now);
      && (Makes(tx, r) <==>
            && (job.Some? ==> Video(s) && !JobIdUsed(db, job.value))
            && Admitted(db, p, s, t, policy) && New(db, s)
            && t.predicted + t.margin <= MAX_I64 && (exists a :: Serves(db, t, s.kind, now, a))
            && InTime(now, s.ttl) && InTime(now, t.leaseTtl) && InTime(now, t.reconcileTtl)
            && Bears(db.books, s.user, s.key, s.kind, s.amount))
      && (Makes(tx, r) ==>
            var db' := tx.value.0;
            && Entered(db, db', s, r, if job.Some? then RequestState.Queued else RequestState.Reserved)
            && HoldsFor(db.books, db'.books, r, s.user, s.key, s.kind, s.amount)
            && Leased(db, db', s, t, r, now)
            && (if job.None? then db'.jobs == db.jobs && db'.attempts == db.attempts
                else
                  && db'.jobs == db.jobs[r := Job(job.value, s.user, JobState.Queued, now, None, None, None)]
                  && db'.attempts == db.attempts[r := Attempt(db'.leases[r].account, AttemptState.Queued)]))
  {
    hide Healthy, Serves, Preferred, EnterReserved, Bears, HoldsFor, Select;
    ChoosesExactly(db, t, s.kind, now);
    EntersExactly(db, s, r, if job.Some? then RequestState.Queued else RequestState.Reserved);
  }

  /** enqueue_video_job: exactly when a request is made; its job waits with its terms, and no
      account is looked at. */
  lemma QueuesExactly(db: Db, p: Principal, s: Submission, t: Terms, policy: Option<Kind>, job: Id, r: Id, now: int)
    requires Healthy(db) && r !in db.requests
    ensures var tx := EnqueueVideo(db, p, s, t, policy, job, r, now);
      && (Makes(tx, r) <==>
            && Video(s) && !JobIdUsed(db, job) && Admitted(db, p, s, t, policy) && New(db, s)
            && InTime(now, s.ttl) && Bears(db.books, s.user, s.key, s.kind, s.amount))
      && (Makes(tx, r) ==>
            var db' := tx.value.0;
            && Entered(db, db', s, r, RequestState.Queued)
            && HoldsFor(db.books, db'.books, r, s.user, s.key, s.kind, s.amount)
            && db'.leases == db.leases && db'.attempts == db.attempts
            && db'.jobs == db.jobs[r := Job(job, s.user, JobState.Queued, now, None, None, Some(t))])
  {
    hide Healthy, EnterReserved, Bears, HoldsFor;
    EntersExactly(db, s, r, RequestState.Queued);
  }

  /** A new lease, of a request or of a claimed job, is left alone by recovery until its first
      deadline. */
  lemma NewLeaseLasts(db: Db, db': Db, s: Submission, t: Terms, r: Id, now: int, later: int)
    requires Leased(db, db', s, t, r, now)
    ensures Expired(db', r, later) <==> now + t.leaseTtl <= later
  {
  }

  // ----------------------------------------------------------------- quoting

  /** The quote names a positive amount of credits and its source. */
  predicate Complete(q: Quote) { q.credits && q.max > 0 && q.named && q.fingerprint.Some? }

  /** It is for this very request. */
  predicate For(x: Request, q: Quote) { x.endpoint == q.endpoint && x.model == q.model && Some(x.content) == q.fingerprint }

  /** Where a snapshot is given, it is fresh and covers what the Keys have bound already. */
  ghost predicate Covered(b: Books, snapshot: Option<Snapshot>, now: int) {
    snapshot.Some? ==>
      && 0 < snapshot.value.updatedAt <= now <= snapshot.value.updatedAt + 300_000
      && SumOf(BoundAtLeastZero, b, CreditKeys(b)) <= snapshot.value.total
  }

  ghost predicate Quotable(db: Db, r: Id, q: Quote, snapshot: Option<Snapshot>, now: int) {
    && Complete(q) && now < q.expires && r in db.requests && For(db.requests[r], q) && Covered(db.books, snapshot, now)
    && db.requests[r].state.Received?
    && ActiveKey(db, db.requests[r].user, db.requests[r].key) && db.requests[r].key !in db.billing.blocks
  }

  /** A first quote is refused for the Key's limit exactly when its other requests already
      reach it; below, it is taken exactly when its maximum can be held. */
  lemma QuotesExactly(db: Db, r: Id, q: Quote, snapshot: Option<Snapshot>, now: int)
    requires Healthy(db) && r !in db.billing.quotes
    ensures Quotable(db, r, q, snapshot, now) ==> db.requests[r].key in db.site.keys
    ensures var t, quotable := ReserveQuote(db, r, q, snapshot, now), Quotable(db, r, q, snapshot, now);
      && (t == Err(KeyConcurrencyExceeded) <==>
            quotable && |Counted(db, db.requests[r].key) - {r}| >= db.site.keys[db.requests[r].key].maxConcurrency)
      && (Makes(t, r) <==>
            && quotable && |Counted(db, db.requests[r].key) - {r}| < db.site.keys[db.requests[r].key].maxConcurrency
            && Bears(db.books, db.requests[r].user, db.requests[r].key, Credits, q.max)
            && forall k :: k in db.billing.quotes ==> db.billing.quotes[k].id != q.id)
      && (Makes(t, r) ==>
            var db', x := t.value.0, db.requests[r];
            && HoldsFor(db.books, db'.books, r, x.user, x.key, Credits, q.max)
            && db' == db.(requests := db.requests[r := x.(state := RequestState.Reserved)], books := db'.books,
                          billing := db.billing.(quotes := db.billing.quotes[r := q])))
  {
    hide Healthy, ReserveDual, Bears, HoldsFor, ActiveRequests, Counted, SumOf;
    HealthyCase(db, r);
    if r in db.requests {
      var x := db.requests[r];
      CountedAreActive(db, x.key);
      if r !in db.books.reservations { HeldExactly(db.books, r, x.user, x.key, Credits, q.max); }
      ReserveErrors(db.books, r, x.user, x.key, Credits, q.max);
    }
  }

  lemma ReserveErrors(b: Books, r: Id, user: Id, key: Id, kind: Kind, amount: int)
    ensures ReserveDual(b, r, user, key, kind, amount) != Err(KeyConcurrencyExceeded)
  {
  }

  /** The same quote again is recognised; another for the same request is refused. */
  lemma QuotedOnce(db: Db, r: Id, q: Quote, snapshot: Option<Snapshot>, now: int)
    requires Healthy(db) && r in db.billing.quotes
    ensures r in db.requests
    ensures After(db, ReserveQuote(db, r, q, snapshot, now)) == db
    ensures ReserveQuote(db, r, q, snapshot, now) == Ok((db, Existing(r))) <==>
      Complete(q) && now < q.expires && For(db.requests[r], q) && q == db.billing.quotes[r]
  {
    hide Healthy;
    HealthyCase(db, r);
  }
}
