/**
 How long a worker's claim of a video job lasts, and what its owner can do to the job
 (src-core/src/jobs.rs:341-1025, 1080-1276).
 */
module Claims {
  import opened Basics
  import opened States
  import opened Books
  import opened Tables
  import opened Selection
  import opened Quota
  import opened Requests
  import opened Jobs
  import opened EventGroups
  import opened Coherence
  import opened CoherenceJobs
  import opened History
  import opened Runs
  import opened Theorems
  import opened Reports
  import opened Entrances
  import opened Queue

  // ---------------------------------------------------------------- claiming

  ghost predicate Takes(db: Db, t: Transaction, worker: Id, r: Id, now: int) {
    && (t == ClaimNext(db, worker, now) || t == ClaimById(db, r, worker, now))
    && t.Ok? && t.value.1 == Claimed(Some(r))
  }

  /** The lease a claim runs under: the job's own, or a new one for as long as the job asked. */
  ghost function Deadline(db: Db, r: Id, now: int): int
    requires r in db.jobs && (r in db.leases || db.jobs[r].terms.Some?)
  {
    if r in db.leases then db.leases[r].expires else now + db.jobs[r].terms.value.leaseTtl
  }

  /** Request, job, attempt and lease of r run together, for this worker and until the
      deadline; nothing of any other request has changed, and no money has moved. */
  ghost predicate RunsFor(db: Db, db': Db, worker: Id, r: Id, now: int)
    requires r in db.jobs && (r in db.leases || db.jobs[r].terms.Some?)
  {
    && db'.books == db.books && db'.cursor == Some(db.jobs[r].user)
    && OnlyTouches(db, db', r)
    && r in db'.requests && db'.requests[r].state.Dispatched?
    && r in db'.jobs && db'.jobs[r] == db.jobs[r].(state := JobState.Running, owner := Some(worker), claimExpires := Some(Deadline(db, r, now)))
    && r in db'.attempts && db'.attempts[r].state.Running?
    && r in db'.leases && db'.leases[r].state.Active? && db'.leases[r].expires == Deadline(db, r, now)
    && db'.leases[r].kind.VideoJob? && db'.leases[r].account == db'.attempts[r].account
  }

  lemma TakesClaims(db: Db, t: Transaction, worker: Id, r: Id, now: int)
    requires Takes(db, t, worker, r, now)
    ensures r in db.jobs && t == Claim(db, r, worker, now)
  {
  }

  /** A successful claim moves everything that hangs on the job in step. */
  lemma ClaimMoves(db: Db, t: Transaction, worker: Id, r: Id, now: int)
    requires Healthy(db) && Takes(db, t, worker, r, now)
    ensures r in db.jobs && (r in db.leases || db.jobs[r].terms.Some?)
    ensures RunsFor(db, t.value.0, worker, r, now)
  {
    hide ClaimNext, ClaimById, Healthy, Claim;
    TakesClaims(db, t, worker, r, now);
    HealthyCase(db, r);
    ClaimedRows(db, worker, r, now);
  }

  lemma ClaimedRows(db: Db, worker: Id, r: Id, now: int)
    requires Agrees(CaseOf(db, r)) && r in db.jobs && Claim(db, r, worker, now).Ok?
    ensures r in db.leases || db.jobs[r].terms.Some?
    ensures RunsFor(db, After(db, Claim(db, r, worker, now)), worker, r, now)
  {
    hide Provision, OnlyTouches;
    if r !in db.attempts { NewRows(db, r, now); }
    ClaimTouches(db, worker, r, now);
  }

  lemma NewRows(db: Db, r: Id, now: int)
    requires r in db.jobs && Provision(db, r, now).Ok?
    ensures r !in db.leases && db.jobs[r].terms.Some?
    ensures var e, terms := Provision(db, r, now).value, db.jobs[r].terms.value;
      && e == db.(leases := e.leases, attempts := e.attempts)
      && r in e.leases && e.leases == db.leases[r := e.leases[r]] && e.leases[r].expires == now + terms.leaseTtl
      && r in e.attempts && e.attempts == db.attempts[r := e.attempts[r]]
  {
    hide Select;
  }

  lemma ClaimTouches(db: Db, worker: Id, r: Id, now: int)
    requires r in db.jobs && Claim(db, r, worker, now).Ok?
    ensures OnlyTouches(db, After(db, Claim(db, r, worker, now)), r)
  {
    hide Provision;
    if r !in db.attempts { NewRows(db, r, now); }
  }

  /** A job without a lease gets one with its claim: on the preferred account, for both the
      spans its terms name. */
  lemma ClaimLeases(db: Db, t: Transaction, worker: Id, r: Id, now: int)
    requires Healthy(db) && Takes(db, t, worker, r, now) && r !in db.leases
    ensures r in db.jobs && db.jobs[r].terms.Some? && r in t.value.0.leases
    ensures var terms, l := db.jobs[r].terms.value, t.value.0.leases[r];
      && Preferred(db, terms, VideoJob, now, l.account)
      && l == Lease(l.account, VideoJob, LeaseState.Active, now + terms.leaseTtl, Some(now + terms.reconcileTtl))
  {
    hide ClaimNext, ClaimById, Healthy, Select, Preferred;
    TakesClaims(db, t, worker, r, now);
    HealthyCase(db, r);
    ChoosesExactly(db, db.jobs[r].terms.value, VideoJob, now);
  }

  /** A named job can be claimed exactly when it waits and its lease, if it has one, has not
      been activated, or else an account serves its terms; a job that does not wait is left. */
  lemma ClaimsExactly(db: Db, worker: Id, r: Id, now: int)
    requires Healthy(db)
    ensures Waiting(db, r) && r !in db.leases ==> db.jobs[r].terms.Some?
    ensures Takes(db, ClaimById(db, r, worker, now), worker, r, now) <==>
      Waiting(db, r)
      && if r in db.leases then db.leases[r].state.Held?
         else
           var t := db.jobs[r].terms.value;
           && t.predicted + t.margin <= MAX_I64 && (exists a :: Serves(db, t, VideoJob, now, a))
           && InTime(now, t.leaseTtl) && InTime(now, t.reconcileTtl)
    ensures !Waiting(db, r) ==> ClaimById(db, r, worker, now) == Ok((db, Claimed(None)))
  {
    hide Provision, Healthy, Serves, Eligible;
    HealthyCase(db, r);
    if Waiting(db, r) && r !in db.leases {
      ProvisionsExactly(db, r, now);
      ServersAreEligible(db, db.jobs[r].terms.value, now);
      if Provision(db, r, now).Ok? { ProvisionedRows(db, r, now); }
    }
  }

  lemma ServersAreEligible(db: Db, t: Terms, now: int)
    ensures (exists a :: Serves(db, t, VideoJob, now, a)) <==> exists a :: Eligible(db.site.upstream, db.leases, t, VideoJob, now, a)
  {
    hide Serves, Eligible;
    forall a ensures Serves(db, t, VideoJob, now, a) <==> Eligible(db.site.upstream, db.leases, t, VideoJob, now, a) {
      ServesIsEligible(db, t, VideoJob, now, a);
    }
  }

  predicate Extends(later: int, ttl: int) { 0 < ttl && later + ttl <= MAX_I64 }

  /** The winner of a claim can extend it until its deadline, and no one else can at all; from
      the deadline on recovery takes the lease. */
  lemma ClaimLasts(db: Db, t: Transaction, worker: Id, r: Id, now: int, other: Id, later: int, ttl: int)
    requires Healthy(db) && Takes(db, t, worker, r, now)
    ensures r in db.jobs && (r in db.leases || db.jobs[r].terms.Some?)
    ensures HeartbeatJob(t.value.0, other, r, later, ttl).Ok? <==>
      other == worker && later < Deadline(db, r, now) && Extends(later, ttl)
    ensures Expired(t.value.0, r, later) <==> Deadline(db, r, now) <= later
  {
    hide ClaimNext, ClaimById, Healthy, Deadline, OnlyTouches;
    ClaimMoves(db, t, worker, r, now);
  }

  /** A heartbeat sets the deadline anew, of the claim and of its lease, and changes nothing
      else. */
  lemma ExtensionLasts(db: Db, worker: Id, r: Id, now: int, ttl: int, other: Id, later: int, more: int)
    requires HeartbeatJob(db, worker, r, now, ttl).Ok?
    ensures var db' := After(db, HeartbeatJob(db, worker, r, now, ttl));
      && (HeartbeatJob(db', other, r, later, more).Ok? <==> other == worker && later < now + ttl && Extends(later, more))
      && (Expired(db', r, later) <==> now + ttl <= later)
      && db' == db.(jobs := db'.jobs, leases := db'.leases) && OnlyTouches(db, db', r)
      && r in db.jobs && db'.jobs[r] == db.jobs[r].(claimExpires := Some(now + ttl))
  {
  }

  /** When a worker may extend, in any reachable store: it holds the claim of a job that runs
      or is to be canceled, and neither claim nor lease has run out. */
  lemma ExtendsExactly(db: Db, worker: Id, r: Id, now: int, ttl: int)
    requires Healthy(db)
    ensures HeartbeatJob(db, worker, r, now, ttl).Ok? <==>
      && Extends(now, ttl)
      && r in db.jobs && r in db.leases && (db.jobs[r].state.Running? || db.jobs[r].state.CancelRequested?)
      && db.jobs[r].owner == Some(worker) && db.jobs[r].claimExpires.Some? && now < db.jobs[r].claimExpires.value
      && db.leases[r].state.Active? && now < db.leases[r].expires
  {
    hide Healthy;
    HealthyCase(db, r);
    if r in db.jobs && r in db.leases { JobsAreVideo(db, r); }
  }

  // ------------------------------------------------------ the job's owner

  predicate ActiveOwner(db: Db, p: Principal, r: Id) {
    && Owner(db, p, r)
    && p.key in db.site.keys && db.site.keys[p.key].user == p.user && db.site.keys[p.key].active && p.user in db.site.users
  }

  /** Someone who is not active is turned away; to anyone else but its owner the job does not
      exist. */
  lemma JobErrors(db: Db, p: Principal, r: Id)
    requires Healthy(db) && !ActiveOwner(db, p, r)
    ensures var active := p.key in db.site.keys && db.site.keys[p.key].user == p.user && db.site.keys[p.key].active && p.user in db.site.users;
      var e := Err(if active then RequestNotFound else InvalidRequestIdentity);
      MarkRunning(db, p, r) == e && CancelVideo(db, p, r) == e
  {
  }

  /** When a job may be started by its owner, and what moves then. */
  lemma StartsExactly(db: Db, p: Principal, r: Id)
    requires Healthy(db) && r in db.jobs
    ensures r in db.requests
    ensures var s := db.requests[r].state;
      MarkRunning(db, p, r).Ok? <==>
        ActiveOwner(db, p, r)
        && (db.jobs[r].state.Running? || (db.jobs[r].state.Queued? && r in db.leases && (s.Queued? || s.Dispatched?)))
    ensures MarkRunning(db, p, r).Ok? && db.jobs[r].state.Queued? ==>
      var db' := After(db, MarkRunning(db, p, r));
      && db'.books == db.books && OnlyTouches(db, db', r)
      && r in db'.requests && db'.requests[r].state.Dispatched?
      && r in db'.jobs && db'.jobs[r] == db.jobs[r].(state := JobState.Running)
      && r in db'.attempts && db'.attempts[r].state.Running?
      && r in db.leases && r in db'.leases && db'.leases[r] == db.leases[r].(state := LeaseState.Active)
    ensures MarkRunning(db, p, r).Ok? && !db.jobs[r].state.Queued? ==> After(db, MarkRunning(db, p, r)) == db
  {
    hide Healthy;
    HealthyCase(db, r);
    if r in db.leases { JobsAreVideo(db, r); }
  }

  /** When a job may be canceled by its owner. One that waits for its lease is canceled at
      once, and its hold given back on every account; one that has its lease is only asked to
      cancel, and nothing is given back; one that has ended, or is in doubt, stays. */
  lemma CancelsExactly(db: Db, p: Principal, r: Id)
    requires Healthy(db) && r in db.jobs
    ensures r in db.requests && r in db.books.reservations
    ensures var s := db.requests[r].state;
      CancelVideo(db, p, r).Ok? <==>
        ActiveOwner(db, p, r)
        && (db.jobs[r].state.Queued? || db.jobs[r].state.Running? ==> s.Queued? || s.Dispatched? || s.Completing?)
    ensures CancelVideo(db, p, r).Ok? ==>
      var db', x := After(db, CancelVideo(db, p, r)), db.books.reservations[r];
      if !(db.jobs[r].state.Queued? || db.jobs[r].state.Running?) then db' == db
      else
        && OnlyTouches(db, db', r) && r in db'.jobs && r in db'.requests && db'.leases == db.leases
        && if r in db.leases then
             && db'.jobs[r].state.CancelRequested? && db'.requests[r].state.CancelRequested? && db'.books == db.books
           else
             && db'.jobs[r].state.Canceled? && db'.requests[r].state.Settled?
             && Pays(db.books, db'.books, x, x.amount, x.amount, 0)
  {
    hide Healthy, Pays;
    HealthyCase(db, r);
    HealthyBooks(db);
    if r !in db.leases && r in db.books.reservations && db.books.reservations[r].state.Held? { SettlementPays(db.books, r, Settlement.Released); }
  }
}
