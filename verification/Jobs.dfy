/** The video queue and job operations of src-core/src/jobs.rs, each as one atomic step. */
module Jobs {
  import opened Basics
  import opened States
  import opened Books
  import opened Tables
  import opened Selection
  import opened Quota
  import opened Requests

  // ------------------------------------------------------------------- queue

  /** A row the queue queries see. */
  predicate Waiting(db: Db, r: Id) {
    && r in db.jobs && db.jobs[r].state.Queued?
    && r in db.requests && db.requests[r].state.Queued?
    && db.requests[r].user == db.jobs[r].user
    && db.jobs[r].user in db.site.users
  }

  predicate WaitingAbove(db: Db, floor: Option<Id>, r: Id) {
    Waiting(db, r) && (floor.None? || db.jobs[r].user > floor.value)
  }

  /** Older first; then the lower user id; then the lower job id. Job ids are a primary
      key, so the last comparison, of the rows themselves, decides nothing in practice. */
  predicate Precedes(db: Db, r: Id, q: Id)
    requires r in db.jobs && q in db.jobs
  {
    var x, y := db.jobs[r], db.jobs[q];
    x.createdAt < y.createdAt
    || (x.createdAt == y.createdAt
        && (x.user < y.user || (x.user == y.user && (x.id < y.id || (x.id == y.id && r <= q)))))
  }

  ghost predicate Head(db: Db, floor: Option<Id>, r: Id) {
    WaitingAbove(db, floor, r)
    && forall q :: WaitingAbove(db, floor, q) ==> Precedes(db, r, q)
  }

  lemma {:induction false} LeastWaiting(db: Db, floor: Option<Id>, s: set<Id>) returns (r: Id)
    requires s != {} && forall q :: q in s ==> WaitingAbove(db, floor, q)
    ensures r in s && WaitingAbove(db, floor, r)
    ensures forall q :: q in s ==> WaitingAbove(db, floor, q) && Precedes(db, r, q)
    decreases |s|
  {
    r :| r in s;
    if s != {r} {
      assert s - {r} != {};
      var rest := LeastWaiting(db, floor, s - {r});
      if Precedes(db, rest, r) { r := rest; }
    }
  }

  lemma HeadExists(db: Db, floor: Option<Id>, q: Id)
    requires WaitingAbove(db, floor, q)
    ensures exists r :: Head(db, floor, r)
  {
    var s := set x | x in db.jobs && WaitingAbove(db, floor, x);
    assert q in s;
    var r := LeastWaiting(db, floor, s);
    assert forall x :: WaitingAbove(db, floor, x) ==> x in s;
    assert Head(db, floor, r);
  }

  ghost function HeadOf(db: Db, floor: Option<Id>): (h: Option<Id>)
    ensures h.Some? ==> Head(db, floor, h.value)
    ensures h.None? ==> forall q :: !WaitingAbove(db, floor, q)
  {
    if q :| WaitingAbove(db, floor, q) then
      HeadExists(db, floor, q);
      var r :| Head(db, floor, r);
      Some(r)
    else None
  }

  /** The row claim_next_video_job tries: the head of the users above the cursor, or of
      all users when none waits there. */
  ghost function Pick(db: Db): Option<Id> {
    var above := HeadOf(db, db.cursor);
    if above.None? && db.cursor.Some? then HeadOf(db, None) else above
  }

  // ------------------------------------------------------------------- claim

  predicate Positive(t: Terms) {
    t.predicted > 0 && t.margin >= 0 && t.maxAge >= 0 && t.leaseTtl > 0 && t.reconcileTtl > 0
  }

  /** Give a queued job its lease and attempt. */
  ghost function Provision(db: Db, r: Id, now: int): Result<Db>
    requires r in db.jobs
  {
    var j := db.jobs[r];
    :- Need(r in db.requests && db.requests[r].user == j.user && db.requests[r].endpoint == VIDEOS, InvalidConfiguration);
    :- Need(j.terms.Some?, InvalidConfiguration);
    var t := j.terms.value;
    :- Need(Positive(t), InvalidQuotaAmount);
    :- Need(r in db.books.reservations, ReservationNotFound);
    var x := db.books.reservations[r];
    :- Need(x.user == j.user && x.kind.VideoJob? && x.state.Held?, InvalidConfiguration);
    var account :- Select(db.site.upstream, db.leases, t, VideoJob, now);
    :- Need(Fits(now + t.leaseTtl) && Fits(now + t.reconcileTtl), InvalidQuotaAmount);
    :- Need(r !in db.leases, RowExists);
    Ok(db.(leases := db.leases[r := FreshLease(account, VideoJob, t, now)],
           attempts := db.attempts[r := Attempt(account, AttemptState.Queued)]))
  }

  /** claim_video_job_in_transaction. */
  ghost function Claim(db: Db, r: Id, worker: Id, now: int): Transaction
    requires r in db.jobs
  {
    var db1 :- if r !in db.attempts then Provision(db, r, now)
               else if r in db.leases then Ok(db) else Err(ReservationNotFound);
    :- Need(r in db1.attempts && r in db1.leases && r in db1.requests, InvalidConfiguration);
    var j, l, a := db1.jobs[r], db1.leases[r], db1.attempts[r];
    :- Need(j.state.Queued? && db1.requests[r].state.Queued? && a.state.Queued? && a.account == l.account
            && l.kind.VideoJob? && l.state.Held?, InvalidConfiguration);
    Ok((db1.SetState(r, RequestState.Dispatched).(
          jobs := db1.jobs[r := j.(state := JobState.Running, owner := Some(worker), claimExpires := Some(l.expires))],
          attempts := db1.attempts[r := a.(state := AttemptState.Running)],
          leases := db1.leases[r := l.(state := LeaseState.Active)],
          cursor := Some(j.user)),
        Claimed(Some(r))))
  }

  ghost function ClaimNext(db: Db, worker: Id, now: int): Transaction {
    var h := Pick(db);
    if h.None? then Ok((db, Claimed(None))) else Claim(db, h.value, worker, now)
  }

  ghost function ClaimById(db: Db, r: Id, worker: Id, now: int): Transaction {
    if !Waiting(db, r) then Ok((db, Claimed(None))) else Claim(db, r, worker, now)
  }

  // --------------------------------------------------------- a claimed job

  function HeartbeatJob(db: Db, worker: Id, r: Id, now: int, ttl: int): Transaction {
    if !(ttl > 0 && Fits(now + ttl)) then Err(InvalidQuotaAmount) else
    :- Need(r in db.jobs, RequestNotFound);
    var j := db.jobs[r];
    :- Need(j.state.Running? || j.state.CancelRequested?, InvalidConfiguration);
    :- Need(j.owner == Some(worker) && j.claimExpires.Some? && j.claimExpires.value > now, InvalidConfiguration);
    :- Need(r in db.attempts, InvalidConfiguration);
    :- Need(db.attempts[r].state.Running? || db.attempts[r].state.CancelRequested?, InvalidConfiguration);
    :- Need(r in db.leases, ReservationNotFound);
    var l := db.leases[r];
    :- Need(l.kind.VideoJob? && l.state.Active? && l.expires > now, InvalidConfiguration);
    Ok((db.(jobs := db.jobs[r := j.(claimExpires := Some(now + ttl))],
            leases := db.leases[r := l.(expires := now + ttl)]), Done))
  }

  predicate PrincipalActive(db: Db, p: Principal) {
    db.KeyActive(p.user, p.key) && p.user in db.site.users
  }

  predicate OwnsJob(db: Db, p: Principal, r: Id) {
    r in db.jobs && db.jobs[r].user == p.user
    && r in db.requests && db.requests[r].user == p.user && db.requests[r].key == p.key
  }

  function MarkRunning(db: Db, p: Principal, r: Id): Transaction {
    if !PrincipalActive(db, p) then Err(InvalidRequestIdentity) else
    :- Need(OwnsJob(db, p, r), RequestNotFound);
    var j := db.jobs[r];
    if j.state.Running? then Ok((db, Done))
    else
      :- Need(j.state.Queued? && r in db.attempts, InvalidConfiguration);
      :- Need(r in db.leases, ReservationNotFound);
      var a, l, state := db.attempts[r], db.leases[r], db.requests[r].state;
      :- Need(l.account == a.account && l.kind.VideoJob?, InvalidConfiguration);
      :- Need(state.Queued? || state.Dispatched?, InvalidConfiguration);
      Ok((db.SetState(r, RequestState.Dispatched).(
            jobs := db.jobs[r := j.(state := JobState.Running)],
            attempts := db.attempts[r := if a.state.Queued? then a.(state := AttemptState.Running) else a],
            leases := db.leases[r := if l.state.Held? then l.(state := LeaseState.Active) else l]), Done))
  }

  /** request_video_cancel: a job without an attempt is canceled on the spot and its hold
      released; one with an attempt waits for the upstream's answer. */
  function CancelVideo(db: Db, p: Principal, r: Id): Transaction {
    if !PrincipalActive(db, p) then Err(InvalidRequestIdentity) else
    :- Need(OwnsJob(db, p, r), RequestNotFound);
    var j, state := db.jobs[r].state, db.requests[r].state;
    if j.Terminal() || j.Unknown? || j.CancelRequested? then Ok((db, Done))
    else
      :- Need(state.Queued? || state.Dispatched? || state.Completing?, InvalidConfiguration);
      CancelOpen(db, r)
  }

  function CancelOpen(db: Db, r: Id): Transaction
    requires r in db.jobs && r in db.requests
  {
    var j := db.jobs[r];
    if r in db.attempts then
      var a := db.attempts[r];
      Ok((db.SetState(r, RequestState.CancelRequested).(
            jobs := db.jobs[r := j.(state := JobState.CancelRequested)],
            attempts := db.attempts[r := if a.state.Queued? || a.state.Running?
                                         then a.(state := AttemptState.CancelRequested) else a]), Done))
    else
      :- Need(r in db.books.reservations, ReservationNotFound);
      var books := if db.books.reservations[r].state.Held? then Free(db.books, r) else db.books;
      Ok((db.SetState(r, RequestState.Settled).(
            books := books, jobs := db.jobs[r := j.(state := JobState.Canceled)]), Done))
  }
}
