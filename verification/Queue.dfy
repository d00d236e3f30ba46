/**
 Fairness of the video queue (src-core/src/jobs.rs:341-608, 1413-1441). The queue is not
 plain round robin - of the users above the cursor the one with the oldest job goes
 next - but every round ends with the job that is oldest of all, so no job waits for ever.
 */
module Queue {
  import opened Basics
  import opened States
  import opened Books
  import opened Tables
  import opened Selection
  import opened Quota
  import opened Requests
  import opened Jobs
  import opened EventGroups
  import opened Coherence
  import opened History
  import opened Runs
  import opened Theorems

  /** The waiting jobs that come before r. */
  ghost function Older(db: Db, r: Id): set<Id>
    requires r in db.jobs
  {
    set q | q in db.jobs && Waiting(db, q) && q != r && Precedes(db, q, r)
  }

  /** Of the users who queue, those the cursor has not passed in this round. */
  function Ahead(db: Db, queueing: set<Id>): set<Id> {
    set u | u in queueing && (db.cursor.None? || u > db.cursor.value)
  }

  /** Claims that may still come before r's: the rest of this round, and a whole round for
      each older job. */
  ghost function Patience(db: Db, r: Id, queueing: set<Id>): nat
    requires r in db.jobs
  {
    |Ahead(db, queueing)| + |Older(db, r)| * |queueing|
  }

  ghost predicate QueuedBy(db: Db, queueing: set<Id>) {
    forall q :: Waiting(db, q) ==> db.jobs[q].user in queueing
  }

  /** Only these users have jobs waiting at any time of the run. */
  ghost predicate QueueingOnly(db: Db, ops: seq<Op>, queueing: set<Id>)
    decreases |ops|
  {
    QueuedBy(db, queueing) && (ops != [] ==> QueueingOnly(Next(db, ops[0]), ops[1..], queueing))
  }

  /** Anything may happen around r but these: users come and go, workers jump the queue,
      or jobs arrive with an age that puts them before r. */
  predicate Orderly(op: Op, t: int) {
    && !op.SetUser? && !op.ClaimOne?
    && (op.PreflightLease? || op.Enqueue? ==> op.now > t)
  }

  ghost predicate HeadClaimed(db: Db, op: Op) {
    op.ClaimHead? && Step(db, op).Ok? && Step(db, op).value.1 != Claimed(None)
  }

  ghost function HeadClaims(db: Db, ops: seq<Op>): nat
    decreases |ops|
  {
    if ops == [] then 0
    else (if HeadClaimed(db, ops[0]) then 1 else 0) + HeadClaims(Next(db, ops[0]), ops[1..])
  }

  // ------------------------------------------------------------- one step

  /** Jobs arrive through the two video entrances only, aged by their clock. */
  lemma Arrivals(db: Db, op: Op, q: Id)
    requires q in Next(db, op).jobs && q !in db.jobs
    ensures (op.PreflightLease? || op.Enqueue?) && Next(db, op).jobs[q].createdAt == op.now
  {
    if op.ClaimHead? || op.ClaimOne? {
      if Next(db, op) != db { var c := ClaimOpShape(db, op); }
    }
    else if SubmissionOp(op) { SubmissionArrivals(db, op, q); }
    else if !SiteOp(op) { QuietStep(db, op); }
  }

  lemma SubmissionArrivals(db: Db, op: Op, q: Id)
    requires SubmissionOp(op) && q in Next(db, op).jobs && q !in db.jobs
    ensures (op.PreflightLease? || op.Enqueue?) && Next(db, op).jobs[q].createdAt == op.now
  {
    hide Step;
    SubmissionShape(db, op);
    assert q != op.id ==> SameRow(db.jobs, Next(db, op).jobs, q);
  }

  /** Only a claim moves the cursor. */
  lemma CursorStays(db: Db, op: Op)
    requires !op.SetUser? && !op.ClaimOne? && !HeadClaimed(db, op)
    ensures Next(db, op).cursor == db.cursor && Next(db, op).site.users == db.site.users
  {
    if SubmissionOp(op) { SubmissionShape(db, op); }
    else if op.ClaimHead? { assert Next(db, op) == db; }
    else if !SiteOp(op) { QuietStep(db, op); }
  }

  /** No operation puts a job back into the queue. */
  lemma WaitingOnlyEnds(db: Db, op: Op, q: Id)
    requires Healthy(db) && Admissible(db, op) && !op.SetUser?
    requires Next(db, op).site.users == db.site.users
    requires q in db.jobs && Waiting(Next(db, op), q)
    ensures Waiting(db, q)
    ensures Next(db, op).jobs[q] == db.jobs[q].(state := Next(db, op).jobs[q].state, owner := Next(db, op).jobs[q].owner,
                                                claimExpires := Next(db, op).jobs[q].claimExpires)
  {
    hide Step, Admissible, Sound, Seated, Registered, Receipted, WellGrouped, LedgerPosted;
    StepKeepsHealthy(db, op);
    assert RowAdvances(db, Next(db, op), q);
    assert Agrees(CaseOf(db, q)) && Tied(db, q);
    QueuedWasQueued(CaseOf(db, q), db.jobs[q].state, db.requests[q].state);
  }

  /** In a coherent case a job and a request that may still be queued both are. */
  lemma QueuedWasQueued(c: Case, j: JobState, s: RequestState)
    requires Agrees(c) && c.job == Some(j) && c.request == Some(s)
    requires j.Reaches(JobState.Queued) && s.Reaches(RequestState.Queued)
    ensures j.Queued? && s.Queued?
  {
  }

  lemma OlderOnlyFalls(db: Db, op: Op, r: Id)
    requires Healthy(db) && Admissible(db, op) && Waiting(db, r) && Orderly(op, db.jobs[r].createdAt)
    requires Waiting(Next(db, op), r) && Next(db, op).site.users == db.site.users
    ensures Older(Next(db, op), r) <= Older(db, r)
    ensures Next(db, op).jobs[r].createdAt == db.jobs[r].createdAt
  {
    var next := Next(db, op);
    WaitingOnlyEnds(db, op, r);
    forall q | q in Older(next, r) ensures q in Older(db, r) {
      if q !in db.jobs { Arrivals(db, op, q); } else { WaitingOnlyEnds(db, op, q); }
    }
  }

  // ------------------------------------------------------------ one claim

  lemma HeadClaimShape(db: Db, op: Op)
    requires HeadClaimed(db, op)
    ensures Pick(db).Some?
    ensures var c, next := Pick(db).value, Next(db, op);
      && Waiting(db, c) && !Waiting(next, c)
      && next.site == db.site && next.cursor == Some(db.jobs[c].user)
  {
    var c := Pick(db).value;
    ClaimShape(db, c, op.worker, op.now);
  }

  /** While r waits, a claim that wraps around takes r or a job before r. */
  lemma WrapTakesOldest(db: Db, r: Id)
    requires Waiting(db, r) && Pick(db).Some?
    ensures WaitingAbove(db, db.cursor, Pick(db).value) || Pick(db).value == r || Pick(db).value in Older(db, r)
  {
    var c := Pick(db).value;
    if !WaitingAbove(db, db.cursor, c) {
      assert Head(db, None, c);
      assert WaitingAbove(db, None, r);
    }
  }

  /** Within one user, jobs are claimed oldest first. */
  lemma OldestFirst(db: Db, c: Id, q: Id)
    requires Pick(db) == Some(c) && Waiting(db, q) && db.jobs[q].user == db.jobs[c].user
    ensures Precedes(db, c, q)
  {
    if WaitingAbove(db, db.cursor, c) { assert WaitingAbove(db, db.cursor, q); } else { assert WaitingAbove(db, None, q); }
  }

  /** Who is picked: someone the cursor has not passed, if any such user waits, and among
      those the job that is oldest, then of the lowest user, then of the lowest id. */
  lemma PickIsOldestAhead(db: Db, c: Id, q: Id)
    requires Pick(db) == Some(c) && Waiting(db, q)
    ensures Waiting(db, c)
    ensures var x, y := db.jobs[c], db.jobs[q];
      && (db.cursor.Some? && y.user > db.cursor.value ==> x.user > db.cursor.value)
      && (db.cursor.None? || (x.user > db.cursor.value <==> y.user > db.cursor.value) ==>
            || x.createdAt < y.createdAt
            || (x.createdAt == y.createdAt && (x.user < y.user || (x.user == y.user && x.id <= y.id))))
  {
    if WaitingAbove(db, db.cursor, q) { assert WaitingAbove(db, db.cursor, c); }
    if !WaitingAbove(db, db.cursor, c) {
      assert Head(db, None, c);
      assert WaitingAbove(db, None, q);
    }
  }

  /** Nobody is picked exactly when no job waits: queued, with its request, of an active user. */
  lemma NobodyWaits(db: Db)
    ensures Pick(db).None? <==>
      forall r :: r in db.jobs && r in db.requests && db.jobs[r].user == db.requests[r].user && db.jobs[r].user in db.site.users ==>
        !(db.jobs[r].state == JobState.Queued && db.requests[r].state == RequestState.Queued)
  {
    if Pick(db).None? {
      forall r | r in db.jobs && r in db.requests && db.jobs[r].user == db.requests[r].user && db.jobs[r].user in db.site.users
        ensures !(db.jobs[r].state == JobState.Queued && db.requests[r].state == RequestState.Queued)
      {
        assert WaitingAbove(db, None, r) <==> Waiting(db, r);
      }
    } else {
      var c := Pick(db).value;
      assert Waiting(db, c);
      assert c in db.jobs && c in db.requests && db.jobs[c].user == db.requests[c].user && db.jobs[c].user in db.site.users;
    }
  }

  lemma SmallerSet<T>(x: set<T>, y: set<T>, e: T)
    requires x <= y && e in y && e !in x
    ensures |x| < |y|
  {
    SubsetCounts(x, y - {e});
  }

  lemma ClaimSpendsPatience(db: Db, op: Op, r: Id, queueing: set<Id>)
    requires Healthy(db) && Admissible(db, op) && Waiting(db, r) && Orderly(op, db.jobs[r].createdAt)
    requires HeadClaimed(db, op) && Waiting(Next(db, op), r) && QueuedBy(db, queueing)
    ensures Patience(Next(db, op), r, queueing) < Patience(db, r, queueing)
  {
    var next, c := Next(db, op), Pick(db).value;
    HeadClaimShape(db, op);
    OlderOnlyFalls(db, op, r);
    WrapTakesOldest(db, r);
    var u := db.jobs[c].user;
    SmallerSet(Ahead(next, queueing), queueing, u);
    SubsetCounts(Older(next, r), Older(db, r));
    var n := |queueing|;
    if WaitingAbove(db, db.cursor, c) {
      SmallerSet(Ahead(next, queueing), Ahead(db, queueing), u);
      assert |Older(next, r)| * n <= |Older(db, r)| * n by { Times(|Older(next, r)|, |Older(db, r)|, n); }
    } else {
      SmallerSet(Older(next, r), Older(db, r), c);
      assert (|Older(next, r)| + 1) * n <= |Older(db, r)| * n by { Times(|Older(next, r)| + 1, |Older(db, r)|, n); }
    }
  }

  lemma Times(a: nat, b: nat, n: nat)
    requires a <= b
    ensures a * n <= b * n
  {
  }

  lemma OthersSpareIt(db: Db, op: Op, r: Id, queueing: set<Id>)
    requires Healthy(db) && Admissible(db, op) && Waiting(db, r) && Orderly(op, db.jobs[r].createdAt)
    requires !HeadClaimed(db, op) && Waiting(Next(db, op), r)
    ensures Patience(Next(db, op), r, queueing) <= Patience(db, r, queueing)
  {
    CursorStays(db, op);
    OlderOnlyFalls(db, op, r);
    SubsetCounts(Older(Next(db, op), r), Older(db, r));
    Times(|Older(Next(db, op), r)|, |Older(db, r)|, |queueing|);
  }

  // ------------------------------------------------------------- any run

  ghost predicate OrderlyRun(ops: seq<Op>, t: int) {
    forall k :: 0 <= k < |ops| ==> Orderly(ops[k], t)
  }

  /** r stays in the queue from beginning to end. */
  lemma {:induction false} StillWaiting(db: Db, ops: seq<Op>, r: Id)
    requires Healthy(db) && Legal(db, ops) && r in db.jobs && Waiting(Run(db, ops), r)
    requires forall k :: 0 <= k < |ops| ==> !ops[k].SetUser? && !ops[k].ClaimOne?
    ensures Waiting(db, r)
    decreases |ops|
  {
    if ops != [] {
      StepKeepsHealthy(db, ops[0]);
      assert RowAdvances(db, Next(db, ops[0]), r);
      StillWaiting(Next(db, ops[0]), ops[1..], r);
      if HeadClaimed(db, ops[0]) { HeadClaimShape(db, ops[0]); } else { CursorStays(db, ops[0]); }
      WaitingOnlyEnds(db, ops[0], r);
    }
  }

  lemma {:induction false} ClaimsWithinPatience(db: Db, ops: seq<Op>, r: Id, queueing: set<Id>)
    requires Healthy(db) && Legal(db, ops) && Waiting(db, r) && OrderlyRun(ops, db.jobs[r].createdAt)
    requires Waiting(Run(db, ops), r) && QueueingOnly(db, ops, queueing)
    ensures HeadClaims(db, ops) <= Patience(db, r, queueing)
    decreases |ops|
  {
    if ops != [] {
      var op, next := ops[0], Next(db, ops[0]);
      StepKeepsHealthy(db, op);
      assert RowAdvances(db, next, r);
      StillWaiting(next, ops[1..], r);
      if HeadClaimed(db, op) { ClaimSpendsPatience(db, op, r, queueing); HeadClaimShape(db, op); } else { OthersSpareIt(db, op, r, queueing); CursorStays(db, op); }
      WaitingOnlyEnds(db, op, r);
      ClaimsWithinPatience(next, ops[1..], r, queueing);
    }
  }

  /** Bounded waiting. With U users who queue and k waiting jobs before it, a job that is still
      waiting has seen (k + 1) * U successful claims at most, whatever else happened: the
      next one at the latest takes it, unless it leaves the queue in another way. */
  lemma BoundedWaiting(db: Db, ops: seq<Op>, r: Id, queueing: set<Id>)
    requires Healthy(db) && Legal(db, ops) && Waiting(db, r) && OrderlyRun(ops, db.jobs[r].createdAt)
    requires QueueingOnly(db, ops, queueing)
    ensures Waiting(Run(db, ops), r) ==> HeadClaims(db, ops) <= (|Older(db, r)| + 1) * |queueing|
  {
    if Waiting(Run(db, ops), r) {
      ClaimsWithinPatience(db, ops, r, queueing);
      SubsetCounts(Ahead(db, queueing), queueing);
    }
  }

  /** The users who queue are active users, so those always bound the wait. */
  lemma {:induction false} ActiveUsersQueue(db: Db, ops: seq<Op>)
    requires forall k :: 0 <= k < |ops| ==> !ops[k].SetUser? && !ops[k].ClaimOne?
    ensures QueueingOnly(db, ops, db.site.users)
    decreases |ops|
  {
    if ops != [] {
      if HeadClaimed(db, ops[0]) { HeadClaimShape(db, ops[0]); } else { CursorStays(db, ops[0]); }
      ActiveUsersQueue(Next(db, ops[0]), ops[1..]);
    }
  }

  /** Workers claim and clients submit; nothing else goes on. */
  predicate Busy(op: Op) { op.ClaimHead? || op.PreflightLease? || op.Enqueue? }

  lemma OtherClaimsLeaveWaiting(db: Db, worker: Id, now: int, r: Id)
    requires Waiting(db, r)
    ensures var tx := ClaimNext(db, worker, now);
      Waiting(After(db, tx), r) || (tx.Ok? && tx.value.1 == Claimed(Some(r)))
  {
    hide Claim;
    if Pick(db).Some? && Claim(db, Pick(db).value, worker, now).Ok? {
      ClaimShape(db, Pick(db).value, worker, now);
      ClaimAnswers(db, Pick(db).value, worker, now);
    }
  }

  lemma ClaimAnswers(db: Db, c: Id, worker: Id, now: int)
    requires c in db.jobs && Claim(db, c, worker, now).Ok?
    ensures Claim(db, c, worker, now).value.1 == Claimed(Some(c))
  {
  }

  lemma OnlyItsClaimEndsWaiting(db: Db, op: Op, r: Id)
    requires Waiting(db, r) && Busy(op) && !Wins(db, op, r)
    ensures Waiting(Next(db, op), r)
  {
    hide ClaimNext;
    if op.ClaimHead? {
      OtherClaimsLeaveWaiting(db, op.worker, op.now, r);
    } else {
      hide Step;
      SubmissionShape(db, op);
      assert Next(db, op) == db || SameRow(db.jobs, Next(db, op).jobs, r);
    }
  }

  lemma {:induction false} UnclaimedStillWaits(db: Db, ops: seq<Op>, r: Id)
    requires Waiting(db, r) && Claims(db, ops, r) == 0
    requires forall k :: 0 <= k < |ops| ==> Busy(ops[k])
    ensures Waiting(Run(db, ops), r)
    decreases |ops|
  {
    if ops != [] {
      OnlyItsClaimEndsWaiting(db, ops[0], r);
      UnclaimedStillWaits(Next(db, ops[0]), ops[1..], r);
    }
  }

  /** While workers claim and clients submit, the job is claimed - once - among the first
      (k + 1) * U + 1 successful claims. */
  lemma ClaimedInTime(db: Db, ops: seq<Op>, r: Id, queueing: set<Id>)
    requires Healthy(db) && Legal(db, ops) && Waiting(db, r) && OrderlyRun(ops, db.jobs[r].createdAt)
    requires forall k :: 0 <= k < |ops| ==> Busy(ops[k])
    requires QueueingOnly(db, ops, queueing) && HeadClaims(db, ops) > (|Older(db, r)| + 1) * |queueing|
    ensures Claims(db, ops, r) == 1
  {
    BoundedWaiting(db, ops, r, queueing);
    ClaimedAtMostOnce(db, ops, r);
    if Claims(db, ops, r) == 0 { UnclaimedStillWaits(db, ops, r); }
  }

  // ------------------------------------------------------- a head in the way

  /** What a job without a lease needs: an eligible account, and deadlines within the clock. */
  ghost predicate Schedulable(db: Db, r: Id, now: int)
    requires r in db.jobs && db.jobs[r].terms.Some?
  {
    var t := db.jobs[r].terms.value;
    && Fits(t.predicted + t.margin)
    && (exists a :: Eligible(db.site.upstream, db.leases, t, VideoJob, now, a))
    && Fits(now + t.leaseTtl) && Fits(now + t.reconcileTtl)
  }

  lemma ProvisionsExactly(db: Db, r: Id, now: int)
    requires Healthy(db) && Waiting(db, r) && r !in db.leases
    ensures db.jobs[r].terms.Some? && (Provision(db, r, now).Ok? <==> Schedulable(db, r, now))
  {
    assert Agrees(CaseOf(db, r)) && Tied(db, r);
  }

  lemma ProvisionedRows(db: Db, r: Id, now: int)
    requires r in db.jobs && Provision(db, r, now).Ok?
    ensures var e := Provision(db, r, now).value;
      && e == db.(leases := e.leases, attempts := e.attempts)
      && r in e.attempts && e.attempts[r].state.Queued?
      && r in e.leases && e.leases[r].state.Held? && e.leases[r].kind.VideoJob? && e.attempts[r].account == e.leases[r].account
  {
  }

  /** Exactly when the head of the queue can be claimed: its lease, if it has one, has not
      been activated; otherwise an account can take it. */
  lemma HeadIsClaimableExactly(db: Db, worker: Id, now: int)
    requires Healthy(db) && Pick(db).Some?
    ensures var c := Pick(db).value;
      && Waiting(db, c) && (c !in db.leases ==> db.jobs[c].terms.Some?)
      && (ClaimNext(db, worker, now).Ok? <==>
            if c in db.leases then db.leases[c].state.Held? else Schedulable(db, c, now))
  {
    hide Provision, Schedulable, Sound, Seated, Registered, Receipted, Scheduled, WellGrouped, LedgerPosted;
    var c := Pick(db).value;
    assert Agrees(CaseOf(db, c)) && Tied(db, c);
    if c !in db.leases {
      ProvisionsExactly(db, c, now);
      if Provision(db, c, now).Ok? { ProvisionedRows(db, c, now); }
    }
  }

  lemma HeadIsUnique(db: Db, floor: Option<Id>, c: Id)
    requires Head(db, floor, c)
    ensures HeadOf(db, floor) == Some(c)
  {
    var h := HeadOf(db, floor).value;
    assert Precedes(db, h, c) && Precedes(db, c, h);
  }

  lemma PickLooksAtQueueOnly(db: Db, db': Db)
    requires db'.jobs == db.jobs && db'.requests == db.requests && db'.site == db.site && db'.cursor == db.cursor
    ensures Pick(db') == Pick(db)
  {
    assert forall floor, r :: WaitingAbove(db', floor, r) <==> WaitingAbove(db, floor, r);
    assert forall floor, r :: Head(db', floor, r) <==> Head(db, floor, r);
    forall floor ensures HeadOf(db', floor) == HeadOf(db, floor) {
      if HeadOf(db, floor).Some? { HeadIsUnique(db', floor, HeadOf(db, floor).value); }
    }
  }

  lemma BeatenHealthy(db: Db, p: Principal, r: Id, now: int, ttl: int)
    requires Healthy(db)
    ensures Healthy(After(db, HeartbeatLease(db, p, r, now, ttl)))
  {
    hide Healthy;
    StepKeepsHealthy(db, BeatLease(p, r, now, ttl));
  }

  lemma PickWaits(db: Db)
    ensures Pick(db).Some? ==> Waiting(db, Pick(db).value)
  {
  }

  /** A client can put its own job in the way: one heartbeat on the lease of a queued job
      at the head, and no worker can claim it, now or later. */
  lemma HeartbeatBlocksHead(db: Db, p: Principal, r: Id, now: int, ttl: int, worker: Id, later: int)
    requires Healthy(db) && Pick(db) == Some(r) && HeartbeatLease(db, p, r, now, ttl).Ok?
    ensures var db' := After(db, HeartbeatLease(db, p, r, now, ttl));
      Pick(db') == Some(r) && ClaimNext(db', worker, later).Err?
  {
    hide ClaimNext, Schedulable, Pick, Sound, Seated, Registered, Receipted, Scheduled, WellGrouped, LedgerPosted;
    var db' := After(db, HeartbeatLease(db, p, r, now, ttl));
    BeatenHealthy(db, p, r, now, ttl);
    PickLooksAtQueueOnly(db, db');
    PickWaits(db);
    assert Agrees(CaseOf(db, r));
    HeadIsClaimableExactly(db', worker, later);
  }

  /** No time makes r claimable: its lease has been activated, or no account has what its
      constraints name. */
  predicate Hopeless(db: Db, r: Id)
    requires r in db.jobs
  {
    if r in db.leases then !db.leases[r].state.Held?
    else
      && db.jobs[r].terms.Some?
      && var t := db.jobs[r].terms.value;
         !Fits(t.predicted + t.margin) || forall a :: a in db.site.upstream ==> !Matches(a, db.site.upstream[a], t)
  }

  lemma HopelessHeadIsNotClaimed(db: Db, op: Op)
    requires Healthy(db) && Pick(db).Some? && Hopeless(db, Pick(db).value) && op.ClaimHead?
    ensures Next(db, op) == db && !HeadClaimed(db, op)
  {
    HeadIsClaimableExactly(db, op.worker, op.now);
  }

  /** Arrivals are younger than t and, where the head was found by wrapping around, are not
      of users the cursor has yet to reach. */
  predicate Behind(op: Op, t: int, wrapped: bool, cursor: Option<Id>) {
    op.PreflightLease? || op.Enqueue? ==>
      op.now > t && (wrapped && cursor.Some? ==> op.s.user <= cursor.value)
  }

  predicate Wrapped(db: Db, c: Id) { !WaitingAbove(db, db.cursor, c) }

  lemma ArrivalsWait(db: Db, next: Db, s: Submission, r: Id, now: int, q: Id)
    requires AllAgree(db) && Enters(db, next, s, r, now)
    ensures q in db.jobs ==> q in next.jobs && next.jobs[q] == db.jobs[q] && (Waiting(next, q) <==> Waiting(db, q))
    ensures q in next.jobs && q !in db.jobs ==> next.jobs[q].createdAt == now && next.jobs[q].user == s.user
  {
    assert Agrees(CaseOf(db, q)) && Agrees(CaseOf(db, r));
    assert q != r ==> SameRow(db.jobs, next.jobs, q);
  }

  /** Jobs that are younger than the head, or below where it was looked for, do not displace it. */
  lemma ArrivalKeepsHeadAbove(db: Db, next: Db, s: Submission, r: Id, now: int, floor: Option<Id>, c: Id)
    requires AllAgree(db) && Enters(db, next, s, r, now)
    requires Head(db, floor, c) && now > db.jobs[c].createdAt
    ensures Head(next, floor, c)
  {
    hide Waiting, Enters, AllAgree;
    IsJob(db, c);
    ArrivalsWait(db, next, s, r, now, c);
    forall q | WaitingAbove(next, floor, q) ensures q in next.jobs && Precedes(next, c, q) {
      IsJob(next, q);
      ArrivalsWait(db, next, s, r, now, q);
      if q in db.jobs { assert WaitingAbove(db, floor, q); assert Precedes(db, c, q); }
    }
  }

  lemma IsJob(db: Db, q: Id)
    ensures Waiting(db, q) ==> q in db.jobs
  {
  }

  lemma ArrivalFillsNoGap(db: Db, next: Db, s: Submission, r: Id, now: int, floor: Option<Id>, q: Id)
    requires AllAgree(db) && Enters(db, next, s, r, now) && floor.Some? && s.user <= floor.value
    requires !WaitingAbove(db, floor, q)
    ensures !WaitingAbove(next, floor, q)
  {
    ArrivalsWait(db, next, s, r, now, q);
  }

  lemma ArrivalStaysHopeless(db: Db, next: Db, s: Submission, r: Id, now: int, c: Id)
    requires Enters(db, next, s, r, now) && r !in db.jobs && c in db.jobs && Hopeless(db, c)
    ensures c in next.jobs && Hopeless(next, c)
  {
    assert SameRow(db.leases, next.leases, c);
  }

  lemma ArrivalKeepsHead(db: Db, op: Op, c: Id)
    requires Healthy(db) && Pick(db) == Some(c) && (op.PreflightLease? || op.Enqueue?)
    requires Behind(op, db.jobs[c].createdAt, Wrapped(db, c), db.cursor)
    ensures c in Next(db, op).jobs && Next(db, op).jobs[c] == db.jobs[c]
    ensures Pick(Next(db, op)) == Some(c) && (Wrapped(Next(db, op), c) <==> Wrapped(db, c))
    ensures Next(db, op).cursor == db.cursor
    ensures Hopeless(db, c) ==> Hopeless(Next(db, op), c)
  {
    hide Step, Hopeless, Precedes;
    var next := Next(db, op);
    SubmissionShape(db, op);
    if next != db {
      var s, r, now := op.s, op.id, op.now;
      ArrivalsWait(db, next, s, r, now, c);
      assert Agrees(CaseOf(db, r));
      if Hopeless(db, c) { ArrivalStaysHopeless(db, next, s, r, now, c); }
      ArrivalKeepsPick(db, next, s, r, now, c);
    }
  }

  lemma ArrivalKeepsPick(db: Db, next: Db, s: Submission, r: Id, now: int, c: Id)
    requires AllAgree(db) && Enters(db, next, s, r, now) && Pick(db) == Some(c) && now > db.jobs[c].createdAt
    requires Wrapped(db, c) && db.cursor.Some? ==> s.user <= db.cursor.value
    ensures Pick(next) == Some(c) && (Wrapped(next, c) <==> Wrapped(db, c))
  {
    hide AllAgree, Precedes;
    ArrivalsWait(db, next, s, r, now, c);
    if Wrapped(db, c) {
      forall q ensures !WaitingAbove(next, db.cursor, q) { ArrivalFillsNoGap(db, next, s, r, now, db.cursor, q); }
      ArrivalKeepsHeadAbove(db, next, s, r, now, None, c);
      HeadIsUnique(next, None, c);
    } else {
      ArrivalKeepsHeadAbove(db, next, s, r, now, db.cursor, c);
      HeadIsUnique(next, db.cursor, c);
    }
  }

  /** A head that cannot be claimed stops the queue: while workers claim and clients submit,
      no claim succeeds, for any number of jobs behind it. */
  lemma {:induction false} FailingHeadBlocks(db: Db, ops: seq<Op>, c: Id)
    requires Healthy(db) && Legal(db, ops) && Pick(db) == Some(c) && Hopeless(db, c)
    requires forall k :: 0 <= k < |ops| ==>
      Busy(ops[k]) && Behind(ops[k], db.jobs[c].createdAt, Wrapped(db, c), db.cursor)
    ensures HeadClaims(db, ops) == 0 && Pick(Run(db, ops)) == Some(c)
    decreases |ops|
  {
    if ops != [] {
      StepKeepsHealthy(db, ops[0]);
      if ops[0].ClaimHead? { HopelessHeadIsNotClaimed(db, ops[0]); } else { ArrivalKeepsHead(db, ops[0], c); }
      FailingHeadBlocks(Next(db, ops[0]), ops[1..], c);
    }
  }
}
