/** The state enums of src-core/src/models.rs and their transition tables. */
module States {

  datatype RequestState =
    | Received | Validating | Reserved | Queued | Dispatched | Completing
    | CancelRequested | Canceled | Succeeded | Failed | Unknown | Settled
  {
    predicate CanTransitionTo(next: RequestState) {
      match this
      case Received => next.Validating?
      case Validating => next.Reserved? || next.Failed? || next.Unknown?
      case Reserved => next.Queued? || next.Failed? || next.Unknown? || next.CancelRequested?
      case Queued => next.Dispatched? || next.Failed? || next.Unknown? || next.CancelRequested?
      case Dispatched => next.Completing? || next.Failed? || next.Unknown? || next.CancelRequested?
      case Completing => next.Succeeded? || next.Failed? || next.Unknown? || next.CancelRequested?
      case CancelRequested => next.Canceled? || next.Unknown?
      case Unknown => next.Canceled? || next.Succeeded? || next.Failed? || next.Settled?
      case Canceled => next.Settled?
      case Succeeded => next.Settled?
      case Failed => next.Settled?
      case Settled => false
    }

    /** A measure that every legal edge lowers, so no request can move forever. */
    ghost function Rank(): nat {
      match this
      case Received => 9
      case Validating => 8
      case Reserved => 7
      case Queued => 6
      case Dispatched => 5
      case Completing => 4
      case CancelRequested => 3
      case Unknown => 2
      case Canceled => 1
      case Succeeded => 1
      case Failed => 1
      case Settled => 0
    }

    /** Equal, or of lower rank; ReachesIsWalk shows what that means. */
    ghost predicate Reaches(next: RequestState) { this == next || next.Rank() < Rank() }

    /** States in which a live lease may find its request. */
    predicate Open() {
      Reserved? || Queued? || Dispatched? || Completing? || CancelRequested?
    }

    /** Where a receipt may still fix the charge of a quoted request. */
    predicate Billable() {
      Reserved? || Queued? || Dispatched? || Completing? || Unknown?
    }

    /** Counted by the per-Key concurrency queries; `cancel_requested` is not. */
    predicate CountsAsActive() {
      Received? || Validating? || Reserved? || Queued? || Dispatched? || Completing? || Unknown?
    }
  }

  datatype ReservationState = Held | Committed | Released | Unknown

  datatype LeaseState = Held | Active | Succeeded | Failed | Unknown
  {
    predicate Live() { Held? || Active? }
    predicate Occupies() { Held? || Active? || Unknown? }
  }

  datatype JobState =
    | Created | Queued | Running | CancelRequested | Canceled | Succeeded | Failed | Unknown
  {
    predicate CanTransitionTo(next: JobState) {
      match this
      case Created => next.Queued? || next.Failed? || next.Unknown?
      case Queued => next.Running? || next.CancelRequested? || next.Failed? || next.Unknown?
      case Running => next.Succeeded? || next.Failed? || next.CancelRequested? || next.Unknown?
      case CancelRequested => next.Canceled? || next.Unknown?
      case Unknown => next.Canceled? || next.Succeeded? || next.Failed?
      case _ => false
    }

    ghost function Rank(): nat {
      match this
      case Created => 5
      case Queued => 4
      case Running => 3
      case CancelRequested => 2
      case Unknown => 1
      case _ => 0
    }

    ghost predicate Reaches(next: JobState) { this == next || next.Rank() < Rank() }

    predicate Terminal() { Canceled? || Succeeded? || Failed? }
  }

  datatype AttemptState = Queued | Running | CancelRequested | Canceled | Succeeded | Failed | Unknown

  /** b is reached from a by legal edges only. */
  ghost predicate Walk(a: RequestState, b: RequestState)
    decreases a.Rank()
  {
    a == b || exists c: RequestState :: a.CanTransitionTo(c) && c.Rank() < a.Rank() && Walk(c, b)
  }

  ghost predicate JobWalk(a: JobState, b: JobState)
    decreases a.Rank()
  {
    a == b || exists c: JobState :: a.CanTransitionTo(c) && c.Rank() < a.Rank() && JobWalk(c, b)
  }

  /** The first step of a walk towards any state of lower rank. */
  function Towards(a: RequestState, b: RequestState): RequestState {
    if a.CanTransitionTo(b) then b
    else match a
      case Received => RequestState.Validating
      case Validating => RequestState.Reserved
      case Reserved => RequestState.Queued
      case Queued => RequestState.Dispatched
      case Dispatched => RequestState.Completing
      case CancelRequested => RequestState.Unknown
      case _ => if b.Settled? then RequestState.Failed else RequestState.CancelRequested
  }

  function JobTowards(a: JobState, b: JobState): JobState {
    if a.CanTransitionTo(b) then b
    else match a
      case Created => JobState.Queued
      case Queued => JobState.Running
      case Running => JobState.CancelRequested
      case _ => JobState.Unknown
  }

  lemma {:induction false} WalkReaches(a: RequestState, b: RequestState)
    requires Walk(a, b)
    ensures a.Reaches(b)
    decreases a.Rank()
  {
    if a != b {
      var c: RequestState :| a.CanTransitionTo(c) && c.Rank() < a.Rank() && Walk(c, b);
      WalkReaches(c, b);
    }
  }

  lemma {:induction false} ReachesWalks(a: RequestState, b: RequestState)
    requires a.Reaches(b)
    ensures Walk(a, b)
    decreases a.Rank()
  {
    if a != b {
      var c := Towards(a, b);
      assert a.CanTransitionTo(c) && c.Rank() < a.Rank() && c.Reaches(b);
      ReachesWalks(c, b);
    }
  }

  /** Reachability along legal edges is exactly the rank order: every edge lowers the
      rank, so no state is ever seen twice, and every lower state can be reached. */
  lemma ReachesIsWalk(a: RequestState, b: RequestState)
    ensures a.Reaches(b) <==> Walk(a, b)
  {
    if a.Reaches(b) { ReachesWalks(a, b); }
    if Walk(a, b) { WalkReaches(a, b); }
  }

  lemma {:induction false} JobReachesIsWalk(a: JobState, b: JobState)
    ensures a.Reaches(b) <==> JobWalk(a, b)
    decreases a.Rank()
  {
    if a != b && a.Reaches(b) {
      var c := JobTowards(a, b);
      JobReachesIsWalk(c, b);
      assert a.CanTransitionTo(c) && c.Rank() < a.Rank() && JobWalk(c, b);
    }
    if a != b && JobWalk(a, b) {
      var c: JobState :| a.CanTransitionTo(c) && c.Rank() < a.Rank() && JobWalk(c, b);
      JobReachesIsWalk(c, b);
    }
  }

  lemma EdgesLowerRank(a: RequestState, b: RequestState, i: JobState, j: JobState)
    ensures a.CanTransitionTo(b) ==> b.Rank() < a.Rank()
    ensures i.CanTransitionTo(j) ==> j.Rank() < i.Rank()
  {
  }

  /** The working states, in the order they are passed through. */
  function Succ(a: RequestState): (b: RequestState) {
    match a
    case Received => Validating
    case Validating => Reserved
    case Reserved => RequestState.Queued
    case Queued => Dispatched
    case Dispatched => Completing
    case Completing => RequestState.Succeeded
    case _ => RequestState.Settled
  }

  predicate Working(a: RequestState) { a in {Reserved, RequestState.Queued, Dispatched, Completing} }

  /** The edges of the request table: work goes on one step at a time; from the check on it may
      fail or be lost, and while it is under way be asked to stop; what was asked to stop was
      stopped or is lost; what is lost may turn out any way; and every outcome is settled. */
  lemma RequestEdges(a: RequestState, b: RequestState)
    ensures a.CanTransitionTo(b) <==>
      || (b == Succ(a) && (Working(a) || a in {Received, Validating}))
      || (b in {RequestState.Failed, RequestState.Unknown} && (Working(a) || a == Validating))
      || (b == RequestState.CancelRequested && Working(a))
      || (a == RequestState.CancelRequested && b in {RequestState.Canceled, RequestState.Unknown})
      || (a == RequestState.Unknown && b in {RequestState.Canceled, RequestState.Succeeded, RequestState.Failed})
      || (a in {RequestState.Unknown, RequestState.Canceled, RequestState.Succeeded, RequestState.Failed} && b == Settled)
  {
  }

  /** And of the job table. */
  lemma JobEdges(a: JobState, b: JobState)
    ensures a.CanTransitionTo(b) <==>
      || (a == Created && b == JobState.Queued)
      || (a == JobState.Queued && b == JobState.Running)
      || (a == JobState.Running && b == JobState.Succeeded)
      || (a in {Created, JobState.Queued, JobState.Running} && b in {JobState.Failed, JobState.Unknown})
      || (a in {JobState.Queued, JobState.Running} && b == JobState.CancelRequested)
      || (a == JobState.CancelRequested && b in {JobState.Canceled, JobState.Unknown})
      || (a == JobState.Unknown && b in {JobState.Canceled, JobState.Succeeded, JobState.Failed})
  {
  }

  /** Where a request ends when it is settled towards `goal`, in closed form;
      `None` is the InvalidTransition error. */
  predicate CanSettleAs(current: RequestState, goal: RequestState) {
    match goal
    case Succeeded =>
      current.Reserved? || current.Queued? || current.Dispatched? || current.Completing?
      || current.Unknown? || current.Succeeded?
    case Failed => current.CanTransitionTo(RequestState.Failed)
    case Unknown => current.CanTransitionTo(RequestState.Unknown)
    case Canceled => current.CancelRequested? || current.Unknown?
    case Settled => true
    case _ => false
  }

  function SettledAs(current: RequestState, goal: RequestState): RequestState {
    if goal.Settled? then current else RequestState.Settled
  }

  /** Settling ends where a walk along legal edges can end. */
  lemma SettlingReaches(current: RequestState, goal: RequestState)
    requires CanSettleAs(current, goal)
    ensures current.Reaches(SettledAs(current, goal))
  {
  }
}
