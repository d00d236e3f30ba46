/**
 What each quota operation of src-core/src/quota.rs does to the store, as one atomic
 step: the committed store and the reply, or the error that rolls everything back.
 */
module Quota {
  import opened Basics
  import opened States
  import opened Books
  import opened Tables

  // ------------------------------------------------------------------ checks

  function ReadyCheck(b: Books, a: AccountId): Check {
    if a !in b.accounts then Pass
    else if !b.accounts[a].enabled then Fail(BudgetAccountDisabled)
    else Need(b.accounts[a].migration.Ready?, QuotaMigrationPending)
  }

  function OwnerOf(db: Db, key: Id): Result<Id> {
    if key !in db.site.keys then Err(ApiKeyNotFound) else
    :- Need(db.site.keys[key].active, InvalidRequestIdentity);
    :- Need(db.site.keys[key].user in db.site.users, UserNotActive);
    Ok(db.site.keys[key].user)
  }

  // ---------------------------------------------------- sums over Key accounts

  /** available + held: what an account's past grants still bind. */
  ghost function Commitment(b: Books, a: AccountId): int { Available(b, a) + HeldOn(b, a) }

  datatype Figure = Spendable | Bound | BoundAtLeastZero

  ghost function FigureOf(f: Figure, b: Books, a: AccountId): int {
    match f
    case Spendable => Available(b, a)
    case Bound => Commitment(b, a)
    case BoundAtLeastZero => if Commitment(b, a) > 0 then Commitment(b, a) else 0
  }

  ghost function SumOf(f: Figure, b: Books, s: set<AccountId>): int
    decreases |s|
  {
    if s == {} then 0
    else
      var a :| a in s;
      FigureOf(f, b, a) + SumOf(f, b, s - {a})
  }

  lemma {:induction false} SumSplit(f: Figure, b: Books, s: set<AccountId>, a: AccountId)
    requires a in s
    ensures SumOf(f, b, s) == FigureOf(f, b, a) + SumOf(f, b, s - {a})
    decreases |s|
  {
    var c :| c in s && SumOf(f, b, s) == FigureOf(f, b, c) + SumOf(f, b, s - {c});
    if c != a {
      SumSplit(f, b, s - {c}, a);
      SumSplit(f, b, s - {a}, c);
      assert s - {c} - {a} == s - {a} - {c};
    }
  }

  /** The user's enabled Key accounts of a kind whose Keys are active. */
  function PoolKeys(db: Db, user: Id, kind: Kind): set<AccountId> {
    set a | a in db.books.accounts && a.KeyOf? && a.user == user && a.kind == kind
            && db.books.accounts[a].enabled && db.KeyActive(user, a.key)
  }

  function CreditKeys(b: Books): set<AccountId> {
    set a | a in b.accounts && a.KeyOf? && a.kind.Credits?
  }

  // ------------------------------------------------------------------ grants

  ghost function PoolGrant(db: Db, user: Id, kind: Kind, amount: int): Transaction {
    if amount <= 0 then Err(InvalidQuotaAmount) else
    :- Need(user in db.site.users, UserNotActive);
    :- ReadyCheck(db.books, CapOf(user, kind));
    Ok((db.(books := Grant(db.books, CapOf(user, kind), amount)), Done))
  }

  ghost function Allocatable(db: Db, user: Id, kind: Kind): int {
    var free := Available(db.books, CapOf(user, kind)) - SumOf(Bound, db.books, PoolKeys(db, user, kind));
    if free > 0 then free else 0
  }

  ghost function AllocateFromPool(db: Db, key: Id, kind: Kind, amount: int): Transaction {
    if amount <= 0 then Err(InvalidQuotaAmount) else
    var user :- OwnerOf(db, key);
    :- Need(CapOf(user, kind) in db.books.accounts, QuotaPoolNotConfigured);
    :- ReadyCheck(db.books, CapOf(user, kind));
    var free := Allocatable(db, user, kind);
    :- Need(amount <= free, QuotaPoolInsufficient(free, amount));
    :- ReadyCheck(db.books, KeyOf(user, key, kind));
    Ok((db.(books := Grant(db.books, KeyOf(user, key, kind), amount)), Done))
  }

  const SNAPSHOT_MAX_AGE: int := 300_000

  /** UpstreamCreditSnapshot. */
  datatype Snapshot = Snapshot(total: nat, updatedAt: int)

  /** What a fresh snapshot leaves to allocate, or why it leaves nothing. */
  ghost function Capacity(b: Books, s: Snapshot, now: int): Result<int> {
    if !(s.updatedAt > 0 && 0 <= now - s.updatedAt <= SNAPSHOT_MAX_AGE) then Err(UpstreamCreditsUnavailable) else
    var committed := SumOf(BoundAtLeastZero, b, CreditKeys(b));
    :- Need(committed <= s.total, UpstreamCommitmentsExceedBalance);
    Ok(s.total - committed)
  }

  ghost function AllocateFromUpstream(db: Db, key: Id, amount: int, s: Snapshot, now: int): Transaction {
    if amount <= 0 then Err(InvalidQuotaAmount) else
    var free :- Capacity(db.books, s, now);
    :- Need(amount <= free, UpstreamCreditLimitExceeded(free, amount));
    var user :- OwnerOf(db, key);
    :- ReadyCheck(db.books, KeyOf(user, key, Credits));
    Ok((db.(books := Grant(db.books, KeyOf(user, key, Credits), amount)), Remaining(free - amount)))
  }

  ghost function KeyGrant(db: Db, key: Id, kind: Kind, amount: int): Transaction {
    if amount <= 0 then Err(InvalidQuotaAmount) else
    var user :- OwnerOf(db, key);
    :- ReadyCheck(db.books, KeyOf(user, key, kind));
    Ok((db.(books := Grant(db.books, KeyOf(user, key, kind), amount)), Done))
  }

  // ------------------------------------------------------------ reservations

  datatype ReserveReply = Placed(books: Books) | AlreadyReserved | Short(available: int)

  /** reserve_dual_in_transaction: the Key must afford the amount, and the user's cap
      too when there is one. */
  ghost function ReserveDual(b: Books, r: Id, user: Id, key: Id, kind: Kind, amount: int): Result<ReserveReply> {
    if r in b.reservations then
      var x := b.reservations[r];
      if x.user == user && x.kind == kind && x.key == key then Ok(AlreadyReserved)
      else Err(ReservationRequestConflict)
    else
      var a, c := KeyOf(user, key, kind), CapOf(user, kind);
      :- Need(a in b.accounts, KeyQuotaNotConfigured);
      :- ReadyCheck(b, a);
      :- ReadyCheck(b, c);
      var available := if c in b.accounts && Available(b, c) < Available(b, a) then Available(b, c) else Available(b, a);
      Ok(if available < amount then Short(available)
         else Placed(Place(b, r, Reservation(user, key, kind, amount, ReservationState.Held, a,
                                             if c in b.accounts then Some(c) else None))))
  }

  /** apply_dual_settlement. It does not look at the reservation's state: its callers must. */
  function ApplySettlement(b: Books, r: Id, s: Settlement): Result<Books>
    requires r in b.reservations
  {
    match s
    case Released => Ok(Free(b, r))
    case Charged(Some(actual)) =>
      :- Need(actual >= 0, InvalidQuotaAmount);
      :- Need(actual <= b.reservations[r].amount, ActualAmountExceedsReservation);
      Ok(Charge(b, r, actual))
    case _ => Ok(Suspend(b, {r}))
  }

  /** apply_dual_settlement keeps the books in order exactly when the reservation still
      holds its amount. It does not check that, and lease settlement does not check it for
      it: a reservation behind a lease must be settled through its lease only. */
  lemma SettlementIsSoundExactly(b: Books, r: Id, s: Settlement)
    requires Sound(b) && r in b.reservations && ApplySettlement(b, r, s).Ok?
    ensures Sound(ApplySettlement(b, r, s).value) <==> b.reservations[r].Holds()
    ensures !b.reservations[r].Holds() ==> !Conserved(ApplySettlement(b, r, s).value, b.reservations[r].keyAccount)
  {
    var a := b.reservations[r].keyAccount;
    if b.reservations[r].Holds() {
      match s
      case Released => FreeKeepsSound(b, r);
      case Charged(Some(actual)) => ChargeKeepsSound(b, r, actual);
      case _ => SuspendKeepsSound(b, {r});
    } else {
      match s
      case Released => FreeTwiceBreaksBooks(b, r);
      case Charged(Some(actual)) => ChargeTwiceBreaksBooks(b, r, actual);
      case _ => SuspendingClosedBreaksBooks(b, r);
      assert !Conserved(ApplySettlement(b, r, s).value, a);
    }
  }

  /** The amount of the first commit row of a reservation's group on its Key account. */
  function CommittedAmount(ledger: seq<Entry>, a: AccountId, r: Id): Option<int> {
    if ledger == [] then None
    else if ledger[0].account == a && ledger[0].group == Some(r) && ledger[0].event.Commit?
    then Some(ledger[0].amount)
    else CommittedAmount(ledger[1..], a, r)
  }

  /** validate_dual_settlement_replay. */
  function ReplayAgrees(b: Books, r: Id, s: Settlement): bool
    requires r in b.reservations
  {
    match b.reservations[r].state
    case Released => s.Released?
    case Unknown => s.Undecided? || s == Charged(None)
    case Committed => s.Charged? && s.actual.Some?
                      && CommittedAmount(b.ledger, b.reservations[r].keyAccount, r) == s.actual
    case Held => true
  }

  function OwnsReservation(db: Db, p: Principal, r: Id): bool
    requires r in db.books.reservations
  {
    var x := db.books.reservations[r];
    x.user == p.user && x.key == p.key
    && (r in db.requests ==> db.requests[r].user == p.user && db.requests[r].key == p.key)
  }

  /** settle_request_state, in closed form. */
  function SettleRequest(db: Db, r: Id, goal: RequestState): Result<Db>
    requires r in db.requests
  {
    if !CanSettleAs(db.requests[r].state, goal) then Err(InvalidTransition) else
    Ok(db.SetState(r, SettledAs(db.requests[r].state, goal)))
  }

  /** settle and settle_request. */
  ghost function Settle(db: Db, p: Principal, r: Id, s: Settlement, goal: Option<RequestState>): Transaction {
    if r !in db.books.reservations then Err(ReservationNotFound) else
    :- Need(OwnsReservation(db, p, r), ReservationOwnerMismatch);
    if !db.books.reservations[r].state.Held? then
      :- Need(ReplayAgrees(db.books, r, s), ReservationSettlementConflict);
      Ok((db, Done))
    else
      var db1 :- if goal.Some? && r in db.requests then SettleRequest(db, r, goal.value) else Ok(db);
      var books :- ApplySettlement(db.books, r, s);
      Ok((db1.(books := books), Done))
  }
}
