/** Option and Result, and the identifiers and constants shared by every table. */
module Basics {
  datatype Option<+T> = None | Some(value: T)

  /** Row identifiers. Their numeric order stands for the byte order SQLite uses on text ids. */
  type Id = nat

  const MAX_I64: int := 0x7FFF_FFFF_FFFF_FFFF

  datatype Kind = Credits | VideoJob | OtherKind(name: nat)
}

/**
 The budget books of src-core/src/quota.rs: accounts, the append-only ledger and the
 reservations. A balance is never stored; it is a sum over ledger rows and
 reservation rows (quota.rs, budget_balance_in_transaction).
 */
module Books {
  import opened Basics
  import opened States

  /** The unique indexes on quota_budget_accounts make these fields a key of the table. */
  datatype AccountId = CapOf(user: Id, kind: Kind) | KeyOf(user: Id, key: Id, kind: Kind)

  datatype MigrationState = Ready | ReconcileRequired

  datatype Account = Account(enabled: bool, version: nat, migration: MigrationState)

  datatype EventKind = Adjust | Reserve | Release | Commit

  /** A quota_ledger row. `group` is the request whose reservation opened the event
      group, or None for an administrator's adjustment. */
  datatype Entry = Entry(
    account: AccountId, event: EventKind, amount: int, delta: int,
    group: Option<Id>, version: nat)

  /** A quota_reservations row; the table is keyed by its UNIQUE request_id. */
  datatype Reservation = Reservation(
    user: Id, key: Id, kind: Kind, amount: int, state: ReservationState,
    keyAccount: AccountId, cap: Option<AccountId>)
  {
    predicate On(a: AccountId) { keyAccount == a || cap == Some(a) }
    predicate Holds() { state.Held? || state.Unknown? }
  }

  datatype Books = Books(
    accounts: map<AccountId, Account>,
    ledger: seq<Entry>,
    reservations: map<Id, Reservation>)

  const NoBooks := Books(map[], [], map[])

  // ---------------------------------------------------------------- balances

  /** What a ledger row contributes to each of the sums taken over an account. */
  datatype Measure = Deltas | Commits | Adjusts | Overruns

  function Weigh(m: Measure, a: AccountId, e: Entry): int {
    if e.account != a then 0
    else match m
      case Deltas => e.delta
      case Commits => if e.event.Commit? then e.amount else 0
      case Adjusts => if e.event.Adjust? then e.delta else 0
      case Overruns => if e.event.Commit? && e.delta < 0 then -e.delta else 0
  }

  function Total(m: Measure, a: AccountId, ledger: seq<Entry>): int {
    if ledger == [] then 0
    else Total(m, a, ledger[..|ledger| - 1]) + Weigh(m, a, ledger[|ledger| - 1])
  }

  lemma TotalOne(m: Measure, a: AccountId, ledger: seq<Entry>, e: Entry)
    ensures Total(m, a, ledger + [e]) == Total(m, a, ledger) + Weigh(m, a, e)
  {
    assert (ledger + [e])[..|ledger|] == ledger;
  }

  lemma {:induction false} TotalAppend(m: Measure, a: AccountId, ledger: seq<Entry>, more: seq<Entry>)
    ensures Total(m, a, ledger + more) == Total(m, a, ledger) + Total(m, a, more)
  {
    if more == [] {
      assert ledger + more == ledger;
    } else {
      var n := |more| - 1;
      assert ledger + more == (ledger + more[..n]) + [more[n]];
      TotalAppend(m, a, ledger, more[..n]);
      TotalOne(m, a, ledger + more[..n], more[n]);
    }
  }

  function HoldOf(r: Reservation, a: AccountId): int {
    if r.On(a) && r.Holds() then r.amount else 0
  }

  ghost function HeldTotal(rs: map<Id, Reservation>, a: AccountId): int
    decreases |rs|
  {
    if rs == map[] then 0
    else
      var r :| r in rs;
      HoldOf(rs[r], a) + HeldTotal(rs - {r}, a)
  }

  /** The sum may be taken in any order: any row can be split off first. */
  lemma {:induction false} HeldSplit(rs: map<Id, Reservation>, a: AccountId, r: Id)
    requires r in rs
    ensures HeldTotal(rs, a) == HoldOf(rs[r], a) + HeldTotal(rs - {r}, a)
    decreases |rs|
  {
    var q :| q in rs && HeldTotal(rs, a) == HoldOf(rs[q], a) + HeldTotal(rs - {q}, a);
    if q != r {
      HeldSplit(rs - {q}, a, r);
      HeldSplit(rs - {r}, a, q);
      assert rs - {q} - {r} == rs - {r} - {q};
    }
  }

  lemma HeldPut(rs: map<Id, Reservation>, a: AccountId, r: Id, x: Reservation)
    ensures HeldTotal(rs[r := x], a)
         == HeldTotal(rs, a) + HoldOf(x, a) - (if r in rs then HoldOf(rs[r], a) else 0)
  {
    HeldSplit(rs[r := x], a, r);
    assert rs[r := x] - {r} == rs - {r};
    if r in rs {
      HeldSplit(rs, a, r);
    } else {
      assert rs - {r} == rs;
    }
  }

  /** Rewriting rows without changing what they hold keeps the sum. */
  lemma {:induction false} HeldSame(rs: map<Id, Reservation>, rs': map<Id, Reservation>, a: AccountId)
    requires rs'.Keys == rs.Keys
    requires forall r :: r in rs ==> HoldOf(rs'[r], a) == HoldOf(rs[r], a)
    ensures HeldTotal(rs', a) == HeldTotal(rs, a)
    decreases |rs|
  {
    if rs == map[] {
      assert rs' == map[];
    } else {
      var r :| r in rs;
      HeldSplit(rs, a, r);
      HeldSplit(rs', a, r);
      HeldSame(rs - {r}, rs' - {r}, a);
    }
  }

  ghost function Available(b: Books, a: AccountId): int { Total(Deltas, a, b.ledger) }
  ghost function HeldOn(b: Books, a: AccountId): int { HeldTotal(b.reservations, a) }
  ghost function SettledOn(b: Books, a: AccountId): int { Total(Commits, a, b.ledger) }
  ghost function GrantedTo(b: Books, a: AccountId): int { Total(Adjusts, a, b.ledger) }
  /** By how much receipts above their quote have overdrawn an account in all. */
  ghost function OverrunOn(b: Books, a: AccountId): int { Total(Overruns, a, b.ledger) }

  // ------------------------------------------------------------- invariants

  /** Conservation: what was granted is available, held or settled. */
  ghost predicate Conserved(b: Books, a: AccountId) {
    Available(b, a) + HeldOn(b, a) + SettledOn(b, a) == GrantedTo(b, a)
  }

  /** An account is overdrawn by receipts above their quote at most. */
  ghost predicate Floored(b: Books, a: AccountId) {
    Available(b, a) + OverrunOn(b, a) >= 0
  }

  ghost predicate Filed(b: Books, r: Id)
    requires r in b.reservations
  {
    var x := b.reservations[r];
    && x.amount > 0
    && x.keyAccount == KeyOf(x.user, x.key, x.kind)
    && (x.cap.Some? ==> x.cap.value == CapOf(x.user, x.kind))
    && x.keyAccount in b.accounts && (x.cap.Some? ==> x.cap.value in b.accounts)
  }

  ghost predicate Sound(b: Books) {
    && (forall a :: Conserved(b, a))
    && (forall a :: Floored(b, a))
    && (forall r :: r in b.reservations ==> Filed(b, r))
  }

  // ------------------------------------------------- the five ways books move

  function VersionOf(b: Books, a: AccountId): nat {
    if a in b.accounts then b.accounts[a].version else 0
  }

  /** A grant: a new account starts at version 1, an existing one advances. */
  function Grant(b: Books, a: AccountId, amount: int): Books {
    var row := if a in b.accounts then b.accounts[a].(version := b.accounts[a].version + 1)
               else Account(true, 1, Ready);
    b.(accounts := b.accounts[a := row],
       ledger := b.ledger + [Entry(a, Adjust, amount, amount, None, row.version)])
  }

  /** The rows one event of a reservation's group writes: the Key's, then the cap's. */
  function Events(b: Books, r: Id, x: Reservation, event: EventKind, amount: int, delta: int): seq<Entry> {
    [Entry(x.keyAccount, event, amount, delta, Some(r), VersionOf(b, x.keyAccount))]
    + (if x.cap.Some? then [Entry(x.cap.value, event, amount, delta, Some(r), VersionOf(b, x.cap.value))] else [])
  }

  function Place(b: Books, r: Id, x: Reservation): Books {
    b.(reservations := b.reservations[r := x],
       ledger := b.ledger + Events(b, r, x, Reserve, x.amount, -x.amount))
  }

  /** Keep the holds of these requests while their outcome is unknown. */
  function Suspend(b: Books, rs: set<Id>): Books {
    b.(reservations := map r | r in b.reservations ::
      if r in rs then b.reservations[r].(state := ReservationState.Unknown) else b.reservations[r])
  }

  function Free(b: Books, r: Id): Books
    requires r in b.reservations
  {
    var x := b.reservations[r];
    b.(reservations := b.reservations[r := x.(state := ReservationState.Released)],
       ledger := b.ledger + Events(b, r, x, Release, x.amount, x.amount))
  }

  function Charge(b: Books, r: Id, actual: int): Books
    requires r in b.reservations
  {
    var x := b.reservations[r];
    b.(reservations := b.reservations[r := x.(state := ReservationState.Committed)],
       ledger := b.ledger + Events(b, r, x, Commit, actual, x.amount - actual))
  }

  /** Both rows of one event weigh alike on every account the reservation stands on. */
  lemma EventsWeigh(b: Books, r: Id, x: Reservation, event: EventKind, amount: int, delta: int,
                    m: Measure, a: AccountId)
    requires x.keyAccount.KeyOf? && (x.cap.Some? ==> x.cap.value.CapOf?)
    ensures Total(m, a, Events(b, r, x, event, amount, delta))
         == if x.On(a) then Weigh(m, a, Entry(a, event, amount, delta, Some(r), 0)) else 0
  {
    var first := Entry(x.keyAccount, event, amount, delta, Some(r), VersionOf(b, x.keyAccount));
    TotalOfOne(m, a, first);
    if x.cap.Some? {
      var second := Entry(x.cap.value, event, amount, delta, Some(r), VersionOf(b, x.cap.value));
      TotalOne(m, a, [first], second);
    } else {
      assert Events(b, r, x, event, amount, delta) == [first];
    }
  }

  lemma TotalOfOne(m: Measure, a: AccountId, e: Entry)
    ensures Total(m, a, [e]) == Weigh(m, a, e)
  {
    assert [e][..0] == [];
  }

  lemma LedgerMoves(b: Books, r: Id, x: Reservation, event: EventKind, amount: int, delta: int,
                    m: Measure, a: AccountId)
    requires x.keyAccount.KeyOf? && (x.cap.Some? ==> x.cap.value.CapOf?)
    ensures Total(m, a, b.ledger + Events(b, r, x, event, amount, delta))
         == Total(m, a, b.ledger)
            + if x.On(a) then Weigh(m, a, Entry(a, event, amount, delta, Some(r), 0)) else 0
  {
    TotalAppend(m, a, b.ledger, Events(b, r, x, event, amount, delta));
    EventsWeigh(b, r, x, event, amount, delta, m, a);
  }

  /** How each kind of event moves the four figures of each account. */
  lemma FiguresAfterEvents(b: Books, b': Books, r: Id, x: Reservation, event: EventKind, amount: int, delta: int,
                           a: AccountId)
    requires x.keyAccount.KeyOf? && (x.cap.Some? ==> x.cap.value.CapOf?)
    requires b'.ledger == b.ledger + Events(b, r, x, event, amount, delta)
    requires !event.Adjust?
    ensures Available(b', a) == Available(b, a) + if x.On(a) then delta else 0
    ensures SettledOn(b', a) == SettledOn(b, a) + if x.On(a) && event.Commit? then amount else 0
    ensures GrantedTo(b', a) == GrantedTo(b, a)
    ensures OverrunOn(b', a) == OverrunOn(b, a) + if x.On(a) && event.Commit? && delta < 0 then -delta else 0
  {
    LedgerMoves(b, r, x, event, amount, delta, Deltas, a);
    LedgerMoves(b, r, x, event, amount, delta, Commits, a);
    LedgerMoves(b, r, x, event, amount, delta, Adjusts, a);
    LedgerMoves(b, r, x, event, amount, delta, Overruns, a);
  }

  lemma FiguresAfterGrant(b: Books, a: AccountId, amount: int, c: AccountId)
    ensures var b' := Grant(b, a, amount);
      && Available(b', c) == Available(b, c) + (if a == c then amount else 0)
      && GrantedTo(b', c) == GrantedTo(b, c) + (if a == c then amount else 0)
      && SettledOn(b', c) == SettledOn(b, c)
      && OverrunOn(b', c) == OverrunOn(b, c)
  {
    var b' := Grant(b, a, amount);
    var e := b'.ledger[|b.ledger|];
    TotalOne(Deltas, c, b.ledger, e);
    TotalOne(Adjusts, c, b.ledger, e);
    TotalOne(Commits, c, b.ledger, e);
    TotalOne(Overruns, c, b.ledger, e);
  }

  lemma GrantKeepsSound(b: Books, a: AccountId, amount: int)
    requires Sound(b) && amount > 0
    ensures Sound(Grant(b, a, amount))
  {
    var b' := Grant(b, a, amount);
    forall c ensures Conserved(b', c) && Floored(b', c) {
      FiguresAfterGrant(b, a, amount, c);
      assert Conserved(b, c) && Floored(b, c);
    }
    forall r | r in b'.reservations ensures Filed(b', r) { assert Filed(b, r); }
  }

  ghost predicate Affordable(b: Books, r: Id, x: Reservation) {
    && r !in b.reservations
    && x.amount > 0 && x.state.Held?
    && x.keyAccount == KeyOf(x.user, x.key, x.kind)
    && (x.cap.Some? ==> x.cap.value == CapOf(x.user, x.kind))
    && (forall a :: x.On(a) ==> a in b.accounts && x.amount <= Available(b, a))
  }

  lemma PlaceKeepsSound(b: Books, r: Id, x: Reservation)
    requires Sound(b) && Affordable(b, r, x)
    ensures Sound(Place(b, r, x))
  {
    var b' := Place(b, r, x);
    forall c ensures Conserved(b', c) && Floored(b', c) {
      FiguresAfterEvents(b, b', r, x, Reserve, x.amount, -x.amount, c);
      HeldPut(b.reservations, c, r, x);
      assert Conserved(b, c) && Floored(b, c);
      if x.On(c) { OverrunsNonnegative(b.ledger, c); }
    }
    forall q | q in b'.reservations ensures Filed(b', q) {
      if q != r { assert Filed(b, q); }
    }
  }

  lemma {:induction false} OverrunsNonnegative(ledger: seq<Entry>, a: AccountId)
    ensures Total(Overruns, a, ledger) >= 0
  {
    if ledger != [] { OverrunsNonnegative(ledger[..|ledger| - 1], a); }
  }

  lemma SuspendKeepsSound(b: Books, rs: set<Id>)
    requires Sound(b) && forall r :: r in rs ==> r in b.reservations && b.reservations[r].Holds()
    ensures Sound(Suspend(b, rs))
  {
    var b' := Suspend(b, rs);
    forall c ensures Conserved(b', c) && Floored(b', c) {
      HeldSame(b.reservations, b'.reservations, c);
      assert Conserved(b, c) && Floored(b, c);
    }
    forall q | q in b'.reservations ensures Filed(b', q) { assert Filed(b, q); }
  }

  lemma FreeKeepsSound(b: Books, r: Id)
    requires Sound(b) && r in b.reservations && b.reservations[r].Holds()
    ensures Sound(Free(b, r))
  {
    var b', x := Free(b, r), b.reservations[r];
    assert Filed(b, r);
    forall c ensures Conserved(b', c) && Floored(b', c) {
      FiguresAfterEvents(b, b', r, x, Release, x.amount, x.amount, c);
      HeldPut(b.reservations, c, r, b'.reservations[r]);
      assert Conserved(b, c) && Floored(b, c);
    }
    forall q | q in b'.reservations ensures Filed(b', q) { assert Filed(b, q); }
  }

  lemma ChargeKeepsSound(b: Books, r: Id, actual: int)
    requires Sound(b) && r in b.reservations && b.reservations[r].Holds() && actual >= 0
    ensures Sound(Charge(b, r, actual))
  {
    var b', x := Charge(b, r, actual), b.reservations[r];
    assert Filed(b, r);
    forall c ensures Conserved(b', c) && Floored(b', c) {
      FiguresAfterEvents(b, b', r, x, Commit, actual, x.amount - actual, c);
      HeldPut(b.reservations, c, r, b'.reservations[r]);
      assert Conserved(b, c) && Floored(b, c);
    }
    forall q | q in b'.reservations ensures Filed(b', q) { assert Filed(b, q); }
  }

  // --------------------------------------------- what each event is worth

  /** From b to b', these amounts are added to the three figures of an account. */
  ghost predicate Shifts(b: Books, b': Books, a: AccountId, available: int, held: int, settled: int) {
    && Available(b', a) == Available(b, a) + available
    && HeldOn(b', a) == HeldOn(b, a) + held
    && SettledOn(b', a) == SettledOn(b, a) + settled
  }

  lemma GrantFigures(b: Books, c: AccountId, amount: int, a: AccountId)
    ensures Shifts(b, Grant(b, c, amount), a, if a == c then amount else 0, 0, 0)
  {
    FiguresAfterGrant(b, c, amount, a);
  }

  lemma PlaceFigures(b: Books, r: Id, x: Reservation, a: AccountId)
    requires r !in b.reservations && x.state.Held?
    requires x.keyAccount.KeyOf? && (x.cap.Some? ==> x.cap.value.CapOf?)
    ensures Shifts(b, Place(b, r, x), a, if x.On(a) then -x.amount else 0, if x.On(a) then x.amount else 0, 0)
  {
    hide Total, HeldTotal, Events;
    FiguresAfterEvents(b, Place(b, r, x), r, x, Reserve, x.amount, -x.amount, a);
    HeldPut(b.reservations, a, r, x);
  }

  lemma FreeFigures(b: Books, r: Id, a: AccountId)
    requires r in b.reservations && b.reservations[r].Holds() && Filed(b, r)
    ensures var x := b.reservations[r];
      Shifts(b, Free(b, r), a, if x.On(a) then x.amount else 0, if x.On(a) then -x.amount else 0, 0)
  {
    hide Total, HeldTotal, Events;
    var x := b.reservations[r];
    FiguresAfterEvents(b, Free(b, r), r, x, Release, x.amount, x.amount, a);
    HeldPut(b.reservations, a, r, Free(b, r).reservations[r]);
  }

  lemma ChargeFigures(b: Books, r: Id, c: int, a: AccountId)
    requires r in b.reservations && b.reservations[r].Holds() && Filed(b, r)
    ensures var x := b.reservations[r];
      Shifts(b, Charge(b, r, c), a, if x.On(a) then x.amount - c else 0, if x.On(a) then -x.amount else 0, if x.On(a) then c else 0)
  {
    hide Total, HeldTotal, Events;
    var x := b.reservations[r];
    FiguresAfterEvents(b, Charge(b, r, c), r, x, Commit, c, x.amount - c, a);
    HeldPut(b.reservations, a, r, Charge(b, r, c).reservations[r]);
  }

  lemma SuspendFigures(b: Books, rs: set<Id>, a: AccountId)
    requires forall r :: r in rs ==> r in b.reservations && b.reservations[r].Holds()
    ensures Shifts(b, Suspend(b, rs), a, 0, 0, 0)
  {
    HeldSame(b.reservations, Suspend(b, rs).reservations, a);
  }

  // ------------------------------------------------------------------- moves

  /** Everything an operation can do to the books. */
  datatype Move =
    | Stay
    | GrantTo(account: AccountId, amount: int)
    | PlaceRow(request: Id, row: Reservation)
    | SuspendRows(requests: set<Id>)
    | FreeRow(request: Id)
    | ChargeRow(request: Id, actual: int)
    | QuarantineAccounts(accounts: set<AccountId>)

  function Quarantine(b: Books, s: set<AccountId>): Books {
    b.(accounts := map a | a in b.accounts ::
      if a in s then b.accounts[a].(migration := ReconcileRequired) else b.accounts[a])
  }

  function Apply(b: Books, m: Move): Books
    requires (m.FreeRow? || m.ChargeRow?) ==> m.request in b.reservations
  {
    match m
    case Stay => b
    case GrantTo(a, amount) => Grant(b, a, amount)
    case PlaceRow(r, x) => Place(b, r, x)
    case SuspendRows(rs) => Suspend(b, rs)
    case FreeRow(r) => Free(b, r)
    case ChargeRow(r, actual) => Charge(b, r, actual)
    case QuarantineAccounts(s) => Quarantine(b, s)
  }

  /** When a move keeps the books in order. */
  ghost predicate Allowed(b: Books, m: Move) {
    match m
    case Stay => true
    case GrantTo(_, amount) => amount > 0
    case PlaceRow(r, x) => Affordable(b, r, x) && (x.cap.Some? <==> CapOf(x.user, x.kind) in b.accounts)
    case SuspendRows(rs) => forall r :: r in rs ==> r in b.reservations && b.reservations[r].Holds()
    case FreeRow(r) => r in b.reservations && b.reservations[r].Holds()
    case ChargeRow(r, actual) => r in b.reservations && b.reservations[r].Holds() && actual >= 0
    case QuarantineAccounts(_) => true
  }

  lemma MoveKeepsSound(b: Books, m: Move)
    requires Sound(b) && Allowed(b, m)
    ensures Sound(Apply(b, m))
  {
    match m
    case Stay =>
    case GrantTo(a, amount) => GrantKeepsSound(b, a, amount);
    case PlaceRow(r, x) => PlaceKeepsSound(b, r, x);
    case SuspendRows(rs) => SuspendKeepsSound(b, rs);
    case FreeRow(r) => FreeKeepsSound(b, r);
    case ChargeRow(r, actual) => ChargeKeepsSound(b, r, actual);
    case QuarantineAccounts(s) =>
      forall c ensures Conserved(Quarantine(b, s), c) && Floored(Quarantine(b, s), c) {
        assert Conserved(b, c) && Floored(b, c);
      }
      forall q | q in b.reservations ensures Filed(Quarantine(b, s), q) { assert Filed(b, q); }
  }

  /** Every ledger row names an account that exists. */
  ghost predicate LedgerPosted(b: Books) {
    forall k :: 0 <= k < |b.ledger| ==> b.ledger[k].account in b.accounts
  }

  lemma MoveKeepsPosted(b: Books, m: Move)
    requires Sound(b) && Allowed(b, m) && LedgerPosted(b)
    ensures LedgerPosted(Apply(b, m))
  {
    if m.FreeRow? || m.ChargeRow? { assert Filed(b, m.request); }
    if m.PlaceRow? { assert m.row.On(m.row.keyAccount) && (m.row.cap.Some? ==> m.row.On(m.row.cap.value)); }
  }

  lemma FreeTwiceBreaksBooks(b: Books, r: Id)
    requires Sound(b) && r in b.reservations && !b.reservations[r].Holds()
    ensures !Conserved(Free(b, r), b.reservations[r].keyAccount)
  {
    var b', x := Free(b, r), b.reservations[r];
    assert Filed(b, r);
    FiguresAfterEvents(b, b', r, x, Release, x.amount, x.amount, x.keyAccount);
    HeldPut(b.reservations, x.keyAccount, r, b'.reservations[r]);
    assert Conserved(b, x.keyAccount);
  }

  lemma SuspendingClosedBreaksBooks(b: Books, r: Id)
    requires Sound(b) && r in b.reservations && !b.reservations[r].Holds()
    ensures !Conserved(Suspend(b, {r}), b.reservations[r].keyAccount)
  {
    var b', x := Suspend(b, {r}), b.reservations[r];
    assert Filed(b, r);
    assert b'.reservations == b.reservations[r := b'.reservations[r]];
    HeldPut(b.reservations, x.keyAccount, r, b'.reservations[r]);
    assert Conserved(b, x.keyAccount);
  }

  /** Closing a reservation that no longer holds anything breaks the books, which is
      why a lease may be settled only while its own reservation still holds. */
  lemma ChargeTwiceBreaksBooks(b: Books, r: Id, actual: int)
    requires Sound(b) && r in b.reservations && !b.reservations[r].Holds()
    ensures !Conserved(Charge(b, r, actual), b.reservations[r].keyAccount)
  {
    var b', x := Charge(b, r, actual), b.reservations[r];
    var a := x.keyAccount;
    assert Filed(b, r);
    FiguresAfterEvents(b, b', r, x, Commit, actual, x.amount - actual, a);
    HeldPut(b.reservations, a, r, b'.reservations[r]);
    assert Conserved(b, a);
  }
}
