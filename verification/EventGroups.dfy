/** validate_quota_event_group and reconcile_quota_event_groups (src-core/src/quota.rs:706-896). */
module EventGroups {
  import opened Basics
  import opened States
  import opened Books

  /** The ledger rows of a reservation's event group. */
  function Group(ledger: seq<Entry>, r: Id): seq<Entry> {
    if ledger == [] then []
    else
      var n := |ledger| - 1;
      Group(ledger[..n], r) + (if ledger[n].group == Some(r) then [ledger[n]] else [])
  }

  function AccountsOf(x: Reservation): seq<AccountId> {
    [x.keyAccount] + (if x.cap.Some? then [x.cap.value] else [])
  }

  function Count(rows: seq<Entry>, a: AccountId, event: EventKind): nat {
    if rows == [] then 0
    else Count(rows[1..], a, event) + if rows[0].account == a && rows[0].event == event then 1 else 0
  }

  function FinalEvent(s: ReservationState): Option<EventKind> {
    match s
    case Released => Some(Release)
    case Committed => Some(Commit)
    case _ => None
  }

  predicate RowFits(b: Books, x: Reservation, e: Entry) {
    && e.account in AccountsOf(x)
    && e.version == VersionOf(b, e.account)
    && match e.event
       case Reserve => e.amount == x.amount && e.delta == -x.amount
       case Release => x.state.Released? && e.amount == x.amount && e.delta == x.amount
       case Commit => x.state.Committed? && 0 <= e.amount <= x.amount && e.delta == x.amount - e.amount
       case Adjust => false
  }

  predicate CountsFit(rows: seq<Entry>, x: Reservation, a: AccountId) {
    && Count(rows, a, Reserve) == 1
    && (FinalEvent(x.state).Some? ==> Count(rows, a, FinalEvent(x.state).value) == 1)
  }

  /** The checker, expecting `perAccount` rows for each account of a settled group.
      The source expects 1; each account then has a reserve and a final row, so 2 is meant. */
  predicate Accepts(b: Books, r: Id, perAccount: nat)
    requires r in b.reservations
  {
    var x, rows := b.reservations[r], Group(b.ledger, r);
    var accounts := AccountsOf(x);
    && (forall a :: a in accounts ==> a in b.accounts)
    && !x.state.Unknown?
    && |rows| == |accounts| * (if FinalEvent(x.state).Some? then perAccount else 1)
    && (forall e :: e in rows ==> RowFits(b, x, e))
    && (forall a :: a in accounts ==> CountsFit(rows, x, a))
  }

  const PER_ACCOUNT_AS_WRITTEN: nat := 1
  const PER_ACCOUNT_INTENDED: nat := 2

  method ValidateGroup(b: Books, r: Id) returns (ok: bool)
    requires r in b.reservations
    ensures ok == Accepts(b, r, PER_ACCOUNT_AS_WRITTEN)
  {
    var x, rows := b.reservations[r], Group(b.ledger, r);
    var accounts := AccountsOf(x);
    for i := 0 to |accounts|
      invariant forall k :: 0 <= k < i ==> accounts[k] in b.accounts
    {
      if accounts[i] !in b.accounts { return false; }
    }
    if x.state.Unknown? { return false; }
    var final := FinalEvent(x.state);
    var expected := |accounts| * PER_ACCOUNT_AS_WRITTEN;
    if x.state.Held? && |rows| != |accounts| { return false; }
    if final.Some? && |rows| != expected { return false; }
    for i := 0 to |rows|
      invariant forall k :: 0 <= k < i ==> RowFits(b, x, rows[k])
    {
      if !RowFits(b, x, rows[i]) { return false; }
    }
    for i := 0 to |accounts|
      invariant forall k :: 0 <= k < i ==> CountsFit(rows, x, accounts[k])
    {
      assert accounts[i] in accounts;
      if Count(rows, accounts[i], Reserve) != 1 { return false; }
      if final.Some? && Count(rows, accounts[i], final.value) != 1 { return false; }
    }
    return true;
  }

  // ------------------------------------------- what the written count allows

  lemma {:induction false} CountsDisjoint(rows: seq<Entry>, x: Reservation, final: EventKind)
    requires x.cap.Some? ==> x.cap.value != x.keyAccount
    requires final != Reserve
    ensures Count(rows, x.keyAccount, Reserve) + Count(rows, x.keyAccount, final)
            + (if x.cap.Some? then Count(rows, x.cap.value, Reserve) + Count(rows, x.cap.value, final) else 0)
            <= |rows|
  {
    if rows != [] { CountsDisjoint(rows[1..], x, final); }
  }

  lemma FittingCountsNeedTwo(rows: seq<Entry>, x: Reservation)
    requires x.cap.Some? ==> x.cap.value != x.keyAccount
    requires FinalEvent(x.state).Some?
    requires forall a :: a in AccountsOf(x) ==> CountsFit(rows, x, a)
    ensures |rows| >= 2 * |AccountsOf(x)|
  {
    CountsDisjoint(rows, x, FinalEvent(x.state).value);
    assert x.keyAccount in AccountsOf(x);
    assert x.cap.Some? ==> x.cap.value in AccountsOf(x);
  }

  /** As written, the checker can accept no committed or released group, whatever the
      ledger holds: it asks for n rows and, of the same n rows, for 2n. */
  lemma WrittenCheckerRejectsSettled(b: Books, r: Id)
    requires r in b.reservations && Filed(b, r)
    requires FinalEvent(b.reservations[r].state).Some?
    ensures !Accepts(b, r, PER_ACCOUNT_AS_WRITTEN)
  {
    if forall a :: a in AccountsOf(b.reservations[r]) ==> CountsFit(Group(b.ledger, r), b.reservations[r], a) {
      FittingCountsNeedTwo(Group(b.ledger, r), b.reservations[r]);
    }
  }

  // --------------------------------------------------- what acceptance means

  function Net(rows: seq<Entry>, a: AccountId): int {
    if rows == [] then 0 else Net(rows[1..], a) + if rows[0].account == a then rows[0].delta else 0
  }

  function Paid(rows: seq<Entry>, a: AccountId): int {
    if rows == [] then 0
    else Paid(rows[1..], a) + if rows[0].account == a && rows[0].event.Commit? then rows[0].amount else 0
  }

  function Sign(e: EventKind): int {
    match e
    case Reserve => -1
    case Adjust => 0
    case _ => 1
  }

  /** Final rows of an account less its reserve rows. */
  function Excess(rows: seq<Entry>, a: AccountId): int {
    if rows == [] then 0 else Excess(rows[1..], a) + if rows[0].account == a then Sign(rows[0].event) else 0
  }

  lemma {:induction false} NetOfFittingRows(b: Books, x: Reservation, rows: seq<Entry>, a: AccountId)
    requires forall e :: e in rows ==> RowFits(b, x, e)
    ensures Net(rows, a) == x.amount * Excess(rows, a) - Paid(rows, a)
  {
    if rows != [] {
      assert RowFits(b, x, rows[0]);
      NetOfFittingRows(b, x, rows[1..], a);
      var k := Excess(rows[1..], a);
      assert x.amount * (k + 1) == x.amount * k + x.amount && x.amount * (k - 1) == x.amount * k - x.amount;
    }
  }

  lemma {:induction false} ExcessOfFittingRows(b: Books, x: Reservation, rows: seq<Entry>, a: AccountId)
    requires forall e :: e in rows ==> RowFits(b, x, e)
    ensures Excess(rows, a) == (if FinalEvent(x.state).Some? then Count(rows, a, FinalEvent(x.state).value) else 0) - Count(rows, a, Reserve)
    ensures !x.state.Committed? ==> Paid(rows, a) == 0
  {
    if rows != [] {
      assert RowFits(b, x, rows[0]);
      ExcessOfFittingRows(b, x, rows[1..], a);
    }
  }

  /** Acceptance fixes what the group did to each account: it holds the amount, or
      gave all of it back, or gave back all but what was paid. */
  lemma AcceptanceFixesNet(b: Books, r: Id, perAccount: nat, a: AccountId)
    requires r in b.reservations && Accepts(b, r, perAccount) && a in AccountsOf(b.reservations[r])
    ensures var x, rows := b.reservations[r], Group(b.ledger, r);
      Net(rows, a) == match x.state
                      case Held => -x.amount
                      case Released => 0
                      case Committed => -Paid(rows, a)
                      case Unknown => 0
  {
    var x, rows := b.reservations[r], Group(b.ledger, r);
    NetOfFittingRows(b, x, rows, a);
    ExcessOfFittingRows(b, x, rows, a);
    assert CountsFit(rows, x, a);
  }

  // ------------------------------------------------- what the store writes

  lemma {:induction false} GroupAppend(ledger: seq<Entry>, more: seq<Entry>, r: Id)
    ensures Group(ledger + more, r) == Group(ledger, r) + Group(more, r)
  {
    if more == [] {
      assert ledger + more == ledger;
    } else {
      var n := |more| - 1;
      assert (ledger + more)[..|ledger| + n] == ledger + more[..n];
      GroupAppend(ledger, more[..n], r);
    }
  }

  lemma GroupOfEvents(b: Books, q: Id, x: Reservation, event: EventKind, amount: int, delta: int, r: Id)
    ensures Group(Events(b, q, x, event, amount, delta), r)
         == if r == q then Events(b, q, x, event, amount, delta) else []
  {
    var rows := Events(b, q, x, event, amount, delta);
    assert rows[..|rows| - 1] == if x.cap.Some? then [rows[0]] else [];
    assert [rows[0]][..0] == [];
    assert Group([rows[0]], r) == if r == q then [rows[0]] else [];
  }

  predicate Rows(rows: seq<Entry>, x: Reservation, event: EventKind, amount: int, delta: int) {
    && |rows| == |AccountsOf(x)|
    && forall k :: 0 <= k < |rows| ==>
         rows[k].account == AccountsOf(x)[k] && rows[k].event == event && rows[k].amount == amount && rows[k].delta == delta
  }

  /** The rows of a reservation are its reserve rows and, once it is closed, its final rows. */
  predicate WellGrouped(b: Books, r: Id)
  {
    var rows := Group(b.ledger, r);
    if r !in b.reservations then rows == []
    else
      var x := b.reservations[r];
      var n := |AccountsOf(x)|;
      && |rows| >= n
      && Rows(rows[..n], x, Reserve, x.amount, -x.amount)
      && match x.state
         case Released => Rows(rows[n..], x, Release, x.amount, x.amount)
         case Committed => |rows| > n && rows[n].amount >= 0
                           && Rows(rows[n..], x, Commit, rows[n].amount, x.amount - rows[n].amount)
         case _ => |rows| == n
  }

  lemma EventsAreRows(b: Books, q: Id, x: Reservation, event: EventKind, amount: int, delta: int)
    ensures Rows(Events(b, q, x, event, amount, delta), x, event, amount, delta)
  {
  }

  lemma AppendedEvents(b: Books, b': Books, q: Id, x: Reservation, event: EventKind, amount: int, delta: int, r: Id)
    requires b'.ledger == b.ledger + Events(b, q, x, event, amount, delta)
    ensures Group(b'.ledger, r) == Group(b.ledger, r) + if r == q then Events(b, q, x, event, amount, delta) else []
  {
    var rows := Events(b, q, x, event, amount, delta);
    GroupAppend(b.ledger, rows, r);
    GroupOfEvents(b, q, x, event, amount, delta, r);
  }

  lemma GrantKeepsGroups(b: Books, a: AccountId, amount: int, r: Id)
    requires WellGrouped(b, r)
    ensures WellGrouped(Grant(b, a, amount), r)
  {
    var b' := Grant(b, a, amount);
    assert b'.ledger[..|b.ledger|] == b.ledger;
    assert Group(b'.ledger, r) == Group(b.ledger, r);
  }

  lemma OtherGroupsStay(b: Books, b': Books, r: Id)
    requires WellGrouped(b, r) && Group(b'.ledger, r) == Group(b.ledger, r)
    requires r in b.reservations <==> r in b'.reservations
    requires r in b.reservations ==> b'.reservations[r] == b.reservations[r]
    ensures WellGrouped(b', r)
  {
  }

  lemma NewGroup(b: Books, r: Id, rows: seq<Entry>)
    requires r in b.reservations && b.reservations[r].state.Held? && Group(b.ledger, r) == rows
    requires Rows(rows, b.reservations[r], Reserve, b.reservations[r].amount, -b.reservations[r].amount)
    ensures WellGrouped(b, r)
  {
    assert rows[..|rows|] == rows;
  }

  lemma PlaceKeepsGroups(b: Books, b': Books, q: Id, x: Reservation, r: Id)
    requires q !in b.reservations && x.state.Held? && WellGrouped(b, r)
    requires b'.ledger == b.ledger + Events(b, q, x, Reserve, x.amount, -x.amount)
    requires b'.reservations == b.reservations[q := x]
    ensures WellGrouped(b', r)
  {
    hide Group, Events, Rows, Count;
    AppendedEvents(b, b', q, x, Reserve, x.amount, -x.amount, r);
    if q == r {
      EventsAreRows(b, q, x, Reserve, x.amount, -x.amount);
      NewGroup(b', r, Events(b, q, x, Reserve, x.amount, -x.amount));
    } else {
      OtherGroupsStay(b, b', r);
    }
  }

  lemma CloseKeepsGroups(b: Books, b': Books, q: Id, event: EventKind, amount: int, delta: int, r: Id)
    requires q in b.reservations && b.reservations[q].Holds() && WellGrouped(b, r) && amount >= 0
    requires q in b'.reservations
    requires var x := b.reservations[q];
      && FinalEvent(b'.reservations[q].state) == Some(event)
      && delta == (if event.Release? then x.amount else x.amount - amount)
      && (event.Release? ==> amount == x.amount)
      && b'.ledger == b.ledger + Events(b, q, x, event, amount, delta)
      && b'.reservations == b.reservations[q := x.(state := b'.reservations[q].state)]
    ensures WellGrouped(b', r)
  {
    hide Group, Events, Rows, WellGrouped;
    var x := b.reservations[q];
    var rows := Events(b, q, x, event, amount, delta);
    AppendedEvents(b, b', q, x, event, amount, delta, r);
    if q == r {
      EventsAreRows(b, q, x, event, amount, delta);
      ClosedGroup(b, b', q, event, rows, amount, delta);
    } else {
      OtherGroupsStay(b, b', r);
    }
  }

  lemma ClosedGroup(b: Books, b': Books, q: Id, event: EventKind, rows: seq<Entry>, amount: int, delta: int)
    requires q in b.reservations && b.reservations[q].Holds() && WellGrouped(b, q) && amount >= 0
    requires q in b'.reservations && b'.reservations[q] == b.reservations[q].(state := b'.reservations[q].state)
    requires FinalEvent(b'.reservations[q].state) == Some(event)
    requires delta == (if event.Release? then b.reservations[q].amount else b.reservations[q].amount - amount)
    requires event.Release? ==> amount == b.reservations[q].amount
    requires Rows(rows, b.reservations[q], event, amount, delta) && Group(b'.ledger, q) == Group(b.ledger, q) + rows
    ensures WellGrouped(b', q)
  {
    hide Group;
    var first, n := Group(b.ledger, q), |AccountsOf(b.reservations[q])|;
    assert first[..n] == first;
    Halves(first, rows, n);
    assert Group(b'.ledger, q)[n] == rows[0];
  }

  lemma MoveKeepsGroups(b: Books, m: Move, r: Id)
    requires Sound(b) && Allowed(b, m) && WellGrouped(b, r)
    ensures WellGrouped(Apply(b, m), r)
  {
    assert m.FreeRow? ==> Filed(b, m.request);
    match m
    case Stay =>
    case GrantTo(a, amount) => GrantKeepsGroups(b, a, amount, r);
    case PlaceRow(q, x) => PlaceKeepsGroups(b, Apply(b, m), q, x, r);
    case SuspendRows(rs) =>
    case FreeRow(q) =>
      CloseKeepsGroups(b, Apply(b, m), q, Release, b.reservations[q].amount, b.reservations[q].amount, r);
    case ChargeRow(q, actual) =>
      CloseKeepsGroups(b, Apply(b, m), q, Commit, actual, b.reservations[q].amount - actual, r);
    case QuarantineAccounts(_) =>
  }

  lemma Halves(first: seq<Entry>, second: seq<Entry>, n: nat)
    requires |first| == n
    ensures (first + second)[..n] == first && (first + second)[n..] == second
  {
  }

  /** No account of the group has been granted anything since its rows were written. */
  predicate VersionsCurrent(b: Books, r: Id) {
    forall e :: e in Group(b.ledger, r) ==> e.version == VersionOf(b, e.account)
  }

  /** In books the store has written, the intended checker accepts exactly the decided,
      in-quote groups whose accounts have kept their version. */
  lemma IntendedCheckerIsExact(b: Books, r: Id)
    requires r in b.reservations && Filed(b, r) && WellGrouped(b, r)
    ensures Accepts(b, r, PER_ACCOUNT_INTENDED) <==>
      var x, rows := b.reservations[r], Group(b.ledger, r);
      && !x.state.Unknown?
      && VersionsCurrent(b, r)
      && (x.state.Committed? ==> rows[|AccountsOf(x)|].amount <= x.amount)
  {
    var x, rows := b.reservations[r], Group(b.ledger, r);
    var n := |AccountsOf(x)|;
    assert rows == rows[..n] + rows[n..];
    assert forall k :: 0 <= k < n ==> rows[k] == rows[..n][k];
    assert forall k :: n <= k < |rows| ==> rows[k] == rows[n..][k - n];
    if !x.state.Unknown? {
      if x.cap.Some? { CountTwo(rows, x); } else { CountOne(rows, x); }
      if Accepts(b, r, PER_ACCOUNT_INTENDED) {
        assert forall e :: e in rows ==> RowFits(b, x, e);
        if x.state.Committed? { assert RowFits(b, x, rows[n]); }
      }
    }
  }

  /** As written it accepts exactly the groups of open reservations whose accounts have kept
      their version: to settle a request or to grant quota is enough to be rejected. */
  lemma WrittenCheckerIsExact(b: Books, r: Id)
    requires r in b.reservations && Filed(b, r) && WellGrouped(b, r)
    ensures Accepts(b, r, PER_ACCOUNT_AS_WRITTEN) <==> b.reservations[r].state.Held? && VersionsCurrent(b, r)
  {
    if FinalEvent(b.reservations[r].state).Some? {
      WrittenCheckerRejectsSettled(b, r);
    } else {
      IntendedCheckerIsExact(b, r);
      assert Accepts(b, r, PER_ACCOUNT_AS_WRITTEN) <==> Accepts(b, r, PER_ACCOUNT_INTENDED);
    }
  }

  function Is(e: Entry, a: AccountId, event: EventKind): nat {
    if e.account == a && e.event == event then 1 else 0
  }

  lemma CountShort(rows: seq<Entry>, a: AccountId, event: EventKind)
    ensures |rows| == 1 ==> Count(rows, a, event) == Is(rows[0], a, event)
    ensures |rows| == 2 ==> Count(rows, a, event) == Is(rows[0], a, event) + Is(rows[1], a, event)
  {
    if |rows| == 2 {
      var tail := rows[1..];
      assert tail[0] == rows[1] && tail[1..] == [];
      assert Count(tail, a, event) == Is(rows[1], a, event);
    }
  }

  lemma CountFour(rows: seq<Entry>, a: AccountId, event: EventKind)
    requires |rows| == 4
    ensures Count(rows, a, event)
         == Is(rows[0], a, event) + Is(rows[1], a, event) + Is(rows[2], a, event) + Is(rows[3], a, event)
  {
    var t1 := rows[1..];
    var t2 := t1[1..];
    assert t1[0] == rows[1] && t2[0] == rows[2] && t2[1] == rows[3];
    CountShort(t2, a, event);
    assert Count(t1, a, event) == Is(t1[0], a, event) + Count(t2, a, event);
  }

  lemma CountOne(rows: seq<Entry>, x: Reservation)
    requires x.cap.None? && 1 <= |rows| <= 2 && rows[0].account == x.keyAccount && rows[0].event == Reserve
    requires |rows| == 2 ==> rows[1].account == x.keyAccount && FinalEvent(x.state) == Some(rows[1].event)
    requires |rows| == 1 ==> FinalEvent(x.state) == None
    ensures CountsFit(rows, x, x.keyAccount)
  {
    CountShort(rows, x.keyAccount, Reserve);
    if |rows| == 2 { CountShort(rows, x.keyAccount, rows[1].event); }
  }

  lemma CountTwo(rows: seq<Entry>, x: Reservation)
    requires x.cap.Some? && x.cap.value != x.keyAccount && (|rows| == 2 || |rows| == 4)
    requires rows[0].account == x.keyAccount && rows[1].account == x.cap.value
    requires rows[0].event == Reserve && rows[1].event == Reserve
    requires |rows| == 4 ==> rows[2].account == x.keyAccount && rows[3].account == x.cap.value
                             && FinalEvent(x.state) == Some(rows[2].event) && rows[3].event == rows[2].event
    requires |rows| == 2 ==> FinalEvent(x.state) == None
    ensures CountsFit(rows, x, x.keyAccount) && CountsFit(rows, x, x.cap.value)
  {
    if |rows| == 4 {
      CountFour(rows, x.keyAccount, Reserve);
      CountFour(rows, x.cap.value, Reserve);
      CountFour(rows, x.keyAccount, rows[2].event);
      CountFour(rows, x.cap.value, rows[2].event);
    } else {
      CountShort(rows, x.keyAccount, Reserve);
      CountShort(rows, x.cap.value, Reserve);
    }
  }

  /** The accounts reconcile_quota_event_groups quarantines. */
  function Suspects(b: Books): set<AccountId> {
    set r, a | r in b.reservations && a in AccountsOf(b.reservations[r]) && !Accepts(b, r, PER_ACCOUNT_AS_WRITTEN) :: a
  }

  predicate Locked(b: Books, a: AccountId) {
    a in b.accounts && b.accounts[a].migration.ReconcileRequired?
  }

  /** The check locks an account exactly when one of its reservations is no longer open, or
      has rows older than the account's last grant. */
  lemma CheckLocksExactly(b: Books, a: AccountId)
    requires Sound(b) && (forall r :: WellGrouped(b, r)) && a in b.accounts
    ensures Locked(Quarantine(b, Suspects(b)), a) <==>
      Locked(b, a)
      || exists r :: r in b.reservations && a in AccountsOf(b.reservations[r])
                     && !(b.reservations[r].state.Held? && VersionsCurrent(b, r))
  {
    forall r | r in b.reservations
      ensures Accepts(b, r, PER_ACCOUNT_AS_WRITTEN) <==> b.reservations[r].state.Held? && VersionsCurrent(b, r)
    {
      assert Filed(b, r) && WellGrouped(b, r);
      WrittenCheckerIsExact(b, r);
    }
  }

  /** No move of the books unlocks an account. */
  lemma MoveKeepsLocked(b: Books, m: Move, a: AccountId)
    requires Locked(b, a) && ((m.FreeRow? || m.ChargeRow?) ==> m.request in b.reservations)
    ensures Locked(Apply(b, m), a)
  {
  }
}
