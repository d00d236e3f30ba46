/**
 What a stream of billing receipts comes to (src-core/src/quota.rs:2003-2324): whatever
 arrives, in whatever order and however often, the first receipt that fixes a charge fixes
 it once and for all, and the Key is blocked exactly when the bills do not add up.
 */
module Receipts {
  import opened Basics
  import opened States
  import opened Books
  import opened Tables
  import opened Quota
  import opened Requests
  import opened BillingOps
  import opened EventGroups
  import opened Coherence
  import opened CoherenceJobs
  import opened History
  import opened Runs
  import opened Theorems

  /** What a receipt bills, if it says so beyond doubt: a final amount of credits, or that a
      failed call costs nothing. */
  function Billed(x: Receipt): Option<nat> {
    if !x.credits then None
    else if x.status == Final then x.actual
    else if x.status == FailedNoCharge && (x.actual.None? || x.actual.value == 0) then Some(0)
    else None
  }

  /** The receipts that fix a charge, and the charge they fix; an anonymous or undated one is
      refused outright. */
  lemma BillsExactly(db: Db, x: Receipt)
    ensures Deciding(x) <==> x.named && x.observedAt > 0 && Billed(x).Some?
    ensures Deciding(x) ==> ChargeOf(x) == Billed(x).value
    ensures !x.named || x.observedAt <= 0 ==> ApplyReceipt(db, x) == Err(BillingReceiptInvalid)
  {
  }

  /** A quoted, uncharged request that still holds its amount. */
  ghost predicate Awaiting(db: Db, r: Id) {
    && r in db.requests && r in db.billing.quotes && r in db.books.reservations && r !in db.billing.settlements
    && Identified(db, r)
    && db.books.reservations[r].Holds()
    && (db.requests[r].state.Billable() || db.requests[r].state.Settled?)
    && (forall x :: x in db.billing.receipts && x.request == r ==> !Deciding(x))
  }

  /** In a reachable store a quoted request is billable or settled, never asked to cancel;
      it awaits its charge exactly as long as it is uncharged and holds its amount. */
  lemma QuotedRequestsAwait(db: Db, r: Id)
    requires Healthy(db) && r in db.billing.quotes
    ensures r in db.requests && (db.requests[r].state.Billable() || db.requests[r].state.Settled?)
    ensures r in db.books.reservations
    ensures Awaiting(db, r) <==> r !in db.billing.settlements && db.books.reservations[r].Holds()
  {
    assert Agrees(CaseOf(db, r)) && Tied(db, r);
    assert r in db.requests;
    assert Filed(db.books, r);
  }

  /** The first receipt that fixes a charge settles an uncharged request if and only if the
      request holds its amount and is billable still. */
  lemma FirstChargeSettlesExactly(db: Db, r: Id, x: Receipt)
    requires Healthy(db) && r in db.billing.quotes && r !in db.billing.settlements
    requires x.request == r && Deciding(x)
    ensures r in db.requests && r in db.books.reservations
    ensures var tx := ApplyReceipt(db, x);
      && ((tx.Ok? && tx.value.1.ReceiptSettled?) <==> db.books.reservations[r].Holds() && db.requests[r].state.Billable())
      && (tx.Ok? ==> tx.value.1.ReceiptSettled?)
  {
    QuotedRequestsAwait(db, r);
    assert Agrees(CaseOf(db, r)) && Tied(db, r) && Filed(db.books, r);
    assert x !in db.billing.receipts;
  }

  /** settle_request may leave a quote stranded: told to keep the hold but to call the
      request done, it settles the request under an uncharged quote. */
  lemma SettlingWithoutAmountStrandsQuote(db: Db, p: Principal, r: Id, s: Settlement, goal: RequestState)
    requires Awaiting(db, r) && OwnsReservation(db, p, r) && db.books.reservations[r].state.Held?
    requires (s.Undecided? || s == Charged(None)) && !goal.Settled? && CanSettleAs(db.requests[r].state, goal)
    ensures var tx := Settle(db, p, r, s, Some(goal));
      && tx.Ok? && Awaiting(After(db, tx), r) && !After(db, tx).requests[r].state.Billable()
  {
  }

  /** A stranded quote ignores every receipt, and refuses those that fix a charge. */
  lemma StrandedQuoteIgnoresReceipts(db: Db, r: Id, x: Receipt)
    requires Awaiting(db, r) && !db.requests[r].state.Billable() && x.request == r
    ensures After(db, ApplyReceipt(db, x)) == db
    ensures Deciding(x) ==> ApplyReceipt(db, x) == Err(InvalidTransition)
  {
  }

  const ONE_KEY: seq<Op> := [SetUser(1, true), SetKey(1, ApiKey(1, true, 1)), GrantKey(1, Credits, 100)]
  const ASKED := Submission(1, 1, 1, 1, 1, 1, Credits, 0, 0)
  const QUOTED := Quote(1, Some(1), 1, 1, 100, true, true, 1, 1)
  const STRANDING: seq<Op> := [
    BeginRequest(ASKED, None, false, 7), QuoteCredits(7, QUOTED, None, 0),
    PlainSettle(Principal(1, 1, {}), 7, Undecided, Some(RequestState.Succeeded))]

  const FUNDED: Db := EmptyDb.(site := Site({1}, map[1 := ApiKey(1, true, 1)], map[]),
                               books := Grant(NoBooks, KeyOf(1, 1, Credits), 100))

  lemma FundedKey()
    ensures Legal(EmptyDb, ONE_KEY)
    ensures Reached(ONE_KEY) == FUNDED && Available(FUNDED.books, KeyOf(1, 1, Credits)) == 100
  {
    hide Run, Legal;
    RunOfThree(EmptyDb, ONE_KEY);
    FiguresAfterGrant(NoBooks, KeyOf(1, 1, Credits), 100, KeyOf(1, 1, Credits));
  }

  lemma QuotePlaced()
    requires Available(FUNDED.books, KeyOf(1, 1, Credits)) == 100
    ensures var begun := Enter(FUNDED, ASKED, 7, RequestState.Received);
      var quoted := After(begun, ReserveQuote(begun, 7, QUOTED, None, 0));
      && Awaiting(quoted, 7) && quoted.requests[7].state.Reserved? && quoted.books.reservations[7].state.Held?
      && OwnsReservation(quoted, Principal(1, 1, {}), 7)
      && quoted.leases == map[] && quoted.jobs == map[]
  {
    hide Available;
    var begun := Enter(FUNDED, ASKED, 7, RequestState.Received);
    assert begun.requests == map[7 := Request(1, 1, 1, 1, 1, RequestState.Received)];
    assert ActiveRequests(begun.requests, 1) - {7} == {};
    assert ReserveDual(begun.books, 7, 1, 1, Credits, 100).Ok?;
  }

  lemma QuotedRequest()
    requires Available(FUNDED.books, KeyOf(1, 1, Credits)) == 100
    ensures var begun := Next(FUNDED, STRANDING[0]);
      var quoted := Next(begun, STRANDING[1]);
      && Awaiting(quoted, 7) && quoted.requests[7].state.Reserved? && quoted.books.reservations[7].state.Held?
      && OwnsReservation(quoted, Principal(1, 1, {}), 7)
      && quoted.leases == map[] && quoted.jobs == map[]
  {
    hide Available, Awaiting, ReserveQuote, Enter;
    assert Next(FUNDED, STRANDING[0]) == Enter(FUNDED, ASKED, 7, RequestState.Received);
    QuotePlaced();
  }

  /** A legal run from nothing that strands a quote: the request is settled, its quote holds
      a hundred credits, and no receipt can ever fix the charge. */
  lemma QuoteCanBeStranded()
    ensures Legal(EmptyDb, ONE_KEY + STRANDING)
    ensures var db := Reached(ONE_KEY + STRANDING);
      && Awaiting(db, 7) && db.requests[7].state.Settled?
      && forall x: Receipt :: x.request == 7 && Deciding(x) ==> ApplyReceipt(db, x) == Err(InvalidTransition)
  {
    hide Run, Legal, Step, Awaiting, ApplyReceipt, Deciding;
    RunsJoin(EmptyDb, ONE_KEY, STRANDING);
    FundedKey();
    RunOfThree(FUNDED, STRANDING);
    QuotedRequest();
    StrandingStep(Next(Next(FUNDED, STRANDING[0]), STRANDING[1]));
    var stranded := Reached(ONE_KEY + STRANDING);
    forall x: Receipt | x.request == 7 && Deciding(x) ensures ApplyReceipt(stranded, x) == Err(InvalidTransition) {
      StrandedQuoteIgnoresReceipts(stranded, 7, x);
    }
  }

  lemma StrandingStep(db: Db)
    requires Awaiting(db, 7) && db.requests[7].state.Reserved? && db.books.reservations[7].state.Held?
    requires OwnsReservation(db, Principal(1, 1, {}), 7) && db.leases == map[] && db.jobs == map[]
    ensures Admissible(db, STRANDING[2])
    ensures Awaiting(Next(db, STRANDING[2]), 7) && Next(db, STRANDING[2]).requests[7].state.Settled?
  {
    SettlingWithoutAmountStrandsQuote(db, Principal(1, 1, {}), 7, Undecided, RequestState.Succeeded);
  }

  /** A request charged `c`; every receipt that contradicts the charge has blocked its Key
      and left the charge to be reconciled. */
  ghost predicate ChargedAt(db: Db, r: Id, c: nat) {
    && r in db.requests && r in db.billing.quotes && r in db.books.reservations
    && Identified(db, r)
    && r in db.billing.settlements && db.billing.settlements[r].actual == c
    && (forall x :: x in db.billing.receipts && x.request == r && Deciding(x) && ChargeOf(x) != c ==>
          db.requests[r].key in db.billing.blocks && db.billing.settlements[r].reconcile)
  }

  ghost function Receive(db: Db, xs: seq<Receipt>): Db
    decreases |xs|
  {
    if xs == [] then db else Receive(After(db, ApplyReceipt(db, xs[0])), xs[1..])
  }

  /** The charges receipts ask for, in order of arrival. */
  function ChargesOf(xs: seq<Receipt>): seq<nat> {
    if xs == [] then []
    else (if Deciding(xs[0]) then [ChargeOf(xs[0])] else []) + ChargesOf(xs[1..])
  }

  /** The charges a quoted request will hear of: none once it is settled. */
  function Heard(db: Db, r: Id, xs: seq<Receipt>): seq<nat>
    requires r in db.requests
  {
    if db.requests[r].state.Billable() then ChargesOf(xs) else []
  }

  predicate Disputed(charges: seq<nat>, c: nat) {
    exists k :: 0 <= k < |charges| && charges[k] != c
  }

  /** The first charge that differs from c. */
  function FirstOther(charges: seq<nat>, c: nat): (x: Option<nat>)
    ensures x.Some? <==> Disputed(charges, c)
  {
    if charges == [] then None
    else
      assert Disputed(charges, c) <==> charges[0] != c || Disputed(charges[1..], c) by { DisputedHead(charges, c); }
      if charges[0] != c then Some(charges[0]) else FirstOther(charges[1..], c)
  }

  lemma DisputedHead(charges: seq<nat>, c: nat)
    requires charges != []
    ensures Disputed(charges, c) <==> charges[0] != c || Disputed(charges[1..], c)
  {
    var rest := charges[1..];
    if Disputed(rest, c) {
      var k :| 0 <= k < |rest| && rest[k] != c;
      assert charges[k + 1] != c;
    }
    if Disputed(charges, c) && charges[0] == c {
      var k :| 0 <= k < |charges| && charges[k] != c;
      assert rest[k - 1] != c;
    }
  }

  /** The first cause to block a Key stays on record. */
  function Blocked(blocks: map<Id, Block>, key: Id, cause: Option<Block>): map<Id, Block> {
    if key in blocks || cause.None? then blocks else blocks[key := cause.value]
  }

  function Conflicting(r: Id, max: int, other: Option<nat>): Option<Block> {
    if other.None? then None else Some(Block(r, ReceiptConflict, max, other.value, 0))
  }

  /** Why charges heard in this order block the Key, if they do. */
  function CauseOf(r: Id, max: int, charges: seq<nat>): Option<Block>
    requires charges != []
  {
    if charges[0] > max then Some(Block(r, OverQuote, max, charges[0], charges[0] - max))
    else Conflicting(r, max, FirstOther(charges, charges[0]))
  }

  /** Books that differ at most in which holds are marked unknown. */
  ghost predicate SameMoney(b: Books, b': Books) {
    && b'.accounts == b.accounts && b'.ledger == b.ledger
    && forall a :: HeldOn(b', a) == HeldOn(b, a)
  }

  /** The same request, but for its state. */
  predicate SameCase(db: Db, db': Db, r: Id)
    requires r in db.requests && r in db.billing.quotes && r in db.books.reservations
  {
    && r in db'.requests && db'.requests[r] == db.requests[r].(state := db'.requests[r].state)
    && r in db'.billing.quotes && db'.billing.quotes[r] == db.billing.quotes[r]
    && r in db'.books.reservations
    && db'.books.reservations[r] == db.books.reservations[r].(state := db'.books.reservations[r].state)
  }

  // ------------------------------------------------------------ one receipt

  /** A receipt that decides nothing moves no money and blocks no one. */
  lemma UndecidedKeepsWaiting(db: Db, r: Id, x: Receipt)
    requires Awaiting(db, r) && x.request == r && !Deciding(x)
    ensures var db' := After(db, ApplyReceipt(db, x));
      && Awaiting(db', r) && SameCase(db, db', r)
      && (db'.requests[r].state.Billable() <==> db.requests[r].state.Billable())
      && SameMoney(db.books, db'.books) && db'.billing.blocks == db.billing.blocks
    ensures Readable(x) && x !in db.billing.receipts && db.requests[r].state.Billable() ==>
      var tx := ApplyReceipt(db, x);
      && tx.Ok? && tx.value.1 == ReceiptPending
      && tx.value.0.requests[r].state.Unknown? && tx.value.0.books.reservations[r].state.Unknown?
      && tx.value.0.billing.receipts == db.billing.receipts[x :=
           Observed(if !x.credits || x.status.Final? || x.status.FailedNoCharge? then ReceiptStatus.Unverified else x.status)]
  {
    var db' := After(db, ApplyReceipt(db, x));
    if Readable(x) && x !in db.billing.receipts && db.books.reservations[r].state.Held? {
      forall a ensures HeldOn(db'.books, a) == HeldOn(db.books, a) {
        HeldSame(db.books.reservations, db'.books.reservations, a);
      }
    }
  }

  lemma DecidingCharges(db: Db, r: Id, x: Receipt)
    requires Awaiting(db, r) && db.requests[r].state.Billable() && x.request == r && Deciding(x)
    ensures var db', c, max, key := After(db, ApplyReceipt(db, x)), ChargeOf(x), db.billing.quotes[r].max, db.requests[r].key;
      && ApplyReceipt(db, x).Ok? && ApplyReceipt(db, x).value.1 == ReceiptSettled(c, c > max)
      && ChargedAt(db', r, c) && SameCase(db, db', r) && db'.requests[r].state.Settled?
      && db'.books == Charge(db.books, r, c)
      && db'.billing.receipts == db.billing.receipts[x := Observed(x.status)]
      && db'.billing.settlements[r] == BillingSettlement(c, c > max, c > max)
      && db'.billing.blocks == Blocked(db.billing.blocks, key,
                                       if c > max then Some(Block(r, OverQuote, max, c, c - max)) else None)
  {
  }

  /** What a receipt does to a request charged c. */
  ghost predicate Answers(db: Db, db': Db, r: Id, c: nat, x: Receipt)
    requires r in db.requests && r in db.billing.quotes && r in db.books.reservations && r in db.billing.settlements
  {
    var differs, row := Deciding(x) && ChargeOf(x) != c, db.billing.settlements[r];
    && ChargedAt(db', r, c) && SameCase(db, db', r)
    && db'.books == db.books
    && db'.billing.settlements[r] == row.(reconcile := row.reconcile || differs)
    && db'.billing.blocks == Blocked(db.billing.blocks, db.requests[r].key,
         if differs then Some(Block(r, ReceiptConflict, db.billing.quotes[r].max, ChargeOf(x), 0)) else None)
    && db'.billing.receipts
       == if !Deciding(x) || x in db.billing.receipts then db.billing.receipts
          else db.billing.receipts[x := if differs then StoredStatus.Conflicting else Observed(x.status)]
  }

  lemma NothingAnswers(db: Db, r: Id, c: nat, x: Receipt)
    requires ChargedAt(db, r, c) && x.request == r && (!Deciding(x) || x in db.billing.receipts)
    ensures Answers(db, db, r, c, x)
  {
  }

  /** A receipt that confirms the charge is filed. */
  lemma FilingAnswers(db: Db, r: Id, c: nat, x: Receipt)
    requires ChargedAt(db, r, c) && x.request == r && Deciding(x) && ChargeOf(x) == c && x !in db.billing.receipts
    ensures Answers(db, db.(billing := FileReceipt(db.billing, x, FiledAs(x))), r, c, x)
  {
  }

  lemma ConflictAnswers(db: Db, r: Id, c: nat, x: Receipt)
    requires ChargedAt(db, r, c) && x.request == r && Deciding(x) && ChargeOf(x) != c && x !in db.billing.receipts
    ensures Answers(db, After(db, SecondReceipt(db, x)), r, c, x)
  {
    hide Identified, FiledAs;
    var db' := After(db, SecondReceipt(db, x));
    assert SecondReceipt(db, x).Ok?;
    assert Identified(db', r) by { SameIdentity(db, db', r); }
    forall y | y in db'.billing.receipts && y.request == r && Deciding(y) && ChargeOf(y) != c
      ensures db'.requests[r].key in db'.billing.blocks && db'.billing.settlements[r].reconcile
    {
    }
  }

  lemma SameIdentity(db: Db, db': Db, r: Id)
    requires r in db.requests && r in db.billing.quotes && r in db.books.reservations && Identified(db, r)
    requires db'.requests == db.requests && db'.books == db.books && db'.billing.quotes == db.billing.quotes
    ensures Identified(db', r)
  {
  }

  lemma SecondReceiptAnswers(db: Db, r: Id, c: nat, x: Receipt)
    requires ChargedAt(db, r, c) && x.request == r && Readable(x) && x !in db.billing.receipts
    ensures Answers(db, After(db, SecondReceipt(db, x)), r, c, x)
  {
    hide FiledAs, Answers, Identified;
    if !Decisive(x) { NothingAnswers(db, r, c, x); }
    else if ChargeOf(x) == c { FilingAnswers(db, r, c, x); }
    else { ConflictAnswers(db, r, c, x); }
  }

  /** Once charged, no receipt changes the books; one that asks for another charge blocks the
      Key and leaves the charge to be reconciled. */
  lemma LaterReceiptsOnlyDispute(db: Db, r: Id, c: nat, x: Receipt)
    requires ChargedAt(db, r, c) && x.request == r
    ensures r in db.requests && r in db.billing.quotes && r in db.books.reservations && r in db.billing.settlements
    ensures Answers(db, After(db, ApplyReceipt(db, x)), r, c, x)
    ensures Readable(x) && x !in db.billing.receipts ==>
      ApplyReceipt(db, x).Ok?
      && ApplyReceipt(db, x).value.1 == if Deciding(x) && ChargeOf(x) != c then Conflict else ReceiptDuplicate
  {
    hide UndecidedReceipt, DecisiveReceipt, FiledAs, Answers, SameCase;
    if !Readable(x) || x in db.billing.receipts { NothingAnswers(db, r, c, x); } else { SecondReceiptAnswers(db, r, c, x); }
  }

  /** A receipt on file is answered by its status. */
  lemma OnFile(db: Db, x: Receipt)
    requires Readable(x) && x.request in db.requests && x in db.billing.receipts
    ensures var s := db.billing.receipts[x];
      ApplyReceipt(db, x) == Ok((db, if s == StoredStatus.Conflicting || s == Observed(Final) || s == Observed(FailedNoCharge)
                                     then ReceiptDuplicate else ReceiptPending))
  {
  }

  lemma FiledByDoubt(db: Db, x: Receipt)
    requires x.request in db.requests && x.request in db.books.reservations && UndecidedReceipt(db, x).Ok? && !Decisive(x)
    ensures var (after, reply) := UndecidedReceipt(db, x).value;
      && reply == ReceiptPending && x.request in after.requests && x in after.billing.receipts
      && after.billing.receipts[x] != StoredStatus.Conflicting
      && after.billing.receipts[x] != Observed(Final) && after.billing.receipts[x] != Observed(FailedNoCharge)
  {
    hide Suspend;
  }

  lemma FiledByCharge(db: Db, x: Receipt)
    requires x.request in db.requests && x.request in db.books.reservations && x.request in db.billing.quotes
    requires Decisive(x) && DecisiveReceipt(db, x).Ok?
    ensures var (after, reply) := DecisiveReceipt(db, x).value;
      && reply.ReceiptSettled? && x.request in after.requests && x in after.billing.receipts
      && after.billing.receipts[x] in {Observed(Final), Observed(FailedNoCharge)}
  {
    hide Charge;
  }

  lemma FiledSecond(db: Db, x: Receipt)
    requires x.request in db.requests && x.request in db.billing.quotes && x.request in db.billing.settlements && Decisive(x)
    ensures var (after, reply) := SecondReceipt(db, x).value;
      && !reply.ReceiptPending? && after.requests == db.requests && x in after.billing.receipts
      && after.billing.receipts[x] in {StoredStatus.Conflicting, Observed(Final), Observed(FailedNoCharge)}
  {
  }

  /** The same receipt once more changes nothing, whatever the store, and is answered as
      pending while it is and as a duplicate otherwise. */
  lemma SameReceiptTwice(db: Db, x: Receipt)
    requires ApplyReceipt(db, x).Ok?
    ensures var first := ApplyReceipt(db, x);
      ApplyReceipt(first.value.0, x) == Ok((first.value.0, if first.value.1.ReceiptPending? then ReceiptPending else ReceiptDuplicate))
  {
    var r := x.request;
    if x in db.billing.receipts { OnFile(db, x); }
    else if r in db.billing.settlements && !Decisive(x) { assert ApplyReceipt(db, x) == Ok((db, ReceiptDuplicate)); }
    else {
      hide SecondReceipt, UndecidedReceipt, DecisiveReceipt;
      if r in db.billing.settlements { FiledSecond(db, x); }
      else if Decisive(x) { FiledByCharge(db, x); }
      else { FiledByDoubt(db, x); }
      OnFile(ApplyReceipt(db, x).value.0, x);
    }
  }

  // ----------------------------------------------------------- any sequence

  lemma {:induction false} DisputesFold(db: Db, r: Id, c: nat, xs: seq<Receipt>)
    requires ChargedAt(db, r, c) && forall x :: x in xs ==> x.request == r
    ensures var db', key, row, other := Receive(db, xs), db.requests[r].key, db.billing.settlements[r], FirstOther(ChargesOf(xs), c);
      && r in db'.billing.settlements
      && db'.billing.settlements[r] == row.(reconcile := row.reconcile || Disputed(ChargesOf(xs), c))
      && db'.books == db.books
      && db'.billing.blocks == Blocked(db.billing.blocks, key, Conflicting(r, db.billing.quotes[r].max, other))
    decreases |xs|
  {
    if xs != [] {
      hide ApplyReceipt, ChargedAt, SameCase;
      ChargedRows(db, r, c);
      LaterReceiptsOnlyDispute(db, r, c, xs[0]);
      SameRows(db, After(db, ApplyReceipt(db, xs[0])), r);
      DisputesFold(After(db, ApplyReceipt(db, xs[0])), r, c, xs[1..]);
      var rest := ChargesOf(xs[1..]);
      if Deciding(xs[0]) {
        assert ChargesOf(xs)[1..] == rest;
        DisputedHead(ChargesOf(xs), c);
      } else {
        assert ChargesOf(xs) == rest;
      }
    }
  }

  lemma ChargedRows(db: Db, r: Id, c: nat)
    requires ChargedAt(db, r, c)
    ensures r in db.requests && r in db.billing.quotes && r in db.books.reservations && r in db.billing.settlements
  {
  }

  lemma SameRows(db: Db, db': Db, r: Id)
    requires r in db.requests && r in db.billing.quotes && r in db.books.reservations && SameCase(db, db', r)
    ensures r in db'.requests && db'.requests[r].key == db.requests[r].key
    ensures r in db'.billing.quotes && db'.billing.quotes[r] == db.billing.quotes[r]
  {
  }

  /** The receipt fold. Receipts that fix no charge leave everything but marks of doubt; the
      first that does is the one commit, and what is recorded of the request - whether it is
      over quote, whether it must be reconciled, and why its Key is blocked - is what the
      charges heard come to. */
  lemma {:induction false} SettlesOnce(db: Db, r: Id, xs: seq<Receipt>)
    requires Awaiting(db, r) && forall x :: x in xs ==> x.request == r
    ensures var db', charges, key, max := Receive(db, xs), Heard(db, r, xs), db.requests[r].key, db.billing.quotes[r].max;
      if charges == [] then
        && r !in db'.billing.settlements && db'.billing.blocks == db.billing.blocks
        && SameMoney(db.books, db'.books)
      else
        && r in db'.billing.settlements
        && db'.billing.settlements[r] == BillingSettlement(charges[0], charges[0] > max, charges[0] > max || Disputed(charges, charges[0]))
        && db'.billing.blocks == Blocked(db.billing.blocks, key, CauseOf(r, max, charges))
        && (exists b :: SameMoney(db.books, b) && r in b.reservations && b.reservations[r].Holds()
                        && b.reservations[r] == db.books.reservations[r].(state := b.reservations[r].state)
                        && db'.books == Charge(b, r, charges[0]))
    decreases |xs|
  {
    if xs != [] {
      var next := After(db, ApplyReceipt(db, xs[0]));
      if !db.requests[r].state.Billable() {
        StrandedQuoteIgnoresReceipts(db, r, xs[0]);
        SettlesOnce(next, r, xs[1..]);
      } else if Deciding(xs[0]) {
        FirstChargeThenDisputes(db, r, xs);
      } else {
        UndecidedKeepsWaiting(db, r, xs[0]);
        SettlesOnce(next, r, xs[1..]);
        assert ChargesOf(xs) == ChargesOf(xs[1..]);
        if ChargesOf(xs) != [] {
          var b :| SameMoney(next.books, b) && r in b.reservations && b.reservations[r].Holds()
                   && b.reservations[r] == next.books.reservations[r].(state := b.reservations[r].state)
                   && Receive(next, xs[1..]).books == Charge(b, r, ChargesOf(xs)[0]);
          assert SameMoney(db.books, b);
        }
      }
    }
  }

  lemma FirstChargeThenDisputes(db: Db, r: Id, xs: seq<Receipt>)
    requires Awaiting(db, r) && db.requests[r].state.Billable() && forall x :: x in xs ==> x.request == r
    requires xs != [] && Deciding(xs[0])
    ensures var db', charges, key, max := Receive(db, xs), ChargesOf(xs), db.requests[r].key, db.billing.quotes[r].max;
      && charges != [] && r in db'.billing.settlements
      && db'.billing.settlements[r] == BillingSettlement(charges[0], charges[0] > max, charges[0] > max || Disputed(charges, charges[0]))
      && db'.billing.blocks == Blocked(db.billing.blocks, key, CauseOf(r, max, charges))
      && db'.books == Charge(db.books, r, charges[0])
    ensures SameMoney(db.books, db.books)
  {
    hide ApplyReceipt, ChargedAt;
    var c := ChargeOf(xs[0]);
    DecidingCharges(db, r, xs[0]);
    DisputesFold(After(db, ApplyReceipt(db, xs[0])), r, c, xs[1..]);
    assert ChargesOf(xs)[1..] == ChargesOf(xs[1..]);
    DisputedHead(ChargesOf(xs), c);
  }

  /** The receipt fold, in money. A request settled before it was charged hears of no receipt.
      For any other, receipts that fix no charge leave every account as it was;
      the first that does takes its charge from the hold and gives back the rest, and no
      later one moves anything. The Key ends up blocked if and only if it was, the charge
      exceeds the quote, or some receipt asks for a different charge. */
  lemma ReceiptsComeToFirstCharge(db: Db, r: Id, xs: seq<Receipt>, a: AccountId)
    requires Awaiting(db, r) && forall x :: x in xs ==> x.request == r
    requires Filed(db.books, r)
    ensures var db', charges, key, row := Receive(db, xs), Heard(db, r, xs), db.requests[r].key, db.books.reservations[r];
      var paid := if charges == [] || !row.On(a) then None else Some(charges[0]);
      && Available(db'.books, a) == Available(db.books, a) + (if paid.Some? then row.amount - paid.value else 0)
      && HeldOn(db'.books, a) == HeldOn(db.books, a) - (if paid.Some? then row.amount else 0)
      && SettledOn(db'.books, a) == SettledOn(db.books, a) + (if paid.Some? then paid.value else 0)
      && (key in db'.billing.blocks <==>
            key in db.billing.blocks
            || (charges != [] && (charges[0] > row.amount || Disputed(charges, charges[0]))))
  {
    SettlesOnce(db, r, xs);
    var db', charges, row := Receive(db, xs), Heard(db, r, xs), db.books.reservations[r];
    if charges != [] {
      var b :| SameMoney(db.books, b) && r in b.reservations && b.reservations[r].Holds()
               && b.reservations[r] == row.(state := b.reservations[r].state)
               && db'.books == Charge(b, r, charges[0]);
      assert Filed(b, r);
      ChargeFigures(b, r, charges[0], a);
    }
  }

  // ----------------------------------------------------------- over any run

  ghost predicate Bills(db: Db, op: Op, r: Id) {
    op.TakeReceipt? && op.receipt.request == r && Step(db, op).Ok? && Step(db, op).value.1.ReceiptSettled?
  }

  /** What the receipts of r were told they had charged, over a run. */
  ghost function ChargeReplies(db: Db, ops: seq<Op>, r: Id): seq<nat>
    decreases |ops|
  {
    if ops == [] then []
    else (if Bills(db, ops[0], r) then [Step(db, ops[0]).value.1.actual] else []) + ChargeReplies(Next(db, ops[0]), ops[1..], r)
  }

  lemma ReceiptSettlements(db: Db, x: Receipt, r: Id)
    ensures var tx := ApplyReceipt(db, x);
      var billed := x.request == r && tx.Ok? && tx.value.1.ReceiptSettled?;
      && (billed ==> r !in db.billing.settlements && r in After(db, tx).billing.settlements
                     && After(db, tx).billing.settlements[r].actual == tx.value.1.actual)
      && (!billed && r in After(db, tx).billing.settlements ==> r in db.billing.settlements)
  {
  }

  /** Only a receipt that is told so charges a request. */
  lemma OnlyReceiptsCharge(db: Db, op: Op, r: Id)
    ensures Bills(db, op, r) ==> r !in db.billing.settlements && r in Next(db, op).billing.settlements
                                 && Next(db, op).billing.settlements[r].actual == Step(db, op).value.1.actual
    ensures !Bills(db, op, r) && r in Next(db, op).billing.settlements ==> r in db.billing.settlements
  {
    if !BillingOp(op) { BillingStays(db, op); }
    else if op.TakeReceipt? { ReceiptSettlements(db, op.receipt, r); }
    else if op.QuoteCredits? && Step(db, op).Ok? && op.id !in db.billing.quotes {
      QuoteShape(db, op.id, op.quote, op.against, op.now);
    }
  }

  /** Over any run, with anything between the receipts, a request is charged once at most; it
      ends up charged if and only if it was or some receipt was told so, and for ever with
      the amount that receipt was told. */
  lemma {:induction false} ChargedAtMostOnce(db: Db, ops: seq<Op>, r: Id)
    requires Healthy(db) && Legal(db, ops)
    ensures var replies, before, after := ChargeReplies(db, ops, r), db.billing.settlements, Run(db, ops).billing.settlements;
      && |replies| <= 1
      && (r in after <==> r in before || replies != [])
      && (r in before ==> replies == [] && after[r].actual == before[r].actual)
      && (replies != [] ==> after[r].actual == replies[0])
    decreases |ops|
  {
    if ops != [] {
      hide Step, Admissible, Healthy, Bills;
      StepKeepsHealthy(db, ops[0]);
      assert RowAdvances(db, Next(db, ops[0]), r);
      OnlyReceiptsCharge(db, ops[0], r);
      ChargedAtMostOnce(Next(db, ops[0]), ops[1..], r);
    }
  }

  /** A blocked Key stays blocked, and no operation of any run ever holds a new quote on it. */
  lemma BlockedKeyIsNeverQuoted(db: Db, ops: seq<Op>, r: Id, q: Quote, snapshot: Option<Snapshot>, now: int)
    requires Healthy(db) && Legal(db, ops)
    requires var db' := Run(db, ops);
      r in db'.requests && db'.requests[r].key in db.billing.blocks && r !in db'.billing.quotes
    ensures ReserveQuote(Run(db, ops), r, q, snapshot, now).Err?
  {
    RunKeepsHealthy(db, ops);
  }

  /** A reservation is closed once: over any run its group holds at most one final row for
      each account. */
  lemma ClosedAtMostOnce(ops: seq<Op>, r: Id, a: AccountId)
    requires Legal(EmptyDb, ops)
    ensures var rows := Group(Reached(ops).books.ledger, r);
      Count(rows, a, Commit) + Count(rows, a, Release) <= 1
  {
    ReachedIsHealthy(ops);
    HealthyBooks(Reached(ops));
    FinalRowsOnce(Reached(ops).books, r, a);
  }

  lemma FinalRowsOnce(b: Books, r: Id, a: AccountId)
    requires Sound(b) && WellGrouped(b, r)
    ensures Count(Group(b.ledger, r), a, Commit) + Count(Group(b.ledger, r), a, Release) <= 1
  {
    var rows := Group(b.ledger, r);
    if r in b.reservations {
      assert Filed(b, r);
      var x := b.reservations[r];
      var n := |AccountsOf(x)|;
      assert forall k :: 0 <= k < n ==> rows[k] == rows[..n][k];
      assert forall k :: n <= k < |rows| ==> rows[k] == rows[n..][k - n];
      if |rows| == 4 {
        CountFour(rows, a, Commit);
        CountFour(rows, a, Release);
      } else {
        CountShort(rows, a, Commit);
        CountShort(rows, a, Release);
      }
    }
  }
}
