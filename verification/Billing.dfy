/** Quoted credits and receipts (src-core/src/quota.rs:1761-2324), each operation as one atomic step. */
module BillingOps {
  import opened Basics
  import opened States
  import opened Books
  import opened Tables
  import opened Quota
  import opened Requests

  /** reserve_credit_quote, with or without an upstream snapshot. */
  ghost function ReserveQuote(db: Db, r: Id, q: Quote, snapshot: Option<Snapshot>, now: int): Transaction {
    if !(q.credits && q.max > 0 && q.named && q.fingerprint.Some?) then Err(BillingQuoteMismatch) else
    :- Need(r in db.requests, RequestNotFound);
    var x := db.requests[r];
    :- Need(q.expires > now, BillingQuoteExpired);
    :- Need(x.endpoint == q.endpoint && x.model == q.model && x.content == q.fingerprint.value, BillingQuoteMismatch);
    if r in db.billing.quotes then
      :- Need(db.billing.quotes[r] == q && r in db.books.reservations, BillingQuoteConflict);
      Ok((db, Existing(r)))
    else
      var _ :- if snapshot.Some? then Capacity(db.books, snapshot.value, now) else Ok(0);
      :- Need(x.state.Received?, InvalidTransition);
      :- Need(db.KeyActive(x.user, x.key), InvalidRequestIdentity);
      :- Need(x.key !in db.billing.blocks, ApiKeyBillingBlocked);
      :- Need(|ActiveRequests(db.requests, x.key) - {r}| < db.site.keys[x.key].maxConcurrency, KeyConcurrencyExceeded);
      PlaceQuote(db, r, q)
  }

  /** Hold the quoted maximum and remember the quote. */
  ghost function PlaceQuote(db: Db, r: Id, q: Quote): Transaction
    requires r in db.requests
  {
    var x := db.requests[r];
    var placed :- ReserveDual(db.books, r, x.user, x.key, Credits, q.max);
    match placed
    case AlreadyReserved => Err(ReservationRequestConflict)
    case Short(available) => Err(QuotaInsufficient(available, q.max))
    case Placed(books) =>
      :- Need(forall k :: k in db.billing.quotes ==> db.billing.quotes[k].id != q.id, RowExists);
      Ok((db.SetState(r, RequestState.Reserved).(
            books := books, billing := db.billing.(quotes := db.billing.quotes[r := q])), Reply.Created(r)))
  }

  // ---------------------------------------------------------------- receipts

  /** A receipt apply_credit_receipt looks at, rather than rejecting outright. */
  predicate Readable(x: Receipt) { x.named && x.observedAt > 0 }

  /** A receipt that fixes a charge. */
  predicate Decisive(x: Receipt) {
    x.credits && ((x.status.Final? && x.actual.Some?)
                  || (x.status.FailedNoCharge? && (x.actual.None? || x.actual == Some(0))))
  }

  function ChargeOf(x: Receipt): nat
    requires Decisive(x)
  {
    if x.status.FailedNoCharge? then 0 else x.actual.value
  }

  /** The status a receipt is filed under: an undecided final one is unverified. */
  function FiledAs(x: Receipt): StoredStatus {
    if !x.credits || ((x.status.Final? || x.status.FailedNoCharge?) && !Decisive(x))
    then Observed(ReceiptStatus.Unverified) else Observed(x.status)
  }

  function FileReceipt(b: Billing, x: Receipt, s: StoredStatus): Billing {
    b.(receipts := b.receipts[x := s])
  }

  /** INSERT OR IGNORE: the first block of a Key stays. */
  function BlockKey(b: Billing, key: Id, row: Block): Billing {
    if key in b.blocks then b else b.(blocks := b.blocks[key := row])
  }

  function Identified(db: Db, r: Id): bool
    requires r in db.requests && r in db.billing.quotes && r in db.books.reservations
  {
    var x, y := db.requests[r], db.books.reservations[r];
    && y.user == x.user && y.key == x.key && y.kind.Credits?
    && y.amount == db.billing.quotes[r].max
    && y.keyAccount == KeyOf(x.user, x.key, Credits) && y.keyAccount in db.books.accounts
  }

  /** A receipt for a request already charged: it may confirm, be ignored, or conflict. */
  function SecondReceipt(db: Db, x: Receipt): Transaction
    requires x.request in db.requests && x.request in db.billing.quotes && x.request in db.billing.settlements
  {
    var r, b := x.request, db.billing;
    if !Decisive(x) then Ok((db, ReceiptDuplicate))
    else if ChargeOf(x) == b.settlements[r].actual then
      Ok((db.(billing := FileReceipt(b, x, FiledAs(x))), ReceiptDuplicate))
    else
      var filed := FileReceipt(b, x, Conflicting);
      var blocked := BlockKey(filed, db.requests[r].key, Block(r, ReceiptConflict, b.quotes[r].max, ChargeOf(x), 0));
      Ok((db.(billing := blocked.(settlements := b.settlements[r := b.settlements[r].(reconcile := true)])), Conflict))
  }

  /** A receipt that decides nothing: the hold is kept and the request turns unknown. */
  function UndecidedReceipt(db: Db, x: Receipt): Transaction
    requires x.request in db.requests && x.request in db.books.reservations
  {
    var r := x.request;
    var books := if db.books.reservations[r].state.Held? then Suspend(db.books, {r}) else db.books;
    :- Need(db.requests[r].state.Unknown? || db.requests[r].state.CanTransitionTo(RequestState.Unknown), InvalidTransition);
    Ok((db.SetState(r, RequestState.Unknown).(
          books := books, billing := FileReceipt(db.billing, x, FiledAs(x))), ReceiptPending))
  }

  /** The first receipt that fixes the charge. */
  function DecisiveReceipt(db: Db, x: Receipt): Transaction
    requires x.request in db.requests && x.request in db.books.reservations && x.request in db.billing.quotes
    requires Decisive(x)
  {
    var r, actual, max := x.request, ChargeOf(x), db.billing.quotes[x.request].max;
    :- Need(db.books.reservations[r].Holds(), ReservationSettlementConflict);
    var over := actual > max;
    var db1 :- SettleRequest(db, r, if x.status.FailedNoCharge? then RequestState.Failed else RequestState.Succeeded);
    var filed := FileReceipt(db.billing, x, FiledAs(x));
    Ok((db1.(books := Charge(db.books, r, actual),
             billing := BlockIfOver(RecordCharge(filed, r, actual, max), r, db.requests[r].key, actual, max)),
        ReceiptSettled(actual, over)))
  }

  function RecordCharge(b: Billing, r: Id, actual: nat, max: int): Billing {
    b.(settlements := b.settlements[r := BillingSettlement(actual, actual > max, actual > max)])
  }

  function BlockIfOver(b: Billing, r: Id, key: Id, actual: nat, max: int): Billing {
    if actual > max then BlockKey(b, key, Block(r, OverQuote, max, actual, actual - max)) else b
  }

  /** apply_credit_receipt. */
  function ApplyReceipt(db: Db, x: Receipt): Transaction {
    var r := x.request;
    :- Need(Readable(x), BillingReceiptInvalid);
    :- Need(r in db.requests, RequestNotFound);
    if x in db.billing.receipts then
      var s := db.billing.receipts[x];
      Ok((db, if s.Conflicting? || s.status.Final? || s.status.FailedNoCharge? then ReceiptDuplicate else ReceiptPending))
    else
      :- Need(r in db.billing.quotes, BillingQuoteMismatch);
      :- Need(r in db.books.reservations, ReservationNotFound);
      :- Need(Identified(db, r), BillingReceiptInvalid);
      if r in db.billing.settlements then SecondReceipt(db, x)
      else if !Decisive(x) then UndecidedReceipt(db, x)
      else DecisiveReceipt(db, x)
  }
}
