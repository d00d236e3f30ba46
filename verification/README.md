# Billing, lease and queue engine: a verified model

This project models the Core billing engine of the repository and the decoders and small
algorithms around it, and proves what they are relied on for.

The engine keeps budget accounts, an append-only ledger, reservations, requests, idempotency
keys, upstream leases, video jobs, attempts, quotes, receipts, settlements, Key blocks and a
queue cursor in one transactional store. A balance is never stored: it is summed from ledger
and reservation rows. Four state machines - request, reservation, lease, and job with its
attempt - must move in step.

How the files fit together:

- `States`, `Books`, `Tables`: the state enums and their transitions; accounts, ledger and
  reservations with the figures summed from them and the ways they move; all other rows.
- `Selection`, `Quota`, `Requests`, `Jobs`, `BillingOps` (Billing.dfy): what each public
  operation does as one atomic step, from a store to a store and a reply, or to an error.
- `CoreStore.dfy` (module `Store`): the store as an object. Its methods read and write the
  tables row by row in the order of the source, roll back when they fail, and are proved
  against those steps.
- `Coherence`, `CoherenceJobs`, `History`, `EventGroups`, `Runs`, `Theorems`: what every step
  keeps, and so what holds in every store that any run of 26 kinds of operations reaches.
- `Reports`, `Entrances`, `Claims`, `Grants`, `PlainSettlement`: operation by operation, exactly
  when it succeeds and what it then does to every account and row, in terms that do not use
  the step's own definitions; and what the settlements a run may not contain would do.
- `Queue`, `Receipts`, `Allocation`, `PoolCover`: fairness of the queue, the fold of a stream
  of receipts, and the bounds on handing out quota.
- `WebSocket`, `LevelLog`, `Snappy`, `IdbKeys`, `Bytes`: the streaming and binary decoders,
  each against an encoder or a reference semantics. Frame format and reassembly follow
  sections 5.2 to 5.4 of RFC 6455.
- `Glob`, `Credits.dfy` (module `CreditAmounts`), `CanonicalJson`: wildcard matching,
  fixed-point credit texts, and the text whose hash tells requests apart, with a reader for it
  (`JsonReader`) that follows section 7 of RFC 8259 for strings.

What a run may contain is the predicate `Runs.Admissible`: any operation with any arguments,
except that manual transitions only move a request forward up to completing, a reservation
behind a lease or a job is settled through its lease only, and upstream accounts keep their
concurrency and Keys their user. `PlainSettlement.PlainSettleAgreesExactly` and
`PlainSettlement.LateReportIsApplied` show why the second of these is needed. The unique indexes and
foreign keys of src-core/src/schema.rs are taken as given: rows that belong to one request are
keyed by it.

Where the code does less than its purpose suggests, the model follows the code, and says so:

- The event-group checker accepts exactly the groups of held reservations whose accounts kept
  their version (`EventGroups.WrittenCheckerIsExact`), so one settlement and one check shut a
  Key for good (`Theorems.OneSettlementLocksTheKey`).
- A success reported without an amount keeps its hold for ever
  (`Theorems.UnpricedSuccessHoldsForever`), and nothing else leaves one behind a finished
  lease (`Theorems.HoldsBehindExactly`).
- settle_request can settle a request over an uncharged quote, which then hears of no receipt
  (`Receipts.QuoteCanBeStranded`, with the exact condition in
  `Receipts.FirstChargeSettlesExactly`).
- settle and settle_request close a reservation past its live lease, and the lease's own report
  then breaks the books (`PlainSettlement.LateReportIsApplied`, with the exact condition in
  `PlainSettlement.PlainSettleAgreesExactly`).
- Re-enabling a revoked Key can let Keys outspend their pool
  (`PoolCover.ReenablingCanOverdrawThePool`, with the exact condition beside it).
- The wildcard matcher fails on values with an inner star
  (`Glob.RightExactlyWithoutInnerStar`).
- The WebSocket parser may stop behind a non-final frame with all bytes at hand
  (`WebSocket.DeliveredExactlyWhenNothingIsHidden`).
- A head job that cannot be claimed blocks the queue (`Queue.FailingHeadBlocks`), and a
  heartbeat on its lease is enough to make it so (`Queue.HeartbeatBlocksHead`).

## Model

| member | source | states |
|---|---|---|
| Theorems.QuotaIsConserved | src-core/src/quota.rs:1500-1537 | In every store any legal run reaches, on every account, available + held + settled equals all that was granted, and the account is overdrawn by no more than over-quote receipts have overdrawn it |
| Theorems.StatesAgree | src-core/src/requests.rs:589-761 | In every reachable store a live lease has a held reservation and an open request, an unknown one has both unknown, a finished one a settled request; a failed one released its reservation; a succeeded one committed it, unless the run settled it as a success without an amount, and exactly then it is unknown |
| Theorems.SettlementLeavesHoldExactly | src-core/src/requests.rs:631-634 | An applied lease settlement leaves a finished lease whose reservation still holds if and only if it reports a success without an amount |
| Theorems.HoldsBehindExactly | src-core/src/requests.rs:589-711 | Over any run, a finished lease has a reservation that still holds if and only if it had one at the start or the run applied a success without an amount to it |
| Theorems.JobsAgree | src-core/src/jobs.rs:936-1077 | In every reachable store a job is terminal exactly when its request is settled, unknown exactly when it is unknown, attempts and leases come together and the attempt mirrors the job |
| Theorems.StatesWalkLegalEdges | src-core/src/models.rs:764-782 | Over any run every request and job moves along legal transitions only |
| States.ReachesIsWalk | src-core/src/models.rs:764-782 | What legal request transitions can reach is exactly what has a lower rank, so no request state is ever entered twice |
| States.JobReachesIsWalk | src-core/src/models.rs:457-466 | The same for jobs |
| States.RequestEdges | src-core/src/models.rs:764-782 | The edges of the request table by what they stand for: one step on, failure or loss, a request to stop, the outcome, and settlement |
| States.JobEdges | src-core/src/models.rs:457-466 | The same for jobs |
| States.SettlingReaches | src-core/src/quota.rs:2919-2990 | Settling a request ends where a walk along legal transitions can end |
| Theorems.StepKeepsHealthy | src-core/src/requests.rs:589-761 | Every single operation keeps all invariants together, and only advances history: rows stay, finished states stay, the ledger is only appended to |
| Theorems.RecoveryAlwaysCommits | src-core/src/requests.rs:713-761 | In a reachable store recovery of expired leases cannot fail and leaves none expired |
| Theorems.UnpricedSuccessLeavesHold | src-core/src/requests.rs:631-634 | Settling a live lease as a success without an amount leaves its reservation unknown under a succeeded lease and a settled request |
| Theorems.UnpricedSuccessHoldsForever | src-core/src/requests.rs:613-617 | No run of operations from such a store ever releases, charges or moves that hold |
| Theorems.SlotsAreBounded | src-core/src/requests.rs:1380-1386 | In every reachable store no upstream account serves more held, active and unknown leases than its concurrency |
| Theorems.RecoveryFreesNoSlot | src-core/src/requests.rs:713-761 | Expiry recovery leaves every account with as many occupied slots as before |
| Theorems.ResubmissionChangesNothing | src-core/src/requests.rs:402-415 | Whatever is submitted under a known client key changes nothing, and is answered with the request first created under it, as a conflict, or with an error |
| Theorems.ConflictRefusedExactly | src-core/src/requests.rs:402-415 | The two entrances that schedule refuse with an idempotency conflict if and only if the submission is admitted and its client key is known with different content |
| Theorems.ConflictAnsweredExactly | src-core/src/requests.rs:857-926 | begin_request and preflight_reserve answer a conflict if and only if an active Key repeats a client key with different content |
| Theorems.CreatedAtMostOnce | src-core/src/requests.rs:124-349 | Over any run at most one request is created under one client key |
| Theorems.ClaimedAtMostOnce | src-core/src/jobs.rs:341-608 | Over any run at most one claim of a job succeeds |
| Theorems.OnlyTheWinnerHeartbeats | src-core/src/jobs.rs:626-752 | In every reachable store only the worker whose claim of a job succeeded can extend it |
| Theorems.CheckerInReachedStore | src-core/src/quota.rs:770-896 | In every reachable store the event-group checker as written accepts exactly the groups of held reservations whose accounts kept their version; with two rows per account it would accept exactly the decided, in-quote groups whose accounts kept their version |
| Theorems.OneSettlementLocksTheKey | src-core/src/quota.rs:730-745 | After one check, no run ever places another reservation of that kind for the Key of any committed or released reservation, nor, if it has a user cap, for any Key of that user |
| Theorems.LockedGetsNoRows | src-core/src/quota.rs:1405-1425 | No run unlocks an account marked for reconciliation, so none places a reservation against it |
| Books.MoveKeepsSound | src-core/src/quota.rs:2719-2826 | Every way the books can move keeps conservation and the overdraft bound on all accounts |
| Quota.SettlementIsSoundExactly | src-core/src/quota.rs:2719-2770 | Closing a reservation keeps the books in order if and only if the reservation still holds its amount, which the code leaves to its callers; otherwise the Key account no longer adds up |
| PlainSettlement.PlainSettleAgreesExactly | src-core/src/quota.rs:2382-2456 | settle and settle_request keep the state machines in agreement if and only if they close nothing or the reservation has neither lease nor job behind it |
| PlainSettlement.PlainSettleKeepsSound | src-core/src/quota.rs:2382-2456 | By itself a plain settlement keeps the books in order, whatever stands behind the reservation |
| PlainSettlement.SettlesExactly | src-core/src/quota.rs:2382-2456 | A first settlement is taken if and only if the owner makes it within the hold towards a reachable state; what it charges or gives back on every account, and where the request ends |
| PlainSettlement.FirstWordStands | src-core/src/quota.rs:2395-2412 | A second settlement is accepted without effect if it says the same as the first, and is a conflict otherwise |
| PlainSettlement.LateReportBreaksBooks | src-core/src/requests.rs:640-657 | After a plain settlement of a reservation with a live lease, any report on that lease that is applied leaves a Key account that does not add up |
| PlainSettlement.LateReportIsApplied | src-core/src/requests.rs:640-657 | And a lost upstream call is a report that is always applied, so two calls of the owner break conservation |
| Books.HeldSplit | src-core/src/quota.rs:1506-1514 | The held sum does not depend on the order of the rows |
| Runs.StepMoves | src-core/src/quota.rs:2523-2826 | Every operation changes the books by one allowed move; only grants hand out quota, only active Keys with open accounts hold it, and only a receipt can charge more than was held |
| Coherence.SettleRowsKeepsAgreement | src-core/src/requests.rs:640-708 | Settling a lease moves lease, reservation, request and job in step |
| CoherenceJobs.RecoveryKeepsAgreement | src-core/src/requests.rs:713-761 | Recovery moves all expired leases with everything that hangs on them |
| CoherenceJobs.ClaimKeepsAgreement | src-core/src/jobs.rs:1080-1276 | Claiming a queued job, with or without a lease, keeps its rows in agreement |
| CoherenceJobs.ReceiptKeepsAgreement | src-core/src/quota.rs:2003-2324 | Every receipt keeps its request in agreement |
| History.SettleLeaseAdvances | src-core/src/requests.rs:589-711 | Lease settlement never reopens a finished lease, reservation or request |
| Reports.ReportPays | src-core/src/requests.rs:623-657 | In a reachable store an applied report of success with an amount commits exactly that amount, between 0 and what is held, and gives back the rest on every account; a refusal or cancellation gives back all; any other report moves nothing |
| Reports.ReportMoves | src-core/src/requests.rs:623-706 | The states an applied report leaves of lease, request, reservation and job, the worker's claim cleared and no other request touched |
| Reports.ReportIsAppliedExactly | src-core/src/requests.rs:589-711 | A report on a live lease is applied if and only if its owner makes it, request and job can still end that way, and the amount is within the hold |
| Reports.ReconciledExactly | src-core/src/requests.rs:563-622 | A lease in doubt is reconciled if and only if its owner brings final, referenced evidence of an affordable amount within the lease's window |
| Reports.DoubtKeepsWindow | src-core/src/requests.rs:640-657 | A report in doubt keeps the lease's own window, and opens one of ten minutes only where there was none |
| Reports.RecoveryOpensWindow | src-core/src/requests.rs:713-761 | Recovery takes exactly the live leases that have run out, and each can be reconciled until ten minutes later, to the millisecond |
| Reports.HeartbeatLasts | src-core/src/requests.rs:484-502 | A heartbeat succeeds exactly for the owner with a representable span, and puts off recovery by that span |
| Reports.CancelIsAsked | src-core/src/requests.rs:504-548 | The owner of a live lease can always ask for cancellation, and only the request shows it |
| Reports.OverchargeIsRefused | src-core/src/quota.rs:2719-2770 | A reported amount above the hold or below zero is refused by its own error |
| Reports.FirstMoverWins | src-core/src/requests.rs:1135-1171 | Of several transitions that expect the same state of a request, the first wins and the others fail |
| Reports.MovesExactly | src-core/src/requests.rs:1135-1171 | A transition succeeds exactly along a legal edge from the expected state, and changes that state only |
| Reports.StrangersAreRefused | src-core/src/requests.rs:1311-1323 | No one but the owner of a request settles, reports, extends, cancels or starts anything of it |
| Entrances.ReservesExactly | src-core/src/requests.rs:1029-1105 | preflight_reserve refuses a Key if and only if its requests in the seven counted states reach its limit; below it, a request is made if and only if the Key's account and the user's cap can bear the hold, which then stands on exactly these |
| Entrances.QuotesExactly | src-core/src/quota.rs:1774-1999 | The same for a first quote, with the conditions on quote, snapshot, Key and balance spelled out, and the state it leaves |
| Entrances.QuotedOnce | src-core/src/quota.rs:1836-1881 | A quoted request recognises its own quote and refuses any other |
| Entrances.HeldExactly | src-core/src/quota.rs:2523-2652 | A hold is placed if and only if Key account and cap, if there is one, are in service and both have the amount; it moves exactly these two by exactly that |
| Entrances.HoldRefusals | src-core/src/quota.rs:2540-2600 | Which refusal of a hold names what |
| Entrances.ShortByLeast | src-core/src/quota.rs:2560-2581 | A refusal for want of balance names the balance of the poorer account |
| Entrances.SchedulesExactly | src-core/src/requests.rs:351-482 | preflight_reserve_with_lease makes a request if and only if it is admitted, an account serves, the deadlines are representable and the hold can be borne; what lease, job, attempt and hold are then, in full |
| Entrances.QueuesExactly | src-core/src/requests.rs:124-349 | The same for enqueue_video_job, which looks at no account |
| Entrances.BeginsExactly | src-core/src/requests.rs:857-926 | begin_request and begin_billed_request ask for an active Key and a policy only, and hold nothing |
| Entrances.AdmissionNamesLack | src-core/src/requests.rs:351-400 | What each refusal of a scheduling entrance means, in the order it is looked at |
| Entrances.ChoosesExactly | src-core/src/requests.rs:1336-1403 | An account is chosen if and only if one serves - suits the terms, is in service, freshly known and has room - and it is the one preferred by strategy and id |
| Entrances.RefusalNamesLack | src-core/src/requests.rs:1397-1402 | Which error of the choice means what the accounts lack |
| Entrances.NewLeaseLasts | src-core/src/requests.rs:713-722 | A new lease is left alone by recovery until exactly its own deadline |
| Claims.ClaimLasts | src-core/src/jobs.rs:1205-1222 | After a claim its winner, and no one else, can extend it if and only if the lease's deadline has not come, and from that moment on recovery takes the lease |
| Claims.ExtensionLasts | src-core/src/jobs.rs:626-752 | After a heartbeat the same with the new deadline, and nothing else has changed |
| Claims.ExtendsExactly | src-core/src/jobs.rs:626-752 | In a reachable store a heartbeat succeeds if and only if the worker holds the unexpired claim of a running or cancelling job whose active lease is unexpired |
| Claims.ClaimMoves | src-core/src/jobs.rs:1192-1250 | A successful claim moves request, job, attempt, lease and cursor together, to the given states, and nothing else |
| Claims.ClaimLeases | src-core/src/jobs.rs:1102-1140 | A job without a lease gets one with its claim, on the preferred account, for the spans its terms name |
| Claims.ClaimsExactly | src-core/src/jobs.rs:592-624 | A named job is claimed if and only if it waits and its lease is not activated or an account serves its terms |
| Claims.StartsExactly | src-core/src/jobs.rs:754-832 | When its owner may start a job, and what moves then |
| Claims.CancelsExactly | src-core/src/jobs.rs:936-1025 | When its owner may cancel a job; without a lease the whole hold is given back on every account at once, with one nothing is |
| Grants.PoolIsGrantedExactly | src-core/src/quota.rs:253-324 | A pool grant succeeds exactly for an active user and an account in service, and gives that account, and no other, the amount |
| Grants.PoolIsAllocatedExactly | src-core/src/quota.rs:378-472 | An allocation from the pool succeeds if and only if the pool still has the amount beyond what the user's active Keys have bound |
| Grants.UpstreamIsAllocatedExactly | src-core/src/quota.rs:477-564 | An upstream allocation succeeds if and only if the snapshot is at most five minutes old and covers what is bound and the amount; the reply is what remains |
| Grants.KeyIsGrantedExactly | src-core/src/quota.rs:566-637 | A direct grant succeeds exactly for an active Key of an active user |
| Grants.GrantMakesStale | src-core/src/quota.rs:1450-1469 | A grant advances its account, which puts every event group that stands on it out of date |
| EventGroups.ValidateGroup | src-core/src/quota.rs:770-896 | The group checker step by step, against its closed form |
| EventGroups.WrittenCheckerRejectsSettled | src-core/src/quota.rs:838-893 | Whatever the ledger holds, the expected count of n rows contradicts the per-account check, so no settled group is accepted |
| EventGroups.WrittenCheckerIsExact | src-core/src/quota.rs:830-893 | As written the checker accepts exactly the groups of held reservations whose accounts kept their version |
| EventGroups.CheckLocksExactly | src-core/src/quota.rs:707-768 | The check marks an account exactly when one of its reservations is no longer held or has rows older than the last grant |
| EventGroups.AcceptanceFixesNet | src-core/src/quota.rs:854-893 | Acceptance fixes the net delta of each account: minus the amount, zero, or minus what was paid |
| EventGroups.IntendedCheckerIsExact | src-core/src/quota.rs:838-893 | With two rows per account expected, acceptance holds exactly for decided, in-quote groups with unchanged account versions |
| EventGroups.MoveKeepsGroups | src-core/src/quota.rs:2772-2826 | Every move writes a reservation its reserve rows once and its final rows at most once, Key first, cap second |
| Selection.SelectCandidate | src-core/src/requests.rs:1336-1403 | The best eligible account under the strategy, least id on a tie, or the error naming the first filter that left nobody |
| Selection.ChoiceIsUnique | src-core/src/requests.rs:1336-1403 | That answer is unique, so the order of reading accounts does not matter |
| Queue.BoundedWaiting | src-core/src/jobs.rs:365-390 | A job still waiting has seen at most (k + 1) * U successful claims, k being the older waiting jobs and U any set of users that holds all who have jobs waiting during the run, whatever else happened |
| Queue.ClaimedInTime | src-core/src/jobs.rs:365-390 | While workers claim and clients submit, the job is claimed, once, within (k + 1) * U + 1 successful claims, U being those who queue |
| Queue.ActiveUsersQueue | src-core/src/jobs.rs:1413-1441 | The active users are such a set over any run in which users do not come and go |
| Queue.OldestFirst | src-core/src/jobs.rs:377-390 | Within one user jobs are claimed oldest first |
| Queue.PickIsOldestAhead | src-core/src/jobs.rs:358-390 | Whoever the cursor has not passed comes first, and among those the oldest job, then the lowest user, then the lowest id |
| Queue.NobodyWaits | src-core/src/jobs.rs:1413-1441 | Nobody is picked exactly when no queued job of a queued request of an active user exists |
| Queue.WrapTakesOldest | src-core/src/jobs.rs:365-372 | A claim that wraps around takes the waiting job in question or one before it |
| Queue.FailingHeadBlocks | src-core/src/jobs.rs:392-470 | While the head has an activated lease, or no account has what it names, and younger jobs arrive, no claim of any run succeeds, whatever waits behind it |
| Queue.HeadIsClaimableExactly | src-core/src/jobs.rs:1080-1276 | The head of the queue can be claimed if and only if its lease has not been activated or, when it has none, an eligible account and representable deadlines exist |
| Queue.HeartbeatBlocksHead | src-core/src/requests.rs:484-502 | One heartbeat of the owner on the queued head's own lease makes every later claim of the queue fail |
| Receipts.ReceiptsComeToFirstCharge | src-core/src/quota.rs:2003-2324 | For every sequence of receipts on a quoted, uncharged request that holds its amount, none is heard if the request was settled before; otherwise each account moves by the first valid final receipt only, once, and the Key is blocked exactly when it was, the charge is over quote, or some valid final receipt differs |
| Receipts.SettlesOnce | src-core/src/quota.rs:2102-2324 | The same for the books as a whole - no change of money, or one commit of the first charge heard - and for the record: over quote, to be reconciled, and the first reason the Key was blocked, exactly as the charges heard come to |
| Receipts.DecidingCharges | src-core/src/quota.rs:2210-2300 | The first charge c leaves the settlement (c, c over quote, c over quote) and, over quote, a block that names the excess |
| Receipts.LaterReceiptsOnlyDispute | src-core/src/quota.rs:2100-2162 | A later receipt moves no money; one that bills another amount is filed as a conflict, blocks the Key for that reason, and leaves the settlement to be reconciled |
| Receipts.SameReceiptTwice | src-core/src/quota.rs:2036-2050 | The same receipt once more changes nothing, in any store |
| Receipts.BillsExactly | src-core/src/quota.rs:2072-2096 | Which receipts fix a charge, and which |
| Receipts.QuotedRequestsAwait | src-core/src/quota.rs:1980-1999 | In a reachable store a quoted request is billable or settled, never asked to cancel, and awaits its charge exactly while it is uncharged and holds its amount |
| Receipts.FirstChargeSettlesExactly | src-core/src/quota.rs:2102-2180 | The first valid final receipt settles an uncharged quoted request if and only if the request still holds its amount and is billable; it is refused otherwise |
| Receipts.SettlingWithoutAmountStrandsQuote | src-core/src/quota.rs:2404-2435 | settle_request without an amount and with a final state leaves an uncharged quote that holds under a settled request |
| Receipts.StrandedQuoteIgnoresReceipts | src-core/src/quota.rs:2102-2180 | Such a quote ignores every receipt, and refuses those that would fix its charge |
| Receipts.QuoteCanBeStranded | src-core/src/quota.rs:2404-2435 | A legal run from an empty store that ends with such a quote |
| Receipts.ChargedAtMostOnce | src-core/src/quota.rs:2003-2324 | Over any run, with anything between the receipts, a request is charged at most once, if and only if some receipt was told so, and for ever with that amount |
| Receipts.BlockedKeyIsNeverQuoted | src-core/src/quota.rs:1906-1915 | Once a Key is blocked no run ever places a new quoted hold on it |
| Receipts.ClosedAtMostOnce | src-core/src/quota.rs:2772-2826 | Over any run a reservation has at most one commit or release row on each account |
| Allocation.AllocationRespectsSnapshot | src-core/src/quota.rs:477-564 | After an upstream allocation the Keys' commitments are within the snapshot, and the remainder returned is never more than what is left, and exactly that if and only if the receiving Key was not in debt |
| Allocation.OnlyGrantsBind | src-core/src/quota.rs:1364-1403 | No reserve, release, suspension, charge or receipt raises the Keys' commitments |
| Allocation.UpstreamCeiling | src-core/src/quota.rs:477-564 | From one allocation to the next, over any run, commitments stay within the snapshot |
| PoolCover.PoolCoversItsKeys | src-core/src/quota.rs:378-472 | When quota comes from the pool only and receipts keep to their quotes, what a user's active Keys can spend together never exceeds what the pool holds, over any run |
| PoolCover.CapRefusesNobody | src-core/src/quota.rs:2559-2581 | Then a reserve is refused only by the Key's own balance, never by the user's cap |
| PoolCover.ReenablingKeepsCoverExactly | src-core/src/store.rs:1406-1448 | Re-enabling a revoked Key keeps the pool covered if and only if what the Key still has fits into what the pool has left |
| PoolCover.ReenablingCanOverdrawThePool | src-core/src/store.rs:1428-1433 | A concrete run of pool allocations that ends with Keys able to spend twice the pool, because the last operation re-enables a Key |
| Store.CoreStore.BudgetBalance | src-core/src/quota.rs:1500-1537 | Available, held and settled as sums over all rows |
| Store.CoreStore.SumAccounts | src-core/src/quota.rs:1314-1403 | The sum over a set of accounts, in any order |
| Store.CoreStore.QuotaPoolGrant | src-core/src/quota.rs:253-324 | The new store and answer are those of the step PoolGrant |
| Store.CoreStore.KeyQuotaAllocateFromPool | src-core/src/quota.rs:378-472 | The new store and answer are those of the step AllocateFromPool, errors included |
| Store.CoreStore.KeyQuotaAllocateFromUpstream | src-core/src/quota.rs:477-564 | The same for AllocateFromUpstream |
| Store.CoreStore.UpstreamCreditCapacity | src-core/src/quota.rs:1348-1403 | What a fresh snapshot leaves to allocate, or the reason for nothing |
| Store.CoreStore.KeyQuotaGrant | src-core/src/quota.rs:566-637 | The same for KeyGrant |
| Store.CoreStore.ReconcileQuotaEventGroups | src-core/src/quota.rs:707-768 | Exactly the accounts of rejected groups are quarantined and the count is that of the rejected groups |
| Store.CoreStore.InsertReservationBudgetEvent | src-core/src/quota.rs:2772-2826 | The Key's row and then the cap's are appended, with the accounts' current versions |
| Store.CoreStore.ReserveDualInTransaction | src-core/src/quota.rs:2523-2652 | Key and cap are both checked and both charged, an existing row is recognised, and nothing changes otherwise |
| Store.CoreStore.ApplyDualSettlement | src-core/src/quota.rs:2719-2770 | Release, commit or suspension of a reservation, errors before any write |
| Store.CoreStore.SettleReservation | src-core/src/quota.rs:2382-2456 | settle and settle_request, with replays, ownership and rollback |
| Store.CoreStore.SettleRequestState | src-core/src/quota.rs:2919-2990 | Stepping along the progression succeeds exactly in the closed form's states and ends as it says |
| Store.CoreStore.Progression | src-core/src/quota.rs:2927-2970 | The path taken is legal step by step and its first step decides success |
| Store.CoreStore.TransitionRequestOnConnection | src-core/src/requests.rs:1135-1171 | A legal transition from the expected state, or an error and no change |
| Store.CoreStore.TransitionRequest | src-core/src/requests.rs:1116-1133 | The same as an operation |
| Store.CoreStore.EnterAndReserve | src-core/src/requests.rs:1030-1105 | Insert, validate and hold, or the refusal |
| Store.CoreStore.BeginRequestInternal | src-core/src/requests.rs:857-926 | begin_request and begin_billed_request with replay and conflict |
| Store.CoreStore.PreflightReserveRequest | src-core/src/requests.rs:968-1114 | The new store and answer are those of PreflightReserve; an insufficient balance is answered after a rollback |
| Store.CoreStore.SelectUpstreamCandidate | src-core/src/requests.rs:1336-1403 | The one answer of the selection rule |
| Store.CoreStore.PreflightReserveWithLease | src-core/src/requests.rs:351-482 | The new store and answer are those of PreflightWithLease, rolled back on every error |
| Store.CoreStore.EnqueueVideoJob | src-core/src/requests.rs:124-349 | The same for EnqueueVideo |
| Store.CoreStore.InsertVideoJob | src-core/src/jobs.rs:99-142 | A queued job and its request queued, or a refusal of a used id |
| Store.CoreStore.InsertVideoJobAndAttempt | src-core/src/jobs.rs:35-97 | The same with the attempt on the lease's account |
| Store.CoreStore.HeartbeatUpstreamLease | src-core/src/requests.rs:484-502 | A live lease turns active and is extended; others are left alone |
| Store.CoreStore.RequestUpstreamCancel | src-core/src/requests.rs:504-548 | The request, and nothing else, is asked to cancel |
| Store.CoreStore.SyncVideoJobSettlement | src-core/src/jobs.rs:1027-1077 | Job and attempt follow the lease and the claim is cleared, or an error and no change |
| Store.CoreStore.SettleLeaseRows | src-core/src/requests.rs:658-706 | Request, reservation, lease and job are written in that order |
| Store.CoreStore.SettleUpstreamLease | src-core/src/requests.rs:589-711 | The new store and answer are those of SettleLease, rolled back on every error |
| Store.CoreStore.ReconcileUnknownUpstreamLease | src-core/src/requests.rs:563-587 | Only evident outcomes reconcile an unknown lease, within its window |
| Store.CoreStore.RecoverLease | src-core/src/requests.rs:723-752 | One expired lease is suspended with its rows exactly when that is possible |
| Store.CoreStore.RecoverExpiredUpstreamLeases | src-core/src/requests.rs:713-761 | All expired leases are recovered together, or nothing changes |
| Store.CoreStore.NextVideoQueueUser | src-core/src/jobs.rs:1413-1441 | The user above the cursor whose oldest waiting job is oldest |
| Store.CoreStore.OldestVideoJobOf | src-core/src/jobs.rs:374-390 | The oldest waiting job of a user |
| Store.CoreStore.ClaimNextVideoJob | src-core/src/jobs.rs:341-590 | The two queries and the claim are those of the step ClaimNext |
| Store.CoreStore.ClaimVideoJobById | src-core/src/jobs.rs:592-624 | The same for a named job |
| Store.CoreStore.ClaimVideoJobInTransaction | src-core/src/jobs.rs:1080-1276 | Provision if needed, then request, job, attempt, lease and cursor move together |
| Store.CoreStore.HeartbeatVideoJob | src-core/src/jobs.rs:626-752 | Only the live claim's owner extends job and lease |
| Store.CoreStore.MarkVideoJobRunning | src-core/src/jobs.rs:754-832 | A queued job with an attempt starts, everything in step |
| Store.CoreStore.RequestVideoCancel | src-core/src/jobs.rs:936-1025 | A job without an attempt is canceled and its hold released; one with an attempt waits |
| Store.CoreStore.ReserveCreditQuote | src-core/src/quota.rs:1774-1999 | The new store and answer are those of ReserveQuote, rolled back on every error |
| Store.CoreStore.ApplyCreditReceipt | src-core/src/quota.rs:2003-2324 | The new store and answer are those of ApplyReceipt, rolled back on every error |
| Store.MethodsKeepHealthy | src-core/src/requests.rs:589-761 | A method that does what its step says keeps every invariant, and changes nothing when it fails |
| Store.PickIsTwoQueries | src-core/src/jobs.rs:358-390 | Next user, one wrap, then the user's oldest job: together the head of the queue |
| WebSocket.FeedingRefinesReassembly | src-python/device_proxy.py:1543-1607 | However the bytes of a frame stream are cut, the messages delivered are the reassembly of the frames got through, a prefix of the whole, and the parser stops short only behind a non-final data frame |
| WebSocket.NudgesDeliverEverything | src-python/device_proxy.py:1543-1607 | After one empty feed for each non-final data frame everything is delivered; with none, nothing more is needed |
| WebSocket.DeliveredExactlyWhenNothingIsHidden | src-python/device_proxy.py:1543-1607 | All messages are delivered however the bytes are cut, if and only if no non-final data frame stands before a frame that delivers something |
| WebSocket.OneFeedStopsBehindSilent | src-python/device_proxy.py:1549-1555 | A feed that meets a non-final data frame delivers nothing beyond it, however complete the buffer |
| WebSocket.FragmentsBecomeOneMessage | src-python/device_proxy.py:1591-1607 | A fragmented message comes out whole under its first opcode, after the control frames inside it |
| WebSocket.OneFrame | src-python/device_proxy.py:1591-1607 | What one frame does, in each of the four cases: a whole frame goes out under its own opcode and leaves the open message alone |
| WebSocket.WholeFramesComeOut | src-python/device_proxy.py:1543-1607 | A stream without fragments comes out frame by frame under its own opcodes, however it is cut |
| WebSocket.FirstBytes | src-python/device_proxy.py:1560-1566 | Which bits of the first two bytes say what, as in section 5.2 of RFC 6455 |
| WebSocket.DecodeEncoded | src-python/device_proxy.py:1557-1588 | Every valid frame, in any length form, masked or not, is read back whatever follows |
| WebSocket.EncodeDecoded | src-python/device_proxy.py:1557-1588 | Whatever the parser takes off the buffer is the encoding of a valid frame |
| WebSocket.FramesArePrefixFree | src-python/device_proxy.py:1557-1588 | No frame's encoding begins another's |
| WebSocket.MessageParser.Feed | src-python/device_proxy.py:1543-1555 | The parser's state after a feed is that of the specification, or the buffer limit is reported |
| WebSocket.MessageParser.TryParse | src-python/device_proxy.py:1557-1607 | One complete frame is taken off and delivered, or nothing changes |
| WebSocket.MessageParser.Unmask | src-python/device_proxy.py:1588-1590 | Repeating the key and xoring undoes the masking |
| LevelLog.LogRoundTrip | src-python/doubao_chats.py:115-134 | Reading a log gives back exactly the batches written, over any number of blocks and for any checksums |
| LevelLog.BatchIsRead | src-python/doubao_chats.py:124-133 | A batch is put together from its fragments, zero-length first fragments included |
| LevelLog.RecordsStayInTheirBlocks | src-python/doubao_chats.py:121-124 | No written record leaves its block, which is what skipping to the next block relies on |
| LevelLog.RecordLayout | src-python/doubao_chats.py:116-126 | A record as LevelDB lays it down |
| LevelLog.OtherKindsAreSkipped | src-python/doubao_chats.py:124-133 | A record of any other kind is passed over, whatever it carries |
| LevelLog.BlockTailIsSkipped | src-python/doubao_chats.py:121-124 | No record begins in the last six bytes of a block of 32768 |
| LevelLog.ReadWalBatches | src-python/doubao_chats.py:115-134 | The loop reads what the specification reads |
| Snappy.DecompressionInvertsEncoding | src-python/doubao_chats.py:67-109 | Decoding the encoding of any well-formed operations gives their meaning |
| Snappy.CopyPastStartFails | src-python/doubao_chats.py:104-108 | A copy from before the start fails the stream |
| Snappy.CutLiteralEnds | src-python/doubao_chats.py:85-92 | A literal that is cut short gives what there is and ends the output |
| Snappy.CopyBack | src-python/doubao_chats.py:106-108 | Copying byte by byte from the growing end yields the periodic extension of the last offset bytes |
| Snappy.SnappyDecompress | src-python/doubao_chats.py:67-109 | The loop decodes what the specification decodes, exceptions included |
| IdbKeys.SpanIsEncodedLength | src-python/doubao_chats.py:281-298 | The span of a key is its encoded length, however nested and whatever follows |
| IdbKeys.KeyRoundTrip | src-python/doubao_chats.py:254-298 | A key cut out by its span and decoded is the key, null and min, and number and date, being one |
| IdbKeys.OtherTagsFail | src-python/doubao_chats.py:277-298 | No key starts with any other tag, or past the end |
| IdbKeys.KeySpan | src-python/doubao_chats.py:281-298 | _idb_key_span finds the specified end or fails as specified |
| IdbKeys.DecodeIdbKey | src-python/doubao_chats.py:254-277 | decode_idb_key gives the specified value or fails as specified |
| Bytes.VarintRoundTrip | src-python/doubao_chats.py:35-45 | Varints of every size are read back wherever they stand |
| Bytes.BitOfXor | src-python/device_proxy.py:1588-1590 | Exclusive or, bit by bit |
| Bytes.ReadVarint | src-python/doubao_chats.py:35-45 | _varint reads the specified number and position, or runs out |
| Glob.GlobMatches | src-core/src/cost.rs:49-78 | The loop answers as its greedy specification does, and terminates |
| Glob.RightExactlyWithoutInnerStar | src-core/src/cost.rs:49-78 | A value is matched correctly against every pattern if and only if it has no star before its last byte |
| Glob.GreedyIsSound | src-core/src/cost.rs:58-72 | The loop never accepts what does not match, whatever the value |
| Glob.InnerStarDefeats | src-core/src/cost.rs:59-61 | For every value with an inner star a pattern that matches it and is rejected |
| CreditAmounts.Parse | src-core/src/credits.rs:13-56 | Parsing succeeds exactly on at most 64 characters of digits with one to six optional decimals whose exact value in millionths fits, and returns that value |
| CreditAmounts.DisplaySpells | src-core/src/credits.rs:77-81 | The printed form of every amount spells exactly that amount |
| CreditAmounts.PrintAndParse | src-core/src/credits.rs:13-81 | Parsing what was printed gives the amount back, for every amount there is |
| CreditAmounts.Units | src-core/src/credits.rs:4-30 | A credit is a million; at most six decimals and sixty-four characters |
| CreditAmounts.SpellingIsUnique | src-core/src/credits.rs:23-30 | A text spells one amount at most |
| CanonicalJson.CanonicalTextIsExact | src-core/src/requests.rs:1414-1445 | Two values have the same canonical text if and only if they are equal as JSON, member order ignored |
| JsonReader.CanonicalTextIsRead | src-core/src/requests.rs:1414-1445 | The canonical text is JSON: a reader after RFC 8259 takes it, whole, for the value |
| JsonReader.ValueIsRead | src-core/src/requests.rs:1414-1445 | The same for every text the writer makes of a part, whatever follows it |
| CanonicalJson.TextsDiffer | src-core/src/requests.rs:1414-1445 | A text determines its value and where it ends |
| CanonicalJson.RequestsConflictExactly | src-core/src/requests.rs:1406-1412 | The hashed texts of two requests agree if and only if endpoint, model and body do |
| CanonicalJson.Output.WriteCanonicalJson | src-core/src/requests.rs:1414-1445 | What is appended to the buffer is the canonical text |

## Left out

- Store.CoreStore.RecoverExpiredUpstreamLeases: does not fix which error is reported when several expired rows cannot be recovered, because that depends on the order of the rows; in a reachable store there is none.
- Store.CoreStore.ReconcileQuotaEventGroups: does not model the reason texts, which only reach the audit trail.
- CreditAmounts.Parse: does not tell the error messages apart.
- IdbKeys.KeyRoundTrip: text stays the UTF-16 bytes of the key and a number its eight bytes; their conversion to characters and doubles is Python's, not this code's.
- IdbKeys.DecodeIdbKey: the same two conversions are not modelled, so undecodable text, which Python replaces, is kept as it is.
- Theorems.QuotaIsConserved: is stated for runs whose manual transitions move forward only, because it is proved together with the agreement of states, which needs that; conservation by itself does not depend on request states.
- Identifiers are numbers whose order stands for the byte order of text ids; fresh ids, the clock, and whether a cost policy covers a request are parameters of the operations.
- Sums of balances are unbounded: an i64 sum that overflows, which the code reports as an error, does not occur. Time arithmetic and single amounts do overflow, as in the code.
- Columns no decision reads: timestamps of updates, error codes, upstream references, reasons, audit events.
- The text checks on identifiers (blank, too long, control characters) of worker ids, video inputs and resource kinds.
- The per-Key concurrency limit is modelled where it is enforced; it is not an invariant, since the lease paths never ask for it and canceling requests are not counted.
- The store's tables are held in records of maps (accounts, ledger and reservations together; quotes, receipts, settlements and blocks together) rather than one field for each table.
- Administration in store.rs appears as steps that set users, Keys and upstream accounts; authorization, rotation and the rest of it are not part of this model.
- Legacy user-level quota (grant, reserve, attached old ledger rows), which attributes events differently.
- Listing and recovery queries (usage views, admin summaries, recoverable requests): sums and filters over the tables modelled.
- Account health, cooldown mapping and redaction in upstream.rs and upstream_failure.rs: one-branch tables.
- Hashing, certificates, TLS and compression: a request is identified by its canonical text, which assumes no hash collision; the decompression of WebSocket payloads is not part of this model.
- UTF-16 and UTF-8 decoding with replacement, IEEE doubles (kept as their eight bytes), CRC checks, truncated or damaged logs, and sorted tables in doubao_chats.py.
- Numbers in canonical JSON are their decimal texts; how a number is printed is not part of this model.
- Networking, packaging, the bridge scripts and the user interface.
