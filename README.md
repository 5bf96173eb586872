# Event-sourced wallet ledger, in Dafny

This project models the core of a NestJS wallet service built on CQRS and event sourcing, and proves properties of that model.

**Write side.**
- A wallet pays out of its balance by appending an immutable `PaymentProcessed` event to an append-only event store. The event store is a log of rows; each row gets the next version of its aggregate.
- A payment may later be cancelled or refunded, and only once. This appends a `PaymentCancelled` or `PaymentRefunded` event to the payer's stream; no row is ever updated.

**Read side.**
- Projections turn each event into writes on two read tables: `payments_read_model`, keyed by payment id, and `wallets_read_model`, holding a balance snapshot per wallet.
- Two query handlers read the model back: a wallet's recent history, and a filtered, paged listing of payments.

**Disbursement.** A disbursement entity is validated on creation and moves from PENDING to APPROVED or REJECTED. A use case wraps it: validate, then a compliance gate, then save.

One Dafny module per source file:

| module | models |
|---|---|
| `Results` | the `Result<T>` record and its `ok`/`fail` factories |
| `WalletEntity` | the wallet aggregate's rules (a value: the entity never changes its balance) |
| `EventStoreRepository` | the event store as a class over `log: seq<StoredEvent>`; its invariant is `UNIQUE(aggregate_id, version)` together with gap-free versions 1..n per aggregate |
| `WalletRepositoryImpl` | the seeded in-memory wallet map and `findById` |
| `PaymentLedger` | the messages, payloads and guard shared by the three command handlers, and the ledger invariant: every cancel or refund lies in the payer's stream, and at most one exists per payment |
| `ProcessPayment`, `CancelPayment`, `RefundPayment` | the command handlers, as methods over the store and the wallet repository |
| `PaymentReadRepositoryImpl` | the read table, with `findById`, `findAll`, `upsert` and `updateStatus` |
| `PaymentProcessedProjection`, `CancelledProjection`, `RefundedProjection` | the three projections |
| `GetPaymentHistory`, `ListPayments` | the two query handlers |
| `DisbursementEntity`, `CreateDisbursement` | the disbursement entity and its creation use case |
| `PaymentEvents`, `JsText` | data-only types, plus the pieces of JavaScript string behaviour the messages rely on |
| `PaymentScenarios`, `ReadSideScenarios` | end-to-end runs over the demo data |

**How the source's effects are represented.**
- Ids, the event id, and timestamps (`crypto.randomUUID()`, `new Date()`, `NOW()`) are parameters.
- Amounts are integers.
- Publication on the event bus is a returned `published` value. The projections are called explicitly.
- The compliance service and the repository's `save` are function-valued fields of the use case.

**The read table is a sequence of rows, not a map.** `findAll` orders the rows by `created_at DESC`, so the model needs them in some order. The primary key becomes the invariant that no two rows share a payment id.

**Behaviour modelled as the code has it:**
- **Balance recorded by cancel and refund.** The handlers record `newBalance` as the wallet's *current* repository balance plus the payment amount. The in-memory repository never updates a balance. So paying 500 out of 10,000 and then refunding records 10,500. `PaymentScenarios.PayThenRefundTwice` shows this with 1,000: it records 11,000.
- **Blank reasons.** The handlers never look at `reason`, so a blank reason is accepted. The length check lives only in the HTTP DTOs, which are not part of this model.
- **Version collisions.** Nothing retries a version collision on append. The store only reads the largest version and inserts the next one.
- **Cancel and refund projections.** They only set the status. They do not restore the wallet's balance snapshot, although their doc comment says they do.

## Model

| member | source | states |
|---|---|---|
| Results.Ok | src/shared/domain/result.ts:8-10 | `ok(v)` succeeds, carries no error and holds `v` |
| Results.OkEmpty | src/shared/domain/result.ts:8-10 | `ok()` with no argument succeeds, with no error and no value |
| Results.Fail | src/shared/domain/result.ts:12-14 | `fail(e)` is unsuccessful, carries `e` and no value; every factory result has `success` exactly when `error` is absent |
| JsText.NatToStringRoundTrip | src/modules/payment/domain/entities/wallet.entity.ts:46 | the decimal text a number is written as in a message reads back as that number |
| WalletEntity.InsufficientFundsMessage | src/modules/payment/domain/entities/wallet.entity.ts:44-48 | the insufficient-funds message starts with "Fondos insuficientes. Disponible: " and is longer than that prefix |
| WalletEntity.InsufficientFundsFigures | src/modules/payment/domain/entities/wallet.entity.ts:44-48 | after the prefix the message holds the balance's decimal text, then ", Requerido: ", then the amount's decimal text to the end; a non-negative figure's text reads back as that number |
| WalletEntity.Create | src/modules/payment/domain/entities/wallet.entity.ts:29-34 | fails with the negative-seed message exactly when the balance is below 0 (0 is accepted); otherwise holds a wallet with the given fields |
| WalletEntity.CanProcessPayment | src/modules/payment/domain/entities/wallet.entity.ts:37-50 | succeeds exactly when 0 < amount ≤ 50,000 and amount ≤ balance; amount ≤ 0 gives "mayor a cero" first, then the cap message, then insufficient funds |
| WalletEntity.CalculateNewBalance | src/modules/payment/domain/entities/wallet.entity.ts:53-55 | the new balance plus the amount is the old balance; the wallet is a value and is not changed |
| WalletEntity.AcceptedPaymentKeepsBalanceNonNegative | src/modules/payment/domain/entities/wallet.entity.ts:44-55 | an accepted payment leaves a balance ≥ 0 and strictly below the old one |
| WalletEntity.OverCapBeforeInsufficientFunds | src/modules/payment/domain/entities/wallet.entity.ts:41-47 | against a balance of 10,000, 60,000 gets the cap message and 15,000 the insufficient-funds message |
| EventStoreRepository.EventsFor | src/modules/payment/infrastructure/repositories/event-store.repository.impl.ts:102 | an aggregate's stream is never longer than the log; which rows it holds is stated by `EventsForMembers` |
| EventStoreRepository.EventsForMembers | src/modules/payment/infrastructure/repositories/event-store.repository.impl.ts:97-116 | an event is in an aggregate's stream exactly when it is in the log with that aggregate id |
| EventStoreRepository.LaterRowHasLargerVersion | src/modules/payment/infrastructure/repositories/event-store.repository.impl.ts:59-85 | under sequential appends, a later row of the same aggregate has a strictly larger version |
| EventStoreRepository.SequentialVersionsAreUnique | src/modules/payment/infrastructure/repositories/event-store.repository.impl.ts:159 | sequential versions imply the `UNIQUE(aggregate_id, version)` constraint |
| EventStoreRepository.MaxVersionIsCount | src/modules/payment/infrastructure/repositories/event-store.repository.impl.ts:59-66 | an aggregate's largest version, 0 when it has no events, equals its number of events |
| EventStoreRepository.SequentialVersionsSnoc | src/modules/payment/infrastructure/repositories/event-store.repository.impl.ts:59-85 | appending a row with the next id and its aggregate's count + 1 as version keeps the versions sequential |
| EventStoreRepository.VersionsGapFree | src/modules/payment/infrastructure/repositories/event-store.repository.impl.ts:97-116 | the k-th event of every aggregate's stream has version k + 1: the versions are 1..n without gaps or repeats |
| EventStoreRepository.AppendLeavesOtherStreams | src/modules/payment/infrastructure/repositories/event-store.repository.impl.ts:59-85 | appending to aggregate A leaves the stream of every B ≠ A unchanged |
| EventStoreRepository.AppendExtendsOwnStream | src/modules/payment/infrastructure/repositories/event-store.repository.impl.ts:69-85 | appending to an aggregate adds exactly that event at the end of its stream |
| EventStoreRepository.FirstProcessed | src/modules/payment/infrastructure/repositories/event-store.repository.impl.ts:123-146 | nothing is found exactly when no PaymentProcessed row names the payment; a found row is in the log, is a PaymentProcessed and names the payment |
| EventStoreRepository.FirstProcessedSnoc | src/modules/payment/infrastructure/repositories/event-store.repository.impl.ts:123-146 | once a payment's original event is found, later appends never change which one it is |
| EventStoreRepository.EventStore.constructor | src/modules/payment/infrastructure/repositories/event-store.repository.impl.ts:149-163 | a new store is empty and valid |
| EventStoreRepository.EventStore.NextVersion | src/modules/payment/infrastructure/repositories/event-store.repository.impl.ts:59-66 | the loop computing the largest version + 1 returns the aggregate's count + 1, which is 1 for a new aggregate |
| EventStoreRepository.EventStore.Append | src/modules/payment/infrastructure/repositories/event-store.repository.impl.ts:52-90 | exactly one row is added at the end, with the next id, the given fields, `now`, and the aggregate's next version; earlier rows are unchanged and the invariant still holds |
| EventStoreRepository.EventStore.GetEvents | src/modules/payment/infrastructure/repositories/event-store.repository.impl.ts:97-116 | returns exactly the aggregate's events, in strictly ascending version order, carrying the versions 1..n |
| EventStoreRepository.EventStore.FindEventByPaymentId | src/modules/payment/infrastructure/repositories/event-store.repository.impl.ts:123-146 | null exactly when no PaymentProcessed row names the payment; otherwise such a row, never a cancel or refund row |
| WalletRepositoryImpl.DemoSeedContents | src/modules/payment/infrastructure/repositories/wallet.repository.impl.ts:35-61 | seeding the demo list yields exactly WAL-001 (10,000 USD), WAL-002 (5,000 USD) and WAL-003 (250 USD) |
| WalletRepositoryImpl.SeededHoldsOnlyCreatedWallets | src/modules/payment/infrastructure/repositories/wallet.repository.impl.ts:56-61 | whatever the seed list, only props that `Wallet.create` accepts reach the map, each under its own id |
| WalletRepositoryImpl.WalletRepository.constructor | src/modules/payment/infrastructure/repositories/wallet.repository.impl.ts:19-21 | after construction the map holds exactly the three demo wallets |
| WalletRepositoryImpl.WalletRepository.SeedDemoData | src/modules/payment/infrastructure/repositories/wallet.repository.impl.ts:34-64 | the loop adds to the map exactly the wallets that `Wallet.create` accepts from the demo list |
| WalletRepositoryImpl.WalletRepository.FindById | src/modules/payment/infrastructure/repositories/wallet.repository.impl.ts:23-32 | the stored wallet for a known id and null for any other; nothing is written |
| PaymentLedger.ProcessedIsNotTerminal | src/modules/payment/application/commands/cancel-payment.handler.ts:52-57 | a PaymentProcessed row never counts as a cancel or a refund |
| PaymentLedger.AnyTerminalFor | src/modules/payment/application/commands/cancel-payment.handler.ts:52-57 | the `some` scan is true exactly when a cancel or refund event of the list names the payment |
| PaymentLedger.StreamScanSeesEveryTerminal | src/modules/payment/application/commands/cancel-payment.handler.ts:51-63 | under the ledger invariant, scanning only the payer's stream finds a cancel or refund exactly when the whole log holds one |
| PaymentLedger.AppendNonTerminalKeepsLedger | src/modules/payment/application/commands/process-payment.handler.ts:72-86 | appending a non-terminal event keeps the ledger invariant |
| PaymentLedger.AppendGuardedTerminalKeepsLedger | src/modules/payment/application/commands/cancel-payment.handler.ts:51-96 | a terminal event for a known payment with none yet, written to the payer's stream, keeps the invariant: at most one terminal event per payment |
| PaymentLedger.AppendTerminal | src/modules/payment/application/commands/cancel-payment.handler.ts:88-96 | appends exactly the terminal row (payer's stream, original amount and currency, the reason, current balance and current balance + amount) and keeps both invariants |
| PaymentLedger.SecondTerminalIsRefused | src/modules/payment/application/commands/cancel-payment.handler.ts:51-63 | after a successful cancel or refund, any further cancel or refund of that payment fails with "ya fue cancelado o reembolsado" and leaves the log unchanged |
| ProcessPayment.ProcessedAppendKeepsLedger | src/modules/payment/application/commands/process-payment.handler.ts:72-86 | a processed row keeps the ledger invariant and becomes the original event of a payment id not seen before |
| ProcessPayment.AcceptedPaymentOutcome | src/modules/payment/application/commands/process-payment.handler.ts:55-95 | on the success path the appended row's new balance is ≥ 0, the invariant is kept and the result is a well-formed success |
| ProcessPayment.ProcessPaymentHandler.Execute | src/modules/payment/application/commands/process-payment.handler.ts:39-96 | unknown wallet gives "Wallet … no encontrada"; a failed rule gives that rule's error; both append and publish nothing; success exactly when the wallet exists and the rules pass; then one PaymentProcessed row (aggregate walletId, type "Wallet", previous balance, balance − amount) is appended, the same event is published and the payment id returned |
| CancelPayment.CancelPaymentHandler.Execute | src/modules/payment/application/commands/cancel-payment.handler.ts:37-106 | in order: payment not found, already cancelled or refunded, wallet not found, each with the log unchanged; otherwise exactly one PaymentCancelled row with the current balance + amount is appended to the payer's stream, published, and the payment id returned |
| RefundPayment.RefundPaymentHandler.Execute | src/modules/payment/application/commands/refund-payment.handler.ts:37-106 | as cancel, with a PaymentRefunded row |
| PaymentScenarios.RefundOverUnchangedWallet | src/modules/payment/application/commands/refund-payment.handler.ts:66-74 | refunding a 1,000 payment of WAL-001 while its repository balance is still 10,000 succeeds and records 11,000 |
| PaymentScenarios.PayThenRefundTwice | src/modules/payment/application/commands/refund-payment.handler.ts:37-106 | pay 1,000, refund, refund again: the first two succeed, the refund records 11,000, the second refund is refused and the log has two rows |
| PaymentReadRepositoryImpl.Lookup | src/modules/payment/infrastructure/repositories/payment-read.repository.impl.ts:34-46 | nothing exactly when no row has the id; a found row is in the table and has the id |
| PaymentReadRepositoryImpl.LookupIsTheKeyedRow | src/modules/payment/infrastructure/repositories/payment-read.repository.impl.ts:34-46 | under the primary key, the lookup returns the one row with that id |
| PaymentReadRepositoryImpl.UpsertKeepsUniqueIds | src/modules/payment/infrastructure/repositories/payment-read.repository.impl.ts:91-109 | an upsert keeps at most one row per payment id |
| PaymentReadRepositoryImpl.UpsertLookup | src/modules/payment/infrastructure/repositories/payment-read.repository.impl.ts:91-109 | a new payment is stored as given; an existing one keeps every field but the status, which takes the new value; every other payment is untouched |
| PaymentReadRepositoryImpl.UpsertRowCount | src/modules/payment/infrastructure/repositories/payment-read.repository.impl.ts:91-109 | an upsert adds one row for a new payment id and none for an existing one |
| PaymentReadRepositoryImpl.UpsertIdempotent | src/modules/payment/infrastructure/repositories/payment-read.repository.impl.ts:91-109 | upserting the same row twice equals upserting it once |
| PaymentReadRepositoryImpl.StatusUpdateKeepsUniqueIds | src/modules/payment/infrastructure/repositories/payment-read.repository.impl.ts:111-120 | a status update keeps at most one row per payment id |
| PaymentReadRepositoryImpl.StatusUpdateLookup | src/modules/payment/infrastructure/repositories/payment-read.repository.impl.ts:111-115 | the keyed row, if any, gets the new status and keeps its other fields; no row is added; every other key is untouched |
| PaymentReadRepositoryImpl.StatusUpdateOfAbsentKey | src/modules/payment/infrastructure/repositories/payment-read.repository.impl.ts:111-115 | updating an absent payment changes nothing and inserts nothing |
| PaymentReadRepositoryImpl.StatusUpdateIdempotent | src/modules/payment/infrastructure/repositories/payment-read.repository.impl.ts:111-115 | setting the same status twice equals setting it once |
| PaymentReadRepositoryImpl.Matching | src/modules/payment/infrastructure/repositories/payment-read.repository.impl.ts:53-64 | keeps each row that passes every present, non-empty filter, as often as it occurs, and no other row |
| PaymentReadRepositoryImpl.MatchCountIsMatchingLength | src/modules/payment/infrastructure/repositories/payment-read.repository.impl.ts:66-71 | the count query counts exactly the rows the filter keeps |
| PaymentReadRepositoryImpl.InsertKeepsNewestFirst | src/modules/payment/infrastructure/repositories/payment-read.repository.impl.ts:80 | inserting a row into a newest-first sequence keeps it newest first |
| PaymentReadRepositoryImpl.ByNewest | src/modules/payment/infrastructure/repositories/payment-read.repository.impl.ts:80 | the ordering is a permutation of its input and is in descending `createdAt` order |
| PaymentReadRepositoryImpl.Window | src/modules/payment/infrastructure/repositories/payment-read.repository.impl.ts:74-83 | the page is the slice starting at the offset and at most `limit` long (empty past the end); it keeps the order |
| PaymentReadRepositoryImpl.FindAllOver | src/modules/payment/infrastructure/repositories/payment-read.repository.impl.ts:48-89 | `total` counts every matching row; `data` is exactly positions (page − 1)·limit up to (page − 1)·limit + limit − 1 of the matching rows ordered newest first, so consecutive pages hold consecutive positions; hence only matching rows of the table, newest first, at most `limit` of them, exactly as many as remain after the offset |
| PaymentReadRepositoryImpl.PagesCoverEveryMatch | src/modules/payment/infrastructure/repositories/payment-read.repository.impl.ts:73-83 | for a positive limit, every matching row appears on some page ≥ 1 |
| PaymentReadRepositoryImpl.PaymentReadRepository.FindById | src/modules/payment/infrastructure/repositories/payment-read.repository.impl.ts:34-46 | null exactly when no row has the id; otherwise the row keyed by it |
| PaymentReadRepositoryImpl.PaymentReadRepository.FindAll | src/modules/payment/infrastructure/repositories/payment-read.repository.impl.ts:48-89 | the `FindAllOver` answer for the current table, whose properties are in the row above |
| PaymentReadRepositoryImpl.PaymentReadRepository.Upsert | src/modules/payment/infrastructure/repositories/payment-read.repository.impl.ts:91-109 | the table becomes the upserted table and keeps its primary key |
| PaymentReadRepositoryImpl.PaymentReadRepository.UpdateStatus | src/modules/payment/infrastructure/repositories/payment-read.repository.impl.ts:111-120 | the table becomes the status-updated table and keeps its primary key |
| PaymentProcessedProjection.ProcessedReadRow | src/modules/payment/infrastructure/projections/payment-processed.handler.ts:61-70 | a new payment's row has the event's fields, status PROCESSED and `createdAt = occurredAt`; an existing row keeps its fields and is reset to PROCESSED, even from CANCELLED or REFUNDED; no other payment changes |
| PaymentProcessedProjection.ProcessedSnapshot | src/modules/payment/infrastructure/projections/payment-processed.handler.ts:73-78 | the payer's snapshot row, if one exists, gets the event's new balance; no row is created; other wallets keep theirs |
| PaymentProcessedProjection.ProcessedReplayIdempotent | src/modules/payment/infrastructure/projections/payment-processed.handler.ts:61-78 | handling the same event twice gives the state one handling gives |
| PaymentProcessedProjection.WalletsReadModel.SetBalance | src/modules/payment/infrastructure/projections/payment-processed.handler.ts:73-78 | only an existing wallet row changes, to the given balance and time |
| PaymentProcessedProjection.PaymentProcessedHandler.Handle | src/modules/payment/infrastructure/projections/payment-processed.handler.ts:50-95 | the payment row is upserted with status PROCESSED, the snapshot is set, and the primary key holds afterwards |
| CancelledProjection.CancelledReadRow | src/modules/payment/infrastructure/projections/payment-cancelled.handler.ts:31-34 | an existing row becomes CANCELLED and keeps its other fields; an unknown payment changes nothing; no other row changes |
| CancelledProjection.CancelledIdempotent | src/modules/payment/infrastructure/projections/payment-cancelled.handler.ts:31-34 | handling the event twice equals handling it once |
| CancelledProjection.PaymentCancelledProjection.Handle | src/modules/payment/infrastructure/projections/payment-cancelled.handler.ts:26-40 | only the payment's status is written; the class holds no wallet snapshot to touch |
| RefundedProjection.RefundedReadRow | src/modules/payment/infrastructure/projections/payment-refunded.handler.ts:31-34 | an existing row becomes REFUNDED and keeps its other fields; an unknown payment changes nothing; no other row changes |
| RefundedProjection.RefundedIdempotent | src/modules/payment/infrastructure/projections/payment-refunded.handler.ts:31-34 | handling the event twice equals handling it once |
| RefundedProjection.PaymentRefundedProjection.Handle | src/modules/payment/infrastructure/projections/payment-refunded.handler.ts:26-40 | only the payment's status is written |
| GetPaymentHistory.SliceFrom | src/modules/payment/application/queries/get-payment-history.handler.ts:45 | JavaScript `slice(start)`: a negative start keeps the last −start elements (or all), a non-negative one drops that many from the front |
| GetPaymentHistory.LastLimitElements | src/modules/payment/application/queries/get-payment-history.handler.ts:45 | `slice(-limit)` keeps the last min(limit, n) elements for limit ≥ 1, and all of them for limit 0 |
| GetPaymentHistory.History | src/modules/payment/application/queries/get-payment-history.handler.ts:45-55 | as many items as `slice(-limit)` keeps, item k built from the matching event at the end of the stream, in stream order |
| GetPaymentHistory.GetPaymentHistoryHandler.Execute | src/modules/payment/application/queries/get-payment-history.handler.ts:38-56 | the history of the wallet's own stream only; every item comes from an event of that wallet; the items carry the last versions up to n, ascending; nothing is written |
| ListPayments.CeilDiv | src/modules/payment/application/queries/list-payments.handler.ts:54 | `Math.ceil(n / d)`: k·d ≥ n, and (k − 1)·d < n unless k = 0 |
| ListPayments.CeilDivIsLeast | src/modules/payment/application/queries/list-payments.handler.ts:54 | no smaller page count covers `total` |
| ListPayments.OffsetOfValidPage | src/modules/payment/application/queries/list-payments.handler.ts:41-46 | a page ≥ 1 with a limit ≥ 1 gives a non-negative offset |
| ListPayments.ListPaymentsHandler.Execute | src/modules/payment/application/queries/list-payments.handler.ts:36-57 | data and total are exactly `findAll`'s answer for the query's own filters and page; page and limit are echoed; `totalPages` is the least page count that holds `total` |
| DisbursementEntity.ValidationError | src/modules/disbursement/domain/entities/disbursement.entity.ts:30-50 | no error exactly when 100 ≤ amount ≤ 50,000, the currency is USD or PEN and the account is twenty ASCII digits; otherwise the message of the first broken rule, in the order minimum, maximum, currency, account |
| DisbursementEntity.AmountBoundaries | src/modules/disbursement/domain/entities/disbursement.entity.ts:32-39 | 100 and 50,000 pass the amount rules; 99 and 50,001 fail with the minimum and maximum messages |
| DisbursementEntity.Disbursement.constructor | src/modules/disbursement/domain/entities/disbursement.entity.ts:20-27 | a new disbursement holds the props, is PENDING and has no id |
| DisbursementEntity.Disbursement.Create | src/modules/disbursement/domain/entities/disbursement.entity.ts:30-54 | fails with the first broken rule's message, or returns a fresh PENDING disbursement holding the props |
| DisbursementEntity.Disbursement.Approve | src/modules/disbursement/domain/entities/disbursement.entity.ts:57-63 | PENDING becomes APPROVED; any other status is refused and kept; nothing else changes |
| DisbursementEntity.Disbursement.Reject | src/modules/disbursement/domain/entities/disbursement.entity.ts:65-74 | a non-PENDING status is refused before the reason is looked at; a blank or whitespace-only reason is refused; both keep the status; otherwise it becomes REJECTED |
| DisbursementEntity.Disbursement.SetId | src/modules/disbursement/domain/entities/disbursement.entity.ts:78 | sets the id and nothing else |
| DisbursementEntity.ApproveTwice | src/modules/disbursement/domain/entities/disbursement.entity.ts:57-74 | created PENDING, approved once; a second approve and a later reject are refused and the status stays APPROVED |
| DisbursementEntity.RejectNeedsReason | src/modules/disbursement/domain/entities/disbursement.entity.ts:65-74 | a whitespace reason is refused and keeps PENDING; a real reason then rejects |
| CreateDisbursement.CreateDisbursementUseCase.Execute | src/modules/disbursement/application/use-cases/create-disbursement.use-case.ts:24-50 | a validation failure returns its error and consults and saves nothing; compliance is asked about exactly the recipient account; a non-clean answer gives "Compliance: " + reason and saves nothing; otherwise the PENDING record is saved and the result is ok(id), or the save-failure message; success exactly when all three steps pass |
| ReadSideScenarios.CancelBeforeProcessedEndsProcessed | src/modules/payment/infrastructure/projections/payment-cancelled.handler.ts:31-34 | a cancellation delivered before its PaymentProcessed event finds no row, so the payment ends up PROCESSED |
| ReadSideScenarios.ProjectPayThenCancel | src/modules/payment/infrastructure/projections/payment-processed.handler.ts:61-78 | processed then cancelled: the row reads CANCELLED, the snapshot stays at 9,000, and listing the wallet gives one row on one page |

## Left out

**Database and infrastructure**
- Database plumbing: the `pg` pool, `ensureTable`, the SQL text and its parameter numbering, JSON serialisation, and `mapRow`'s `parseFloat`. Tables are sequences and maps; amounts are integers.
- Logging throughout.
- Database errors are not modelled: unavailability, a unique-violation on a racing append, and the rejection of a negative `LIMIT` or `OFFSET`. So `FindAllOver` and `PaymentReadRepository.FindAll` require a limit ≥ 0 and an offset ≥ 0.

**Concurrency and delivery**
- Concurrency: `append`'s read-the-largest-version-then-insert race cannot happen in a sequential model. Version uniqueness is a class invariant instead, and there is no retry loop because the code has none.
- PaymentProcessedProjection.PaymentProcessedHandler.Handle: it is modelled as two writes that cannot fail. Not modelled:
  - the `BEGIN`/`COMMIT`/`ROLLBACK` handling and the rethrow;
  - that the upsert goes through the repository's own pool rather than the transaction's client, so a rollback would not undo it.
- The event bus is left out: publication is a returned value, and the order projections run in is the caller's.

**Ids and time**
- `crypto.randomUUID()`, `new Date()` and `NOW()` are parameters.
- A fresh payment id is not required. `ProcessPayment.ProcessPaymentHandler.Execute` states that the new row becomes the payment's original event only when the id is new.
- EventStoreRepository.EventStore.FindEventByPaymentId: the query has `LIMIT 1` without `ORDER BY`. The model returns the earliest matching row. The contract promises only "some PaymentProcessed row with this payment id", but the handlers' outcome is stated against that earliest row.

**Queries**
- ListPayments.ListPaymentsHandler.Execute: requires page ≥ 1 and limit ≥ 1, as the HTTP DTO guarantees. A zero limit would give `Infinity` pages in JavaScript and is not modelled.
- GetPaymentHistory.GetPaymentHistoryHandler.Execute: the limit is an integer. A `NaN` limit from a malformed query string is not modelled.
- PaymentReadRepositoryImpl.FindAllOver: rows with equal `createdAt` may come back in any order from the database. The model fixes one newest-first order of the matching rows and defines each page as a window of positions in it; which of several rows with equal `createdAt` comes first is the model's choice, not the database's.
- Default query arguments are not modelled: `ListPaymentsQuery`'s page 1 and limit 20 (src/modules/payment/application/queries/list-payments.query.ts:13-14), `GetPaymentHistoryQuery`'s limit 10 (src/modules/payment/application/queries/get-payment-history.query.ts:10) and the controller's `limit ? parseInt(limit) : 10` (src/modules/payment/presentation/controllers/payment.controller.ts:140). Page and limit are always explicit inputs.

**Collaborators and data**
- `save` throwing is modelled as `save` returning no id. The compliance service is a pure function of the account.
- The initial contents of `wallets_read_model` are a constructor parameter: no core code inserts into that table.
- Disbursement status COMPLETED exists as a value, but no code moves a disbursement into it.
- `getId`/`getStatus` and the other getters are the class fields and `Props()`/`Record()`.

**Files outside the core**
- The HTTP controllers and DTOs, including the reason-length check that lives only in the DTOs.
- Module wiring.
- `get-payment-by-id.handler.ts` and `get-disbursement-summary.handler.ts`, a SQL aggregate over timestamps.
- The disbursement repository, an insert plus a stub `findById`.
- The compliance stub.
- `create-disbursement.handler.ts`, which only delegates.
- `1-spaghetti-code.ts`, an Express demo, is not part of this model.
