# Verified model of the capacity reservation service

The service keeps, for every credit program, a limit and a reserved amount in minor units.
API calls reserve and release capacity for invoices; treasury messages from Kafka change the
limit or replace the whole reservation table by a snapshot. Four transactions write the same
program row, and the row must agree with the reservation rows, with an append-only ledger and
with a status flag, while transactions interleave and messages are delivered more than once.

The project models that state machine in Dafny and proves what it keeps. `dafny verify
dfyconfig.toml` checks all of it.

## How the model is built

| module | what it holds |
|---|---|
| `Tables`, `Messages` | rows, CHECK constraints and column ranges; requests, parsed messages |
| `Money`, `MoneyLaws` | conversion of minor units through decimal.js with 20 significant digits, and its laws |
| `Programs`, `Snapshot`, `Transactions` | the statements on a program row, the two snapshot loops, and the four transactions as functions: the specification |
| `Database`, `ReservationsService`, `TreasuryHandlers`, `TreasuryConsumer` | classes that follow the source statement by statement, proved against those functions |
| `ApiEffects`, `TreasuryEffects` | what each transaction does column by column, and exactly when it fails, in terms of its input and the tables before |
| `Sums`, `Accounts`, `Runs` | what one transaction keeps, and what holds after every run of transactions |
| `Convergence`, `NewPrograms`, `Currencies`, `Responses`, `NegativeAmounts` | out-of-order delivery, the currency check, laws between calls, and a run that breaks the balance |
| `Interleaving`, `Serializability`, `Deadlocks` | transactions cut into lock, read and write steps at READ COMMITTED; each commit equals the transaction run alone; exactly when transactions deadlock |
| `Alone`, `InterleavedRuns` | a transaction with nobody beside it; what holds after every run, carried over to interleavings |
| `Guards` | what a create knows at its guarded UPDATE, in every interleaving |
| `ExactlyOnce`, `ConsumerGroup` | racing consumers; crashes, rebalances, lost acknowledgements and redelivery over the interleaved transactions |

A program stands for its unique external reference, a reservation for its unique (program,
invoice) pair. `Account` is a program row with its reservations and ledger entries. A
transaction commits or aborts; whatever the source throws is an abort and leaves the state
as it was. A JSON number is `Whole(n)` or `Fraction`, because `BigInt(x)` throws on a
fraction. BIGINT, SMALLINT and CHAR(3) ranges, CHECKs and unique indexes are abort conditions, and so is
`bigIntToSafeNumber` on a response.

In `Interleaving` a statement reads the last committed rows; row locks and the keys of rows
inserted into a unique index are held to the end of the transaction; any transaction may be
killed at any step. Its writes are statements on the row as it is at that moment, not a copy of
the atomic result, so that equality with the atomic transaction is a theorem
(`Serializability.Serializable`). The one assumption about Kafka is that an offset of a
partition always holds the same message (`Log`).

## What turned out differently from the documentation

- README.md:272 of the repository says that every item of a snapshot must match the program
  currency. The handler compares with the currency of the message
  (src/treasury/treasury-reconciliation.handler.ts:128-130), so a snapshot in another currency
  is applied and changes the program's currency. `Currencies` gives the exact condition, an
  example, and what happens to the stored currencies of the rows.
- A snapshot item for a RELEASED reservation does not reopen it, but its amount stays in the
  program's reserved amount. So the aggregate is the sum of the ACTIVE rows plus a remainder
  (`Accounts.Phantom`), which only an applied snapshot or a clamped release moves.
- Snapshot amounts are only checked to be finite. A negative amount on a RELEASED row is never
  written, so no CHECK refuses it, and it can make the remainder negative; `Runs.AggregateCoversIff`
  says exactly when. Then a release can reach the `GREATEST(..., 0)` clamp and the ledger no
  longer explains the aggregate.
  `NegativeAmounts.NegativeAmountUnbalances` is such a run; `Runs.LedgerConservation` says
  for all runs that the difference is exactly what the clamp withheld.
- A release is refused when the capacity it would report is not a safe integer, so a
  reservation can be created that cannot be released as things stand
  (`Responses.ReleaseUndoesCreate` and its example `Responses.UnreleasableReservation`).
- A reconciliation that contradicts itself (status CONFLICT) for an unknown program still
  creates that program, with the limit and the version of the message. For such programs the
  order of delivery can matter: exactly when the newest message contradicts itself and is not
  the only one (`NewPrograms.OrderIrrelevantIff`).

## Model

| member | source | states |
|---|---|---|
| Serializability.Serializable | src/reservations/reservations.service.ts:49-321 | In every interleaving of the four transactions, with arbitrary aborts, the committed state is the one the committed transactions reach run one after another, each alone, in the order of their commits. |
| Serializability.CommitIsAtomic | src/programs/program.repository.ts:52-126 | A commit changes the tables as the whole transaction would, run alone on the state committed just before it; a delivery that commits does not abort when run alone. |
| Serializability.CommitOfDelivery | src/treasury/processed-kafka-message.repository.ts:70-78 | When ON CONFLICT finds the offset already recorded by a racing consumer, what is left to commit equals handling the message again: nothing. |
| Serializability.CommitRespects | src/programs/program.repository.ts:58-72 | A commit changes no row and takes no unique key that another open transaction holds locked. |
| Serializability.LocalIsCurrent | src/treasury/treasury-reconciliation.handler.ts:72-302 | What a handler works out from the rows it read under the program lock is what it would work out from the current ones: same verdict, run, rows, ledger entry and program. |
| Serializability.StepKeepsSys | src/reservations/reservations.service.ts:53-56 | Every step of every transaction keeps locks exclusive and keeps true what each open transaction has read under its locks. |
| ExactlyOnce.AtMostOnce | src/treasury/treasury-reconciliation.handler.ts:34-126 | Two commits of one message id, at whatever offsets, payloads or programs and however they race: the second changes no table. |
| ExactlyOnce.InterleavedExactlyOnce | src/treasury/treasury-capacity-update.handler.ts:37-113 | Under every interleaving the tables end as in the serial run from which repeated messages are erased. |
| ConsumerGroup.ExactlyOnceEffect | src/treasury/treasury.consumer.ts:69-160 | Over the interleaved transactions, with consumers that have positions of their own, crash, race for a partition, retry, lose acknowledgements, commit absolute offsets late, and with rewinds and API traffic: the tables are those of the serial run with repeats erased, every message below a committed offset is unreadable, recorded by offset or recorded by message id, and from a clean start the invariant of all tables holds. |
| ConsumerGroup.GroupConverges | src/treasury/treasury-capacity-update.handler.ts:97-127 | In every such run from a clean start, when the committed messages for an existing program are well-formed, its limit, currency, exponent and treasury version are those of the consistent message with the greatest version, or the old ones if none is newer. |
| ConsumerGroup.GroupsAgree | src/treasury/treasury-reconciliation.handler.ts:89-172 | Two such runs that deliver the same consistent messages with distinct versions, in any order and at any offsets, configure the program the same. |
| ConsumerGroup.CommitIsHandleMessage | src/treasury/treasury.consumer.ts:99-117 | When the transaction a consumer waits for commits, the tables are those HandleMessage leaves, and the committed offsets have not moved yet. |
| ConsumerGroup.RestartHandlesCommitted | src/treasury/treasury.consumer.ts:48-63 | A consumer that starts again begins with the message at the committed offset. |
| ExactlyOnce.OnceIsOnce | src/treasury/treasury.consumer.ts:98-117 | The erased run delivers no message id twice. |
| InterleavedRuns.InterleavedKept | src/treasury/treasury-reconciliation.handler.ts:72-309 | The invariant of all tables holds under every interleaving, and the balance of the aggregates when every applied snapshot covers its rows. |
| InterleavedRuns.InterleavedLedger | src/programs/program.repository.ts:105-126 | Under every interleaving reserved is the ledger's account of it plus all that the release clamp withheld. |
| InterleavedRuns.InterleavedLimit | src/treasury/treasury-capacity-update.handler.ts:76-142 | Under every interleaving the limit of a program created on the way is what its ledger and the message that created it explain. |
| InterleavedRuns.InterleavedOverrun | src/programs/program.repository.ts:80-99 | Between two moments of an interleaving without the commit of a delivery, the amount by which a program exceeds its limit does not grow. |
| InterleavedRuns.InterleavedFaithful | src/reservations/reservations.service.ts:98-150 | Under every interleaving an API row not yet rewritten recomputes from its stored columns. |
| InterleavedRuns.ReleaseIsFinalInterleaved | src/treasury/treasury-reconciliation.handler.ts:214-252 | Between any two moments of an interleaving a RELEASED row does not change. |
| Guards.GuardTestsCapacity | src/programs/program.repository.ts:80-99 | In every interleaving, when a create comes to its UPDATE the program row is the one it read under the lock, is ACTIVE and within its limit, and the guard fails exactly when the available capacity is below the amount. |
| Guards.FailedGuardMeansCapacity | src/reservations/reservations.service.ts:180-212 | In every interleaving, when the UPDATE matched no row, the second read finds the program ACTIVE with less capacity than asked for; the report is INSUFFICIENT_CAPACITY, or a RangeError when an amount in it is not a safe integer, as for the create run alone. |
| Deadlocks.DeadlockIff | src/treasury/treasury-reconciliation.handler.ts:72-178 | In every reachable state of all four transactions, some wait for each other in a circle iff a release that holds an ACTIVE reservation and waits for its program meets a reconciliation that holds that program and goes on to lock its reservations. |
| Deadlocks.LocksRowsIff | src/treasury/treasury-reconciliation.handler.ts:102-178 | A reconciliation locks reservations iff it is not stale, its amounts are whole and it does not contradict itself. |
| Deadlocks.NoCycle | src/reservations/reservations.service.ts:259-293 | Among creates and releases no chain of waiting transactions returns to its start, and none is longer than three. |
| Deadlocks.SomeoneCanStep | README.md:314-317 | Unless a release and a reconciliation are opposed in that way, some unfinished transaction can step; so it always can among creates, releases, capacity updates, and stale, conflicting or repeated messages. |
| Deadlocks.ReleaseAndReconciliationCanDeadlock | src/treasury/treasury-reconciliation.handler.ts:72-178 | The opposition does occur: for every reconciliation that will be applied and every ACTIVE row of its program there is a schedule that leads to it. |
| Alone.CommitsIffAtomic | src/database/transaction-manager.ts:9-11 | Given ten turns with nobody beside it, every transaction ends, with the state of the transaction run as a whole, and commits iff that commits: no step aborts or waits without need. |
| Runs.Reachable | prisma/migrations/20260705000000_init/migration.sql:125-169 | After every run of transactions the CHECKs, the exact status, the release bookkeeping, the unique indexes and the agreement of runs and processed messages hold. |
| Runs.StatusIsExact | src/programs/program.repository.ts:80-126 | In every reachable state status is OVER_LIMIT iff reserved exceeds the limit, and ACTIVE otherwise. |
| Runs.AggregateAgrees | src/treasury/treasury-reconciliation.handler.ts:190-302 | If in every applied snapshot the amounts on RELEASED rows and those overwritten sum to at least zero, each program's reserved amount is at least the sum of its ACTIVE rows and equals the ledger's account of it. |
| Runs.AggregateCoversIff | src/treasury/treasury-reconciliation.handler.ts:190-302 | That condition is exact: the aggregates cover the ACTIVE rows after every prefix of a run iff it holds of every snapshot applied in the run, repeated invoices included. |
| Runs.NonNegativeCovers | src/treasury/treasury-message.schemas.ts:88-91 | Non-negative snapshot amounts are enough for that condition. |
| Runs.PhantomMoves | src/treasury/treasury-reconciliation.handler.ts:214-302 | The part of the reserved amount outside the ACTIVE rows: an applied snapshot sets it to the amounts on RELEASED rows plus those overwritten by a later item of the same invoice (none when invoices are distinct); any other transaction leaves it, except that a release adds what its clamp withheld. |
| Accounts.SnapshotPhantom | src/treasury/treasury-reconciliation.handler.ts:131-134 | What a snapshot leaves outside the ACTIVE rows is exactly the amounts on RELEASED rows plus those overwritten by a later item; the second part is never negative, and zero when invoices are distinct. |
| Runs.LedgerConservation | src/programs/program.repository.ts:105-126 | Over every run, whatever the messages contain, reserved equals the fold of the RESERVATION_CREATED, RESERVATION_RELEASED and TREASURY_RECONCILIATION_APPLIED amounts plus all that the release clamp withheld; so the two agree iff the clamp never took effect. |
| Accounts.ClampIdle | src/programs/program.repository.ts:112 | While the aggregate covers the ACTIVE rows the clamp withholds nothing. |
| NegativeAmounts.NegativeAmountUnbalances | src/treasury/treasury-message.schemas.ts:88-91 | A concrete run from a clean state, with a negative amount on a RELEASED row, ends with reserved 0 and a ledger fold of -4. |
| Runs.LimitIsExplained | src/treasury/treasury-capacity-update.handler.ts:76-142 | For a program created during the run, the limit is its PROGRAM_CREATED and TREASURY_UPDATE_APPLIED amounts plus its reconciliations' limit differences, plus the first message's limit when a reconciliation created it. |
| Runs.RunsAreProcessedReconciliations | src/treasury/reconciliation.repository.ts:20-39 | In every reachable state the message ids with a run are exactly those processed as PROGRAM_RECONCILIATION, whatever the verdict. |
| Runs.ReleaseIsFinal | src/treasury/treasury-reconciliation.handler.ts:214-252 | No run of transactions changes a RELEASED row. |
| Runs.ReleasedExactlyOnce | src/reservations/reservations.service.ts:295-313 | A row is RELEASED iff the ledger has a RESERVATION_RELEASED entry for it, and then exactly one, of minus its reserved amount. |
| Runs.ApiCannotOverrun | src/programs/program.repository.ts:80-99 | Creates and releases never increase the amount by which a program exceeds its limit. |
| Runs.CreateFailures | src/reservations/reservations.service.ts:63-71 | For a create run alone in a reachable state: PROGRAM_NOT_ACTIVE is never reported, and PROGRAM_OVER_LIMIT is reported iff reserved exceeds the limit. |
| Runs.FxSnapshotIsFaithful | src/reservations/reservations.service.ts:98-150 | Until a reconciliation rewrites it, an API row's reserved amount is the conversion recomputed from its stored amount, exponents and rate, or the invoice amount itself for IDENTITY rows. |
| Snapshot.SnapshotMeaning | src/treasury/treasury-reconciliation.handler.ts:174-252 | For distinct invoices the rows afterwards: ACTIVE are exactly the listed invoices not RELEASED before, with the snapshot amounts; every other ACTIVE row is RECONCILED by this message; no other row changes. |
| TreasuryEffects.ListedColumns | src/treasury/treasury-reconciliation.handler.ts:190-240 | Every column of a listed row that was not RELEASED, also with repeated invoices: the last item's amount and currency and the exponent the program had when read; the rate, its source, the row's source, reconciliation id and program columns stay in an old row, and are rate one, TREASURY_RECONCILIATION, this message and the program as read in a new one. |
| TreasuryEffects.UnlistedColumns | src/treasury/treasury-reconciliation.handler.ts:214-252 | Every other row: an ACTIVE one becomes RECONCILED with this message's id, and nothing else changes. |
| TreasuryEffects.VerdictIff | src/treasury/treasury-reconciliation.handler.ts:89-172 | A handled message is stale iff the program has a version at least as new, and otherwise is applied iff every item is in the message's currency and the items sum to what it declares; else it is ignored. |
| TreasuryEffects.VerdictOnUnknown | src/treasury/treasury-reconciliation.handler.ts:77-172 | The same for an unknown program, where nothing is stale. |
| TreasuryEffects.ReconciliationHandledIff | src/treasury/treasury-reconciliation.handler.ts:64-310 | Exactly when the handler does not throw: whole numbers in range, and, for a message that is applied, amounts and currencies that fit and no new invoice listed twice. |
| TreasuryEffects.UnknownHandledIff | src/treasury/treasury-reconciliation.handler.ts:64-310 | The same for an unknown program. |
| TreasuryEffects.ReconciliationBooks | src/treasury/treasury-reconciliation.handler.ts:254-302 | An applied message sets limit, currency, exponent, version and status, and reserved to what it declares; it books one entry, in the currency the program has afterwards and naming the message, iff limit or reserved moved. Any other verdict leaves program, rows and ledger alone. |
| TreasuryEffects.ReconciliationCreates | src/treasury/treasury-reconciliation.handler.ts:77-87 | What a reconciliation leaves of a program it creates, whether it is applied or contradicts itself. |
| TreasuryEffects.AppliedRunColumns | src/treasury/treasury-reconciliation.handler.ts:259-278 | Every column of the run of an applied message: its limit and sum, the account before, the differences to the account after, and each count as the number of items or rows it stands for. |
| TreasuryEffects.SkippedRunColumns | src/treasury/treasury-reconciliation.handler.ts:102-157 | Every column of the run of a message without effect; the reason is a currency mismatch iff some item's currency differs from the message's. |
| TreasuryEffects.UpdateBooks | src/treasury/treasury-capacity-update.handler.ts:96-143 | A capacity update is stale iff the program has a version at least as new; otherwise it sets limit, currency, exponent, version and status, keeps reserved and the rows, and books the difference iff there is one, in the new currency and naming the message. |
| TreasuryEffects.UpdateCreates | src/treasury/treasury-capacity-update.handler.ts:76-95 | A capacity update for an unknown program is handled iff its values fit, and leaves exactly that program and its PROGRAM_CREATED entry. |
| TreasuryEffects.UpdateHandledIff | src/treasury/treasury-capacity-update.handler.ts:96-143 | For a program that exists it is handled iff it is stale or its values fit. |
| TreasuryEffects.DeliveryAnswers | src/treasury/treasury-reconciliation.handler.ts:34-62 | A recorded offset is a duplicate; a message id recorded at another offset is ignored iff a recorded row for it has another hash, and a duplicate otherwise; an unseen message is handled, and then recorded with its offset, id, type, program and hash, and its run stored. |
| Snapshot.WriteItemsSucceeds | prisma/migrations/20260705000000_init/migration.sql:167-169 | The first loop succeeds iff every item that is written has a positive BIGINT amount and a currency that fits CHAR(3), and no invoice without a row is listed twice. |
| Snapshot.CountsAddUp | src/treasury/treasury-reconciliation.handler.ts:186-240 | insertedCount + updatedCount + conflictCount is the length of the snapshot. |
| Sums.SnapshotSum | src/treasury/treasury-reconciliation.handler.ts:131-134 | The ACTIVE rows after a snapshot sum to its total less the amounts on RELEASED rows and the overwritten ones. |
| Accounts.SnapshotKeeps | src/treasury/treasury-reconciliation.handler.ts:174-302 | An applied snapshot keeps the account invariant, and leaves the ledger's account of reserved and of the limit as far off as it was. |
| Accounts.ReleaseKeeps | src/reservations/reservations.service.ts:255-321 | A release keeps the invariant; the remainder outside the rows and the gap to the ledger both grow by exactly what the clamp withheld. |
| Accounts.CreateKeeps | src/reservations/reservations.service.ts:124-159 | A create keeps the invariant, the remainder outside the rows, and the gaps to the ledger. |
| Accounts.CapacityKeeps | src/treasury/treasury-capacity-update.handler.ts:96-143 | A capacity update keeps the invariant, the rows, the remainder and the gaps to the ledger. |
| Convergence.OrderDoesNotMatter | src/treasury/treasury-capacity-update.handler.ts:97-127 | Two delivery orders of the same well-formed messages with distinct versions, among any API traffic and messages to other programs, end with the same limit, currency, exponent and treasury version of a program. |
| Convergence.GreatestWins | src/treasury/treasury-reconciliation.handler.ts:89-172 | They are those of the consistent message with the greatest version, or the old ones if none is newer. |
| Convergence.MessageEffect | src/treasury/treasury-reconciliation.handler.ts:89-172 | A well-formed message is never rejected; it sets what it asks for iff it is newer and does not contradict itself, and otherwise leaves it. |
| Convergence.CapacityHandledIff | src/treasury/treasury-capacity-update.handler.ts:96-143 | A capacity update for a program that exists is handled iff it is stale or well-formed; a fraction, a value out of range or a currency longer than CHAR(3) aborts. |
| NewPrograms.ConsistentNewestWins | src/treasury/treasury-capacity-update.handler.ts:76-127 | For a program that does not exist yet, if the message with the greatest version is consistent, every order ends with what it asks for. |
| NewPrograms.ContradictoryNewestWinsIff | src/treasury/treasury-reconciliation.handler.ts:77-172 | If that message contradicts itself, the program ends with what it asks for iff it is the first to arrive. |
| NewPrograms.OrderIrrelevantIff | src/treasury/treasury-reconciliation.handler.ts:77-172 | Every order of the same operations ends with the same configuration iff the newest message is consistent or is the only one for the program. |
| NewPrograms.FirstOrLastDiffer | src/treasury/treasury-reconciliation.handler.ts:77-172 | A contradictory newest message delivered before all others and the same one delivered after them lead to different configurations, if there is another for the program. |
| NewPrograms.OrderDecides | src/treasury/treasury-reconciliation.handler.ts:77-172 | Two messages for which the order decides the limit: 100 or 50. |
| NewPrograms.FirstThenGreatest | src/treasury/treasury-reconciliation.handler.ts:72-95 | The first message creates the program as it asks, consistent or not, and from there on the greatest version wins. |
| Currencies.AppliedInProgramCurrencyIff | README.md:271-275 | The items of an applied snapshot are in the program's currency iff there are none or the message is in that currency. |
| Currencies.ForeignSnapshotIsApplied | src/treasury/treasury-reconciliation.handler.ts:128-130 | A EUR snapshot is applied to a USD program, and its new row still records USD as the program currency. |
| Currencies.SnapshotCurrencies | src/treasury/treasury-reconciliation.handler.ts:194-240 | After a snapshot a listed row's invoice currency is the program's; an old row keeps its stored program currency, and a new row's is the program's current one iff the message did not change it. |
| Responses.ReleaseIsIdempotent | src/reservations/reservations.service.ts:271-278 | Releasing again changes nothing and answers the same. |
| Responses.ReleaseUndoesCreate | src/reservations/reservations.service.ts:288-321 | Releasing a reservation just created succeeds iff the capacity before it was a safe integer; it then restores the program but for its version, the ledger's account of reserved, and every other row. |
| Responses.UnreleasableReservation | src/reservations/reservations.service.ts:315-319 | One create from a clean start after which the release is refused: limit 2^53 + 2, amount 10. |
| MoneyLaws.ConvertErrorBound | src/fx/money.ts:3-20 | For every amount of at most 20 significant digits the result differs from the exact value E by at most 1/2 + E/(2*10^19). |
| MoneyLaws.ConvertErrorBoundAll | src/fx/money.ts:3-20 | For every amount it differs by at most 1/2 + 2u*E + u^2*E with u = 1/(2*10^19): the cost of two roundings to 20 digits. |
| MoneyLaws.LongAmountExceedsBound | src/fx/money.ts:3-20 | An amount of 21 significant digits for which the first bound fails. |
| MoneyLaws.ConvertExactlyHalfUp | src/fx/money.ts:14-17 | When amount * rate has at most 20 digits the result is E rounded half up. |
| MoneyLaws.SafeConversionError | src/fx/money.ts:5-32 | A result that passes bigIntToSafeNumber is within 1/2 + 1/1000 of E. |
| MoneyLaws.ConvertMonotoneInAmount | src/fx/money.ts:5-20 | Through both roundings and across digit counts, a larger amount never converts to less. |
| MoneyLaws.ConvertMonotoneInRate | src/fx/money.ts:5-20 | A higher rate never converts to less. |
| MoneyLaws.ConvertIdentity | src/fx/money.ts:11-17 | At rate 1 and equal exponents every amount converts to its first 20 significant digits, and so a safe integer to itself. |
| MoneyLaws.WidenThenNarrow | src/fx/money.ts:11-17 | Widening the exponent at rate 1 and narrowing it back returns every amount rounded to 20 significant digits, and so amounts that have no more unchanged. |
| MoneyLaws.SignificantError | src/fx/money.ts:3 | Rounding to 20 significant digits moves a number by at most one part in 2*10^19. |
| MoneyLaws.SignificantIsNearest | src/fx/money.ts:3 | It keeps the nearest multiple of the unit of the twentieth digit, the upper one on a tie. |
| MoneyLaws.SignificantMonotone | src/fx/money.ts:3 | Rounding to 20 significant digits is monotone, also where the number of digits changes. |
| Money.HalfUp | src/fx/money.ts:17 | The result is the integer nearest to n/d, the upper one on a tie. |
| Money.Excess | src/fx/money.ts:3 | The number of decimal digits beyond twenty. |
| ApiEffects.CreateStoresRow | src/reservations/reservations.service.ts:94-150 | Every column of a created row from the request, the exponents and rate looked up and the program: for the program's own currency the amount itself at rate one, otherwise the conversion of the request's amount between the two exponents at the rate looked up. |
| ApiEffects.CreateConverts | src/reservations/reservations.service.ts:109-122 | In another currency the reserved amount is within 1/2 + 1/1000 of the exact conversion of the request. |
| ApiEffects.CreateBooks | src/reservations/reservations.service.ts:124-175 | A create adds the row's amount to reserved, within the limit, changes nothing else of the program but its version, and books one entry with the invoice, the amount and the program's currency; the answer plus reserved is the limit. |
| ApiEffects.CreateRefusedIff | src/reservations/reservations.service.ts:63-116 | Exactly when a create is refused before it comes to the capacity, and with which error. |
| ApiEffects.CreateSucceedsIff | src/reservations/reservations.service.ts:124-175 | Otherwise it succeeds iff the converted amount is positive and within the available capacity, the currency fits its column, and the amount, the converted amount and the capacity left are safe integers. |
| ApiEffects.CreateLacksCapacityIff | src/reservations/reservations.service.ts:201-211 | It fails with INSUFFICIENT_CAPACITY iff the converted amount exceeds the available capacity and both are safe integers. |
| ApiEffects.CreateViolatesIff | prisma/migrations/20260705000000_init/migration.sql:163-169 | It violates a constraint iff the converted amount is no BIGINT, or fits the capacity while amount, converted amount or currency does not fit its column; every other failure is a number that is no safe integer. |
| ApiEffects.CreateFindsProgram | src/reservations/reservations.service.ts:53-61 | PROGRAM_NOT_FOUND is reported iff the program does not exist. |
| ApiEffects.ReleaseBooks | src/reservations/reservations.service.ts:295-313 | A release of an ACTIVE row changes only the row's status, takes its amount from reserved down to zero, sets the status, and books one entry of minus the amount with the invoice and the row's program currency. |
| ApiEffects.ReleaseAnswersCapacity | src/reservations/reservations.service.ts:214-218 | Every release that succeeds answers 0 over the limit, and otherwise the number that with reserved makes the limit. |
| ApiEffects.ReleaseRefusedIff | src/reservations/reservations.service.ts:259-286 | RESERVATION_NOT_FOUND iff there is no row, RECONCILIATION_CONFLICT iff it is RECONCILED; any other release succeeds iff the amount and the capacity left are safe integers. |
| ApiEffects.ReleaseFindsReservation | src/reservations/reservations.service.ts:259-269 | RESERVATION_NOT_FOUND is reported iff no program has the row. |
| ReservationsService.Service.Create | src/reservations/reservations.service.ts:43-178 | The method leaves the state of the create run alone, and returns its available capacity or its error; what that is, ApiEffects states. |
| ReservationsService.Service.Release | src/reservations/reservations.service.ts:249-321 | The method leaves the state of the release run alone, and returns its available capacity or its error. |
| TreasuryHandlers.CapacityUpdateHandler.Handle | src/treasury/treasury-capacity-update.handler.ts:32-152 | The handler ends with the state and verdict of the specification, or throws exactly when that aborts. |
| TreasuryHandlers.ReconciliationHandler.Handle | src/treasury/treasury-reconciliation.handler.ts:29-311 | The handler ends with the state and verdict of the specification, or throws exactly when that aborts. |
| TreasuryHandlers.ReconciliationHandler.WriteSnapshot | src/treasury/treasury-reconciliation.handler.ts:190-240 | The first loop writes the rows and counts of the specification, or fails exactly when a statement violates a constraint. |
| TreasuryHandlers.ReconciliationHandler.MarkMissing | src/treasury/treasury-reconciliation.handler.ts:242-252 | The second loop marks exactly the rows that were ACTIVE before and are not listed, in whatever order they were read, and counts them. |
| TreasuryHandlers.ReconciliationHandler.Finish | src/treasury/treasury-reconciliation.handler.ts:254-310 | The run, the ledger entry when something differs, the new aggregate and the processed row. |
| TreasuryConsumer.Consumer.HandleMessage | src/treasury/treasury.consumer.ts:69-160 | The offset advances iff the message was unreadable or its transaction committed, and the broker answered; the tables are those after the transaction even when the offset is not committed. |
| Database.Store.FindAllReservations | src/reservations/reservation.repository.ts:118-134 | Every row of the program is listed once. |
| Database.Store.ReserveCapacity | src/programs/program.repository.ts:80-99 | The guarded UPDATE: one row or none, out of range as an error, and no other change. |
| Database.Store.InsertReservation | src/reservations/reservation.repository.ts:57-80 | The row is inserted iff its unique key is free and its CHECKs hold; otherwise nothing changes. |
| Database.Store.MarkProcessed | src/treasury/processed-kafka-message.repository.ts:70-78 | A recorded offset is left alone, a recorded message id at a new offset is an error, and otherwise the row is added. |

## Left out

- HTTP controllers, DTO validation, authentication, configuration, health checks, logging and error-to-HTTP mapping: no capacity state.
- `parseTreasuryEvent`: messages are parsed events or `Invalid`.
- SHA-256: the payload hash is an opaque string, and no property needs it to be free of collisions.
- UUIDs and timestamps: rows are identified by their unique business keys; `occurred_at`, `reconciled_at`, `released_at` and `fx_rate_valid_at` are not stored.
- A reservation id that is not the id of any row appears as a (program, invoice) pair without a row.
- Blanks in CHAR(3): a code longer than three characters aborts, but shorter ones are not padded, blanks at the end are not dropped, and currencies compare as strings.
- A `currencyExponent` with a fraction: exponents in a message are integers.
- Strings that PostgreSQL cannot store, such as ones with a NUL character.
- The `currencies` and `fx_rates` lookups: what they answer is an argument of a create (`Lookups`), any exponent and any rate of at most ten decimals.
- Negative amounts and rates in a conversion: the API accepts positive amounts and the database positive rates.
- The body of a response but for the available amount: its other fields are columns of the stored row, which ApiEffects.CreateStoresRow gives.
- Reading a stored row back, `getAvailability` and `findById`: single reads.
- Seed data, producer and demo scripts.
- Fairness: that a waiting transaction or a pending message is eventually served is not stated.
- The deadlock detector: its victim is a transaction that is killed at an arbitrary step.
- Interleaving: a reconciliation takes the locks of all its rows in one step once all are free, where PostgreSQL takes them one by one; writes take effect for others at the commit.
- Snapshot: the loops rewrite a program's reservations as a map from invoice to row, not as database pages.
- Deadlocks.NoCycle: its bound on chains is for creates and releases only; Deadlocks.DeadlockIff covers all four transactions.
- Convergence.OrderDoesNotMatter: for a program that exists; NewPrograms.OrderIrrelevantIff covers the others.
- MoneyLaws.ConvertErrorBound: sufficient for its bound, not necessary; with more significant digits the amount itself is rounded first, LongAmountExceedsBound shows the bound fail, and ConvertErrorBoundAll covers every amount.
