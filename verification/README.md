# Dormitory billing: a verified model

The repository runs rental billing for Thai dormitories: monthly invoices with a PromptPay QR code, payments
confirmed by staff, LINE announcements and webhooks, on PostgreSQL with BullMQ workers. This project models its
hardest parts in Dafny and proves what they keep, over every input, every run or every interleaving.

`dafny verify dfyconfig.toml` checks everything.

| file | what it is about |
|---|---|
| `SqlSplitter.dfy`, `SqlSplitterLaws.dfy` | the SQL statement splitter against a one-character-at-a-time automaton |
| `Bits.dfy`, `Numerals.dfy`, `Options.dfy` | bit strings, numerals and text, optional values |
| `Crc16.dfy`, `CrcCheck.dfy` | the CRC loop as polynomial division over GF(2), the errors it detects, its check value |
| `Money.dfy` | decimal arithmetic at 20 digits, storage rounding, totals |
| `PromptPay.dfy` | the QR payload printer, and a decoder that inverts it |
| `Postgres.dfy` | transactions, savepoints, a unique index and the failed state, as concurrent requests see them |
| `PaymentRace.dfy` | concurrent idempotent payment creation under READ COMMITTED with savepoints |
| `UnguardedInserts.dfy` | broadcasts and batches, which catch the same conflict without a savepoint |
| `Fanout.dfy` | an announcement, its jobs, and the counters the workers share |
| `Ledger.dfy`, `LedgerLaws.dfy` | invoices, payments and the rollup; what every run of requests keeps |
| `Batch.dfy`, `BatchLaws.dfy` | monthly batch generation |
| `Keyset.dfy` | cursor pagination |
| `Contracts.dfy` | the contract overlap guard |
| `Periods.dfy` | billing periods, the calendar, due dates |
| `Webhook.dfy`, `WebhookRace.dfy` | deduplication and retries of LINE webhook events; concurrent deliveries |

Code that works step by step is a method or a class, proved equal to a function; the laws are lemmas about that
function. Protocols are state machines: a run is a sequence of states, each reached from the one before by a step.

## Where the code and its comments differ

The model follows the code.

- An error while the audit row is written is logged and swallowed
  (apps/api/src/common/interceptors/audit-log.interceptor.ts:91-113). The transaction is then failed, its COMMIT
  is a rollback, and the client still gets a payment. `PaymentRace.AnsweredButRolledBack` is such a run;
  `PaymentRace.AnsweredIsCommittedIffAudited` says exactly when an answered payment exists.
- `createBroadcast` and `createBatch` catch a unique violation without a savepoint. Such a request is always rolled back
  (`UnguardedInserts.ConflictIsRolledBack`): the lookup of a broadcast is refused, and so is the next insert of a batch.
  If the last insert of a batch conflicts, the client is answered with invoices that do not exist
  (`UnguardedInserts.SecondBatchAnsweredButRolledBack`); `UnguardedInserts.AnsweredIsCommittedIffAudited` says exactly
  when the rows an answer names are in the table.
- A replayed payment request is refused once the invoice is void, because the invoice is checked before the key
  (`LedgerLaws.LaterReplay`, `LedgerLaws.ReplayAfterVoidRefused`).
- Confirming a payment of a void invoice is never refused; only the rollup is skipped
  (`LedgerLaws.ConfirmOnVoidInvoice`).
- Jobs are queued before the transaction that creates the announcement commits. The updates of fast workers are then
  lost (`Fanout.OpenCreationCountsNothing`) and the announcement stays at `sending`
  (`Fanout.FastWorkerStrandsAnnouncement`); it can still leave it if and only if nothing has been lost
  (`Fanout.CanFinishIff`).
- `createdAt` has microseconds in the database and milliseconds in a cursor. If a page ends within a millisecond,
  later rows of it are skipped (`Keyset.CompleteIff` has the exact condition).
- JavaScript dates map the years 0 to 99 to the twentieth century, so periods before the year 100 do not tile time
  (`Periods.PeriodsTileIff`) and nothing billed before is due in the next period (`Periods.DueInNextPeriod`).
- An end date moved before the start leaves a contract that covers no day and still blocks the unit for whoever wants
  the days around it (`Contracts.InvertedWindowBlocks`). `Contracts.CreateRefusedIff` and `Contracts.UpdateRefusedIff`
  say exactly when a request is refused.
- A recorded failure is said to be terminal, but a permanent error is retried all the same
  (`Webhook.FailedMayBeProcessed`); and a processed event can end `failed`, if the acknowledgement of its mark was lost
  (`Webhook.ProcessedMayFail`). `Webhook.ProcessedIsFinalIff` and `Webhook.FailedIsFinalIff` say exactly when each status
  is final.
- A comment on `createBatch` says that every invoice is written in its own transaction. All of them run in that of the
  request, so an amount that does not fit fails the whole batch (`BatchLaws.BatchDoesAsPlanned`).
- The batch schema's comment says that negative fee quantities are rejected; no code does so, and the model allows them.

## What is assumed

- PostgreSQL READ COMMITTED: a statement sees committed rows and its own; an INSERT waits for an uncommitted row with
  its key; a failed transaction refuses everything but ROLLBACK TO and its end.
- BullMQ keeps one job per job id, and does not run a completed or stalled job again. A failure listener finishes
  before the next attempt starts.
- In the ledger, the batch and the contracts, one request is one atomic step: its transaction commits or nothing
  happened. The company is fixed.
- Strings are sequences of code units. Numbers entering the money functions are finite decimals.
- The time zone is a constant seven hours ahead of UTC, and the server's own zone has no gaps.

## Model

| member | source | states |
|---|---|---|
| SqlSplitter.SplitSqlStatements | packages/db/src/apply-rls.ts:46-156 | for every input, the scanner with lookahead and `indexOf` jumps returns what the per-character automaton defines, and terminates |
| SqlSplitter.LineComment | packages/db/src/apply-rls.ts:59-66 | from where the scanner stops in or after a line comment the automaton finds the same segments as from its beginning |
| SqlSplitter.BlockComment | packages/db/src/apply-rls.ts:68-83 | the same for a block comment, closed or not |
| SqlSplitter.SingleQuoted | packages/db/src/apply-rls.ts:85-104 | the same for a quoted string with doubled quotes, closed or not |
| SqlSplitter.DoubleQuoted | packages/db/src/apply-rls.ts:106-119 | the same for a quoted identifier |
| SqlSplitter.DollarQuoted | packages/db/src/apply-rls.ts:121-139 | the same for a dollar-quoted body, which ends with the first occurrence of its tag |
| SqlSplitterLaws.CutsExactlyAtNormalSemicolons | packages/db/src/apply-rls.ts:35-41 | a position separates two segments if and only if it holds a `;` read in normal state |
| SqlSplitterLaws.SplitLosesNothing | packages/db/src/apply-rls.ts:46-156 | the raw segments joined by `;` are the input, and the output is those segments trimmed without the blank ones |
| SqlSplitterLaws.SplitGivesStatements | packages/db/src/apply-rls.ts:46-156 | every statement returned is trimmed, not empty and not cut any further, and after all but the last a newline leads to normal state |
| SqlSplitterLaws.SplitUndoesPrinting | packages/db/src/apply-rls.ts:46-156 | splitting the output printed with a newline, `;` and a newline gives the output again, and each single statement splits to itself |
| SqlSplitterLaws.SplitOfJoin | packages/db/src/apply-rls.ts:46-156 | the same for any list of such statements, with or without a newline in front |
| SqlSplitterLaws.SplitImage | packages/db/src/apply-rls.ts:46-156 | a list is the output for some input if and only if it is a list of such statements |
| SqlSplitterLaws.HiddenNotCut | packages/db/src/apply-rls.ts:35-41 | no position in a text that is read without coming back to normal state is a boundary |
| SqlSplitterLaws.SingleQuotesHide | packages/db/src/apply-rls.ts:85-104 | from normal state a text between single quotes is read so, and after the closing quote the state is normal |
| SqlSplitterLaws.DoubleQuotesHide | packages/db/src/apply-rls.ts:106-119 | the same between double quotes |
| SqlSplitterLaws.LineCommentHides | packages/db/src/apply-rls.ts:59-66 | the same from `--` to the end of the line |
| SqlSplitterLaws.BlockCommentHides | packages/db/src/apply-rls.ts:68-83 | the same from `/*` to the first `*/` |
| SqlSplitterLaws.DollarQuotesHide | packages/db/src/apply-rls.ts:121-139 | the same from a dollar tag to its first repetition |
| SqlSplitterLaws.PlainSemicolonsCut | packages/db/src/apply-rls.ts:140-147 | in a text without quotes, dashes, slashes and dollars the boundaries are exactly the semicolons |
| Crc16.Crc16Ccitt | packages/shared/src/promptpay.ts:124-133 | the nested loop prints the remainder of the message polynomial, preset to ones, divided by x^16+x^12+x^5+1 |
| CrcCheck.CheckValue | packages/shared/src/promptpay.ts:122 | the CRC of "123456789" is 29B1, as the repository documents |
| Crc16.DivideIsTheRemainder | packages/shared/src/promptpay.ts:124-133 | long division gives the one polynomial of degree below 16 that differs from the dividend by a multiple of the generator |
| Crc16.RegisterIsRemainder | packages/shared/src/promptpay.ts:124-133 | feeding characters through the shift register is division of the message followed by sixteen zeros |
| Crc16.ShiftEightTimes | packages/shared/src/promptpay.ts:128-130 | eight integer steps are eight shifts of the register |
| Crc16.RenderFourDigits | packages/shared/src/promptpay.ts:132 | the rendering has four hexadecimal digits and determines the register |
| Crc16.ShiftBijective | packages/shared/src/promptpay.ts:129 | one shift is a bijection on registers |
| Crc16.DivideLinear | packages/shared/src/promptpay.ts:124-133 | the remainder of a sum is the sum of the remainders |
| Crc16.BurstChangesRemainder | packages/shared/src/promptpay.ts:124-133 | dividends that differ only within sixteen consecutive bits have the same remainder if and only if they are equal |
| Crc16.BurstErrorsDetected | packages/shared/src/promptpay.ts:124-133 | strings of 8-bit characters whose bits differ only within sixteen consecutive positions, wherever these start, have the same CRC if and only if they are equal |
| Crc16.AdjacentErrorsDetected | packages/shared/src/promptpay.ts:124-133 | in particular, strings that differ at most at two adjacent characters have the same CRC if and only if they are equal |
| Crc16.RemainderFedBackGivesZero | packages/shared/src/promptpay.ts:124-133 | feeding the CRC back as two bytes drives the register to zero |
| Money.Sum | packages/shared/src/money.ts:126-130 | the accumulating loop is the rounded sum from the left |
| Money.RoundsHalfAway | packages/shared/src/money.ts:59 | rounding gives the one integer within half a unit that, at exactly half a unit, is farther from zero |
| Money.FinaliseRounds | packages/shared/src/money.ts:59 | a result is rounded, half away from zero, to 20 significant digits: nothing is dropped up to 20, and k digits of 20 + k |
| Money.StorageReadsBack | packages/shared/src/money.ts:174-176 | a stored amount reads back as the nearest number of satang, of two equally near the one farther from zero, and shows the sign of the original |
| Money.LineTotalRoundsOnce | packages/shared/src/money.ts:113-115 | a line total that fits its column is the exact product rounded once: within half a satang, and at exactly half a satang away from zero |
| Money.HugeDoesNotFit | packages/shared/src/money.ts:59 | a product of more than 20 digits never fits the column, however it is rounded |
| Money.SumExact | packages/shared/src/money.ts:126-130 | adding stored totals never rounds, for any array JavaScript can hold |
| Money.SubtotalError | apps/api/src/modules/billing/invoice.service.ts:230-239 | the subtotal of n lines is the exact sum of the line totals and within n half satang of the sum of quantity times unit price |
| PromptPay.GeneratePromptPayPayload | packages/shared/src/promptpay.ts:156-184 | pushing fields and joining them gives the specified payload or the first error |
| PromptPay.Tlv | packages/shared/src/promptpay.ts:42-49 | a two-character tag and a value of at most 99 characters print with a two-digit length; a longer value is refused |
| PromptPay.NormalizeFaithful | packages/shared/src/promptpay.ts:78-108 | two ids are normalized alike if and only if they have the same digits, whatever separates them; values have 13 or 15 digits |
| PromptPay.DigitsOnlyConcat | packages/shared/src/promptpay.ts:78-79 | the digits of a text are those of its parts, in order |
| PromptPay.DecodedKind | packages/shared/src/promptpay.ts:78-110 | a decoded id is a phone if and only if ten digits were entered, with 0066 for the leading zero; a national id for thirteen, a wallet for fifteen, both as entered; every other id is refused |
| PromptPay.ParsePrint | packages/shared/src/promptpay.ts:42-49 | the parser reads back every printed list of fields |
| PromptPay.DecodeInvertsPayload | packages/shared/src/promptpay.ts:156-184 | a payload is produced if and only if the id is valid and the amount fits 99 characters; decoding it succeeds, with its CRC, and gives back kind, id and amount |
| PromptPay.PayloadText | packages/shared/src/promptpay.ts:155-184 | a payload, character by character: the fixed fields, the account template with its application id, currency, amount, country, CRC |
| PromptPay.PayloadInjective | packages/shared/src/promptpay.ts:156-184 | equal payloads come from ids with the same digits and amounts that are stored alike |
| PromptPay.DamageRejected | packages/shared/src/promptpay.ts:124-133 | a payload changed only within two adjacent characters decodes if and only if it was not changed |
| PromptPay.StoredTotalEncodable | apps/api/src/modules/billing/invoice.service.ts:348-356 | every total that fits its column can be encoded, for exactly the valid ids |
| PaymentRace.OneKeyOnePayment | apps/api/src/modules/billing/payment.service.ts:178-260 | under every interleaving, with failures and crashes, committed answers for one key carry the same row, the only one with that key |
| PaymentRace.RetryGetsThePayment | apps/api/src/modules/billing/payment.service.ts:221-260 | once a payment is committed, every committed answer with its key, then and later, is that payment, also if the reply to the request that made it was lost |
| PaymentRace.AnsweredIsCommittedIffAudited | apps/api/src/modules/billing/payment.service.ts:178-260 | an answered request's transaction committed if and only if its audit insert succeeded |
| PaymentRace.NeverInFailedTransaction | apps/api/src/modules/billing/payment.service.ts:229-260 | no statement is ever refused with 25P02; in a failed transaction only ROLLBACK TO SAVEPOINT and the end are issued |
| PaymentRace.LookupFindsTheWinner | apps/api/src/modules/billing/payment.service.ts:251-257 | after a key conflict the lookup never comes back empty and finds a committed row |
| PaymentRace.RefusedLeavesNothing | apps/api/src/modules/billing/payment.service.ts:178-227 | a request whose invoice check or first lookup is refused or fails never leaves a row and is never answered with a payment |
| PaymentRace.StepKeepsInv | apps/api/src/modules/billing/payment.service.ts:178-260 | every answer and every crash keeps unique keys, and for each request what its place in the code needs |
| PaymentRace.RunsEnd | apps/api/src/modules/billing/payment.service.ts:178-260 | n requests take at most 9n steps |
| PaymentRace.NoDeadlock | apps/api/src/modules/billing/payment.service.ts:229-260 | while a request is open, some request can go on without a failure or a refusal; a waiting INSERT never waits in a circle |
| PaymentRace.EveryoneIsServed | apps/api/src/modules/billing/payment.service.ts:178-260 | a run without failures or refusals that goes on as long as it can ends with every request answered, audited and committed, with the one payment of its key |
| PaymentRace.AnsweredButRolledBack | apps/api/src/common/interceptors/audit-log.interceptor.ts:91-113 | a run that ends with a payment answered, its transaction rolled back and the table empty |
| UnguardedInserts.ConflictIsRolledBack | apps/api/src/modules/announcement/announcement.service.ts:216-243 | in every reachable state a request whose insert conflicted is not committed, and over, it has left no row; a broadcast is then never answered, and a batch only without its audit row |
| UnguardedInserts.AnsweredIsCommittedIffAudited | apps/api/src/modules/billing/invoice.service.ts:540-575 | an answered request is committed if and only if its audit insert succeeded, which it never does after a conflict; a row named in the answer is in the table unless it is the request's own and the request is not committed |
| UnguardedInserts.CommittedAnswerIsComplete | apps/api/src/modules/billing/invoice.service.ts:440-575 | the answer of a committed request names one row for each of its keys, in order, all in the table |
| UnguardedInserts.AnsweredAfterConflict | apps/api/src/modules/billing/invoice.service.ts:512-575 | a batch answered after a conflict names an invoice for every contract but the last, which conflicted, and none of them is in the table |
| UnguardedInserts.OnlyConflictsFail | apps/api/src/modules/announcement/announcement.service.ts:176-243 | when no statement fails of its own only a conflict makes a request fail; a broadcast whose key its first lookup finds is answered |
| UnguardedInserts.LookupIsRefused | apps/api/src/modules/announcement/announcement.service.ts:234-243 | the lookup in the catch block of a broadcast is always refused, so the winner is never found |
| UnguardedInserts.NextInsertIsRefused | apps/api/src/modules/billing/invoice.service.ts:562-571 | after a conflict the next insert of a batch is refused, and the request fails |
| UnguardedInserts.SecondBroadcastFails | apps/api/src/modules/announcement/announcement.service.ts:216-243 | a run of two broadcasts with one key: the first is committed, the second fails |
| UnguardedInserts.SecondBatchAnsweredButRolledBack | apps/api/src/modules/billing/invoice.service.ts:562-574 | a run of two batches that share a contract: the second inserts another invoice, conflicts, and is answered with that invoice, which is not in the table |
| Fanout.JobIdInjective | apps/api/src/modules/notification/notification.types.ts:136-139 | job ids of one kind are equal only for the same tenant and resource, as ids contain no colon |
| Fanout.AnnouncementTable.BumpAnnouncementCounter | apps/api/src/modules/notification/line-notification.processor.ts:200-228 | one update adds one to one counter and flips the status when the counters reach the total, once |
| Fanout.CountersAndStatus | apps/api/src/modules/notification/line-notification.processor.ts:183-228 | in every reachable state the counters count distinct jobs and never exceed the total; below it the status is `sending`, at it `sent` if something was delivered and `failed` if nothing was |
| Fanout.CountedAsPushed | apps/api/src/modules/notification/line-notification.processor.ts:73-228 | a job is counted as delivered only if LINE took its push, as failed only if an attempt settled without a push or exactly three attempts threw |
| Fanout.PushIsNotMiscounted | apps/api/src/modules/notification/line-notification.processor.ts:136-228 | once an attempt has settled, pushed or not, the job is never counted the other way |
| Fanout.CountersAreTheOutcomes | apps/api/src/modules/notification/line-notification.processor.ts:73-228 | at rest with nothing lost the delivered count is the number of recipients whose push LINE took, the failed count that of the others |
| Fanout.AttemptsBounded | apps/api/src/modules/notification/line-notification.processor.ts:73-160 | a push is tried at most three times, and every try throws or comes out, one way only |
| Fanout.TerminalIsFinal | apps/api/src/modules/notification/line-notification.processor.ts:200-228 | a job counted stays counted; a row that has left `sending` never changes again |
| Fanout.FinishedIffNothingLost | apps/api/src/modules/notification/line-notification.processor.ts:73-271 | when nothing is queued or running, the counters miss the total by exactly the lost jobs and updates; the status is terminal if and only if there are none |
| Fanout.NotQuiescentCanGoOn | apps/api/src/modules/notification/line-notification.processor.ts:73-271 | until then something can go on without losing anything, also while the creation is open; after a rolled-back creation the updates still to come can only be lost |
| Fanout.RunsEnd | apps/api/src/modules/notification/line-notification.processor.ts:73-271 | a broadcast to n recipients takes at most 9n + 1 events, whatever fails, so it comes to rest |
| Fanout.OpenCreationCountsNothing | apps/api/src/modules/notification/line-notification.processor.ts:200-213 | in every reachable state before the creating transaction has committed, the counters are zero and no job is counted, whatever the workers have done |
| Fanout.LossIsFinal | apps/api/src/modules/notification/line-notification.processor.ts:73-271 | once an update is lost, a job not queued or the creation rolled back, the status stays `sending` however the run goes on |
| Fanout.CanFinishIff | apps/api/src/modules/notification/line-notification.processor.ts:73-271 | at any time the announcement can still leave `sending` if and only if nothing has been lost |
| Fanout.FastWorkerStrandsAnnouncement | apps/api/src/modules/announcement/announcement.service.ts:216-254 | a run in which every push is made before the creation commits, and the status stays `sending` for good |
| Fanout.DistinctIds | apps/api/src/modules/notification/notification.service.ts:109-138 | distinct recipients get distinct jobs |
| Ledger.Billing.InsertDraftInvoice | apps/api/src/modules/billing/invoice.service.ts:230-280 | items and total are stored together, or refused for an overflow or an occupied contract and period |
| Ledger.Billing.Create | apps/api/src/modules/billing/invoice.service.ts:213-281 | a one-off invoice prices its charges and is stored as a draft, or refused for an unknown contract |
| Ledger.Billing.IssueInvoice | apps/api/src/modules/billing/invoice.service.ts:314-388 | a draft gets its QR payload and becomes issued; a repeat changes nothing; other statuses are refused |
| Ledger.Billing.Void | apps/api/src/modules/billing/invoice.service.ts:397-421 | voids anything but a paid invoice; a repeat changes nothing |
| Ledger.Billing.RecordPayment | apps/api/src/modules/billing/payment.service.ts:178-260 | adds one pending payment, or returns the one with the key, after the invoice checks |
| Ledger.Billing.SumConfirmed | apps/api/src/modules/billing/payment.service.ts:373-402 | adds up the confirmed payments of one invoice |
| Ledger.Billing.RecomputeInvoiceStatus | apps/api/src/modules/billing/payment.service.ts:373-402 | the status follows the confirmed sum; a void invoice is left alone |
| Ledger.Billing.ConfirmPayment | apps/api/src/modules/billing/payment.service.ts:280-315 | a pending payment is confirmed and its invoice recomputed; a repeat changes nothing |
| Ledger.Billing.RejectPayment | apps/api/src/modules/billing/payment.service.ts:325-351 | a pending payment is rejected; a confirmed one is refused |
| Ledger.FindKey | apps/api/src/modules/billing/payment.service.ts:221-227 | the first payment with the key, or none |
| LedgerLaws.EveryRunKeepsLedger | apps/api/src/modules/billing/payment.service.ts:373-402 | any mix of requests, batches included, keeps statuses, sums, keys, slots, QR payloads and totals consistent |
| LedgerLaws.ReachableLedger | apps/api/src/modules/billing/payment.service.ts:195-220 | draft means no payments; issued, nothing confirmed; partially paid, between zero and the total; paid, at least the total; every QR payload decodes to its invoice's total |
| LedgerLaws.ReachableTotals | apps/api/src/modules/billing/invoice.service.ts:230-239 | every stored total is the sum of its line totals, within half a satang per line of the exact amount |
| LedgerLaws.ChargesStored | apps/api/src/modules/billing/invoice.service.ts:230-239 | an accepted one-off invoice stores every charge with the kind, quantity, unit price and reading requested, and its total is within n half satang of the exact sum of what was requested |
| LedgerLaws.CreateAcceptedIff | apps/api/src/modules/billing/invoice.service.ts:213-281 | a one-off invoice is accepted if and only if the contract is known, has no invoice for the period that is not void, and every line total and their sum fit |
| LedgerLaws.IssuedQrPays | apps/api/src/modules/billing/invoice.service.ts:348-366 | the QR code of an issued draft decodes to the company's normalized PromptPay id and the invoice's total, then and after any further requests |
| LedgerLaws.EveryQrPaysItsIssuer | apps/api/src/modules/billing/invoice.service.ts:348-366 | in every reachable ledger each QR code pays its invoice's total to a PromptPay id with which that invoice was issued |
| LedgerLaws.RunsEvolve | apps/api/src/modules/billing/invoice.service.ts:314-421 | statuses only climb or drop to void before paid; paid and void are final; items, totals and QR payloads never change; decided payments stay decided |
| LedgerLaws.ConfirmKeepsInv | apps/api/src/modules/billing/payment.service.ts:280-315 | confirming keeps every invoice consistent, the one it belongs to and all others |
| LedgerLaws.ConfirmDecides | apps/api/src/modules/billing/payment.service.ts:280-402 | a confirmation adds exactly its amount, and the new sum decides between partially paid and paid |
| LedgerLaws.PaidUpdate | apps/api/src/modules/billing/payment.service.ts:381-386 | changing one payment changes the confirmed sum by exactly its contribution |
| LedgerLaws.EveryPaymentWasRequested | apps/api/src/modules/billing/payment.service.ts:178-351 | in every reachable ledger each payment has the invoice, amount and key of the payment request that added it, and its status is the first decision made on it since |
| LedgerLaws.FreshKeyAccepted | apps/api/src/modules/billing/payment.service.ts:195-260 | a request with a key not used before is accepted if and only if the invoice checks pass, and refused for an unknown, draft or void invoice with that reason; then exactly that payment is added and keeps its invoice, amount and key |
| LedgerLaws.DecidedOnce | apps/api/src/modules/billing/payment.service.ts:280-351 | after any requests a payment that was pending can be confirmed unless it was rejected first, and rejected unless it was confirmed first |
| LedgerLaws.ReplayChangesNothing | apps/api/src/modules/billing/payment.service.ts:280-351 | repeating any request at once changes nothing and gets the same reply; a second creation is a duplicate |
| LedgerLaws.LaterReplay | apps/api/src/modules/billing/payment.service.ts:195-227 | a payment request replayed any time later changes nothing, and returns the first payment if and only if its invoice passes the checks before the key |
| LedgerLaws.LaterDecisionReplay | apps/api/src/modules/billing/payment.service.ts:280-351 | a confirm, reject or void that went through can be repeated after any further requests: it goes through again and changes nothing |
| LedgerLaws.LaterIssueReplay | apps/api/src/modules/billing/invoice.service.ts:320-332 | a repeated issue changes nothing after any further requests, and goes through if and only if the invoice is still issued; otherwise it is refused as no draft |
| LedgerLaws.ReplayAfterVoidRefused | apps/api/src/modules/billing/payment.service.ts:195-220 | after a void the replay is refused although the payment exists |
| LedgerLaws.VoidableUntilCovered | apps/api/src/modules/billing/invoice.service.ts:397-421 | whenever the ledger invariant holds, a void is refused as paid if confirmed payments cover the total, and goes through otherwise |
| LedgerLaws.VoidIsFinal | apps/api/src/modules/billing/invoice.service.ts:397-421 | no later request changes a void invoice or adds a payment to it |
| LedgerLaws.ConfirmOnVoidInvoice | apps/api/src/modules/billing/payment.service.ts:369-379 | after a void and any further requests a payment that was pending and is undecided is confirmed, and the invoice stays as it was voided |
| LedgerLaws.IssueSucceedsIff | apps/api/src/modules/billing/invoice.service.ts:314-388 | issuing a draft goes through if the company's PromptPay id is valid, and is refused as not configured otherwise |
| Batch.CreateBatch | apps/api/src/modules/billing/invoice.service.ts:442-575 | the loop with its prepared lookups plans every contract on the tables as they were and carries the plans out, or rolls back |
| Batch.GroupByUnit | apps/api/src/modules/billing/invoice.service.ts:500-507 | every unit gets its own meters, in query order |
| Batch.BuildBatchItems | apps/api/src/modules/billing/invoice.service.ts:617-689 | pushing items and counting `sortOrder` gives rent, water, electricity and fees, numbered by position |
| Batch.FindMeter | apps/api/src/modules/billing/invoice.service.ts:603-607 | the first meter of the kind, if there is one |
| BatchLaws.BatchDoesAsPlanned | apps/api/src/modules/billing/invoice.service.ts:512-575 | the tables get one draft for every contract to bill, in order, and every other is reported; or nothing changes, exactly if an amount does not fit |
| BatchLaws.GeneratedOrSkipped | apps/api/src/modules/billing/invoice.service.ts:512-575 | every contract is generated or skipped, never both; generated if and only if active, without a non-void invoice for the period, and with a reading for every meter of its unit |
| BatchLaws.ReportedReason | apps/api/src/modules/billing/invoice.service.ts:513-530 | a skip is reported with the first rule that applies, water before electricity |
| BatchLaws.SecondRunIsIdle | apps/api/src/modules/billing/invoice.service.ts:473-478 | a second run bills nobody, reports everybody and leaves the tables unchanged |
| BatchLaws.NothingMissingIff | apps/api/src/modules/billing/invoice.service.ts:599-608 | no reason is found if and only if every meter of the unit has its reading |
| BatchLaws.BilledItems | apps/api/src/modules/billing/invoice.service.ts:617-689 | the items planned for a contract are its rent, water and electricity at the consumption and rate of its meters with their readings, then every fee, each at its rounded product, and nothing else; numbered from zero in that order |
| BatchLaws.GeneratedBills | apps/api/src/modules/billing/invoice.service.ts:512-689 | every invoice a batch generates is a draft for the period that bills its own contract: the contract's rent, the readings of its unit's meters at their rates, every fee, in this order, and nothing else |
| BatchLaws.SkippedUnit | apps/api/src/modules/billing/invoice.service.ts:513-530 | every skip names a contract of the batch with its own unit |
| BatchLaws.BatchFailsIff | apps/api/src/modules/billing/invoice.service.ts:512-575 | the batch fails, and changes nothing, if and only if an amount of a contract that is due does not fit its column |
| LedgerLaws.PassKeepsInv | apps/api/src/modules/billing/invoice.service.ts:512-575 | a batch keeps the ledger invariant, at most one non-void invoice per contract and period included |
| Keyset.ListIsSlice | apps/api/src/common/util/cursor.util.ts:102-119 | a page is the next `limit` rows of the ordered table, with a cursor if and only if there are more |
| Keyset.SelectIsTail | apps/api/src/modules/billing/invoice.service.ts:89-103 | the `where` clause of a cursor selects a tail of the ordered table |
| Keyset.LostMeans | apps/api/src/common/util/cursor.util.ts:113-117 | a cursor misses a later row if and only if it is in the same millisecond and not at its very start with a smaller id |
| Keyset.CompleteIff | apps/api/src/common/util/cursor.util.ts:102-119 | following the cursors over an unchanged table returns exactly the table in max(1, ceil(n / limit)) pages if and only if no page ends just before a row its cursor misses |
| Keyset.CompleteInMilliseconds | apps/api/src/common/util/cursor.util.ts:102-119 | with timestamps in full milliseconds that holds for every page size |
| Keyset.SameMillisecondMissed | apps/api/src/common/util/cursor.util.ts:113-117 | a table of two rows of which the second is never returned |
| Keyset.PagesDescend | apps/api/src/modules/billing/invoice.service.ts:89-112 | whatever is inserted or deleted between pages, later pages hold only later rows, so none is returned twice |
| Keyset.ReturnedIffNotMissed | apps/api/src/common/util/cursor.util.ts:102-119 | a finished walk returns a row present throughout if and only if no page ended before it with a cursor that misses it |
| Keyset.FinishedWalkIsComplete | apps/api/src/common/util/cursor.util.ts:102-119 | with full milliseconds a finished walk returns every row present throughout, once |
| Contracts.ContractService.AssertNoOverlap | apps/api/src/modules/contract/contract.service.ts:215-250 | passes if and only if no other live contract on the unit clashes |
| Contracts.ContractService.Create | apps/api/src/modules/contract/contract.service.ts:90-123 | a draft is added, or refused for an unknown unit or tenant or a clash |
| Contracts.ContractService.Update | apps/api/src/modules/contract/contract.service.ts:135-175 | status and end date change together; the guard runs when the result is live and dates or liveness changed |
| Contracts.ClashMeans | apps/api/src/modules/contract/contract.service.ts:224-232 | two windows clash if and only if they share a day, or one is inverted and the other reaches across it; clashing is symmetric |
| Contracts.InvertedWindowBlocks | apps/api/src/modules/contract/contract.service.ts:224-232 | a create and a patch after which no day of the unit is occupied and an open-ended contract is refused |
| Contracts.CreateRefusedIff | apps/api/src/modules/contract/contract.service.ts:90-123 | in every reachable state a create is refused if and only if the unit or tenant is unknown, its window shares a day with a live contract on the unit, or an inverted window is in the way; otherwise the draft is added |
| Contracts.UpdateRefusedIff | apps/api/src/modules/contract/contract.service.ts:135-175 | in every reachable state a patch is refused if and only if the contract would be a draft or active and, with the new end, share a day with another live contract, or an inverted window is in the way; otherwise it gets the status and the end asked for, keeps all else, and no other row changes |
| Contracts.RefusedOnlyForASharedDay | apps/api/src/modules/contract/contract.service.ts:90-175 | so without inverted windows a request is refused if and only if it would put two live contracts on one day |
| Contracts.RunsKeepInv | apps/api/src/modules/contract/contract.service.ts:90-175 | after any creates and updates no two live contracts on a unit clash |
| Contracts.NoDayCoveredTwice | apps/api/src/modules/contract/contract.service.ts:90-175 | so no day on a unit is covered by two of them: open-ended, reopened, or with ends moved while ended or before the start |
| Contracts.PatchAgain | apps/api/src/modules/contract/contract.service.ts:135-175 | in every reachable state an accepted patch is accepted again and changes nothing more |
| Periods.AddPeriodIsValid | packages/shared/src/date.ts:50-57 | the result is a YYYY-MM period if and only if it lies in the years 0 to 9999, and its index moved by the months added |
| Periods.AddPeriodTwice | packages/shared/src/date.ts:50-57 | while in range, months add up |
| Periods.AddPeriodReaches | packages/shared/src/date.ts:50-57 | a step leads from one period to another if and only if their indices differ by it |
| Periods.AddPeriodBack | packages/shared/src/date.ts:59-65 | a step and its opposite undo each other |
| Periods.PeriodOrder | packages/shared/src/date.ts:20-24 | the order of the strings is the order of the months |
| Periods.CurrentPeriodIs | packages/shared/src/date.ts:42-47 | the current period is the one whose calendar month the Bangkok day belongs to |
| Periods.PeriodsTileIff | packages/shared/src/date.ts:71-81 | an instant lies between start and end exactly when the period is current, for all instants, if and only if the year is at least 100 |
| Periods.DayInMonth | packages/shared/src/date.ts:42-47 | a day has a year and month if and only if it lies from the first of that month to the first of the next |
| Periods.YearLength | packages/shared/src/date.ts:71-76 | years have 366 days by the Gregorian rule and 365 otherwise |
| Periods.MonthLength | packages/shared/src/date.ts:71-76 | months have their usual lengths, and day 0 is 1 January 1970 |
| Periods.Examples | packages/shared/src/date.ts:49-76 | the documented examples: three months after 2026-01 is 2026-04, which starts on 31 March 2026 at 17:00 UTC |
| Periods.DueInNextPeriod | apps/api/src/modules/billing/invoice.service.ts:586-592 | a due day from 1 to 28 falls in the period after the billing period if and only if that one is in the year 100 or later, and otherwise 1900 years on; it is always that day from the end of the billing period, and outside it |
| Webhook.WebhookInbox.PersistAndEnqueue | apps/api/src/modules/line/line-webhook.service.ts:147-229 | a new event gets a pending row and a job; a recorded one changes nothing |
| Webhook.WebhookInbox.HandleWebhook | apps/api/src/modules/line/line-webhook.service.ts:125-140 | the loop counts new and repeated events, which add up to the delivery |
| Webhook.ReceiveAllIs | apps/api/src/modules/line/line-webhook.service.ts:147-191 | a delivery adds a pending row for every new event and touches no other row |
| Webhook.RecordedOnce | apps/api/src/modules/line/line-webhook.service.ts:125-140 | the events counted as processed are exactly the new ones, each once |
| Webhook.RedeliveredIsRecorded | apps/api/src/modules/line/line-webhook.service.ts:147-191 | redelivering any part of a delivery, in any order and at any time, changes no row, records nothing and queues nothing |
| Webhook.EnqueuedAre | apps/api/src/modules/line/line-webhook.service.ts:193-229 | the events queued are exactly those that are new, when they first come, and whose job the queue takes |
| WebhookRace.CountedNewIffOwn | apps/api/src/modules/line/line-webhook.service.ts:147-191 | in every reachable state of any number of concurrent calls, an event that was counted has one row, committed, and the call counted it as new if and only if the row is its own |
| WebhookRace.OneCountsAsNew | apps/api/src/modules/line/line-webhook.service.ts:147-191 | when every call for an event has counted it, exactly one counted it as new |
| WebhookRace.EveryCallCounts | apps/api/src/modules/line/line-webhook.service.ts:147-191 | a run without failures that goes on as long as it can ends with every call having counted its event, one as new and the others, conflicts included, as duplicates |
| WebhookRace.NewAtMostOnce | apps/api/src/modules/line/line-webhook.service.ts:147-191 | no two calls count one event as new, whatever became of the others |
| Webhook.SyntheticEventId | apps/api/src/modules/line/line-webhook.service.ts:238-249 | the text of timestamp, type and source, the hash loop and the formatting give the specified made-up id |
| Webhook.RawFaithful | apps/api/src/modules/line/line-webhook.service.ts:240-242 | different timestamps, types or sources give different texts, as long as types contain no colon |
| Webhook.SyntheticIdFits | apps/api/src/modules/line/line-webhook.service.ts:238-249 | a made-up id fits its column of 64 characters; the hash stays within 32 bits |
| Webhook.SyntheticIdsDiffer | apps/api/src/modules/line/line-webhook.service.ts:238-249 | events with different timestamps never share a made-up id, whatever their hashes |
| Webhook.HandledBeforeProcessed | apps/api/src/modules/line/line-event.processor.ts:83-156 | a processed event was handled; more than once only if marking it threw, and at most five times |
| Webhook.StatusIsTheLastWritten | apps/api/src/modules/line/webhook-event-state.service.ts:43-92 | whatever happens to an event, its status is the last one written: processed by a mark that reached the database, failed by the record of a permanent or fifth failure |
| Webhook.StatusFinalIff | apps/api/src/modules/line/line-event.processor.ts:83-203 | no course of events changes the status of an event if and only if no job is coming, its job is completed or exhausted, or it is failed with its last attempt failing |
| Webhook.KeepsStatusIff | apps/api/src/modules/line/line-event.processor.ts:83-203 | in every reachable state the same condition decides whether the status stays however the run goes on |
| Webhook.ProcessedIsFinalIff | apps/api/src/modules/line/line-event.processor.ts:83-156 | a processed event stays processed, however the run goes on, if and only if its job is completed or exhausted |
| Webhook.FailedIsFinalIff | apps/api/src/modules/line/webhook-event-state.service.ts:16-19 | a failed event stays failed, however the run goes on, if and only if its attempts are used up |
| Webhook.ProcessedMayFail | apps/api/src/modules/line/line-event.processor.ts:167-205 | from a new row: the event is processed, the acknowledgement of the mark is lost, four more attempts fail, and it ends failed |
| Webhook.FailedMayBeProcessed | apps/api/src/modules/line/line-event.processor.ts:167-205 | from a new row: a permanent error is recorded as a failure and retried, and the event is processed |
| Webhook.AllSettled | apps/api/src/modules/line/webhook-event-state.service.ts:43-92 | when no job is waiting or under way every event is processed, failed, never queued, or its last failure could not be written |
| Webhook.RowsStay | apps/api/src/modules/line/webhook-event-state.service.ts:43-92 | rows are never removed and never become pending again |

## Left out

- Network and cryptography: the LINE client, HMAC signatures, JWT, password hashing, encrypted columns, signed URLs, QR
  image rendering. A push is a nondeterministic result.
- User interface, controllers, wire schemas (used only as input ranges), configuration, row-level security and the
  tenant context.
- Ledger.Billing.ConfirmPayment: the rollup is proved for one request at a time, not for interleaved confirmations,
  which the code does not protect.
- Contracts.ContractService.Create: two concurrent requests can both pass the guard; only sequential requests are modelled.
- Ledger.Billing.Create: the due date and the descriptions of items are not stored.
- Ledger.Billing.IssueInvoice: the fresh issue date and the notification it queues are not modelled.
- Ledger.Billing.InsertDraftInvoice: descriptions, dates and tenants of invoices are not stored, and the confirmed sum is
  exact, as for any sum below 10^18 baht.
- Batch.CreateBatch: a unique violation from a concurrent batch is modelled as the code writes it, but cannot arise in a
  request that runs alone; `UnguardedInserts` shows what becomes of it when requests run together.
- Webhook.WebhookInbox.PersistAndEnqueue: the class runs one call at a time; `WebhookRace` lets calls interleave.
- Webhook.SyntheticEventId: the event's source is taken as its JSON text.
- Fanout: stalled jobs that BullMQ runs again, and message rendering.
- Keyset: the encoding of cursors as base64 JSON and its validation; a cursor is the pair it carries.
- `isTransactionControl`, splitting of psql meta-commands, and everything of PostgreSQL's lexer that the splitter does not
  know: nested block comments, escape strings, Unicode quotes.
- The reconcile sweep for webhook rows, receipts and slips, readings, maintenance, dashboards, access tables and the
  other create-read-update-delete endpoints.
