# llmpool: a verified model

llmpool proxies LLM requests to a pool of upstreams and bills each account for the tokens it uses.
This project models what that rests on and proves it in Dafny. `dafny verify dfyconfig.toml` checks
everything.

## What is modelled

**From a request to money.** A proxied request records numbered events in a session
(`Events`, `Streams`, `Failover`). A worker turns each event into a session row and, when it carries
usage, into one balance change priced from the model (`Billing`). A second worker settles each change
against a subscription or the wallet (`Ledger`). Both queues may deliver a task again, every
transaction may roll back, every push may fail.

- `Models`: the record types. `Sums`: totals over tables.
- `Ledger`: the settlement as the class `LedgerStore`, statement by statement, proved equal to the
  function `Settled` when it commits and to no change when it does not.
- `LedgerLaws`: what every run of settlements, insertions and administrative steps keeps: the
  accounting equations, at-most-once, the quota, independence of the order.
- `Interleaving`: the same with settlements split into lock, wallet read, subscription read and
  commit, run by any number of workers. The wallet and subscription rows are read without a lock and
  written back as absolute values, as in the code.
- `Events`: usage, numbering, and the printed request ids behind the unique index.
- `Billing`: the event worker as the class `EventWorker`, and the whole pipeline as runs of actions.
- `ConcurrentBilling`: the pipeline again, with settlements that interleave.
- `Funding`: deposits, withdrawals and credits requested over the API.
- `Streams`, `Failover`: what streamed responses and the failover loop put in the event queue.

**Around it.** Data structures that depend on time and order, each tied to a simple specification.

- `RateLimit`: the sliding window in a sorted set, refined to the list of attempts.
  `RateLimitRace`: the commands of concurrent requests interleaved.
- `UsageCounters`: the hourly counters. `UpstreamSelection`: the least-loaded choice that reads them.
- `TtlCache`: any cache with a time to live in front of a table; used by `ApiAuth` (keys, 900 s) and
  `WalletGate` (wallets, 300 s).
- `Publication`: what interleaved settlements publish in the wallet cache.
- `CursorWalk`: following `next_id` through session events. `FilterQuery`: the query builder.

Conventions. Money is `real`. `i64` sums that the code computes in memory wrap (`AddI64`, `WrapI64`);
a `BIGINT` overflow in Postgres is a failed statement. Failures of statements, commands and pushes are
parameters (`faults`, `lost`), so each theorem is about every combination of them. A rollback restores
the tables. Hashes are injective: a token is its hash. Clocks are parameters; an unordered query answer
is any order; ties in `sort_order` may be broken either way.

## What turned out to be false, and when it holds

- The ledger equation fails when settlements of one account overlap: `Interleaving.OverlapLosesADeposit`
  loses a deposit. `Interleaving.CommitKeepsLedgerIff` says exactly which commits keep the equation, and
  `Interleaving.LedgerUnderExclusion` that it holds without overlap.
- A worker that returns has its task removed, however it ended, so an event can go unbilled although every
  push succeeds and the queues drain: `Billing.MissingModelEndsUnbilled`. An event is billed exactly when some
  delivery of it was good (`Billing.BilledIffGoodDelivery`), a change applied exactly when some settlement of
  it was (`Billing.AppliedIffGoodSettlement`).
- A deposit, withdrawal or credit whose request id, chosen by the client, equals an event's key keeps that
  event from ever being billed: `Billing.TakenKeyBlocksBilling`, in the run of `Billing.DepositUnderAnEventsKey`.
- A failed `EXPIRE` leaves the old expiry, which can drop an attempt still in the window:
  `RateLimit.FailedExpireLetsAThirdThrough`. An expiry does no harm exactly when it lies a window after every
  entry: `RateLimit.ExpiryInvisibleIff`.
- When the commands of concurrent checks interleave, a window may admit too many:
  `RateLimitRace.HeldUpRequestEscapesWindow`. No window does while every step is harmless, that is, removes no
  attempt from the window of a request on its way (`WindowBoundInterleaved`); trims in the order of the stamps
  are harmless (`WindowBoundInOrder`). The other half: when one request overtakes another, the bound breaks
  exactly if its trim was not harmless, for all stamps (`OvertakingTrimBreaksBoundIff`), and in any state a
  request counts all of its window exactly if none of it was removed (`CountsAllIffIntact`).
- After a deactivation whose cache delete succeeded, a request that had looked the key up before can still
  put it back: `ApiAuth.RevokedForGoodIff`, in a state reached by `ApiAuth.LookupOutlivesRevocation`.
- Two cache writes in the wrong order refuse an account with money: `WalletGate.ReorderedWritesMislead`. A
  cached wallet is the row exactly when the row is what it was when the wallet was read:
  `WalletGate.CachedIsRowIff`.
- Overlapping settlements mislead the gate although every cache write succeeds and follows its commit at once,
  because a settlement that leaves the balance alone publishes the row it read at its start:
  `Publication.StalePublication`. A publication is the row exactly when it changed or inserted the wallet or the
  row read is still current (`PublicationIsRowIff`); without overlap the gate answers as the database
  (`GateAnswersAsDatabase`).
- With a single candidate that has produced nothing this hour, the reply to a one-key read may drop it, and
  the request finds no client: `UpstreamSelection.SelectModelClients` says exactly when.
- The withdrawal check looks at one request and the committed balance, so requests that each pass can
  overdraw together: `Funding.TwoWithdrawalsOverdraw`; exactly when is `Funding.WithdrawalsCoveredIff`.
- A row that becomes visible after the page covering its id was read is never returned:
  `CursorWalk.LateRowIsSkipped`; exactly which rows are is `CursorWalk.ReturnedIffSeenInTime`.

Where the repository's documentation and code differ, the model follows the code. Its README speaks of
random distribution over upstreams, the code takes the least loaded. It speaks of money limits, the code
checks only tokens. `create_credit` is documented with a credit field of its own, the code has one
balance. A batch's session row stores the regular prices while its charge uses the batch prices.
`SpendToken.total_tokens` is stored, but settlement adds input and output tokens.

## Model

Paths are relative to the repository root.

| member | source | states |
|---|---|---|
| `Models.AddI64Wraps` | crates/llmpool/src/db/wallet.rs:98 | the token sum of a spend is two's complement wrap-around on all `i64` inputs |
| `Ledger.LedgerStore.CreateBalanceChange` | crates/llmpool/src/db/session_event.rs:136-148 | inserts an unapplied change exactly when no row has its request id, else changes nothing |
| `Ledger.LedgerStore.GetCurrentSubscription` | crates/llmpool/src/db/subscription.rs:274-296 | chooses a row of the account that is active, has begun, has not ended and has room for the tokens, of maximal `sort_order` among those; none only if there is no such row; fails exactly on a failed statement or a BIGINT overflow |
| `Ledger.ChosenInItsFields` | crates/llmpool/src/db/subscription.rs:279-290 | a subscription that may pay is active, `start_at <= now < end_at`, and usage plus tokens stays within its limit |
| `Ledger.LedgerStore.ApplyBalanceChange` | crates/llmpool/src/db/wallet.rs:59-138 | on success the tables are the settlement of that change with a valid choice; it fails exactly when a statement it runs fails or a token sum overflows |
| `Ledger.LedgerStore.SettleBalanceChange` | crates/llmpool/src/defer/tasks/balance_change.rs:17-143 | settles the change completely or leaves all tables as they were; settles exactly when it is pending, no statement fails and no token sum overflows |
| `Ledger.SettledInItsAmounts` | crates/llmpool/src/db/wallet.rs:95-132 | the wallet moves by the amount of the change, or the subscription by both spend amounts and both token counts; nothing else changes |
| `LedgerLaws.ChangesFrame` | crates/llmpool/src/db/wallet.rs:22-33 | no step removes a change, alters its account, id or content, or makes it unapplied |
| `LedgerLaws.WalletStep` | crates/llmpool/src/db/wallet.rs:95-132 | one step moves a wallet by exactly what it marks as applied to it |
| `LedgerLaws.UsageStep` | crates/llmpool/src/db/subscription.rs:298-317 | one step moves a subscription's usage by exactly the spend it marks with its id |
| `LedgerLaws.NetStep` | crates/llmpool/src/db/wallet.rs:95-132 | one step moves balance less used money by the change it applies, whoever pays |
| `LedgerLaws.WalletLedger` | crates/llmpool/src/db/wallet.rs:59-138 | over any run a balance is its start plus applied deposits and credits, less withdrawals and spends paid by the wallet |
| `LedgerLaws.UsageLedger` | crates/llmpool/src/db/subscription.rs:298-317 | over any run a subscription's money and tokens used are their start plus exactly the applied spends marked with its id |
| `LedgerLaws.NetLedger` | crates/llmpool/src/db/wallet.rs:59-138 | over any run the account as a whole moves by every change applied to it |
| `LedgerLaws.SettledAtMostOnce` | crates/llmpool/src/defer/tasks/balance_change.rs:68-75 | in any run with duplicate tasks a change is settled once if it became applied, else never |
| `LedgerLaws.ChangesPersist` | crates/llmpool/src/db/session_event.rs:136-148 | over any run a change stays, with its account, id and content, and stays applied |
| `LedgerLaws.QuotaKept` | crates/llmpool/src/db/subscription.rs:279-290 | a subscription within its token limit stays within it over any run |
| `LedgerLaws.OrderIndependence` | crates/llmpool/src/db/wallet.rs:95-115 | two histories that applied the same changes leave the account the same balance less used money |
| `LedgerLaws.PaidByWallet` | crates/llmpool/src/db/subscription.rs:279-290 | while no subscription is eligible for the changes of the account that are settled, the wallet pays for each |
| `LedgerLaws.UndatedNeverEligible` | crates/llmpool/src/db/subscription.rs:127-143 | subscriptions without both times, as the API creates them, are never eligible, whoever activates them |
| `LedgerLaws.InactiveNeverEligible` | crates/llmpool/src/db/subscription.rs:279-290 | nor are subscriptions that are inactive at the start and not activated |
| `LedgerLaws.EndedNeverEligible` | crates/llmpool/src/db/subscription.rs:284-285 | nor are any in runs whose settlements come when each subscription of the account has ended or not begun |
| `LedgerLaws.OrderIndependenceOfWallets` | crates/llmpool/src/db/wallet.rs:95-115 | with no eligible subscription in either of two histories that applied the same changes, the wallets are equal |
| `LedgerLaws.AppliedExactlySettled` | crates/llmpool/src/defer/tasks/balance_change.rs:61-101 | after a run of settlements the applied changes are those applied before and those settled |
| `LedgerLaws.SettlementOrderIrrelevant` | crates/llmpool/src/db/wallet.rs:95-115 | settling one set of changes in two orders, at any times and with any ties, gives the account the same value |
| `Interleaving.InvKept` | crates/llmpool/src/db/session_event.rs:109-117 | every interleaved step keeps: a locked change is unapplied, locked once, and no pending payment exceeds its quota |
| `Interleaving.CommittedAtMostOnce` | crates/llmpool/src/defer/tasks/balance_change.rs:42-101 | in any interleaving a change commits at most once, and exactly when it became applied |
| `Interleaving.QuotaKeptInterleaved` | crates/llmpool/src/db/subscription.rs:274-317 | in any interleaving of subscription reads and writes the token limit is kept |
| `Interleaving.SpendPaidWholeInterleaved` | crates/llmpool/src/db/wallet.rs:95-110 | in any interleaving a commit of a spend changes either one subscription, eligible and of maximal `sort_order` among the rows it saw, and no balance; or one wallet and no subscription, none of the rows seen being eligible |
| `Interleaving.CommitKeepsLedgerIff` | crates/llmpool/src/db/wallet.rs:67-71 | a commit keeps the ledger equations if and only if it writes nothing that was read before another commit changed it |
| `Interleaving.FreshCommitIsAtomic` | crates/llmpool/src/db/wallet.rs:117-132 | a commit of rows that are still current is the atomic settlement |
| `Interleaving.UpToDateKept` | crates/llmpool/src/db/wallet.rs:67-71 | without overlap on an account every row a worker has read stays current |
| `Interleaving.LedgerUnderExclusion` | crates/llmpool/src/defer/tasks/balance_change.rs:42-101 | if settlements of one account never overlap, all ledger equations hold over the run |
| `Interleaving.OverlapLosesADeposit` | crates/llmpool/src/db/wallet.rs:117-132 | a run in which two deposits overlap, both are marked applied and the wallet holds only one |
| `Events.PrintNatInjective` | crates/llmpool/src/defer/tasks/openai_event.rs:198 | decimal printing of an index loses nothing |
| `Events.KeysCollideIff` | crates/llmpool/src/defer/tasks/anthropic_event.rs:180-183 | over arbitrary session ids, two keys print alike if and only if provider, shown session and magnitude of the index agree |
| `Events.KeysInjective` | crates/llmpool/src/defer/tasks/openai_event.rs:198 | for session ids of one length, as UUIDs are, the printed key determines provider, session and index, negative ones too |
| `Events.SessionTracer.Add` | crates/llmpool/src/openai/session_tracer.rs:42-62 | queues the event under the current index and moves the index on, even when the push fails |
| `Events.IndexOfWraps` | crates/llmpool/src/openai/session_tracer.rs:42-46 | the index of the n-th event is n modulo 2^32 in the range of an `i32` |
| `Events.TracerKeysDistinct` | crates/llmpool/src/openai/session_tracer.rs:42-52 | up to 2^32 events of a session have distinct keys, and the first 2^31 strictly increasing indexes |
| `Events.UsageOfPayload` | crates/llmpool/src/defer/tasks/openai_event.rs:23-68 | each payload's own prompt and completion counts become input and output tokens; other payloads carry no usage |
| `Events.PrintedKeys` | crates/llmpool/src/defer/tasks/openai_event.rs:198 | the printed request ids of the two providers |
| `Billing.EventWorker.HandleEvent` | crates/llmpool/src/defer/tasks/openai_event.rs:78-274 | one delivery rolls back, records, or records and bills; it rolls back exactly when a statement fails or a priced event's key is taken; what is recorded and charged is in `UpsertedRowInItsFields` and `ChargeOfPayload` |
| `Billing.ChargeOfPayload` | crates/llmpool/src/defer/tasks/openai_event.rs:169-195 | each payload is charged its own input count times the input price plus its output count times the output price, the batch prices for a batch, nothing for an embedding's output, to the account of the event |
| `Billing.UpsertedRowInItsFields` | crates/llmpool/src/db/session_event.rs:31-53 | a first insert takes the event's account, model and key, a repeat keeps them; prices and counts are those of this delivery |
| `Billing.HandleEventIsAction` | crates/llmpool/src/defer/tasks/anthropic_event.rs:59-259 | whatever the worker method does to its tables is one action of the pipeline |
| `Billing.AddIsEmit` | crates/llmpool/src/openai/session_tracer.rs:42-62 | recording an event is one action of the pipeline, which touches only the event queue and the history |
| `Billing.SettleBalanceChangeIsAction` | crates/llmpool/src/defer/tasks/balance_change.rs:17-143 | whatever the settling method does to the ledger tables is one action of the pipeline |
| `Billing.BilledOnce` | crates/llmpool/migrations/20260319000001_initial_schema.sql:92 | an event that has been billed cannot be billed again |
| `Billing.BillingInvKept` | crates/llmpool/src/defer/tasks/openai_event.rs:132-241 | every action keeps: unique request ids, and each spend is the exact charge of one recorded event |
| `Billing.AtMostOneChangePerEvent` | crates/llmpool/src/db/session_event.rs:136-148 | in any run two changes carrying the keys of recorded events are the same change exactly when the events are the same |
| `Billing.AppliedSpendIsBilledCost` | crates/llmpool/src/defer/tasks/openai_event.rs:169-195 | the applied spends of an account are its billed events, each once, at the quoted price |
| `Billing.AppliedSpendBounded` | crates/llmpool/src/defer/tasks/anthropic_event.rs:150-230 | with prices and token counts that are not negative, applied spend never exceeds the quoted cost of the account's distinct events |
| `Billing.QuotesPersist` | crates/llmpool/src/defer/tasks/openai_event.rs:169-195 | once an event is billed its prices and its change never change |
| `Billing.QuotedAtCommit` | crates/llmpool/src/defer/tasks/openai_event.rs:169-195 | the price charged is the model's, batch price for a batch, in the state in which the change was committed |
| `ConcurrentBilling.InvKept` | crates/llmpool/src/defer/tasks/balance_change.rs:42-120 | every action of the pipeline with interleaved settlements keeps the billing invariant and the locks |
| `ConcurrentBilling.AppliedSpendIsBilledCost` | crates/llmpool/src/defer/tasks/openai_event.rs:132-241 | however settlements interleave, the applied spends of an account are its billed events, each once, as quoted |
| `ConcurrentBilling.EndToEndBilling` | crates/llmpool/src/defer/tasks/openai_event.rs:132-241 | if settlements of one account never overlap, under any redelivery, rollback and loss the account moves by its funding less the quoted cost of each billed event once |
| `Billing.BilledIffGoodDelivery` | crates/llmpool/src/defer/tasks/openai_event.rs:132-241 | over any run an event is billed if and only if some delivery of it had no failing statement, its model row and no change holding its key |
| `Billing.AppliedIffGoodSettlement` | crates/llmpool/src/defer/tasks/balance_change.rs:42-120 | over any run a change is applied if and only if some delivery of its settlement had no failing statement and no token overflow |
| `Billing.ChargedIff` | crates/llmpool/src/defer/tasks/openai_event.rs:132-241 | an event with usage has been charged if and only if it had a good delivery and its change a good settlement |
| `Billing.LeftTheQueueReturned` | crates/llmpool/src/defer/tasks/openai_event.rs:218-274 | when every push succeeded, an event no longer queued was handled by a worker that returned |
| `Billing.DrainedBilling` | crates/llmpool/src/defer/tasks/openai_event.rs:218-241 | when pushes succeeded, queues are drained and nothing went wrong for a worker that returned, the account has paid exactly the cost of all its events with usage, whatever crashed |
| `Billing.MissingModelEndsUnbilled` | crates/llmpool/src/openai/proxy_views/batches.rs:268-299 | an event whose model row is missing ends unbilled, with every push successful and both queues drained |
| `Billing.TakenKeyBlocksBilling` | crates/llmpool/src/views/admin_rest_api.rs:1565-1655 | a funding change whose request id equals an event's key keeps that event unbilled in every run |
| `Billing.DepositUnderAnEventsKey` | crates/llmpool/src/views/admin_rest_api.rs:1565-1655 | a run without faults in which a session's first event is recorded, a deposit takes the key of its next, and that one is lost |
| `Funding.FundingDesk.Create` | crates/llmpool/src/views/admin_rest_api.rs:1670-1795 | records a change exactly for a positive amount, a known account, a covered withdrawal, a free request id and no failed statement; schedules it exactly unless the push fails |
| `Funding.CreateIsAction` | crates/llmpool/src/views/admin_rest_api.rs:1670-1795 | what such a request does is one action of the billing pipeline |
| `Funding.WithdrawalsCoveredIff` | crates/llmpool/src/views/admin_rest_api.rs:1703-1736 | pending withdrawals settled together leave the balance non-negative if and only if it covers their sum |
| `Funding.TwoWithdrawalsOverdraw` | crates/llmpool/src/views/admin_rest_api.rs:1703-1736 | two withdrawals that both pass the check and are settled leave a negative balance |
| `Streams.TasksAreTheKeptEvents` | crates/llmpool/src/openai/session_tracer.rs:42-62 | a session's queued tasks are exactly its events whose push succeeded |
| `Streams.TasksCarryTheSession` | crates/llmpool/src/openai/session_tracer.rs:42-62 | every queued task has its tracer's session, account, model and key, and one of the events under its index |
| `Streams.ChunkEvents` | crates/llmpool/src/openai/proxy_views/chat_completions.rs:154-198 | the chunks before the first error are logged in order with their usage, and nothing else that carries usage |
| `Streams.StreamedUsageCount` | crates/llmpool/src/openai/proxy_views/chat_completions.rs:154-198 | a streamed completion records usage once for every chunk with usage before the first error |
| `Streams.TransformStreamWithLogging` | crates/llmpool/src/openai/proxy_views/chat_completions.rs:154-198 | queues every chunk before the first error, then the end of the stream unless the client left |
| `Streams.RecordsStopsExtended` | crates/llmpool/src/anthropic/proxy_views/messages.rs:404-432 | one more event extends the records by one exactly when it is a MessageStop |
| `Streams.StopAt` | crates/llmpool/src/anthropic/proxy_views/messages.rs:426-432 | every record belongs to a MessageStop of the stream |
| `Streams.LatestInputIsLastStart` | crates/llmpool/src/anthropic/proxy_views/messages.rs:404-425 | the input count recorded is that of the last MessageStart, 0 without one |
| `Streams.LatestOutputIsLastDelta` | crates/llmpool/src/anthropic/proxy_views/messages.rs:404-425 | the output count recorded is that of the last MessageDelta, 0 without one |
| `Streams.RecordsDetermined` | crates/llmpool/src/anthropic/proxy_views/messages.rs:404-432 | the events of a stream leave one possible list of usage records |
| `Streams.TransformSdkStream` | crates/llmpool/src/anthropic/proxy_views/messages.rs:396-451 | queues one record for each MessageStop before the first error, with the latest MessageStart input and MessageDelta output; none for a stream cut before |
| `Streams.OneMessageRecorded` | crates/llmpool/src/anthropic/proxy_views/messages.rs:404-432 | a stream of one message records its input and its output count, once |
| `Failover.Proxy.Attempt` | crates/llmpool/src/openai/proxy_views/chat_completions.rs:110-151 | one attempt records its request, then its answer, in a new session; a network error schedules one offline mark |
| `Failover.Proxy.Send` | crates/llmpool/src/anthropic/proxy_views/messages.rs:184-301 | tries the clients in order, once each, up to the first success; fails exactly if all refuse; a stream opened is of the caller's account and key and the model tried; never reaches the end of the loop |
| `Failover.OfflineIffNetworkError` | crates/llmpool/src/openai/proxy_views/chat_completions.rs:65-86 | an upstream is scheduled offline if and only if an attempt on it met a network error |
| `Failover.MarksInOrder` | crates/llmpool/src/openai/proxy_views/chat_completions.rs:65-86 | there is one mark for each attempt that met a network error, in their order |
| `Failover.TasksAreTheCallers` | crates/llmpool/src/openai/proxy_views/chat_completions.rs:52-58 | every task queued is for the caller's account and API key, in the session and for the model of one attempt, and is its request or its answer |
| `Failover.RequestEventKinds` | crates/llmpool/src/anthropic/proxy_views/messages.rs:184-301 | what is recorded of a request by provider and kind |
| `Failover.OnlyTheAnswerIsBillable` | crates/llmpool/src/openai/proxy_views/chat_completions.rs:52-151 | of everything the attempts queue only the returned answer can carry usage |
| `Failover.RequestChargedAtMostOnce` | crates/llmpool/src/openai/proxy_views/chat_completions.rs:52-151 | under any redelivery a request that is not streamed is charged at most once, for its answer, to its own account, key, session and model |
| `UsageCounters.ExactAfterIncrement` | crates/llmpool/src/redis_utils/counters.rs:70-87 | an increment keeps the counters exact for the running hour, even when its EXPIRE fails |
| `UsageCounters.CountedTotals` | crates/llmpool/src/redis_utils/counters.rs:49-88 | counting an event adds its tokens to its model's two counters of that hour and to no other |
| `UsageCounters.HoursAre3600Seconds` | crates/llmpool/src/redis_utils/counters.rs:64-87 | an hour of the counters is 3600 seconds from a multiple of them |
| `UsageCounters.IncrementedInItsFields` | crates/llmpool/src/redis_utils/counters.rs:64-87 | an increment adds its tokens and ends the counter 3600 seconds from now; a failed EXPIRE leaves the expiry |
| `UsageCounters.TokenCounters.IncrementTokenUsage` | crates/llmpool/src/redis_utils/counters.rs:49-88 | the history grows by exactly the increments that reached Redis, and the counters stay exact |
| `UsageCounters.TokenCounters.RemoveExpired` | crates/llmpool/src/redis_utils/counters.rs:70-87 | removing an expired key loses nothing of the running hour |
| `UsageCounters.TokenCounters.GetOutputTokenUsageBatch` | crates/llmpool/src/redis_utils/counters.rs:14-40 | reads for each model the sum of that hour's increments, or zeros without an answer; the list is empty exactly for one key not counted this hour whose nil reply gives no values |
| `UpstreamSelection.FindModels` | crates/llmpool/src/db/llm.rs:725-759 | returns exactly the active models of the name and feature on online upstreams of the provider; each once and in the order of the scan by `FoundInOrder` |
| `UpstreamSelection.FoundInOrder` | crates/llmpool/src/db/llm.rs:731-758 | the answer has each row of the table at most once, in the order of the scan |
| `UpstreamSelection.FoundOnce` | crates/llmpool/src/db/llm.rs:731-758 | with distinct model ids no model is in it twice |
| `UpstreamSelection.OfflineUpstreamIsSkipped` | crates/llmpool/src/db/llm.rs:189-195 | an offline mark removes that upstream's models from every answer and no others |
| `UpstreamSelection.RankOrders` | crates/llmpool/src/openai/proxy_views/helpers.rs:239-240 | rank orders candidates by usage and equal usage by the order of the answer, and is injective |
| `UpstreamSelection.SortedAtRank` | crates/llmpool/src/openai/proxy_views/helpers.rs:239 | the stable sort puts every candidate at its rank |
| `UpstreamSelection.SortByUsage` | crates/llmpool/src/openai/proxy_views/helpers.rs:236-239 | lists all candidates, by usage and equal usage in the order of the answer |
| `UpstreamSelection.SelectModelClients` | crates/llmpool/src/openai/proxy_views/helpers.rs:199-262 | the candidates of the lowest ranks by this hour's counted output tokens, in that order, with their own ids, and as many as asked or there are exactly unless the reply drops the only one |
| `UpstreamSelection.SelectionIsDetermined` | crates/llmpool/src/anthropic/proxy_views/helpers.rs:69-125 | the answer of the query and the usages leave one possible selection |
| `UpstreamSelection.NoModelIsChosenTwice` | crates/llmpool/src/openai/proxy_views/helpers.rs:236-261 | with distinct model ids in the table no two clients are of one model |
| `UpstreamSelection.NoneLeftOutIsLessUsed` | crates/llmpool/src/openai/proxy_views/helpers.rs:239-240 | no candidate left out is less used than one chosen, and among equals it comes later |
| `RateLimit.WindowBound` | crates/llmpool/src/middlewares/rate_limit.rs:64-120 | no window of the configured length admits more than the maximum, wherever it lies |
| `RateLimit.SeenIsRecent` | crates/llmpool/src/middlewares/rate_limit.rs:69-80 | trim and expiry lose no attempt of the current window |
| `RateLimit.CheckAgrees` | crates/llmpool/src/middlewares/rate_limit.rs:69-120 | whatever commands fail, the set agrees with the list of recorded attempts for every window ending now or later |
| `RateLimit.CheckExpiresLate` | crates/llmpool/src/middlewares/rate_limit.rs:104-112 | the key goes on expiring a window after its entries unless an attempt was recorded and its expiry not refreshed |
| `RateLimit.RateLimiter.Check` | crates/llmpool/src/middlewares/rate_limit.rs:46-123 | a valid key answers as the list of attempts, rejected ones included, and stays valid unless only the count or the expiry fails; a failed command lets the request through; the set then holds this attempt and those of the last window |
| `RateLimit.FailedExpireLetsAThirdThrough` | crates/llmpool/src/middlewares/rate_limit.rs:104-112 | a client with a failed EXPIRE passes a third time within a window of two |
| `RateLimit.ExpiryInvisibleIff` | crates/llmpool/src/middlewares/rate_limit.rs:104-112 | the expiry is invisible at all times if and only if it lies a window after every entry |
| `RateLimitRace.StandingBounded` | crates/llmpool/src/middlewares/rate_limit.rs:69-120 | in any interleaving the admitted requests whose entries are still in the set never exceed the maximum |
| `RateLimitRace.IntactKeptIffHarmless` | crates/llmpool/src/middlewares/rate_limit.rs:69-80 | the windows of requests on their way lose no attempt exactly through steps that remove none of theirs |
| `RateLimitRace.WindowBoundInterleaved` | crates/llmpool/src/middlewares/rate_limit.rs:69-120 | in any interleaving of such steps no window admits more than the maximum |
| `RateLimitRace.WindowBoundInOrder` | crates/llmpool/src/middlewares/rate_limit.rs:64-120 | nor in any interleaving whose trims come in the order of the stamps |
| `RateLimitRace.AtomicCheckInOrder` | crates/llmpool/src/middlewares/rate_limit.rs:64-120 | checks that do not overlap on a clock that never goes back are such an interleaving |
| `RateLimitRace.AtomicCheckInItsFields` | crates/llmpool/src/middlewares/rate_limit.rs:64-120 | a check that is not interleaved leaves its attempt and those of the last window, and passes exactly when they are at most the maximum |
| `RateLimitRace.CountsAllIffIntact` | crates/llmpool/src/middlewares/rate_limit.rs:88-120 | a request that goes on undisturbed counts every attempt of its window if and only if none was removed, else fewer |
| `RateLimitRace.OvertakingTrimBreaksBoundIff` | crates/llmpool/src/middlewares/rate_limit.rs:69-120 | when a window is full and a late request trims before a held-up one, the window admits one too many if and only if the trim removed attempts of the held-up request's window, for all limits and stamps |
| `RateLimitRace.HeldUpRequestEscapesWindow` | crates/llmpool/src/middlewares/rate_limit.rs:69-120 | a trim out of order admits two requests five seconds apart under a limit of one in ten seconds |
| `TtlCache.InvKept` | crates/llmpool/src/redis_utils/caches/api_key.rs:61-86 | every step keeps: each cached value was read from the table, and expires within ttl and delay of that read |
| `TtlCache.Staleness` | crates/llmpool/src/redis_utils/caches/wallet.rs:18-71 | over any run a value the cache returns was true of the table less than ttl plus delay ago |
| `ApiAuth.AuthGate.Authenticate` | crates/llmpool/src/middlewares/api_auth.rs:54-224 | a hit decides from the cache; a miss decides as the database and fills the cache, for 900 s, exactly when it accepts; it accepts only an active key of an active account |
| `ApiAuth.DbDecisionInItsFields` | crates/llmpool/src/middlewares/api_auth.rs:141-223 | what the database decides for each state of key and account |
| `ApiAuth.CacheDecisionInItsFields` | crates/llmpool/src/middlewares/api_auth.rs:79-130 | a cached info is accepted exactly when it is of this key, active, and of an active account |
| `ApiAuth.AuthGate.DeleteApikey` | crates/llmpool/src/views/admin_rest_api.rs:793-816 | deactivates the row, then drops the entry unless that or the decryption of the row fails |
| `ApiAuth.InfoDecidesAlike` | crates/llmpool/src/middlewares/api_auth.rs:79-130 | an info cached now decides as the database it was read from |
| `ApiAuth.AuthenticateIsRun` | crates/llmpool/src/middlewares/api_auth.rs:229-395 | a request's decision, also when its cache read fails, is the world's answer, and its cache fill a run of the world |
| `ApiAuth.DeleteIsRun` | crates/llmpool/src/views/admin_rest_api.rs:793-816 | a deletion whose cache delete succeeds is a run that leaves the key revoked |
| `ApiAuth.AnswerStaleness` | crates/llmpool/src/redis_utils/caches/api_key.rs:61-86 | every decision equals the database's at some instant of the last 900 s, plus the time between a lookup and its cache fill |
| `ApiAuth.AnswersWithin900Seconds` | crates/llmpool/src/redis_utils/caches/api_key.rs:8 | the bound of `AnswerStaleness` is 900 seconds plus that delay |
| `ApiAuth.FilledEntryIsGoneAfter900Seconds` | crates/llmpool/src/redis_utils/caches/api_key.rs:61-86 | an entry filled now is no longer hit 900 seconds later |
| `ApiAuth.DeadNeverAccepted` | crates/llmpool/src/middlewares/api_auth.rs:79-223 | a key that is inactive, uncached and on its way to no cache fill is accepted in no later run |
| `ApiAuth.RevokedForGoodIff` | crates/llmpool/src/redis_utils/caches/api_key.rs:89-102 | after a deactivation with a successful cache delete the key is never accepted again if and only if no fill of it is under way |
| `ApiAuth.LookupOutlivesRevocation` | crates/llmpool/src/middlewares/api_auth.rs:150-210 | from any state with a good key a run deactivates it, drops its entry, and leaves a fill of it under way |
| `WalletGate.WalletCache.CheckWalletBalance` | crates/llmpool/src/openai/proxy_views/helpers.rs:26-79 | judges the cached wallet, else the database's; passes only on a positive balance of one of them |
| `WalletGate.JudgedByBalance` | crates/llmpool/src/openai/proxy_views/helpers.rs:26-79 | a wallet passes exactly when its balance is positive, a missing one never |
| `WalletGate.CheckIsAnswer` | crates/llmpool/src/openai/proxy_views/helpers.rs:26-79 | the verdict, also when the cache read fails, is the answer of the cache-and-table world |
| `WalletGate.SetWalletInfoIsStep` | crates/llmpool/src/redis_utils/caches/wallet.rs:47-71 | a cache write is the store of a committed wallet, or its loss, in that world |
| `WalletGate.GateStaleness` | crates/llmpool/src/redis_utils/caches/wallet.rs:47-71 | whatever reads and writes fail, the verdict is the database's at some instant of the last 300 s, plus the delay between reading the published row and its write |
| `WalletGate.JudgedWithin300Seconds` | crates/llmpool/src/redis_utils/caches/wallet.rs:8 | the bound of `GateStaleness` is 300 seconds plus that delay |
| `WalletGate.PublishedEntryIsGoneAfter300Seconds` | crates/llmpool/src/redis_utils/caches/wallet.rs:47-71 | a wallet published now is no longer hit 300 seconds later |
| `WalletGate.StoreIsRowIff` | crates/llmpool/src/defer/tasks/balance_change.rs:119-143 | a store leaves the row in the cache if and only if the row has not changed since the store's read |
| `WalletGate.CachedIsRowIff` | crates/llmpool/src/redis_utils/caches/wallet.rs:47-71 | over any run a cached wallet is the row if and only if the row is what it was when the wallet was read |
| `WalletGate.CachedSinceRead` | crates/llmpool/src/defer/tasks/balance_change.rs:119-143 | so it is when no commit of that account came after the read of the cached wallet |
| `WalletGate.ReorderedWritesMislead` | crates/llmpool/src/defer/tasks/balance_change.rs:119-143 | a run with two writes out of order refuses an account whose balance is positive |
| `Publication.PublicationIsRowIff` | crates/llmpool/src/db/wallet.rs:117-135 | with commit and cache write in one step, a publication is the row if and only if it changed or inserted the wallet or the row read is still current |
| `Publication.CachedIsRowIff` | crates/llmpool/src/defer/tasks/balance_change.rs:90-143 | over any run of interleaved settlements, with writes that may fail, whether a cached wallet is the row follows from those conditions at its publications |
| `Publication.GateAnswersAsDatabase` | crates/llmpool/src/defer/tasks/balance_change.rs:119-143 | if settlements of one account never overlap and all writes succeed, a cached wallet is the row and the gate answers as the database |
| `Publication.StalePublication` | crates/llmpool/src/db/wallet.rs:67-71 | a run of two overlapping settlements, all writes successful, after which the gate refuses an account that holds 5 |
| `CursorWalk.ListSessionEvents` | crates/llmpool/src/views/admin_rest_api.rs:2121-2162 | fetching one row more and truncating gives the page cut from all matching rows |
| `CursorWalk.ClampInNumbers` | crates/llmpool/src/views/admin_rest_api.rs:2125-2126 | a page holds between 1 and 100 rows, as many as asked for within these |
| `CursorWalk.PageHolds` | crates/llmpool/src/db/session_event.rs:66-94 | a page holds exactly the matching rows up to its next id, all of them when nothing follows |
| `CursorWalk.PageHoldsInItsFields` | crates/llmpool/src/db/session_event.rs:66-94 | a row is on the page only if its id is above the start and it is of the session asked for; such a row is on the page or behind it while more follows |
| `CursorWalk.CollectedInOrder` | crates/llmpool/src/views/admin_rest_api.rs:2145-2150 | however the table changes, a walk returns matching rows in id order and none twice |
| `CursorWalk.ReturnedIffSeenInTime` | crates/llmpool/src/db/session_event.rs:66-94 | a finished walk returns a row if and only if it matches and was there when the page covering its id was read |
| `CursorWalk.LateRowIsSkipped` | crates/llmpool/src/views/admin_rest_api.rs:2125-2160 | a finished walk that never returns a matching row committed behind its cursor |
| `CursorWalk.AppendsSkipNothing` | crates/llmpool/src/views/admin_rest_api.rs:2125-2160 | with rows only appended under larger ids, every matching row of the last snapshot read is returned |
| `CursorWalk.WalkReturnsEverything` | crates/llmpool/src/views/admin_rest_api.rs:2125-2160 | on a table at rest the walk ends after the pages needed and returns every matching row once, in order |
| `FilterQuery.PushConditions` | crates/llmpool/src/db/llm.rs:516-536 | writes one condition for each given field, with placeholders 1 to k |
| `FilterQuery.BindValues` | crates/llmpool/src/db/llm.rs:542-555 | binds one value for each given field, in the same order |
| `FilterQuery.PassesMean` | crates/llmpool/src/db/llm.rs:458-501 | the two passes together hold of a row exactly when every given field agrees with it |
| `FilterQuery.FilteredInItsFields` | crates/llmpool/src/db/llm.rs:504-556 | a row is asked for exactly when every given field agrees with it, and as often as it is in the table |
| `FilterQuery.FilteredInOrder` | crates/llmpool/src/db/llm.rs:504-556 | the rows asked for keep the order of the table |
| `FilterQuery.CountModelsFiltered` | crates/llmpool/src/db/llm.rs:458-501 | counts exactly the rows the filter asks for |
| `FilterQuery.ListModelsFilteredPaginated` | crates/llmpool/src/db/llm.rs:504-556 | returns that slice of the rows asked for, with LIMIT at k+1 and OFFSET at k+2; refuses negative ones |
| `FilterQuery.PagesAreTheRows` | crates/llmpool/src/db/llm.rs:504-556 | enough pages one after the other are the counted rows, each once |

## Left out

- HTTP handlers, routing, SSE framing, SDK calls, header filtering, proxy choice: an upstream is only its outcome (answer, stream, network error, other error).
- Encryption, hashing, JWT, UUIDs: hashes are injective, session ids and rate-limit members unique.
- Postgres and Redis beyond commit and rollback, the row lock, unique indexes, NULL comparisons and expiry; foreign keys and the loss of UNLOGGED tables in a crash.
- The Redis client library: what it makes of a nil reply to a one-key read is a parameter.
- The text of SQL statements: a built query is its list of conditions, placeholders and bound values.
- JSON serialization of change contents: carried as a datatype.
- The queue library: only that a task may be delivered again.
- The hourly counters are bumped by the event worker once per delivery, so they are not idempotent; they are modelled apart, in `UsageCounters`, and not as part of the pipeline's runs.
- ApiAuth.AuthGate.Authenticate: its two lookups, credential and account, are read at one instant; the `expires_at` column is ignored, as in the code.
- Key creation also reads the account before it inserts the key; both are taken at one instant.
- Account updates do not drop cached keys in the code; they are covered only by the 900 s of `AnswerStaleness`.
- GET on a batch or response opens a new session and records its usage again; at-most-once is per session and index.
- The composition of the two limits in the rate-limit middleware, and client address extraction.
- Serialization failures of single stream chunks, which are logged but not forwarded.
- Upstream health checks, tags, subscription plans, offset-page arithmetic, id mapping of files, batches and responses: easy members beside the ledger.
- The account cache: nothing on the request path reads it.
