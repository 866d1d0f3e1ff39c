/**
 From recorded events to money: the event worker, the queues that may redeliver, and what every
 run of the whole pipeline bills.
 */
module Billing {
  import opened Models
  import opened Sums
  import opened Ledger
  import opened LedgerLaws
  import opened Events

  // ---------------------------------------------------------------- the event worker

  datatype LLMModel = LLMModel(
    inputTokenPrice: Money,
    outputTokenPrice: Money,
    batchInputTokenPrice: Money,
    batchOutputTokenPrice: Money)

  datatype SessionEvent = SessionEvent(
    id: int,
    accountId: int,
    modelId: int,
    apiKeyId: int,
    inputTokenPrice: Money,
    inputTokens: int,
    outputTokenPrice: Money,
    outputTokens: int,
    data: EventData)

  function Times(price: Money, tokens: int): Money {
    price * (tokens as real)
  }

  function InputPrice(model: LLMModel, usage: UsageInfo): Money {
    if usage.isBatch then model.batchInputTokenPrice else model.inputTokenPrice
  }

  function OutputPrice(model: LLMModel, usage: UsageInfo): Money {
    if usage.isBatch then model.batchOutputTokenPrice else model.outputTokenPrice
  }

  /** `INSERT ... ON CONFLICT (session_id, session_index) DO UPDATE`: account, model and key stay. */
  function UpsertedRow(events: map<(string, int), SessionEvent>, task: EventTask, model: Option<LLMModel>,
                       freshId: int): SessionEvent
  {
    var usage := ExtractUsage(task.data);
    var key := (task.sessionId, task.sessionIndex);
    var row := if key in events then events[key]
               else SessionEvent(freshId, task.accountId, task.modelId, task.apiKeyId, 0.0, 0, 0.0, 0, task.data);
    row.(
      data := task.data,
      inputTokenPrice := if model.Some? then model.value.inputTokenPrice else 0.0,
      inputTokens := if usage.Some? then usage.value.inputTokens else 0,
      outputTokenPrice := if model.Some? then model.value.outputTokenPrice else 0.0,
      outputTokens := if usage.Some? then usage.value.outputTokens else 0)
  }

  function ChargeContent(model: LLMModel, usage: UsageInfo, eventId: int): Content {
    var inputPrice, outputPrice := InputPrice(model, usage), OutputPrice(model, usage);
    Spend(SpendToken(
      usage.inputTokens, inputPrice, Times(inputPrice, usage.inputTokens),
      usage.outputTokens, outputPrice, Times(outputPrice, usage.outputTokens),
      usage.totalTokens, eventId))
  }

  predicate Priced(models: map<int, LLMModel>, task: EventTask) {
    ExtractUsage(task.data).Some? && task.modelId in models
  }

  predicate KeyTaken(changes: map<int, BalanceChange>, requestId: string) {
    exists id :: id in changes && changes[id].uniqueRequestId == requestId
  }

  /** The balance change an event becomes. */
  function BillingStep(models: map<int, LLMModel>, task: EventTask, row: SessionEvent, changeId: int): LedgerLaws.Step
    requires Priced(models, task)
  {
    InsertChange(changeId, task.accountId, PrintKey(KeyOf(task)),
                 ChargeContent(models[task.modelId], ExtractUsage(task.data).value, row.id))
  }

  /** The session row of an event: a first insert takes everything, a repeat keeps account, model and key. */
  lemma UpsertedRowInItsFields(events: map<(string, int), SessionEvent>, task: EventTask, model: Option<LLMModel>,
                               freshId: int)
    ensures var key, row := (task.sessionId, task.sessionIndex), UpsertedRow(events, task, model, freshId);
            && row.data == task.data
            && (model.Some? ==>
                  && row.inputTokenPrice == model.value.inputTokenPrice
                  && row.outputTokenPrice == model.value.outputTokenPrice)
            && (model.None? ==> row.inputTokenPrice == 0.0 && row.outputTokenPrice == 0.0)
            && (ExtractUsage(task.data).Some? ==>
                  && row.inputTokens == ExtractUsage(task.data).value.inputTokens
                  && row.outputTokens == ExtractUsage(task.data).value.outputTokens)
            && (ExtractUsage(task.data).None? ==> row.inputTokens == 0 && row.outputTokens == 0)
            && if key in events
               then && row.id == events[key].id && row.accountId == events[key].accountId
                    && row.modelId == events[key].modelId && row.apiKeyId == events[key].apiKeyId
               else && row.id == freshId && row.accountId == task.accountId
                    && row.modelId == task.modelId && row.apiKeyId == task.apiKeyId
  {
  }

  /** The spend of a charge: each count times its price. */
  predicate Charges(c: BalanceChange, inputTokens: int, inputPrice: Money, outputTokens: int, outputPrice: Money) {
    && c.content.Spend?
    && var spend := c.content.spend;
       && spend.inputTokens == inputTokens && spend.outputTokens == outputTokens
       && spend.inputTokenPrice == inputPrice && spend.outputTokenPrice == outputPrice
       && spend.inputSpendAmount == inputPrice * (inputTokens as real)
       && spend.outputSpendAmount == outputPrice * (outputTokens as real)
       && SpendAmount(spend) == inputPrice * (inputTokens as real) + outputPrice * (outputTokens as real)
  }

  /**
   What each payload is charged, in its own counts and the model's own prices: the batch prices for
   a batch, nothing for the output of an embedding.
   */
  lemma ChargeOfPayload(before: WorkerView, after: WorkerView, task: EventTask, handled: Handled)
    requires HandledAs(before, after, task, handled) && handled.Billed?
    ensures handled.changeId in after.db.changes && task.modelId in before.models
    ensures var c, m := after.db.changes[handled.changeId], before.models[task.modelId];
            && c.accountId == task.accountId && !c.isApplied
            && c.uniqueRequestId == (if task.data.OpenAI? then "spendtoken-" else "anthropic-spendtoken-")
                                    + task.sessionId + "-" + PrintInt(task.sessionIndex)
            && c.content.Spend? && c.content.spend.eventId == handled.row.id
            && ExtractUsage(task.data).Some?
            && c.content.spend.totalTokens == ExtractUsage(task.data).value.totalTokens
            && match task.data
               case OpenAI(CreateChatCompletionResponse(Some(u))) =>
                 Charges(c, u.inputTokens, m.inputTokenPrice, u.outputTokens, m.outputTokenPrice)
               case OpenAI(CreateChatCompletionStreamResponse(Some(u))) =>
                 Charges(c, u.inputTokens, m.inputTokenPrice, u.outputTokens, m.outputTokenPrice)
               case OpenAI(ImagesResponse(Some(u))) =>
                 Charges(c, u.inputTokens, m.inputTokenPrice, u.outputTokens, m.outputTokenPrice)
               case OpenAI(ResponsesResponse(Some(u))) =>
                 Charges(c, u.inputTokens, m.inputTokenPrice, u.outputTokens, m.outputTokenPrice)
               case OpenAI(Batch(Some(u))) =>
                 Charges(c, u.inputTokens, m.batchInputTokenPrice, u.outputTokens, m.batchOutputTokenPrice)
               case OpenAI(CreateEmbeddingResponse(prompt, _)) =>
                 Charges(c, prompt, m.inputTokenPrice, 0, m.outputTokenPrice)
               case Anthropic(CreateMessageResponse(input, output)) =>
                 InI64(input) && InI64(output) ==> Charges(c, input, m.inputTokenPrice, output, m.outputTokenPrice)
               case Anthropic(CreateMessageStreamResponseDone(input, output)) =>
                 InI64(input) && InI64(output) ==> Charges(c, input, m.inputTokenPrice, output, m.outputTokenPrice)
               case _ => false
  {
    UsageOfPayload(task.data);
  }

  /** The delivery ends without a commit: a statement fails or the unique index refuses the change. */
  predicate Thwarted(models: map<int, LLMModel>, changes: map<int, BalanceChange>, task: EventTask,
                     faults: set<EventFault>)
  {
    || BeginFails in faults || UpsertFails in faults || CommitFails in faults
    || (Priced(models, task) && (InsertFails in faults || KeyTaken(changes, PrintKey(KeyOf(task)))))
  }

  datatype EventFault = BeginFails | UpsertFails | InsertFails | CommitFails | PushFails

  /** `Recorded` stores only the session event; `Billed` also a balance change. */
  datatype Handled = RolledBack | Recorded(row: SessionEvent) | Billed(row: SessionEvent, changeId: int, pushed: bool)

  /** The tables and the queue an event worker writes to. */
  datatype WorkerView = WorkerView(
    db: Db,
    models: map<int, LLMModel>,
    sessionEvents: map<(string, int), SessionEvent>,
    settleQueue: multiset<int>)

  ghost predicate HandledAs(before: WorkerView, after: WorkerView, task: EventTask, handled: Handled) {
    && after.models == before.models
    && (handled.RolledBack? ==> after == before)
    && (!handled.RolledBack? ==>
        after.sessionEvents == before.sessionEvents[(task.sessionId, task.sessionIndex) := handled.row])
    && (handled.Recorded? ==>
        !Priced(before.models, task) && after.db == before.db && after.settleQueue == before.settleQueue)
    && (handled.Billed? ==>
      && Priced(before.models, task)
      && Writable(before.db, BillingStep(before.models, task, handled.row, handled.changeId))
      && after.db == LedgerLaws.Next(before.db, BillingStep(before.models, task, handled.row, handled.changeId))
      && after.settleQueue == before.settleQueue + if handled.pushed then multiset{handled.changeId} else multiset{})
  }

  class EventWorker {
    const ledger: LedgerStore
    var models: map<int, LLMModel>
    var sessionEvents: map<(string, int), SessionEvent>
    var nextEventId: int
    var settleQueue: multiset<int>

    constructor (ledger: LedgerStore, models: map<int, LLMModel>)
      ensures this.ledger == ledger && this.models == models
      ensures sessionEvents == map[] && settleQueue == multiset{}
    {
      this.ledger, this.models := ledger, models;
      sessionEvents, nextEventId, settleQueue := map[], 1, multiset{};
    }

    function View(): WorkerView
      reads this, ledger
    {
      WorkerView(ledger.State(), models, sessionEvents, settleQueue)
    }

    /**
     Handles one delivery of an event. The change is pushed only after the commit, and every
     earlier return rolls back.
     */
    method HandleEvent(task: EventTask, faults: set<EventFault>) returns (handled: Handled)
      requires ledger.Valid()
      modifies this`sessionEvents, this`nextEventId, this`settleQueue, ledger
      ensures ledger.Valid()
      ensures HandledAs(old(View()), View(), task, handled)
      ensures !handled.RolledBack? ==>
          handled.row == UpsertedRow(old(sessionEvents), task, Lookup(models, task.modelId), old(nextEventId))
      ensures nextEventId == old(nextEventId) +
        if BeginFails in faults || UpsertFails in faults || (task.sessionId, task.sessionIndex) in old(sessionEvents)
            then 0 else 1
      ensures handled.Billed? ==> (handled.pushed <==> PushFails !in faults)
      ensures BeginFails in faults || UpsertFails in faults || CommitFails in faults ==> handled.RolledBack?
      ensures InsertFails in faults || ExtractUsage(task.data).None? || task.modelId !in models ==> !handled.Billed?
      ensures handled.Recorded? ==> ExtractUsage(task.data).None? || task.modelId !in models
      ensures handled.RolledBack? && faults == {} ==>
        exists id :: && id in old(ledger.balanceChanges)
                     && old(ledger.balanceChanges)[id].uniqueRequestId == PrintKey(KeyOf(task))
      ensures handled.RolledBack? <==> Thwarted(models, old(ledger.balanceChanges), task, faults)
    {
      var usage := ExtractUsage(task.data);
      if BeginFails in faults {
        return RolledBack;
      }
      var model := Lookup(models, task.modelId);
      if UpsertFails in faults {
        return RolledBack;
      }
      var savedEvents := sessionEvents;
      var key := (task.sessionId, task.sessionIndex);
      var row := UpsertedRow(sessionEvents, task, model, nextEventId);
      if key !in sessionEvents {
        nextEventId := nextEventId + 1;
      }
      sessionEvents := sessionEvents[key := row];

      if usage.Some? && model.Some? {
        if InsertFails in faults || CommitFails in faults {
          sessionEvents := savedEvents;
          return RolledBack;
        }
        var content := ChargeContent(model.value, usage.value, row.id);
        var created := ledger.CreateBalanceChange(task.accountId, PrintKey(KeyOf(task)), content);
        if created.Err? {
          sessionEvents := savedEvents;
          return RolledBack;
        }
        if PushFails in faults {
          return Billed(row, created.value, false);
        }
        settleQueue := settleQueue + multiset{created.value};
        return Billed(row, created.value, true);
      }
      if CommitFails in faults {
        sessionEvents := savedEvents;
        return RolledBack;
      }
      return Recorded(row);
    }
  }

  // ---------------------------------------------------------------- the whole pipeline

  /** The prices read by the transaction that created the change. */
  datatype Quote = Quote(changeId: int, inputPrice: Money, outputPrice: Money)

  /**
   The tables and the two queues. `emitted` and `quotes` are history: every event a tracer has
   recorded, and for every billed event the change and the prices of its transaction.
   */
  datatype System = System(
    db: Db,
    models: map<int, LLMModel>,
    sessionEvents: map<(string, int), SessionEvent>,
    eventQueue: multiset<EventTask>,
    settleQueue: multiset<int>,
    emitted: map<Key, EventTask>,
    quotes: map<Key, Quote>)

  datatype Settlement = NotSettled | SettledNow(choice: Option<int>)

  /**
   `faults` are the statements and pushes that fail in a delivery. A worker that returns, however
   it ended, has its task removed from the queue; only a worker that `crashed` leaves it there, to
   be delivered again. A crash before the commit is a failed commit, one before the push a failed
   push.
   */
  datatype Action =
    | Emit(task: EventTask, pushed: bool)
    | Handle(task: EventTask, handled: Handled, faults: set<EventFault>, crashed: bool)
    | SettleTask(id: int, now: int, settlement: Settlement, statementFaults: set<Statement>, crashed: bool)
    | CreateChange(id: int, accountId: int, requestId: string, content: Content, pushed: bool)
    | Maintain(step: LedgerLaws.Step)
    | SetModel(modelId: int, model: Option<LLMModel>)

  ghost predicate Possible(s: System, action: Action) {
    match action
    case Emit(task, _) => KeyOf(task) !in s.emitted && |task.sessionId| == SESSION_ID_LENGTH
    case Handle(task, handled, faults, _) =>
      && task in s.eventQueue
      && (handled.RolledBack? <==> Thwarted(s.models, s.db.changes, task, faults))
      && (match handled
          case RolledBack => true
          case Recorded(_) => !Priced(s.models, task)
          case Billed(row, changeId, pushed) =>
            && Priced(s.models, task)
            && Writable(s.db, BillingStep(s.models, task, row, changeId))
            && (pushed <==> PushFails !in faults))
    case SettleTask(id, now, settlement, faults, _) =>
      && id in s.settleQueue
      && (settlement.SettledNow? <==> Settles(s.db, id, now, faults))
      && (settlement.SettledNow? ==> LedgerLaws.Enabled(s.db, Settle(id, settlement.choice, now)))
    case CreateChange(id, accountId, requestId, content, _) =>
      !content.Spend? && Writable(s.db, InsertChange(id, accountId, requestId, content))
    case Maintain(step) => (step.InsertSubscription? || step.SetStatus?) && Writable(s.db, step)
    case SetModel(_, _) => true
  }

  function QuoteOf(models: map<int, LLMModel>, task: EventTask, changeId: int): Quote
    requires Priced(models, task)
  {
    var usage, model := ExtractUsage(task.data).value, models[task.modelId];
    Quote(changeId, InputPrice(model, usage), OutputPrice(model, usage))
  }

  /** What an action does to the ledger tables. */
  ghost function LedgerStep(s: System, action: Action): LedgerLaws.Step
    requires Possible(s, action)
  {
    match action
    case Handle(task, Billed(row, changeId, _), _, _) => BillingStep(s.models, task, row, changeId)
    case SettleTask(id, now, SettledNow(choice), _, _) => Settle(id, choice, now)
    case CreateChange(id, accountId, requestId, content, _) => InsertChange(id, accountId, requestId, content)
    case Maintain(step) => step
    case _ => Skip
  }

  ghost function After(s: System, action: Action): System
    requires Possible(s, action)
  {
    var s := s.(db := LedgerLaws.Next(s.db, LedgerStep(s, action)));
    match action
    case Emit(task, pushed) =>
      s.(emitted := s.emitted[KeyOf(task) := task],
         eventQueue := if pushed then s.eventQueue + multiset{task} else s.eventQueue)
    case Handle(task, handled, _, crashed) =>
      s.(eventQueue := if crashed then s.eventQueue else s.eventQueue - multiset{task},
         sessionEvents := if handled.RolledBack? then s.sessionEvents
             else s.sessionEvents[(task.sessionId, task.sessionIndex) := handled.row],
         quotes := if handled.Billed? then s.quotes[KeyOf(task) := QuoteOf(s.models, task, handled.changeId)]
             else s.quotes,
         settleQueue := if handled.Billed? && handled.pushed then s.settleQueue + multiset{handled.changeId}
             else s.settleQueue)
    case SettleTask(id, _, _, _, crashed) =>
      s.(settleQueue := if crashed then s.settleQueue else s.settleQueue - multiset{id})
    case CreateChange(id, _, _, _, pushed) =>
      s.(settleQueue := if pushed then s.settleQueue + multiset{id} else s.settleQueue)
    case Maintain(_) => s
    case SetModel(modelId, model) =>
      s.(models := if model.Some? then s.models[modelId := model.value] else s.models - {modelId})
  }

  /** What the worker's method does to its tables is one `Handle` action of the pipeline. */
  lemma HandleEventIsAction(s: System, before: WorkerView, after: WorkerView, task: EventTask, handled: Handled,
                            faults: set<EventFault>, crashed: bool)
    requires before == WorkerView(s.db, s.models, s.sessionEvents, s.settleQueue)
    requires task in s.eventQueue && HandledAs(before, after, task, handled)
    requires handled.RolledBack? <==> Thwarted(s.models, s.db.changes, task, faults)
    requires handled.Billed? ==> (handled.pushed <==> PushFails !in faults)
    ensures Possible(s, Handle(task, handled, faults, crashed))
    ensures var s' := After(s, Handle(task, handled, faults, crashed));
            after == WorkerView(s'.db, s'.models, s'.sessionEvents, s'.settleQueue)
  {
  }

  /** What the settling method does to the ledger tables is one `SettleTask` action of the pipeline. */
  lemma SettleBalanceChangeIsAction(s: System, after: Db, id: int, now: int, choice: Option<int>,
                                    faults: set<Statement>, crashed: bool)
    requires id in s.settleQueue
    requires !Settles(s.db, id, now, faults) ==> after == s.db
    requires Settles(s.db, id, now, faults) ==>
      ChoiceOk(s.db, id, choice, now) && Payable(s.db, id, choice) && after == Settled(s.db, id, choice, now)
    ensures var settlement := if Settles(s.db, id, now, faults) then SettledNow(choice) else NotSettled;
            var action := SettleTask(id, now, settlement, faults, crashed);
            Possible(s, action) && After(s, action).db == after
  {
  }

  /** What a tracer does to its queue is one `Emit` action of the pipeline, and that touches nothing else. */
  lemma AddIsEmit(s: System, queue: seq<EventTask>, task: EventTask, pushFails: bool)
    requires KeyOf(task) !in s.emitted && |task.sessionId| == SESSION_ID_LENGTH && multiset(queue) == s.eventQueue
    ensures Possible(s, Emit(task, !pushFails))
    ensures var s' := After(s, Emit(task, !pushFails));
            && s'.eventQueue == multiset(queue + if pushFails then [] else [task])
            && s' == s.(eventQueue := s'.eventQueue, emitted := s.emitted[KeyOf(task) := task])
  {
  }

  ghost predicate ValidHistory(s: System, run: seq<Action>)
    decreases |run|
  {
    run != [] ==> Possible(s, run[0]) && ValidHistory(After(s, run[0]), run[1..])
  }

  ghost function End(s: System, run: seq<Action>): System
    requires ValidHistory(s, run)
    decreases |run|
  {
    if run == [] then s else End(After(s, run[0]), run[1..])
  }

  // ---------------------------------------------------------------- the billing invariant

  function Cost(usage: UsageInfo, q: Quote): Money {
    Times(q.inputPrice, usage.inputTokens) + Times(q.outputPrice, usage.outputTokens)
  }

  ghost predicate UniqueRequestIds(db: Db) {
    forall i, j | i in db.changes && j in db.changes && i != j ::
        db.changes[i].uniqueRequestId != db.changes[j].uniqueRequestId
  }

  /** The change behind a quote: its key, its account and its exact amount. */
  ghost predicate QuoteOk(s: System, k: Key)
    requires k in s.quotes
  {
    var q := s.quotes[k];
    && k in s.emitted
    && ExtractUsage(s.emitted[k].data).Some?
    && q.changeId in s.db.changes
    && ChargesFor(s.db.changes[q.changeId], k, s.emitted[k], q)
  }

  predicate ChargesFor(c: BalanceChange, k: Key, task: EventTask, q: Quote)
    requires ExtractUsage(task.data).Some?
  {
    && c.uniqueRequestId == PrintKey(k)
    && c.accountId == task.accountId
    && c.content.Spend?
    && SpendAmount(c.content.spend) == Cost(ExtractUsage(task.data).value, q)
  }

  ghost predicate HasQuote(s: System, id: int) {
    exists k :: k in s.quotes && s.quotes[k].changeId == id
  }

  ghost predicate BillingInv(s: System) {
    && UniqueRequestIds(s.db)
    && (forall t :: t in s.eventQueue ==> KeyOf(t) in s.emitted && s.emitted[KeyOf(t)] == t)
    && (forall k :: k in s.emitted ==> KeyOf(s.emitted[k]) == k && |k.sessionId| == SESSION_ID_LENGTH)
    && (forall k :: k in s.quotes ==> QuoteOk(s, k))
    && (forall id :: id in s.db.changes && s.db.changes[id].content.Spend? ==> HasQuote(s, id))
  }

  /** A fresh deployment: money may already be recorded, but no event has been. */
  ghost predicate Fresh(s: System) {
    && s.emitted == map[] && s.quotes == map[] && s.eventQueue == multiset{}
    && UniqueRequestIds(s.db)
    && (forall id :: id in s.db.changes ==> !s.db.changes[id].content.Spend?)
  }

  lemma HasQuoteKept(s: System, s': System, id: int)
    requires HasQuote(s, id)
    requires forall k :: k in s.quotes ==> k in s'.quotes && s'.quotes[k] == s.quotes[k]
    ensures HasQuote(s', id)
  {
    var k :| k in s.quotes && s.quotes[k].changeId == id;
    assert k in s'.quotes && s'.quotes[k].changeId == id;
  }

  /** A second billing of the same event is refused by the unique index. */
  lemma BilledOnce(s: System, task: EventTask, row: SessionEvent, changeId: int)
    requires BillingInv(s) && task in s.eventQueue && Priced(s.models, task)
    requires Writable(s.db, BillingStep(s.models, task, row, changeId))
    ensures KeyOf(task) !in s.quotes
  {
    forall k | k in s.quotes ensures k != KeyOf(task) {
      assert QuoteOk(s, k);
    }
  }

  lemma QuotesKept(s: System, action: Action)
    requires BillingInv(s) && Possible(s, action)
    ensures forall k :: k in s.quotes ==> k in After(s, action).quotes && After(s, action).quotes[k] == s.quotes[k]
  {
    if action.Handle? && action.handled.Billed? {
      BilledOnce(s, action.task, action.handled.row, action.handled.changeId);
    }
  }

  /** A quote stays good while its event, its change and the quote itself stay. */
  lemma QuoteOkFrame(s: System, s': System, k: Key)
    requires k in s.quotes && QuoteOk(s, k)
    requires k in s'.quotes && s'.quotes[k] == s.quotes[k]
    requires k in s'.emitted && s'.emitted[k] == s.emitted[k]
    requires forall id :: id in s.db.changes ==> id in s'.db.changes && SameChange(s.db.changes[id], s'.db.changes[id])
    ensures QuoteOk(s', k)
  {
  }

  lemma EmittedKept(s: System, action: Action)
    requires Possible(s, action)
    ensures forall k :: k in s.emitted ==> k in After(s, action).emitted && After(s, action).emitted[k] == s.emitted[k]
  {
  }

  lemma NewQuoteOk(s: System, action: Action)
    requires BillingInv(s) && Possible(s, action) && action.Handle? && action.handled.Billed?
    ensures QuoteOk(After(s, action), KeyOf(action.task))
  {
    var s' := After(s, action);
    var c := s'.db.changes[action.handled.changeId];
    assert ChargesFor(c, KeyOf(action.task), action.task, s'.quotes[KeyOf(action.task)]);
  }

  lemma RequestIdsStayUnique(db: Db, step: LedgerLaws.Step)
    requires UniqueRequestIds(db) && Writable(db, step)
    ensures UniqueRequestIds(LedgerLaws.Next(db, step))
  {
    ChangesFrame(db, step);
  }

  lemma QuotesStayOk(s: System, action: Action)
    requires BillingInv(s) && Possible(s, action)
    ensures forall k :: k in After(s, action).quotes ==> QuoteOk(After(s, action), k)
  {
    var s' := After(s, action);
    QuotesKept(s, action);
    EmittedKept(s, action);
    ChangesFrame(s.db, LedgerStep(s, action));
    forall k | k in s'.quotes ensures QuoteOk(s', k) {
      if k in s.quotes {
        QuoteOkFrame(s, s', k);
      } else {
        NewQuoteOk(s, action);
      }
    }
  }

  lemma SpendsStayQuoted(s: System, action: Action, id: int)
    requires BillingInv(s) && Possible(s, action)
    requires id in After(s, action).db.changes && After(s, action).db.changes[id].content.Spend?
    ensures HasQuote(After(s, action), id)
  {
    var s' := After(s, action);
    QuotesKept(s, action);
    ChangesFrame(s.db, LedgerStep(s, action));
    if id in s.db.changes {
      HasQuoteKept(s, s', id);
    } else {
      assert s'.quotes[KeyOf(action.task)].changeId == id;
    }
  }

  lemma QueuedEventsStayEmitted(s: System, action: Action, t: EventTask)
    requires BillingInv(s) && Possible(s, action) && t in After(s, action).eventQueue
    ensures KeyOf(t) in After(s, action).emitted && After(s, action).emitted[KeyOf(t)] == t
  {
    assert t in s.eventQueue || (action.Emit? && t == action.task);
  }

  lemma EmittedKeysKept(s: System, action: Action, k: Key)
    requires BillingInv(s) && Possible(s, action) && k in After(s, action).emitted
    ensures KeyOf(After(s, action).emitted[k]) == k && |k.sessionId| == SESSION_ID_LENGTH
  {
  }

  lemma BillingInvKept(s: System, action: Action)
    requires BillingInv(s) && Possible(s, action)
    ensures BillingInv(After(s, action))
  {
    var s' := After(s, action);
    RequestIdsStayUnique(s.db, LedgerStep(s, action));
    QuotesStayOk(s, action);
    forall id | id in s'.db.changes && s'.db.changes[id].content.Spend? ensures HasQuote(s', id) {
      SpendsStayQuoted(s, action, id);
    }
    forall t | t in s'.eventQueue ensures KeyOf(t) in s'.emitted && s'.emitted[KeyOf(t)] == t {
      QueuedEventsStayEmitted(s, action, t);
    }
    forall k | k in s'.emitted ensures KeyOf(s'.emitted[k]) == k && |k.sessionId| == SESSION_ID_LENGTH {
      EmittedKeysKept(s, action, k);
    }
  }

  lemma {:induction false} BillingInvHolds(s: System, run: seq<Action>)
    requires BillingInv(s) && ValidHistory(s, run)
    ensures BillingInv(End(s, run))
    decreases |run|
  {
    if run == [] {
    } else {
      BillingInvKept(s, run[0]);
      BillingInvHolds(After(s, run[0]), run[1..]);
    }
  }

  /** However often its task is delivered, an event has at most one change, and no two events share one. */
  lemma AtMostOneChangePerEvent(s: System, run: seq<Action>, k1: Key, k2: Key, i: int, j: int)
    requires Fresh(s) && ValidHistory(s, run)
    requires var end := End(s, run);
             && k1 in end.emitted && k2 in end.emitted
             && i in end.db.changes && end.db.changes[i].uniqueRequestId == PrintKey(k1)
             && j in end.db.changes && end.db.changes[j].uniqueRequestId == PrintKey(k2)
    ensures k1 == k2 <==> i == j
  {
    BillingInvHolds(s, run);
    if i == j {
      KeysInjective(k1, k2);
    }
  }

  // ---------------------------------------------------------------- totals

  /** The events of account `a` whose charge has been applied. */
  ghost function BilledKeys(s: System, a: int): set<Key> {
    set k | k in s.quotes && k in s.emitted && s.emitted[k].accountId == a && IsApplied(s.db, s.quotes[k].changeId)
  }

  ghost function CostOf(s: System): Key -> Amount {
    (k: Key) =>
      if k in s.quotes && k in s.emitted && ExtractUsage(s.emitted[k].data).Some?
      then Amount(Cost(ExtractUsage(s.emitted[k].data).value, s.quotes[k]), 0) else ZERO
  }

  ghost function SpendEffect(a: int): BalanceChange -> Amount {
    (c: BalanceChange) =>
      if c.isApplied && c.accountId == a && c.content.Spend? then Amount(SpendAmount(c.content.spend), 0) else ZERO
  }

  /** What deposits, credits and withdrawals did to the account. */
  ghost function FundingEffect(a: int): BalanceChange -> Amount {
    (c: BalanceChange) =>
      if c.isApplied && c.accountId == a && !c.content.Spend? then Amount(Signed(c.content), 0) else ZERO
  }

  ghost function ChangeIdOf(s: System): Key -> int {
    (k: Key) => if k in s.quotes then s.quotes[k].changeId else 0
  }

  ghost function AppliedSpends(s: System, a: int): set<int> {
    set id | id in s.db.changes && s.db.changes[id].isApplied && s.db.changes[id].accountId == a &&
        s.db.changes[id].content.Spend?
  }

  ghost function KeyOfChange(s: System): int -> Key {
    (id: int) =>
      if HasQuote(s, id) then var k :| k in s.quotes && s.quotes[k].changeId == id; k
      else Key(OpenAIApi, "", 0)
  }

  lemma BilledKeysToChanges(s: System, a: int, k: Key)
    requires BillingInv(s) && k in BilledKeys(s, a)
    ensures ChangeIdOf(s)(k) in AppliedSpends(s, a) && KeyOfChange(s)(ChangeIdOf(s)(k)) == k
    ensures CostOf(s)(k) == Over(s.db.changes, SpendEffect(a))(ChangeIdOf(s)(k))
  {
    assert QuoteOk(s, k);
    assert HasQuote(s, s.quotes[k].changeId);
    var k' := KeyOfChange(s)(s.quotes[k].changeId);
    assert QuoteOk(s, k');
    KeysInjective(k, k');
  }

  lemma ChangesToBilledKeys(s: System, a: int, id: int)
    requires BillingInv(s) && id in AppliedSpends(s, a)
    ensures KeyOfChange(s)(id) in BilledKeys(s, a) && ChangeIdOf(s)(KeyOfChange(s)(id)) == id
  {
    assert HasQuote(s, id);
    assert QuoteOk(s, KeyOfChange(s)(id));
  }

  /** The applied spends of an account are its billed events, each once, at the quoted price. */
  lemma AppliedSpendIsBilledCost(s: System, a: int)
    requires BillingInv(s)
    ensures Total(s.db.changes, SpendEffect(a)) == Sum(BilledKeys(s, a), CostOf(s))
  {
    forall k | k in BilledKeys(s, a) {
      BilledKeysToChanges(s, a, k);
    }
    forall id | id in AppliedSpends(s, a) {
      ChangesToBilledKeys(s, a, id);
    }
    SumReindex(BilledKeys(s, a), AppliedSpends(s, a), ChangeIdOf(s), KeyOfChange(s), CostOf(s),
        Over(s.db.changes, SpendEffect(a)));
    SumRestrict(s.db.changes.Keys, AppliedSpends(s, a), Over(s.db.changes, SpendEffect(a)));
  }

  lemma EffectSplits(c: BalanceChange, a: int)
    ensures AccountEffect(a)(c) == FundingEffect(a)(c).Minus(SpendEffect(a)(c))
  {
  }

  lemma AccountTotalSplits(s: System, a: int)
    requires BillingInv(s)
    ensures Total(s.db.changes, AccountEffect(a)) ==
        Total(s.db.changes, FundingEffect(a)).Minus(Sum(BilledKeys(s, a), CostOf(s)))
  {
    AppliedSpendIsBilledCost(s, a);
    forall id | id in s.db.changes {
      EffectSplits(s.db.changes[id], a);
    }
    SumDifference(s.db.changes.Keys, Over(s.db.changes, AccountEffect(a)), Over(s.db.changes, FundingEffect(a)),
        Over(s.db.changes, SpendEffect(a)));
  }

  ghost function QuotedKeys(s: System, a: int): set<Key> {
    set k | k in s.quotes && k in s.emitted && s.emitted[k].accountId == a
  }

  ghost predicate NonNegativeQuote(s: System, k: Key) {
    k in s.quotes && k in s.emitted && ExtractUsage(s.emitted[k].data).Some? ==>
      var usage, q := ExtractUsage(s.emitted[k].data).value, s.quotes[k];
      usage.inputTokens >= 0 && usage.outputTokens >= 0 && q.inputPrice >= 0.0 && q.outputPrice >= 0.0
  }

  lemma TimesNotNegative(price: Money, tokens: int)
    requires price >= 0.0 && tokens >= 0
    ensures Times(price, tokens) >= 0.0
  {
  }

  lemma CostNotNegative(s: System, k: Key)
    requires k in s.quotes && QuoteOk(s, k) && NonNegativeQuote(s, k)
    ensures CostOf(s)(k).money >= 0.0
  {
    var usage, q := ExtractUsage(s.emitted[k].data).value, s.quotes[k];
    TimesNotNegative(q.inputPrice, usage.inputTokens);
    TimesNotNegative(q.outputPrice, usage.outputTokens);
  }

  /**
   With prices and token counts that are not negative, the applied spend of an account never
   exceeds the quoted cost of its distinct events, whatever crashed, was lost or came twice.
   */
  lemma AppliedSpendBounded(s: System, run: seq<Action>, a: int)
    requires Fresh(s) && ValidHistory(s, run)
    requires forall k :: NonNegativeQuote(End(s, run), k)
    ensures var end := End(s, run);
            Total(end.db.changes, SpendEffect(a)).money <= Sum(QuotedKeys(end, a), CostOf(end)).money
  {
    var end := End(s, run);
    BillingInvHolds(s, run);
    AppliedSpendIsBilledCost(end, a);
    forall k | k in QuotedKeys(end, a) ensures CostOf(end)(k).money >= 0.0 {
      assert NonNegativeQuote(end, k) && QuoteOk(end, k);
      CostNotNegative(end, k);
    }
    SumSubset(BilledKeys(end, a), QuotedKeys(end, a), CostOf(end));
  }

  // ---------------------------------------------------------------- the price that is charged

  /** Some action of the run billed `k`, at the prices the model had right then. */
  ghost predicate QuotedInRun(s: System, run: seq<Action>, k: Key, q: Quote)
    requires ValidHistory(s, run)
    decreases |run|
  {
    && run != []
    && var action := run[0];
       || (action.Handle? && action.handled.Billed? && KeyOf(action.task) == k
           && q == QuoteOf(s.models, action.task, action.handled.changeId))
       || QuotedInRun(After(s, action), run[1..], k, q)
  }

  lemma {:induction false} QuotesPersist(s: System, run: seq<Action>, k: Key)
    requires BillingInv(s) && ValidHistory(s, run) && k in s.quotes
    ensures k in End(s, run).quotes && End(s, run).quotes[k] == s.quotes[k]
    decreases |run|
  {
    if run == [] {
    } else {
      QuotesKept(s, run[0]);
      BillingInvKept(s, run[0]);
      QuotesPersist(After(s, run[0]), run[1..], k);
    }
  }

  /** A quote is the model price (batch price for a batch) in the state in which its change was committed. */
  lemma {:induction false} QuotedAtCommit(s: System, run: seq<Action>, k: Key)
    requires BillingInv(s) && ValidHistory(s, run) && k !in s.quotes && k in End(s, run).quotes
    ensures QuotedInRun(s, run, k, End(s, run).quotes[k])
    decreases |run|
  {
    BillingInvKept(s, run[0]);
    var s' := After(s, run[0]);
    if k in s'.quotes {
      QuotesPersist(s', run[1..], k);
    } else {
      QuotedAtCommit(s', run[1..], k);
    }
  }

  // ---------------------------------------------------------------- when an event is billed

  /**
   A delivery of the event of key `k` with no failing statement, its model row present and no
   change holding its key.
   */
  ghost predicate GoodDelivery(s: System, action: Action, k: Key) {
    && action.Handle? && KeyOf(action.task) == k
    && Priced(s.models, action.task)
    && action.faults !! {BeginFails, UpsertFails, InsertFails, CommitFails}
    && !KeyTaken(s.db.changes, PrintKey(k))
  }

  ghost predicate HasGoodDelivery(s: System, run: seq<Action>, k: Key)
    requires ValidHistory(s, run)
    decreases |run|
  {
    run != [] && (GoodDelivery(s, run[0], k) || HasGoodDelivery(After(s, run[0]), run[1..], k))
  }

  lemma BilledIffGood(s: System, action: Action)
    requires Possible(s, action) && action.Handle?
    ensures action.handled.Billed? <==> GoodDelivery(s, action, KeyOf(action.task))
  {
  }

  lemma QuotesAfter(s: System, action: Action)
    requires Possible(s, action)
    ensures After(s, action).quotes ==
      if action.Handle? && action.handled.Billed?
      then s.quotes[KeyOf(action.task) := QuoteOf(s.models, action.task, action.handled.changeId)]
      else s.quotes
  {
  }

  /** One delivery bills the event exactly when it is a good one. */
  lemma BilledByGoodDelivery(s: System, action: Action, k: Key)
    requires BillingInv(s) && Possible(s, action)
    ensures k in After(s, action).quotes <==> k in s.quotes || GoodDelivery(s, action, k)
  {
    QuotesAfter(s, action);
    if action.Handle? {
      BilledIffGood(s, action);
    }
  }

  /** Over any run an event is billed if and only if some delivery of it was good. */
  lemma {:induction false} BilledIffGoodDelivery(s: System, run: seq<Action>, k: Key)
    requires BillingInv(s) && ValidHistory(s, run)
    ensures k in End(s, run).quotes <==> k in s.quotes || HasGoodDelivery(s, run, k)
    decreases |run|
  {
    if run == [] {
    } else {
      BilledByGoodDelivery(s, run[0], k);
      BillingInvKept(s, run[0]);
      BilledIffGoodDelivery(After(s, run[0]), run[1..], k);
    }
  }

  /** A delivery of the settlement of a pending change with no failing statement and no token overflow. */
  ghost predicate GoodSettlement(s: System, action: Action, id: int) {
    action.SettleTask? && action.id == id && Settles(s.db, id, action.now, action.statementFaults)
  }

  ghost predicate HasGoodSettlement(s: System, run: seq<Action>, id: int)
    requires ValidHistory(s, run)
    decreases |run|
  {
    run != [] && (GoodSettlement(s, run[0], id) || HasGoodSettlement(After(s, run[0]), run[1..], id))
  }

  lemma DbAfter(s: System, action: Action)
    requires Possible(s, action)
    ensures After(s, action).db == LedgerLaws.Next(s.db, LedgerStep(s, action))
  {
  }

  lemma SettlesIffGood(s: System, action: Action, id: int)
    requires Possible(s, action)
    ensures LedgerStep(s, action).Settle? && LedgerStep(s, action).id == id <==> GoodSettlement(s, action, id)
  {
  }

  lemma AppliedByGoodSettlement(s: System, action: Action, id: int)
    requires Possible(s, action)
    ensures IsApplied(After(s, action).db, id) <==> IsApplied(s.db, id) || GoodSettlement(s, action, id)
  {
    DbAfter(s, action);
    SettlesIffGood(s, action, id);
    AppliedAfterStep(s.db, LedgerStep(s, action), id);
  }

  /** Over any run a change is applied if and only if some delivery of its settlement was good. */
  lemma {:induction false} AppliedIffGoodSettlement(s: System, run: seq<Action>, id: int)
    requires ValidHistory(s, run)
    ensures IsApplied(End(s, run).db, id) <==> IsApplied(s.db, id) || HasGoodSettlement(s, run, id)
    decreases |run|
  {
    if run == [] {
    } else {
      AppliedByGoodSettlement(s, run[0], id);
      AppliedIffGoodSettlement(After(s, run[0]), run[1..], id);
    }
  }

  // ---------------------------------------------------------------- when the queues are drained

  ghost predicate PushSucceeds(action: Action) {
    match action
    case Emit(_, pushed) => pushed
    case Handle(_, handled, _, _) => handled.Billed? ==> handled.pushed
    case CreateChange(_, _, _, _, pushed) => pushed
    case _ => true
  }

  ghost predicate PushesSucceed(run: seq<Action>) {
    forall i :: 0 <= i < |run| ==> PushSucceeds(run[i])
  }

  /** A worker took the task of this event from the queue and returned. */
  ghost predicate Returned(run: seq<Action>, k: Key) {
    exists i :: 0 <= i < |run| && run[i].Handle? && !run[i].crashed && KeyOf(run[i].task) == k
  }

  ghost predicate SettlementReturned(run: seq<Action>, id: int) {
    exists i :: 0 <= i < |run| && run[i].SettleTask? && !run[i].crashed && run[i].id == id
  }

  /** When every push succeeded, what has left the queue was handled by a worker that returned. */
  lemma {:induction false} LeftTheQueueReturned(s: System, run: seq<Action>, k: Key)
    requires BillingInv(s) && ValidHistory(s, run) && PushesSucceed(run) && k in End(s, run).emitted
    requires k in s.emitted ==> s.emitted[k] in s.eventQueue
    ensures End(s, run).emitted[k] in End(s, run).eventQueue || Returned(run, k)
    decreases |run|
  {
    if run == [] {
    } else {
      var s', rest := After(s, run[0]), run[1..];
      BillingInvKept(s, run[0]);
      if run[0].Handle? && !run[0].crashed && KeyOf(run[0].task) == k {
        assert Returned(run, k);
      } else {
        EventStaysQueued(s, run[0], k);
        LeftTheQueueReturned(s', rest, k);
        if Returned(rest, k) {
          var i :| 0 <= i < |rest| && rest[i].Handle? && !rest[i].crashed && KeyOf(rest[i].task) == k;
          assert run[i + 1] == rest[i];
        }
      }
    }
  }

  lemma EventStaysQueued(s: System, action: Action, k: Key)
    requires BillingInv(s) && Possible(s, action) && PushSucceeds(action)
    requires k in s.emitted ==> s.emitted[k] in s.eventQueue
    requires !(action.Handle? && !action.crashed && KeyOf(action.task) == k)
    ensures k in After(s, action).emitted ==> After(s, action).emitted[k] in After(s, action).eventQueue
  {
    EmittedKept(s, action);
  }

  lemma {:induction false} SettlementLeftTheQueueReturned(s: System, run: seq<Action>, id: int)
    requires ValidHistory(s, run) && PushesSucceed(run) && id in End(s, run).db.changes
    requires id in s.db.changes ==> id in s.settleQueue
    ensures id in End(s, run).settleQueue || SettlementReturned(run, id)
    decreases |run|
  {
    if run == [] {
    } else {
      var s', rest := After(s, run[0]), run[1..];
      if run[0].SettleTask? && !run[0].crashed && run[0].id == id {
        assert SettlementReturned(run, id);
      } else {
        SettlementStaysQueued(s, run[0], id);
        SettlementLeftTheQueueReturned(s', rest, id);
        if SettlementReturned(rest, id) {
          var i :| 0 <= i < |rest| && rest[i].SettleTask? && !rest[i].crashed && rest[i].id == id;
          assert run[i + 1] == rest[i];
        }
      }
    }
  }

  lemma SettleQueueAfter(s: System, action: Action)
    requires Possible(s, action)
    ensures After(s, action).settleQueue ==
      match action
      case Handle(_, Billed(_, id, true), _, _) => s.settleQueue + multiset{id}
      case SettleTask(id, _, _, _, false) => s.settleQueue - multiset{id}
      case CreateChange(id, _, _, _, true) => s.settleQueue + multiset{id}
      case _ => s.settleQueue
  {
  }

  lemma SettlementStaysQueued(s: System, action: Action, id: int)
    requires Possible(s, action) && PushSucceeds(action)
    requires id in s.db.changes ==> id in s.settleQueue
    requires !(action.SettleTask? && !action.crashed && action.id == id)
    ensures id in After(s, action).db.changes ==> id in After(s, action).settleQueue
  {
    ChangesFrame(s.db, LedgerStep(s, action));
    SettleQueueAfter(s, action);
  }

  /** Some other change, such as a deposit, was given this event's key by its client. */
  ghost predicate HeldByAnother(s: System, k: Key) {
    KeyTaken(s.db.changes, PrintKey(k)) && k !in s.quotes
  }

  /**
   Nothing goes wrong for a worker that returns: no statement fails, an event with usage finds
   its model row and its key unused by others, a settlement does not overflow a token count.
   */
  ghost predicate Smooth(s: System, action: Action) {
    match action
    case Handle(task, _, faults, crashed) =>
      !crashed && ExtractUsage(task.data).Some? ==>
        && task.modelId in s.models
        && faults !! {BeginFails, UpsertFails, InsertFails, CommitFails}
        && !HeldByAnother(s, KeyOf(task))
    case SettleTask(id, now, _, faults, crashed) =>
      !crashed ==> faults == {} && !TokenOverflow(s.db, id, now)
    case _ => true
  }

  ghost predicate SmoothRun(s: System, run: seq<Action>)
    requires ValidHistory(s, run)
    decreases |run|
  {
    run != [] ==> Smooth(s, run[0]) && SmoothRun(After(s, run[0]), run[1..])
  }

  lemma {:induction false} SmoothlyReturnedIsBilled(s: System, run: seq<Action>, k: Key)
    requires BillingInv(s) && ValidHistory(s, run) && SmoothRun(s, run)
    requires k in End(s, run).emitted && ExtractUsage(End(s, run).emitted[k].data).Some? && Returned(run, k)
    ensures k in End(s, run).quotes
    decreases |run|
  {
    var i :| 0 <= i < |run| && run[i].Handle? && !run[i].crashed && KeyOf(run[i].task) == k;
    BillingInvKept(s, run[0]);
    if i == 0 {
      var task := run[0].task;
      assert s.emitted[k] == task;
      EmittedPersists(s, run, k);
      BilledByGoodDelivery(s, run[0], k);
      QuotesPersist(After(s, run[0]), run[1..], k);
    } else {
      assert run[1..][i - 1] == run[i];
      SmoothlyReturnedIsBilled(After(s, run[0]), run[1..], k);
    }
  }

  lemma {:induction false} EmittedPersists(s: System, run: seq<Action>, k: Key)
    requires ValidHistory(s, run) && k in s.emitted
    ensures k in End(s, run).emitted && End(s, run).emitted[k] == s.emitted[k]
    decreases |run|
  {
    if run == [] {
    } else {
      EmittedKept(s, run[0]);
      EmittedPersists(After(s, run[0]), run[1..], k);
    }
  }

  lemma SmoothSettlementApplies(s: System, action: Action, id: int)
    requires Possible(s, action) && Smooth(s, action) && action.SettleTask? && !action.crashed && action.id == id
    requires id in s.db.changes
    ensures IsApplied(After(s, action).db, id)
  {
    AppliedByGoodSettlement(s, action, id);
  }

  lemma {:induction false} SmoothlyReturnedIsApplied(s: System, run: seq<Action>, id: int)
    requires ValidHistory(s, run) && SmoothRun(s, run) && SettlementReturned(run, id)
    requires SettleTasksHaveChanges(s)
    ensures IsApplied(End(s, run).db, id)
    decreases |run|
  {
    var i :| 0 <= i < |run| && run[i].SettleTask? && !run[i].crashed && run[i].id == id;
    SettleTasksKeepChanges(s, run[0]);
    if i == 0 {
      SmoothSettlementApplies(s, run[0], id);
      AppliedIffGoodSettlement(After(s, run[0]), run[1..], id);
    } else {
      assert run[1..][i - 1] == run[i];
      SmoothlyReturnedIsApplied(After(s, run[0]), run[1..], id);
    }
  }

  /** A task is queued only for a change that has been committed. */
  ghost predicate SettleTasksHaveChanges(s: System) {
    forall id :: id in s.settleQueue ==> id in s.db.changes
  }

  lemma SettleTasksKeepChanges(s: System, action: Action)
    requires SettleTasksHaveChanges(s) && Possible(s, action)
    ensures SettleTasksHaveChanges(After(s, action))
  {
    ChangesFrame(s.db, LedgerStep(s, action));
    SettleQueueAfter(s, action);
  }

  ghost function UsageKeys(s: System, a: int): set<Key> {
    set k | k in s.emitted && s.emitted[k].accountId == a && ExtractUsage(s.emitted[k].data).Some?
  }

  /**
   Once every push has succeeded and both queues are drained, and nothing went wrong for a worker
   that returned, every event that carries usage has been billed exactly once: the account has paid
   the quoted cost of all of them. Crashes and redeliveries may have happened at any point.
   */
  lemma DrainedBilling(s: System, run: seq<Action>, a: int)
    requires Fresh(s) && SettleTasksHaveChanges(s)
    requires ValidHistory(s, run) && PushesSucceed(run) && SmoothRun(s, run)
    requires End(s, run).eventQueue == multiset{} && End(s, run).settleQueue == multiset{}
    ensures var end := End(s, run);
            && BilledKeys(end, a) == UsageKeys(end, a)
            && Total(end.db.changes, SpendEffect(a)) == Sum(UsageKeys(end, a), CostOf(end))
  {
    var end := End(s, run);
    BillingInvHolds(s, run);
    AppliedSpendIsBilledCost(end, a);
    forall k | k in UsageKeys(end, a) ensures k in BilledKeys(end, a) {
      LeftTheQueueReturned(s, run, k);
      SmoothlyReturnedIsBilled(s, run, k);
      assert QuoteOk(end, k);
      BilledNotAppliedBefore(s, run, k);
      SettlementLeftTheQueueReturned(s, run, end.quotes[k].changeId);
      SmoothlyReturnedIsApplied(s, run, end.quotes[k].changeId);
    }
    forall k | k in BilledKeys(end, a) ensures k in UsageKeys(end, a) {
      assert QuoteOk(end, k);
    }
    assert BilledKeys(end, a) == UsageKeys(end, a);
  }

  /** Which events of an account have been charged: those with a good delivery whose change had a good settlement. */
  lemma ChargedIff(s: System, run: seq<Action>, a: int, k: Key)
    requires Fresh(s) && ValidHistory(s, run)
    requires k in UsageKeys(End(s, run), a)
    ensures var end := End(s, run);
            k in BilledKeys(end, a) <==>
              HasGoodDelivery(s, run, k) && k in end.quotes && HasGoodSettlement(s, run, end.quotes[k].changeId)
  {
    var end := End(s, run);
    BillingInvHolds(s, run);
    BilledIffGoodDelivery(s, run, k);
    if k in end.quotes {
      assert QuoteOk(end, k);
      AppliedIffGoodSettlement(s, run, end.quotes[k].changeId);
      BilledNotAppliedBefore(s, run, k);
    }
  }

  /** The change of an event billed in the run did not exist before it. */
  lemma BilledNotAppliedBefore(s: System, run: seq<Action>, k: Key)
    requires Fresh(s) && ValidHistory(s, run) && k in End(s, run).quotes
    ensures End(s, run).quotes[k].changeId !in s.db.changes
  {
    var end := End(s, run);
    BillingInvHolds(s, run);
    assert QuoteOk(end, k);
    var id := end.quotes[k].changeId;
    if id in s.db.changes {
      ChangesKept(s, run, id);
      assert false;
    }
  }

  lemma PrependAction(s: System, first: Action, rest: seq<Action>)
    requires Possible(s, first) && ValidHistory(After(s, first), rest)
    ensures ValidHistory(s, [first] + rest) && End(s, [first] + rest) == End(After(s, first), rest)
  {
    assert ([first] + rest)[1..] == rest;
  }

  lemma NoActions(s: System)
    ensures ValidHistory(s, []) && End(s, []) == s
  {
  }

  lemma TwoActions(s: System, first: Action, second: Action)
    requires Possible(s, first) && Possible(After(s, first), second)
    ensures ValidHistory(s, [first, second]) && End(s, [first, second]) == After(After(s, first), second)
  {
    var s1 := After(s, first);
    NoActions(After(s1, second));
    PrependAction(s1, second, []);
    assert [second] + [] == [second];
    PrependAction(s, first, [second]);
    assert [first] + [second] == [first, second];
  }

  /**
   An event whose model row does not exist, such as a GET on a batch that records the upstream's id
   as its model, is recorded and never charged, though every push succeeds and the queues drain.
   */
  lemma MissingModelEndsUnbilled(s: System, task: EventTask, row: SessionEvent)
    requires Fresh(s) && s.db.changes == map[] && s.settleQueue == multiset{}
    requires ExtractUsage(task.data).Some? && task.modelId !in s.models && |task.sessionId| == SESSION_ID_LENGTH
    ensures var run := [Emit(task, true), Handle(task, Recorded(row), {}, false)];
            && ValidHistory(s, run) && PushesSucceed(run)
            && var end := End(s, run);
               end.eventQueue == multiset{} && end.settleQueue == multiset{} && KeyOf(task) !in end.quotes
  {
    var run := [Emit(task, true), Handle(task, Recorded(row), {}, false)];
    TwoActions(s, run[0], run[1]);
  }

  lemma ChangeKeptByAction(s: System, action: Action, id: int)
    requires Possible(s, action) && id in s.db.changes
    ensures id in After(s, action).db.changes && SameChange(s.db.changes[id], After(s, action).db.changes[id])
  {
    ChangesFrame(s.db, LedgerStep(s, action));
  }

  lemma {:induction false} ChangesKept(s: System, run: seq<Action>, id: int)
    requires ValidHistory(s, run) && id in s.db.changes
    ensures id in End(s, run).db.changes && SameChange(s.db.changes[id], End(s, run).db.changes[id])
    decreases |run|
  {
    if run == [] {
    } else {
      ChangeKeptByAction(s, run[0], id);
      ChangesKept(After(s, run[0]), run[1..], id);
    }
  }

  /**
   A deposit whose client-chosen request id equals an event's key keeps that event from ever
   being billed: every delivery of it rolls back.
   */
  lemma TakenKeyBlocksBilling(s: System, run: seq<Action>, k: Key, id: int)
    requires BillingInv(s) && ValidHistory(s, run)
    requires id in s.db.changes && !s.db.changes[id].content.Spend? && s.db.changes[id].uniqueRequestId == PrintKey(k)
    ensures k !in End(s, run).quotes
  {
    var end := End(s, run);
    BillingInvHolds(s, run);
    ChangesKept(s, run, id);
    forall k' | k' in end.quotes ensures k' != k {
      assert QuoteOk(end, k');
    }
  }

  /** An event whose key is held by another change is delivered, rolls back, and is gone from the queue. */
  lemma EventOfATakenKeyIsLost(s: System, task: EventTask)
    requires KeyOf(task) !in s.emitted && |task.sessionId| == SESSION_ID_LENGTH && task !in s.eventQueue
    requires Priced(s.models, task) && KeyTaken(s.db.changes, PrintKey(KeyOf(task)))
    ensures var run := [Emit(task, true), Handle(task, RolledBack, {}, false)];
            && ValidHistory(s, run)
            && End(s, run) == s.(emitted := s.emitted[KeyOf(task) := task])
  {
    TwoActions(s, Emit(task, true), Handle(task, RolledBack, {}, false));
    assert s.eventQueue + multiset{task} - multiset{task} == s.eventQueue;
  }

  ghost predicate NothingFails(run: seq<Action>) {
    forall i :: 0 <= i < |run| && run[i].Handle? ==> run[i].faults == {} && !run[i].crashed
  }

  lemma PrependCalm(action: Action, run: seq<Action>)
    requires PushesSucceed(run) && NothingFails(run)
    requires PushSucceeds(action) && (action.Handle? ==> action.faults == {} && !action.crashed)
    ensures PushesSucceed([action] + run) && NothingFails([action] + run)
  {
  }

  /** A run without failed pushes or statements ends with the queue empty and the event recorded but never billed. */
  ghost predicate EndsLost(s: System, run: seq<Action>, k: Key) {
    && ValidHistory(s, run) && PushesSucceed(run)
    && NothingFails(run)
    && End(s, run).eventQueue == multiset{} && k in End(s, run).emitted && k !in End(s, run).quotes
  }

  ghost predicate CanBeLost(s: System, k: Key) {
    exists run :: EndsLost(s, run, k)
  }

  lemma ActionBack(s: System, action: Action, k: Key)
    requires Possible(s, action) && PushSucceeds(action) && (action.Handle? ==> action.faults == {} && !action.crashed)
    requires CanBeLost(After(s, action), k)
    ensures CanBeLost(s, k)
  {
    var run :| EndsLost(After(s, action), run, k);
    PrependAction(s, action, run);
    PrependCalm(action, run);
    assert EndsLost(s, [action] + run, k);
  }

  lemma DepositBeforeTheEvent(s: System, task: EventTask, id: int, amount: Money)
    requires s.eventQueue == multiset{} && s.db.changes == map[]
    requires KeyOf(task) !in s.emitted && KeyOf(task) !in s.quotes && |task.sessionId| == SESSION_ID_LENGTH
    requires Priced(s.models, task)
    ensures CanBeLost(s, KeyOf(task))
  {
    var deposit := CreateChange(id, task.accountId, PrintKey(KeyOf(task)), Deposit(amount), true);
    var s1 := After(s, deposit);
    assert s1.db.changes[id].uniqueRequestId == PrintKey(KeyOf(task));
    EventOfATakenKeyIsLost(s1, task);
    assert EndsLost(s1, [Emit(task, true), Handle(task, RolledBack, {}, false)], KeyOf(task));
    ActionBack(s, deposit, KeyOf(task));
  }

  /**
   That case can arise: once a session's first event, which carries no usage, is recorded, its id is
   listed; a client deposits under the key of the session's next event, which is then recorded and
   delivered with nothing failing, and never billed.
   */
  lemma DepositUnderAnEventsKey(s: System, first: EventTask, row: SessionEvent, next: EventTask, id: int, amount: Money)
    requires Fresh(s) && s.db.changes == map[]
    requires |first.sessionId| == SESSION_ID_LENGTH && first.sessionIndex == 0 && ExtractUsage(first.data).None?
    requires next.sessionId == first.sessionId && next.sessionIndex == 1 && Priced(s.models, next)
    ensures CanBeLost(s, KeyOf(next))
  {
    var s1 := After(s, Emit(first, true));
    var s2 := After(s1, Handle(first, Recorded(row), {}, false));
    assert s2.eventQueue == multiset{} && s2.emitted == map[KeyOf(first) := first];
    DepositBeforeTheEvent(s2, next, id, amount);
    ActionBack(s1, Handle(first, Recorded(row), {}, false), KeyOf(next));
    ActionBack(s, Emit(first, true), KeyOf(next));
  }
}
