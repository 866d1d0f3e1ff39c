/** The loop that tries the selected upstreams one after the other. */
module Failover {
  import opened Models
  import opened Events
  import opened Streams
  import Billing
  import opened UpstreamSelection

  /** What an upstream does with an attempt; a network error also schedules its offline mark. */
  datatype Outcome = Refused(network: bool) | Answered(data: EventData) | Opened

  datatype Response = Completed(data: EventData) | Streaming(session: Session) | Failed(status: int)

  /**
   A request with what it meets: one new session id and one outcome for each client, and the event
   pushes that fail.
   */
  datatype Call = Call(
    provider: Provider,
    isStream: bool,
    accountId: int,
    apiKeyId: int,
    clients: seq<UpstreamClient>,
    sessionIds: seq<string>,
    outcomes: seq<Outcome>,
    lost: seq<set<int>>)

  predicate IsAnswer(provider: Provider, data: EventData) {
    match provider
    case OpenAIApi => data.OpenAI? && data.openai.CreateChatCompletionResponse?
    case AnthropicApi => data.Anthropic? && data.anthropic.CreateMessageResponse?
  }

  predicate CanAnswer(call: Call, outcome: Outcome) {
    match outcome
    case Refused(_) => true
    case Answered(data) => !call.isStream && IsAnswer(call.provider, data)
    case Opened => call.isStream
  }

  predicate WellFormed(call: Call) {
    && |call.sessionIds| == |call.outcomes| == |call.lost| == |call.clients|
    && forall i :: 0 <= i < |call.outcomes| ==> CanAnswer(call, call.outcomes[i])
  }

  function RequestEvent(call: Call): EventData {
    match call.provider
    case OpenAIApi => OpenAI(CreateChatCompletionRequest)
    case AnthropicApi => Anthropic(if call.isStream then CreateMessageStreamRequest else CreateMessageRequest)
  }

  function AttemptSession(call: Call, i: nat): Session
    requires WellFormed(call) && i < |call.clients|
  {
    Session(call.sessionIds[i], call.accountId, call.clients[i].modelDbId, call.apiKeyId)
  }

  /** The events one attempt records: its request, then the answer if there is one. */
  function AttemptEvents(call: Call, outcome: Outcome): seq<EventData> {
    [RequestEvent(call)] + if outcome.Answered? then [outcome.data] else []
  }

  /** What the first `tried` attempts queue, each in a session of its own. */
  function AttemptTasks(call: Call, tried: nat): seq<EventTask>
    requires WellFormed(call) && tried <= |call.clients|
  {
    if tried == 0 then []
    else
      var i := tried - 1;
      AttemptTasks(call, i) + Tasks(AttemptSession(call, i), 0, AttemptEvents(call, call.outcomes[i]), call.lost[i])
  }

  function AttemptMarks(call: Call, i: nat): seq<int>
    requires WellFormed(call) && i < |call.clients|
  {
    if call.outcomes[i] == Refused(true) then [call.clients[i].upstreamId] else []
  }

  /** The upstreams of the first `tried` attempts that met a network error. */
  function OfflineMarks(call: Call, tried: nat): seq<int>
    requires WellFormed(call) && tried <= |call.clients|
  {
    if tried == 0 then [] else OfflineMarks(call, tried - 1) + AttemptMarks(call, tried - 1)
  }

  predicate AllRefused(call: Call, n: int)
    requires WellFormed(call) && n <= |call.clients|
  {
    forall i :: 0 <= i < n ==> call.outcomes[i].Refused?
  }

  /** What an attempt gives the caller, nothing when the next client has to be tried. */
  function ResponseOf(call: Call, i: nat): Option<Response>
    requires WellFormed(call) && i < |call.clients|
  {
    match call.outcomes[i]
    case Refused(_) => None
    case Answered(data) => Some(Completed(data))
    case Opened => Some(Streaming(AttemptSession(call, i)))
  }

  lemma NothingLogged(session: Session, queue: seq<EventTask>, lost: set<int>)
    ensures queue + Tasks(session, 0, [], lost) == queue
  {
  }

  lemma AttemptEventsUnfold(call: Call, outcome: Outcome)
    ensures AttemptEvents(call, outcome) ==
      if outcome.Answered? then [] + [RequestEvent(call)] + [outcome.data] else [] + [RequestEvent(call)]
  {
  }

  /** One more attempt adds its tasks and its mark to those of the attempts before. */
  lemma TriedOneMore(call: Call, i: nat, queue0: seq<EventTask>, offline0: seq<int>)
    requires WellFormed(call) && i < |call.clients|
    ensures queue0 + AttemptTasks(call, i) +
              Tasks(AttemptSession(call, i), 0, AttemptEvents(call, call.outcomes[i]), call.lost[i])
            == queue0 + AttemptTasks(call, i + 1)
    ensures offline0 + OfflineMarks(call, i) + AttemptMarks(call, i) == offline0 + OfflineMarks(call, i + 1)
  {
  }

  class Proxy {
    var queue: seq<EventTask>
    var offline: seq<int>

    constructor ()
      ensures queue == [] && offline == []
    {
      queue, offline := [], [];
    }

    /** Since `queue0` and `offline0`, the first `tried` attempts of the call have been made. */
    ghost predicate HasTried(call: Call, tried: nat, queue0: seq<EventTask>, offline0: seq<int>)
      requires WellFormed(call) && tried <= |call.clients|
      reads this
    {
      queue == queue0 + AttemptTasks(call, tried) && offline == offline0 + OfflineMarks(call, tried)
    }

    /** One attempt in a new session; an opened stream logs the rest of its events as it is read. */
    method Attempt(call: Call, i: nat, ghost queue0: seq<EventTask>, ghost offline0: seq<int>)
      returns (response: Option<Response>)
      requires WellFormed(call) && i < |call.clients| && HasTried(call, i, queue0, offline0)
      modifies this
      ensures HasTried(call, i + 1, queue0, offline0)
      ensures response == ResponseOf(call, i)
    {
      var modelId := call.clients[i].modelDbId;
      var tracer := new SessionTracer(call.sessionIds[i], call.accountId, modelId, call.apiKeyId, queue);
      var lost := call.lost[i];
      NothingLogged(AttemptSession(call, i), queue, lost);
      Log(tracer, RequestEvent(call), lost, queue, 0, []);
      match call.outcomes[i] {
        case Answered(data) =>
          Log(tracer, data, lost, queue, 0, [] + [RequestEvent(call)]);
          response := Some(Completed(data));
        case Opened =>
          response := Some(Streaming(AttemptSession(call, i)));
        case Refused(network) =>
          if network {
            offline := offline + [call.clients[i].upstreamId];
          }
          response := None;
      }
      AttemptEventsUnfold(call, call.outcomes[i]);
      TriedOneMore(call, i, queue0, offline0);
      queue := tracer.queue;
    }

    /**
     Each client is tried at most once, in order, up to the first that does not refuse; the
     request fails exactly when all of them refuse, and the end of the loop is never reached.
     */
    method Send(call: Call) returns (response: Response, tried: nat)
      requires WellFormed(call)
      modifies this
      ensures tried <= |call.clients| && AllRefused(call, tried - 1)
      ensures HasTried(call, tried, old(queue), old(offline))
      ensures response.Failed? <==> AllRefused(call, |call.clients|)
      ensures response.Failed? ==> tried == |call.clients|
      ensures response.Failed? ==>
          response.status == if call.clients == [] && call.provider.AnthropicApi? then 503 else 500
      ensures response.Completed? ==> tried > 0 && call.outcomes[tried - 1] == Answered(response.data)
      ensures response.Streaming? ==> tried > 0 && call.outcomes[tried - 1] == Opened
      ensures response.Streaming? ==>
        var i, s := tried - 1, response.session;
        && s.sessionId == call.sessionIds[i] && s.accountId == call.accountId
        && s.modelId == call.clients[i].modelDbId && s.apiKeyId == call.apiKeyId
    {
      if call.clients == [] {
        return Failed(if call.provider.AnthropicApi? then 503 else 500), 0;
      }
      for i := 0 to |call.clients|
        invariant i == 0 || i < |call.clients|
        invariant AllRefused(call, i)
        invariant HasTried(call, i, old(queue), old(offline))
      {
        var result := Attempt(call, i, old(queue), old(offline));
        if result.Some? {
          return result.value, i + 1;
        }
        if i == |call.clients| - 1 {
          return Failed(500), i + 1;
        }
      }
      assert false;
    }
  }

  /** An upstream is scheduled to go offline exactly when an attempt on it met a network error. */
  lemma {:induction false} OfflineIffNetworkError(call: Call, tried: nat, upstreamId: int)
    requires WellFormed(call) && tried <= |call.clients|
    ensures upstreamId in OfflineMarks(call, tried) <==>
      exists i: nat :: i < tried && call.outcomes[i] == Refused(true) && call.clients[i].upstreamId == upstreamId
  {
    if tried == 0 {
    } else {
      OfflineIffNetworkError(call, tried - 1, upstreamId);
    }
  }

  /** One mark for each of these attempts, in their order. */
  lemma {:induction false} MarksInOrder(call: Call, tried: nat) returns (at: seq<nat>)
    requires WellFormed(call) && tried <= |call.clients|
    ensures |at| == |OfflineMarks(call, tried)|
    ensures forall k :: 0 <= k < |at| ==>
      at[k] < tried && call.outcomes[at[k]] == Refused(true)
      && OfflineMarks(call, tried)[k] == call.clients[at[k]].upstreamId
    ensures forall k, l :: 0 <= k < l < |at| ==> at[k] < at[l]
  {
    if tried == 0 {
      at := [];
    } else {
      at := MarksInOrder(call, tried - 1);
      if call.outcomes[tried - 1] == Refused(true) {
        at := at + [tried - 1];
      }
    }
  }

  /**
   Every task the attempts queue is for the caller's account and API key, in the session and for the
   model of one of the attempts, and carries that attempt's request or answer.
   */
  lemma {:induction false} TasksAreTheCallers(call: Call, tried: nat, task: EventTask)
    requires WellFormed(call) && tried <= |call.clients| && task in AttemptTasks(call, tried)
    ensures task.accountId == call.accountId && task.apiKeyId == call.apiKeyId
    ensures exists i: nat :: i < tried
              && task.sessionId == call.sessionIds[i] && task.modelId == call.clients[i].modelDbId
              && (task.sessionIndex == 0 || (task.sessionIndex == 1 && call.outcomes[i] == Answered(task.data)))
  {
    var i: nat := tried - 1;
    var session, data := AttemptSession(call, i), AttemptEvents(call, call.outcomes[i]);
    if task in AttemptTasks(call, i) {
      TasksAreTheCallers(call, i, task);
    } else {
      IndexOfSmall(0);
      IndexOfSmall(1);
      TasksCarryTheSession(session, 0, data, call.lost[i], task);
    }
  }

  /** What is recorded of a request, by provider and kind. */
  lemma RequestEventKinds(call: Call)
    ensures call.provider.OpenAIApi? ==> RequestEvent(call) == OpenAI(CreateChatCompletionRequest)
    ensures call.provider.AnthropicApi? && call.isStream ==> RequestEvent(call) == Anthropic(CreateMessageStreamRequest)
    ensures call.provider.AnthropicApi? && !call.isStream ==> RequestEvent(call) == Anthropic(CreateMessageRequest)
  {
  }

  // ---------------------------------------------------------------- one charge for a request

  /** The queued tasks that carry usage, hence a charge. */
  function Billable(tasks: seq<EventTask>): seq<EventTask> {
    if tasks == [] then []
    else
      Billable(tasks[..|tasks| - 1]) +
      if ExtractUsage(tasks[|tasks| - 1].data).Some? then [tasks[|tasks| - 1]] else []
  }

  lemma {:induction false} BillableOfBoth(front: seq<EventTask>, back: seq<EventTask>)
    ensures Billable(front + back) == Billable(front) + Billable(back)
  {
    if back == [] {
      assert front + back == front;
    } else {
      var shorter := back[..|back| - 1];
      BillableOfBoth(front, shorter);
      assert (front + back)[..|front + back| - 1] == front + shorter;
    }
  }

  lemma {:induction false} BillableMembers(tasks: seq<EventTask>, task: EventTask)
    ensures task in Billable(tasks) <==> task in tasks && ExtractUsage(task.data).Some?
  {
    if tasks == [] {
    } else {
      var shorter := tasks[..|tasks| - 1];
      BillableMembers(shorter, task);
      assert tasks == shorter + [tasks[|tasks| - 1]];
    }
  }

  /** The usage-bearing task of one attempt, if its answer has usage and was queued. */
  function AnswerTask(call: Call, i: nat): seq<EventTask>
    requires WellFormed(call) && i < |call.clients|
  {
    var outcome := call.outcomes[i];
    if outcome.Answered? && ExtractUsage(outcome.data).Some? && 1 !in call.lost[i]
    then [TaskOf(AttemptSession(call, i), 1, outcome.data)]
    else []
  }

  lemma BillableSingle(task: EventTask)
    ensures Billable([task]) == if ExtractUsage(task.data).Some? then [task] else []
  {
    assert [task][..0] == [];
  }

  /** A request event never carries usage. */
  lemma RequestBillable(call: Call, session: Session, lost: set<int>)
    ensures Billable(Tasks(session, 0, [RequestEvent(call)], lost)) == []
  {
    TasksAppend(session, 0, [], RequestEvent(call), lost);
    assert [] + [RequestEvent(call)] == [RequestEvent(call)];
    BillableSingle(TaskOf(session, 0, RequestEvent(call)));
  }

  lemma AttemptBillable(call: Call, i: nat)
    requires WellFormed(call) && i < |call.clients|
    ensures Billable(Tasks(AttemptSession(call, i), 0, AttemptEvents(call, call.outcomes[i]), call.lost[i])) ==
        AnswerTask(call, i)
  {
    var session, outcome, lost, request := AttemptSession(call, i), call.outcomes[i], call.lost[i], RequestEvent(call);
    RequestBillable(call, session, lost);
    match outcome {
      case Answered(data) =>
        IndexOfSmall(1);
        TasksAppend(session, 0, [request], data, lost);
        BillableSingle(TaskOf(session, 1, data));
        BillableOfBoth(Tasks(session, 0, [request], lost), if 1 in lost then [] else [TaskOf(session, 1, data)]);
        assert AttemptEvents(call, outcome) == [request] + [data];
      case _ =>
        assert AttemptEvents(call, outcome) == [request];
    }
  }

  /** Of all that the loop queues, only the answer it returns can carry usage. */
  lemma {:induction false} OnlyTheAnswerIsBillable(call: Call, tried: nat)
    requires WellFormed(call) && 0 < tried <= |call.clients|
    requires AllRefused(call, tried - 1)
    ensures Billable(AttemptTasks(call, tried)) == AnswerTask(call, tried - 1)
  {
    var i := tried - 1;
    AttemptBillable(call, i);
    BillableOfBoth(AttemptTasks(call, i),
        Tasks(AttemptSession(call, i), 0, AttemptEvents(call, call.outcomes[i]), call.lost[i]));
    if i > 0 {
      OnlyTheAnswerIsBillable(call, i);
    }
  }

  /** The same call with every push succeeding: what its tracers recorded, whether or not it was queued. */
  function Recorded(call: Call): (r: Call)
    requires WellFormed(call)
    ensures WellFormed(r) && r == call.(lost := r.lost)
    ensures forall i :: 0 <= i < |r.lost| ==> r.lost[i] == {}
  {
    call.(lost := seq(|call.lost|, _ => {}))
  }

  /**
   However often its events are delivered, a request that is not streamed is charged at most
   once: two charges in its sessions are the same one, and it is for the answer it returned.
   */
  lemma RequestChargedAtMostOnce(call: Call, tried: nat, s: Billing.System, k1: Key, k2: Key)
    requires WellFormed(call) && 0 < tried <= |call.clients|
    requires AllRefused(call, tried - 1)
    requires Billing.BillingInv(s)
    requires forall k :: k in s.emitted && k.sessionId in call.sessionIds ==>
        s.emitted[k] in AttemptTasks(Recorded(call), tried)
    requires k1 in s.quotes && k2 in s.quotes && k1.sessionId in call.sessionIds && k2.sessionId in call.sessionIds
    ensures k1 == k2
    ensures call.outcomes[tried - 1].Answered?
    ensures var charged := s.emitted[k1];
            && charged.data == call.outcomes[tried - 1].data && charged.sessionIndex == 1
            && charged.accountId == call.accountId && charged.apiKeyId == call.apiKeyId
            && charged.sessionId == call.sessionIds[tried - 1]
            && charged.modelId == call.clients[tried - 1].modelDbId
  {
    var recorded := Recorded(call);
    OnlyTheAnswerIsBillable(recorded, tried);
    assert Billing.QuoteOk(s, k1) && Billing.QuoteOk(s, k2);
    BillableMembers(AttemptTasks(recorded, tried), s.emitted[k1]);
    BillableMembers(AttemptTasks(recorded, tried), s.emitted[k2]);
    IndexOfSmall(1);
  }
}
