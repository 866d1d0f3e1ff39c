/** What a session queues while a streamed response is forwarded. */
module Streams {
  import opened Models
  import opened Events

  // ---------------------------------------------------------------- the events of a session

  datatype Session = Session(sessionId: string, accountId: int, modelId: int, apiKeyId: int)

  function SessionOf(tracer: SessionTracer): Session {
    Session(tracer.sessionId, tracer.accountId, tracer.modelId, tracer.apiKeyId)
  }

  function TaskOf(s: Session, n: nat, data: EventData): EventTask {
    EventTask(s.sessionId, IndexOf(n), s.accountId, s.modelId, s.apiKeyId, data)
  }

  /** The tasks queued for a session's events from its `start`-th on; a failed push loses the event of that index. */
  function Tasks(s: Session, start: nat, data: seq<EventData>, lost: set<int>): seq<EventTask> {
    if data == [] then []
    else
      var n := |data| - 1;
      Tasks(s, start, data[..n], lost) + if IndexOf(start + n) in lost then [] else [TaskOf(s, start + n, data[n])]
  }

  lemma TasksAppend(s: Session, start: nat, data: seq<EventData>, next: EventData, lost: set<int>)
    ensures Tasks(s, start, data + [next], lost) ==
            Tasks(s, start, data, lost) + if IndexOf(start + |data|) in lost then []
                else [TaskOf(s, start + |data|, next)]
  {
    assert (data + [next])[..|data|] == data;
  }

  /** Every queued task is the one of an event that was not lost, and every event that was not lost is queued. */
  lemma {:induction false} TasksAreTheKeptEvents(s: Session, start: nat, data: seq<EventData>, lost: set<int>,
                                                 task: EventTask)
    ensures task in Tasks(s, start, data, lost) <==>
      exists n: nat :: n < |data| && IndexOf(start + n) !in lost && task == TaskOf(s, start + n, data[n])
  {
    if task in Tasks(s, start, data, lost) {
      var n := KeptEventOf(s, start, data, lost, task);
    }
    if n: nat :| n < |data| && IndexOf(start + n) !in lost && task == TaskOf(s, start + n, data[n]) {
      KeptEventIsQueued(s, start, data, lost, n);
    }
  }

  lemma {:induction false} KeptEventOf(s: Session, start: nat, data: seq<EventData>, lost: set<int>, task: EventTask)
    returns (n: nat)
    requires task in Tasks(s, start, data, lost)
    ensures n < |data| && IndexOf(start + n) !in lost && task == TaskOf(s, start + n, data[n])
  {
    n := |data| - 1;
    if task in Tasks(s, start, data[..n], lost) {
      n := KeptEventOf(s, start, data[..n], lost, task);
    }
  }

  lemma {:induction false} KeptEventIsQueued(s: Session, start: nat, data: seq<EventData>, lost: set<int>, n: nat)
    requires n < |data| && IndexOf(start + n) !in lost
    ensures TaskOf(s, start + n, data[n]) in Tasks(s, start, data, lost)
  {
    var front := data[..|data| - 1];
    if n < |front| {
      KeptEventIsQueued(s, start, front, lost, n);
    }
  }

  /** Since `before`, the tracer has queued `logged`, the first of them as the session's `start`-th event. */
  ghost predicate HasLogged(tracer: SessionTracer, before: seq<EventTask>, start: nat, logged: seq<EventData>,
                            lost: set<int>)
    reads tracer
  {
    && tracer.sessionIndex == IndexOf(start + |logged|)
    && tracer.queue == before + Tasks(SessionOf(tracer), start, logged, lost)
  }

  method Log(tracer: SessionTracer, data: EventData, lost: set<int>, ghost before: seq<EventTask>, ghost start: nat,
             ghost logged: seq<EventData>)
    requires HasLogged(tracer, before, start, logged, lost)
    modifies tracer
    ensures HasLogged(tracer, before, start, logged + [data], lost)
  {
    TasksAppend(SessionOf(tracer), start, logged, data, lost);
    tracer.Add(data, tracer.sessionIndex in lost);
  }

  /** Every task of a session carries the session's own ids, and one of its events under its index. */
  lemma TasksCarryTheSession(s: Session, start: nat, data: seq<EventData>, lost: set<int>, task: EventTask)
    requires task in Tasks(s, start, data, lost)
    ensures task.sessionId == s.sessionId && task.accountId == s.accountId
    ensures task.modelId == s.modelId && task.apiKeyId == s.apiKeyId
    ensures exists n: nat :: n < |data| && task.sessionIndex == IndexOf(start + n) && task.data == data[n]
  {
    TasksAreTheKeptEvents(s, start, data, lost, task);
  }

  /** The session of a tracer is the tracer's own ids. */
  lemma SessionOfTracer(tracer: SessionTracer)
    ensures SessionOf(tracer).sessionId == tracer.sessionId && SessionOf(tracer).accountId == tracer.accountId
    ensures SessionOf(tracer).modelId == tracer.modelId && SessionOf(tracer).apiKeyId == tracer.apiKeyId
  {
  }

  /** How many items of a stream are read before its first error. */
  function ReadUntilError<T>(items: seq<Result<T>>): (n: nat)
    ensures n <= |items| && (n < |items| ==> items[n].Err?)
    ensures forall i :: 0 <= i < n ==> items[i].Ok?
  {
    if items == [] || items[0].Err? then 0 else 1 + ReadUntilError(items[1..])
  }

  lemma {:induction false} FirstErrorIsHere<T>(items: seq<Result<T>>, n: nat)
    requires n <= |items| && (n < |items| ==> items[n].Err?)
    requires forall i :: 0 <= i < n ==> items[i].Ok?
    ensures ReadUntilError(items) == n
  {
    if n == 0 {
    } else {
      FirstErrorIsHere(items[1..], n - 1);
    }
  }

  // ---------------------------------------------------------------- chat completion streams

  /** Every chunk read is logged, then the end of the stream, unless the client left before it. */
  function ChunkEvents(chunks: seq<Result<Option<TokenUsage>>>, clientLeft: bool): (data: seq<EventData>)
    ensures |data| == ReadUntilError(chunks) + if clientLeft && ReadUntilError(chunks) == |chunks| then 0 else 1
    ensures forall k :: 0 <= k < ReadUntilError(chunks) ==>
      data[k] == OpenAI(CreateChatCompletionStreamResponse(chunks[k].value))
    ensures |data| > ReadUntilError(chunks) ==>
      data[ReadUntilError(chunks)] == OpenAI(CreateChatCompletionStreamResponseDone)
    ensures forall k :: 0 <= k < ReadUntilError(chunks) ==>
      ExtractUsage(data[k]) == FromOptional(chunks[k].value, false)
    ensures forall k :: 0 <= k < |data| ==>
      (ExtractUsage(data[k]).Some? <==> k < ReadUntilError(chunks) && chunks[k].value.Some?)
  {
    var n := ReadUntilError(chunks);
    seq(n, i requires 0 <= i < n => OpenAI(CreateChatCompletionStreamResponse(chunks[i].value))) +
    if clientLeft && n == |chunks| then [] else [OpenAI(CreateChatCompletionStreamResponseDone)]
  }

  function UsageCount(data: seq<EventData>): nat {
    if data == [] then 0
    else UsageCount(data[..|data| - 1]) + if ExtractUsage(data[|data| - 1]).Some? then 1 else 0
  }

  /** How many of the first `n` chunks carry usage. */
  function UsageChunks(chunks: seq<Result<Option<TokenUsage>>>, n: nat): nat
    requires n <= |chunks| && forall i :: 0 <= i < n ==> chunks[i].Ok?
  {
    if n == 0 then 0 else UsageChunks(chunks, n - 1) + if chunks[n - 1].value.Some? then 1 else 0
  }

  lemma {:induction false} UsageCountOfChunks(data: seq<EventData>, chunks: seq<Result<Option<TokenUsage>>>, n: nat)
    requires n <= |chunks| && n <= |data| && forall i :: 0 <= i < n ==> chunks[i].Ok?
    requires forall k :: 0 <= k < n ==> (ExtractUsage(data[k]).Some? <==> chunks[k].value.Some?)
    ensures UsageCount(data[..n]) == UsageChunks(chunks, n)
  {
    if n == 0 {
    } else {
      UsageCountOfChunks(data, chunks, n - 1);
      assert data[..n][..n - 1] == data[..n - 1];
    }
  }

  /**
   A streamed completion records usage once for every chunk with usage before the first error, so at
   most once if and only if at most one of them carries usage.
   */
  lemma StreamedUsageCount(chunks: seq<Result<Option<TokenUsage>>>, clientLeft: bool)
    ensures UsageCount(ChunkEvents(chunks, clientLeft)) == UsageChunks(chunks, ReadUntilError(chunks))
  {
    var data, n := ChunkEvents(chunks, clientLeft), ReadUntilError(chunks);
    UsageCountOfChunks(data, chunks, n);
    if |data| == n {
      assert data[..n] == data;
    } else {
      assert data[..|data| - 1] == data[..n];
    }
  }

  method TransformStreamWithLogging(chunks: seq<Result<Option<TokenUsage>>>, clientLeft: bool, tracer: SessionTracer,
                                    ghost start: nat, lost: set<int>)
    requires tracer.sessionIndex == IndexOf(start)
    modifies tracer
    ensures HasLogged(tracer, old(tracer.queue), start, ChunkEvents(chunks, clientLeft), lost)
  {
    var read := 0;
    ghost var logged: seq<EventData> := [];
    while read < |chunks| && chunks[read].Ok?
      invariant 0 <= read <= |chunks|
      invariant forall i :: 0 <= i < read ==> chunks[i].Ok?
      invariant |logged| == read
      invariant forall i :: 0 <= i < read ==> logged[i] == OpenAI(CreateChatCompletionStreamResponse(chunks[i].value))
      invariant HasLogged(tracer, old(tracer.queue), start, logged, lost)
    {
      var chunk := OpenAI(CreateChatCompletionStreamResponse(chunks[read].value));
      Log(tracer, chunk, lost, old(tracer.queue), start, logged);
      logged := logged + [chunk];
      read := read + 1;
    }
    FirstErrorIsHere(chunks, read);
    if clientLeft && read == |chunks| {
      assert ChunkEvents(chunks, clientLeft) == logged;
      return;
    }
    var done := OpenAI(CreateChatCompletionStreamResponseDone);
    Log(tracer, done, lost, old(tracer.queue), start, logged);
    assert ChunkEvents(chunks, clientLeft) == logged + [done];
  }

  // ---------------------------------------------------------------- message streams

  datatype MessageStreamEvent =
    | MessageStart(inputTokens: int)
    | MessageDelta(outputTokens: int)
    | MessageStop
    | ContentBlock

  /** The input tokens of the last MessageStart of a stream, 0 without one. */
  function LatestInput(events: seq<MessageStreamEvent>): int {
    if events == [] then 0
    else
      var last := events[|events| - 1];
      if last.MessageStart? then last.inputTokens else LatestInput(events[..|events| - 1])
  }

  /** The output tokens of the last MessageDelta of a stream, 0 without one. */
  function LatestOutput(events: seq<MessageStreamEvent>): int {
    if events == [] then 0
    else
      var last := events[|events| - 1];
      if last.MessageDelta? then last.outputTokens else LatestOutput(events[..|events| - 1])
  }

  /** `LatestInput` is the count of the last MessageStart, whatever follows it. */
  lemma {:induction false} LatestInputIsLastStart(events: seq<MessageStreamEvent>, p: nat)
    requires p < |events| && forall q :: p < q < |events| ==> !events[q].MessageStart?
    ensures events[p].MessageStart? ==> LatestInput(events) == events[p].inputTokens
    ensures p == 0 && !events[0].MessageStart? ==> LatestInput(events) == 0
  {
    var front := events[..|events| - 1];
    if p < |front| {
      LatestInputIsLastStart(front, p);
    }
  }

  /** `LatestOutput` is the count of the last MessageDelta, whatever follows it. */
  lemma {:induction false} LatestOutputIsLastDelta(events: seq<MessageStreamEvent>, p: nat)
    requires p < |events| && forall q :: p < q < |events| ==> !events[q].MessageDelta?
    ensures events[p].MessageDelta? ==> LatestOutput(events) == events[p].outputTokens
    ensures p == 0 && !events[0].MessageDelta? ==> LatestOutput(events) == 0
  {
    var front := events[..|events| - 1];
    if p < |front| {
      LatestOutputIsLastDelta(front, p);
    }
  }

  function StopCount(events: seq<MessageStreamEvent>): nat {
    if events == [] then 0
    else StopCount(events[..|events| - 1]) + if events[|events| - 1].MessageStop? then 1 else 0
  }

  lemma {:induction false} StopCountIncreases(events: seq<MessageStreamEvent>, p: nat)
    requires p < |events| && events[p].MessageStop?
    ensures StopCount(events[..p]) < StopCount(events)
  {
    var front := events[..|events| - 1];
    if p < |front| {
      StopCountIncreases(front, p);
      assert front[..p] == events[..p];
    }
  }

  /** One record for each MessageStop, in order, with the input and output counts seen last before it. */
  ghost predicate RecordsStops(records: seq<EventData>, events: seq<MessageStreamEvent>) {
    && |records| == StopCount(events)
    && forall p: nat :: p < |events| && events[p].MessageStop? ==>
         StopCount(events[..p]) < |records| &&
         records[StopCount(events[..p])] ==
             Anthropic(CreateMessageStreamResponseDone(LatestInput(events[..p]), LatestOutput(events[..p])))
  }

  lemma RecordsStopsExtended(records: seq<EventData>, events: seq<MessageStreamEvent>, event: MessageStreamEvent)
    requires RecordsStops(records, events)
    ensures event.MessageStop? ==>
      RecordsStops(records + [Anthropic(CreateMessageStreamResponseDone(LatestInput(events), LatestOutput(events)))],
          events + [event])
    ensures !event.MessageStop? ==> RecordsStops(records, events + [event])
    ensures LatestInput(events + [event]) == if event.MessageStart? then event.inputTokens else LatestInput(events)
    ensures LatestOutput(events + [event]) == if event.MessageDelta? then event.outputTokens else LatestOutput(events)
  {
    var longer := events + [event];
    assert longer[..|events|] == events;
    forall p: nat | p < |events| && events[p].MessageStop?
      ensures longer[..p] == events[..p] && StopCount(events[..p]) < StopCount(events)
    {
      StopCountIncreases(events, p);
      assert longer[..p] == events[..p];
    }
  }

  /** The records of a stream are fixed by its events. */
  lemma {:induction false} RecordsDetermined(records: seq<EventData>, other: seq<EventData>,
                                             events: seq<MessageStreamEvent>)
    requires RecordsStops(records, events) && RecordsStops(other, events)
    ensures records == other
  {
    forall k: nat | k < |records| ensures records[k] == other[k] {
      var p := StopAt(events, k);
    }
  }

  lemma {:induction false} StopAt(events: seq<MessageStreamEvent>, k: nat) returns (p: nat)
    requires k < StopCount(events)
    ensures p < |events| && events[p].MessageStop? && StopCount(events[..p]) == k
  {
    var front := events[..|events| - 1];
    if k < StopCount(front) {
      p := StopAt(front, k);
      assert front[..p] == events[..p];
    } else {
      p := |front|;
    }
  }

  /** A stream with a start of `input` tokens, a delta of `output` and a stop records these two counts, once. */
  lemma OneMessageRecorded(records: seq<EventData>, input: int, output: int)
    requires RecordsStops(records, [MessageStart(input), MessageDelta(output), MessageStop])
    ensures records == [Anthropic(CreateMessageStreamResponseDone(input, output))]
  {
    var events := [MessageStart(input), MessageDelta(output), MessageStop];
    assert events[..2] == [MessageStart(input), MessageDelta(output)];
    assert events[..2][..1] == [MessageStart(input)] && events[..1][..0] == [];
    LatestInputIsLastStart(events[..2], 0);
    LatestOutputIsLastDelta(events[..2], 1);
    assert StopCount(events[..1]) == 0 && StopCount(events[..2]) == 0;
    assert events[2].MessageStop? && StopCount(events) == 1;
  }

  function Values<T>(items: seq<Result<T>>): (values: seq<T>)
    requires forall i :: 0 <= i < |items| ==> items[i].Ok?
    ensures |values| == |items| && forall i :: 0 <= i < |items| ==> values[i] == items[i].value
  {
    seq(|items|, i requires 0 <= i < |items| => items[i].value)
  }

  /**
   The stream may end, fail or be abandoned after any item; what was queued by then is one
   record for each MessageStop read, and nothing for a stream cut before its first one.
   */
  method TransformSdkStream(items: seq<Result<MessageStreamEvent>>, tracer: SessionTracer, ghost start: nat,
                            lost: set<int>)
    returns (ghost records: seq<EventData>)
    requires tracer.sessionIndex == IndexOf(start)
    modifies tracer
    ensures RecordsStops(records, Values(items[..ReadUntilError(items)]))
    ensures HasLogged(tracer, old(tracer.queue), start, records, lost)
  {
    var inputTokens, outputTokens := 0, 0;
    var read := 0;
    records := [];
    ghost var seen: seq<MessageStreamEvent> := [];
    while read < |items| && items[read].Ok?
      invariant 0 <= read <= |items| && |seen| == read
      invariant forall i :: 0 <= i < read ==> items[i].Ok? && seen[i] == items[i].value
      invariant inputTokens == LatestInput(seen) && outputTokens == LatestOutput(seen)
      invariant RecordsStops(records, seen)
      invariant HasLogged(tracer, old(tracer.queue), start, records, lost)
    {
      var event := items[read].value;
      RecordsStopsExtended(records, seen, event);
      match event {
        case MessageStart(tokens) => inputTokens := tokens;
        case MessageDelta(tokens) => outputTokens := tokens;
        case MessageStop =>
          var record := Anthropic(CreateMessageStreamResponseDone(inputTokens, outputTokens));
          Log(tracer, record, lost, old(tracer.queue), start, records);
          records := records + [record];
        case ContentBlock =>
      }
      seen := seen + [event];
      read := read + 1;
    }
    FirstErrorIsHere(items, read);
    assert seen == Values(items[..read]);
  }
}
