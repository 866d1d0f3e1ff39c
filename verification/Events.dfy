/** Session events: their data, the usage they carry, their numbering and their request ids. */
module Events {
  import opened Models

  // ---------------------------------------------------------------- usage

  datatype TokenUsage = TokenUsage(inputTokens: int, outputTokens: int, totalTokens: int)

  /** Only the usage part of each payload matters here; these counts are `u32`. */
  datatype OpenAIEventData =
    | CreateChatCompletionRequest
    | CreateChatCompletionStreamResponse(chunkUsage: Option<TokenUsage>)
    | CreateChatCompletionResponse(completionUsage: Option<TokenUsage>)
    | CreateChatCompletionStreamResponseDone
    | CreateImageRequest
    | ImagesResponse(imagesUsage: Option<TokenUsage>)
    | CreateEmbeddingRequest
    | CreateEmbeddingResponse(promptTokens: int, embeddingTotal: int)
    | BatchRequest
    | Batch(batchUsage: Option<TokenUsage>)
    | ResponsesRequest
    | ResponsesResponse(responseUsage: Option<TokenUsage>)
    | ResponsesStreamDone

  /** These counts are `u64`. */
  datatype AnthropicEventData =
    | CreateMessageRequest
    | CreateMessageResponse(messageInput: int, messageOutput: int)
    | CreateMessageStreamRequest
    | CreateMessageStreamResponseDone(streamInput: int, streamOutput: int)
    | CreateMessageBatchRequest
    | CreateMessageBatchResponse

  datatype EventData = OpenAI(openai: OpenAIEventData) | Anthropic(anthropic: AnthropicEventData)

  datatype UsageInfo = UsageInfo(inputTokens: int, outputTokens: int, totalTokens: int, isBatch: bool)

  function FromOptional(usage: Option<TokenUsage>, isBatch: bool): Option<UsageInfo> {
    match usage
    case Some(u) => Some(UsageInfo(u.inputTokens, u.outputTokens, u.totalTokens, isBatch))
    case None => None
  }

  function ExtractOpenAIUsage(data: OpenAIEventData): Option<UsageInfo> {
    match data
    case CreateChatCompletionResponse(usage) => FromOptional(usage, false)
    case CreateChatCompletionStreamResponse(usage) => FromOptional(usage, false)
    case CreateEmbeddingResponse(prompt, total) => Some(UsageInfo(prompt, 0, total, false))
    case ImagesResponse(usage) => FromOptional(usage, false)
    case Batch(usage) => FromOptional(usage, true)
    case ResponsesResponse(usage) => FromOptional(usage, false)
    case _ => None
  }

  /** `as i64` of a `u64`, and of a `u64` sum, which also wraps. */
  function ExtractAnthropicUsage(data: AnthropicEventData): Option<UsageInfo> {
    match data
    case CreateMessageResponse(input, output) =>
      Some(UsageInfo(WrapI64(input), WrapI64(output), WrapI64(input + output), false))
    case CreateMessageStreamResponseDone(input, output) =>
      Some(UsageInfo(WrapI64(input), WrapI64(output), WrapI64(input + output), false))
    case _ => None
  }

  function ExtractUsage(data: EventData): Option<UsageInfo> {
    match data
    case OpenAI(d) => ExtractOpenAIUsage(d)
    case Anthropic(d) => ExtractAnthropicUsage(d)
  }

  /** The counts of each payload that carries usage, and only those payloads carry it. */
  lemma UsageOfPayload(data: EventData)
    ensures match data
            case OpenAI(CreateChatCompletionResponse(Some(u))) =>
              ExtractUsage(data) == Some(UsageInfo(u.inputTokens, u.outputTokens, u.totalTokens, false))
            case OpenAI(CreateChatCompletionStreamResponse(Some(u))) =>
              ExtractUsage(data) == Some(UsageInfo(u.inputTokens, u.outputTokens, u.totalTokens, false))
            case OpenAI(ImagesResponse(Some(u))) =>
              ExtractUsage(data) == Some(UsageInfo(u.inputTokens, u.outputTokens, u.totalTokens, false))
            case OpenAI(ResponsesResponse(Some(u))) =>
              ExtractUsage(data) == Some(UsageInfo(u.inputTokens, u.outputTokens, u.totalTokens, false))
            case OpenAI(Batch(Some(u))) =>
              ExtractUsage(data) == Some(UsageInfo(u.inputTokens, u.outputTokens, u.totalTokens, true))
            case OpenAI(CreateEmbeddingResponse(prompt, total)) =>
              ExtractUsage(data) == Some(UsageInfo(prompt, 0, total, false))
            case Anthropic(CreateMessageResponse(input, output)) =>
              InI64(input) && InI64(output) && InI64(input + output) ==>
                ExtractUsage(data) == Some(UsageInfo(input, output, input + output, false))
            case Anthropic(CreateMessageStreamResponseDone(input, output)) =>
              InI64(input) && InI64(output) && InI64(input + output) ==>
                ExtractUsage(data) == Some(UsageInfo(input, output, input + output, false))
            case _ => ExtractUsage(data) == None
  {
  }

  // ---------------------------------------------------------------- printed request ids

  function Digit(n: nat): char
    requires n < 10
  {
    '0' + n as char
  }

  function PrintNat(n: nat): string {
    if n < 10 then [Digit(n)] else PrintNat(n / 10) + [Digit(n % 10)]
  }

  function PrintInt(i: int): string {
    if i < 0 then "-" + PrintNat(-i) else PrintNat(i)
  }

  datatype Provider = OpenAIApi | AnthropicApi

  datatype Key = Key(provider: Provider, sessionId: string, sessionIndex: int)

  function PrintKey(k: Key): string {
    (if k.provider.OpenAIApi? then "spendtoken-" else "anthropic-spendtoken-") + k.sessionId + "-" +
        PrintInt(k.sessionIndex)
  }

  lemma {:induction false} PrintNatDigits(n: nat)
    ensures PrintNat(n) != []
    ensures forall i :: 0 <= i < |PrintNat(n)| ==> '0' <= PrintNat(n)[i] <= '9'
  {
    if n >= 10 {
      PrintNatDigits(n / 10);
    }
  }

  lemma {:induction false} PrintNatInjective(m: nat, n: nat)
    requires PrintNat(m) == PrintNat(n)
    ensures m == n
  {
    PrintNatDigits(m / 10);
    PrintNatDigits(n / 10);
    var s := PrintNat(m);
    if m < 10 || n < 10 {
      assert |s| == 1;
      assert s[0] == Digit(m % 10) == Digit(n % 10);
    } else {
      assert s[|s| - 1] == Digit(m % 10) == Digit(n % 10);
      assert s[..|s| - 1] == PrintNat(m / 10) == PrintNat(n / 10);
      PrintNatInjective(m / 10, n / 10);
    }
  }

  /** The request ids of the two providers, as they stand in the table. */
  lemma PrintedKeys(sessionId: string)
    ensures PrintKey(Key(OpenAIApi, sessionId, 7)) == "spendtoken-" + sessionId + "-7"
    ensures PrintKey(Key(AnthropicApi, sessionId, 42)) == "anthropic-spendtoken-" + sessionId + "-42"
    ensures PrintKey(Key(AnthropicApi, sessionId, -3)) == "anthropic-spendtoken-" + sessionId + "--3"
  {
    assert PrintNat(3) == "3";
    assert PrintNat(7) == "7" && PrintNat(42) == PrintNat(4) + ['2'] == "42";
  }

  /** Where the last dash of a printed key stands. */
  lemma LastDash(s1: string, d1: string, s2: string, d2: string)
    requires s1 + "-" + d1 == s2 + "-" + d2
    requires '-' !in d1 && '-' !in d2
    ensures s1 == s2 && d1 == d2
  {
    var s := s1 + "-" + d1;
    assert s[|s1|] == '-' && s[|s2|] == '-';
    assert forall i :: |s1| < i < |s| ==> s[i] == d1[i - |s1| - 1];
    assert forall i :: |s2| < i < |s| ==> s[i] == d2[i - |s2| - 1];
    assert |s1| == |s2|;
    assert s1 == s[..|s1|] && s2 == s[..|s2|];
    assert d1 == s[|s1| + 1..] && d2 == s[|s2| + 1..];
  }

  /** The session id as the printed key shows it: a negative index adds a dash. */
  function ShownSession(k: Key): string {
    if k.sessionIndex < 0 then k.sessionId + "-" else k.sessionId
  }

  function Magnitude(i: int): nat {
    if i < 0 then -i else i
  }

  lemma PrintKeyShape(k: Key)
    ensures PrintKey(k) == (if k.provider.OpenAIApi? then "spendtoken-" else "anthropic-spendtoken-")
                           + (ShownSession(k) + "-" + PrintNat(Magnitude(k.sessionIndex)))
  {
  }

  /**
   Over arbitrary ids, two events print the same request id exactly when provider, shown session
   and magnitude of the index agree.
   */
  lemma KeysCollideIff(k1: Key, k2: Key)
    ensures PrintKey(k1) == PrintKey(k2) <==>
      k1.provider == k2.provider && ShownSession(k1) == ShownSession(k2) &&
          Magnitude(k1.sessionIndex) == Magnitude(k2.sessionIndex)
  {
    PrintKeyShape(k1);
    PrintKeyShape(k2);
    if PrintKey(k1) == PrintKey(k2) {
      assert PrintKey(k1)[0] == if k1.provider.OpenAIApi? then 's' else 'a';
      assert PrintKey(k2)[0] == if k2.provider.OpenAIApi? then 's' else 'a';
      var prefix := if k1.provider.OpenAIApi? then "spendtoken-" else "anthropic-spendtoken-";
      var rest1 := ShownSession(k1) + "-" + PrintNat(Magnitude(k1.sessionIndex));
      var rest2 := ShownSession(k2) + "-" + PrintNat(Magnitude(k2.sessionIndex));
      assert rest1 == PrintKey(k1)[|prefix|..] && rest2 == PrintKey(k2)[|prefix|..];
      PrintNatDigits(Magnitude(k1.sessionIndex));
      PrintNatDigits(Magnitude(k2.sessionIndex));
      LastDash(ShownSession(k1), PrintNat(Magnitude(k1.sessionIndex)), ShownSession(k2),
          PrintNat(Magnitude(k2.sessionIndex)));
      PrintNatInjective(Magnitude(k1.sessionIndex), Magnitude(k2.sessionIndex));
    }
  }

  /** Session ids are hyphenated UUIDs, so they all have one length. */
  const SESSION_ID_LENGTH: nat := 36

  /** Over ids of one length no two events print the same request id, whatever their indexes. */
  lemma KeysInjective(k1: Key, k2: Key)
    requires |k1.sessionId| == |k2.sessionId|
    requires PrintKey(k1) == PrintKey(k2)
    ensures k1 == k2
  {
    KeysCollideIff(k1, k2);
    assert k1.sessionId == ShownSession(k1)[..|k1.sessionId|];
    assert k2.sessionId == ShownSession(k2)[..|k2.sessionId|];
  }

  // ---------------------------------------------------------------- numbering

  datatype EventTask = EventTask(
    sessionId: string,
    sessionIndex: int,
    accountId: int,
    modelId: int,
    apiKeyId: int,
    data: EventData)

  function KeyOf(task: EventTask): Key {
    Key(if task.data.OpenAI? then OpenAIApi else AnthropicApi, task.sessionId, task.sessionIndex)
  }

  const I32_MAX: int := 0x7fff_ffff

  /** `i32 += 1` in a release build. */
  function NextIndex(i: int): int {
    if i == I32_MAX then -0x8000_0000 else i + 1
  }

  class SessionTracer {
    const sessionId: string
    const accountId: int
    const modelId: int
    const apiKeyId: int
    var sessionIndex: int
    var queue: seq<EventTask>

    constructor (sessionId: string, accountId: int, modelId: int, apiKeyId: int, queue: seq<EventTask>)
      ensures this.sessionId == sessionId && this.accountId == accountId && this.modelId == modelId &&
          this.apiKeyId == apiKeyId
      ensures sessionIndex == 0 && this.queue == queue
    {
      this.sessionId, this.accountId, this.modelId, this.apiKeyId := sessionId, accountId, modelId, apiKeyId;
      this.sessionIndex, this.queue := 0, queue;
    }

    /** The index moves on even when the push fails and the event is lost. */
    method Add(data: EventData, pushFails: bool)
      modifies this
      ensures sessionIndex == NextIndex(old(sessionIndex))
      ensures queue == old(queue) + if pushFails then []
          else [EventTask(sessionId, old(sessionIndex), accountId, modelId, apiKeyId, data)]
    {
      var index := sessionIndex;
      sessionIndex := NextIndex(sessionIndex);
      if !pushFails {
        queue := queue + [EventTask(sessionId, index, accountId, modelId, apiKeyId, data)];
      }
    }
  }

  /** The index given to the `n`-th event of a session. */
  function IndexOf(n: nat): int {
    if n == 0 then 0 else NextIndex(IndexOf(n - 1))
  }

  lemma {:induction false} IndexOfSmall(n: nat)
    requires n <= I32_MAX
    ensures IndexOf(n) == n
  {
    if n == 0 {
    } else {
      IndexOfSmall(n - 1);
    }
  }

  const I32_RANGE: int := 0x1_0000_0000

  /** The index comes round again only after 2^32 events. */
  lemma {:induction false} IndexOfWraps(n: nat)
    ensures -0x8000_0000 <= IndexOf(n) <= I32_MAX
    ensures (IndexOf(n) - n) % I32_RANGE == 0
  {
    if n == 0 {
    } else {
      IndexOfWraps(n - 1);
      SameRemainder(IndexOf(n - 1) - (n - 1), IndexOf(n) - n);
    }
  }

  lemma SameRemainder(x: int, y: int)
    requires x % I32_RANGE == 0 && (y == x || y == x - I32_RANGE)
    ensures y % I32_RANGE == 0
  {
  }

  lemma MultipleInRange(x: int)
    requires x % I32_RANGE == 0 && -I32_RANGE < x < I32_RANGE
    ensures x == 0
  {
  }

  /** Up to 2^32 events of a session have distinct request ids; the first 2^31 have increasing indexes. */
  lemma TracerKeysDistinct(provider: Provider, sessionId: string, m: nat, n: nat)
    requires m < n < m + I32_RANGE
    ensures n <= I32_MAX ==> 0 <= IndexOf(m) < IndexOf(n)
    ensures PrintKey(Key(provider, sessionId, IndexOf(m))) != PrintKey(Key(provider, sessionId, IndexOf(n)))
  {
    if n <= I32_MAX {
      IndexOfSmall(m);
      IndexOfSmall(n);
    }
    if IndexOf(m) == IndexOf(n) {
      IndexOfWraps(m);
      IndexOfWraps(n);
      DifferenceIsMultiple(IndexOf(m) - m, IndexOf(n) - n);
      MultipleInRange(n - m);
      assert false;
    }
    if PrintKey(Key(provider, sessionId, IndexOf(m))) == PrintKey(Key(provider, sessionId, IndexOf(n))) {
      KeysInjective(Key(provider, sessionId, IndexOf(m)), Key(provider, sessionId, IndexOf(n)));
      assert false;
    }
  }

  lemma DifferenceIsMultiple(x: int, y: int)
    requires x % I32_RANGE == 0 && y % I32_RANGE == 0
    ensures (x - y) % I32_RANGE == 0
  {
  }
}
