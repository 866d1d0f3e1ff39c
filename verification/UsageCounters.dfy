/** The hourly token counters in Redis, which the upstream selection reads. */
module UsageCounters {
  import opened Models

  const HOUR_SECONDS: int := 3600
  const COUNTER_TTL: int := 3600

  /** The UTC hour a key is named after; times are Unix seconds. */
  function HourOf(time: int): int {
    time / HOUR_SECONDS
  }

  /** An hour is 3600 seconds, and starts on a multiple of them. */
  lemma HoursAre3600Seconds(time: int)
    ensures HourOf(time) * 3600 <= time < HourOf(time) * 3600 + 3600
  {
  }

  datatype Kind = Input | Output

  datatype CounterKey = CounterKey(kind: Kind, modelId: int, hour: int)

  datatype Counter = Counter(value: int, expiresAt: Option<int>)

  /** One INCRBY that reached Redis. */
  datatype Increment = Increment(key: CounterKey, tokens: int)

  /** What was added to a key over the whole history. */
  function TotalOf(log: seq<Increment>, key: CounterKey): int {
    if log == [] then 0
    else TotalOf(log[..|log| - 1], key) + if log[|log| - 1].key == key then log[|log| - 1].tokens else 0
  }

  lemma TotalOfAppend(log: seq<Increment>, increment: Increment, key: CounterKey)
    ensures TotalOf(log + [increment], key) == TotalOf(log, key) + if increment.key == key then increment.tokens else 0
  {
    assert (log + [increment])[..|log|] == log;
  }

  predicate IsLive(counters: map<CounterKey, Counter>, key: CounterKey, now: int) {
    key in counters && !(counters[key].expiresAt.Some? && counters[key].expiresAt.value <= now)
  }

  function ValueAt(counters: map<CounterKey, Counter>, key: CounterKey, now: int): int {
    if IsLive(counters, key, now) then counters[key].value else 0
  }

  predicate HourIsOver(hour: int, now: int) {
    (hour + 1) * HOUR_SECONDS <= now
  }

  /** Until its hour is over, a key that was added to exists with its total; no expiry falls inside its hour. */
  ghost predicate Exact(counters: map<CounterKey, Counter>, log: seq<Increment>, now: int) {
    && (forall key :: key in counters && !HourIsOver(key.hour, now) ==> counters[key].value == TotalOf(log, key) > 0)
    && (forall key :: key in counters && counters[key].expiresAt.Some? ==>
        HourIsOver(key.hour, counters[key].expiresAt.value))
    && (forall key :: key !in counters && !HourIsOver(key.hour, now) ==> TotalOf(log, key) == 0)
  }

  /** An expiry set by an increment of this hour lies after the hour. */
  lemma ExpiryAfterHour(now: int)
    ensures HourIsOver(HourOf(now), now + COUNTER_TTL)
    ensures !HourIsOver(HourOf(now), now)
  {
  }

  lemma ExactValue(counters: map<CounterKey, Counter>, log: seq<Increment>, now: int, kind: Kind, modelId: int)
    requires Exact(counters, log, now)
    ensures var key := CounterKey(kind, modelId, HourOf(now));
            && ValueAt(counters, key, now) == TotalOf(log, key)
            && (IsLive(counters, key, now) <==> TotalOf(log, key) > 0)
  {
    ExpiryAfterHour(now);
  }

  lemma ExactLater(counters: map<CounterKey, Counter>, log: seq<Increment>, now: int, later: int)
    requires Exact(counters, log, now) && now <= later
    ensures Exact(counters, log, later)
  {
  }

  /** INCRBY, then EXPIRE; a failed EXPIRE leaves the expiry as it was. */
  function Incremented(counters: map<CounterKey, Counter>, key: CounterKey, tokens: int, now: int,
                       expireFails: bool): Counter {
    Counter(
      ValueAt(counters, key, now) + tokens,
      if !expireFails then Some(now + COUNTER_TTL)
      else if IsLive(counters, key, now) then counters[key].expiresAt
      else None)
  }

  lemma ExactAfterIncrement(counters: map<CounterKey, Counter>, log: seq<Increment>, now: int, key: CounterKey,
                            tokens: int, expireFails: bool)
    requires Exact(counters, log, now) && key.hour == HourOf(now) && tokens > 0
    ensures Exact(counters[key := Incremented(counters, key, tokens, now, expireFails)],
        log + [Increment(key, tokens)], now)
  {
    ExpiryAfterHour(now);
    ExactValue(counters, log, now, key.kind, key.modelId);
    forall k {
      TotalOfAppend(log, Increment(key, tokens), k);
    }
  }

  /** A counter grows by the tokens, and a successful EXPIRE ends it 3600 seconds from now. */
  lemma IncrementedInItsFields(counters: map<CounterKey, Counter>, key: CounterKey, tokens: int, now: int)
    ensures Incremented(counters, key, tokens, now, false).expiresAt == Some(now + 3600)
    ensures key in counters && (counters[key].expiresAt.None? || now < counters[key].expiresAt.value) ==>
      Incremented(counters, key, tokens, now, true) == counters[key].(value := counters[key].value + tokens)
    ensures key !in counters || (counters[key].expiresAt.Some? && counters[key].expiresAt.value <= now) ==>
      Incremented(counters, key, tokens, now, true) == Counter(tokens, None)
  {
  }

  /** The history after an attempt to add `tokens`: nothing for no tokens, an overflow or a failed INCRBY. */
  ghost function Added(log: seq<Increment>, key: CounterKey, tokens: int, incrFails: bool): seq<Increment> {
    if tokens <= 0 || incrFails || !InI64(TotalOf(log, key) + tokens) then log else log + [Increment(key, tokens)]
  }

  /** The history after one event's usage was counted. */
  ghost function Counted(log: seq<Increment>, modelId: int, inputTokens: int, outputTokens: int, hour: int,
                         faults: set<Fault>): seq<Increment> {
    var withInput := Added(log, CounterKey(Input, modelId, hour), inputTokens, InputIncr in faults);
    Added(withInput, CounterKey(Output, modelId, hour), outputTokens, OutputIncr in faults)
  }

  lemma {:induction false} AddedTotal(log: seq<Increment>, key: CounterKey, tokens: int, incrFails: bool, k: CounterKey)
    ensures var counted := k == key && tokens > 0 && !incrFails && InI64(TotalOf(log, key) + tokens);
            TotalOf(Added(log, key, tokens, incrFails), k) == TotalOf(log, k) + if counted then tokens else 0
  {
    TotalOfAppend(log, Increment(key, tokens), k);
  }

  /** Counting an event adds its tokens to its model's two counters of that hour and to no other counter. */
  lemma {:induction false} CountedTotals(log: seq<Increment>, modelId: int, inputTokens: int, outputTokens: int,
                                         hour: int, faults: set<Fault>, key: CounterKey)
    ensures var tokens := if key.kind.Input? then inputTokens else outputTokens;
      var fails := (if key.kind.Input? then InputIncr else OutputIncr) in faults;
      var itsKey := key.modelId == modelId && key.hour == hour;
      var counted := itsKey && tokens > 0 && !fails && InI64(TotalOf(log, key) + tokens);
      TotalOf(Counted(log, modelId, inputTokens, outputTokens, hour, faults), key) ==
        TotalOf(log, key) + if counted then tokens else 0
  {
    var inputKey, outputKey := CounterKey(Input, modelId, hour), CounterKey(Output, modelId, hour);
    var withInput := Added(log, inputKey, inputTokens, InputIncr in faults);
    AddedTotal(log, inputKey, inputTokens, InputIncr in faults, key);
    AddedTotal(withInput, outputKey, outputTokens, OutputIncr in faults, key);
    if key == outputKey {
      assert key != inputKey && TotalOf(withInput, outputKey) == TotalOf(log, outputKey);
    } else if key == inputKey {
      assert key != outputKey;
    }
  }

  datatype Fault = NoConnection | InputIncr | InputExpire | OutputIncr | OutputExpire | Mget

  /**
   A read of one key is a GET, not an MGET. Its reply for a missing key is nil, which a client that
   was asked for a list may turn into a list of no values or of one missing value.
   */
  datatype NilReply = NoValues | OneMissing

  /** The one model asked for has no counter yet and the reply has no place for it. */
  predicate ReplyIsEmpty(modelIds: seq<int>, log: seq<Increment>, now: int, nilReply: NilReply) {
    |modelIds| == 1 && nilReply.NoValues? && TotalOf(log, CounterKey(Output, modelIds[0], HourOf(now))) == 0
  }

  predicate Unavailable(faults: set<Fault>) {
    NoConnection in faults || Mget in faults
  }

  class TokenCounters {
    var counters: map<CounterKey, Counter>
    ghost var log: seq<Increment>
    ghost var clock: int

    ghost predicate Valid()
      reads this
    {
      Exact(counters, log, clock)
    }

    constructor ()
      ensures Valid() && log == []
    {
      counters, log, clock := map[], [], 0;
    }

    /** INCRBY then EXPIRE. An overflow fails like any other error; a failed EXPIRE keeps the old expiry. */
    method IncrementKey(key: CounterKey, tokens: int, now: int, incrFails: bool, expireFails: bool)
      requires Valid() && clock <= now && key.hour == HourOf(now) && tokens > 0
      modifies this
      ensures Valid() && clock == now
      ensures log == Added(old(log), key, tokens, incrFails)
    {
      ExactLater(counters, log, clock, now);
      ExactValue(counters, log, now, key.kind, key.modelId);
      ExactAfterIncrement(counters, log, now, key, tokens, expireFails);
      clock := now;
      if incrFails || !InI64(ValueAt(counters, key, now) + tokens) {
        return;
      }
      counters := counters[key := Incremented(counters, key, tokens, now, expireFails)];
      log := log + [Increment(key, tokens)];
    }

    method IncrementTokenUsage(modelId: int, inputTokens: int, outputTokens: int, now: int, faults: set<Fault>)
      requires Valid() && clock <= now
      modifies this
      ensures Valid()
      ensures log == if NoConnection in faults then old(log)
          else Counted(old(log), modelId, inputTokens, outputTokens, HourOf(now), faults)
    {
      if NoConnection in faults {
        return;
      }
      var hour := HourOf(now);
      var inputKey, outputKey := CounterKey(Input, modelId, hour), CounterKey(Output, modelId, hour);
      if inputTokens > 0 {
        IncrementKey(inputKey, inputTokens, now, InputIncr in faults, InputExpire in faults);
      }
      if outputTokens > 0 {
        IncrementKey(outputKey, outputTokens, now, OutputIncr in faults, OutputExpire in faults);
      }
    }

    /** Redis may remove a key once its expiry has passed. */
    method RemoveExpired(key: CounterKey, now: int)
      requires Valid() && clock <= now && key in counters && !IsLive(counters, key, now)
      modifies this
      ensures Valid() && log == old(log)
    {
      ExactLater(counters, log, clock, now);
      clock := now;
      counters := counters - {key};
    }

    /**
     While the clock is inside an hour, the counters read for it are exactly what was added in
     it, even when some EXPIRE commands failed. Without an answer from Redis every usage is 0.
     */
    method GetOutputTokenUsageBatch(modelIds: seq<int>, now: int, faults: set<Fault>, nilReply: NilReply)
      returns (usages: seq<int>)
      requires Valid() && clock <= now
      ensures |usages| == if !Unavailable(faults) && ReplyIsEmpty(modelIds, log, now, nilReply) then 0 else |modelIds|
      ensures forall i :: 0 <= i < |usages| ==>
        usages[i] == if Unavailable(faults) then 0 else TotalOf(log, CounterKey(Output, modelIds[i], HourOf(now)))
    {
      if modelIds == [] {
        return [];
      }
      if NoConnection in faults || Mget in faults {
        return seq(|modelIds|, _ => 0);
      }
      ExactLater(counters, log, clock, now);
      if |modelIds| == 1 {
        ExactValue(counters, log, now, Output, modelIds[0]);
        if !IsLive(counters, CounterKey(Output, modelIds[0], HourOf(now)), now) && nilReply.NoValues? {
          return [];
        }
      }
      usages := [];
      for i := 0 to |modelIds|
        invariant |usages| == i
        invariant forall j :: 0 <= j < i ==> usages[j] == TotalOf(log, CounterKey(Output, modelIds[j], HourOf(now)))
      {
        ExactValue(counters, log, now, Output, modelIds[i]);
        usages := usages + [ValueAt(counters, CounterKey(Output, modelIds[i], HourOf(now)), now)];
      }
    }
  }
}
