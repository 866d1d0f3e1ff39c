/**
 A cache with a time to live in front of a table. A value is read from the table at one instant
 and stored at a later one; in between the table may change, and the store may fail or never
 happen. `readAt` and `history` are history: when, and from which table, a value was read.
 */
module TtlCache {

  datatype Entry<V> = Entry(value: V, expiresAt: int, readAt: nat)

  datatype Fill<K, V> = Fill(key: K, value: V, readAt: nat)

  datatype Moment<T> = Moment(time: int, table: T)

  datatype World<K, T, V(==)> = World(
    clock: int,
    table: T,
    history: seq<Moment<T>>,
    cache: map<K, Entry<V>>,
    pending: multiset<Fill<K, V>>)

  datatype Step<K, T, V> =
    | Wait(until: int)
    | SetTable(table: T)
    | Read(key: K, value: V)
    | Store(fill: Fill<K, V>)
    | Drop(fill: Fill<K, V>)
    | Delete(key: K)

  /** `justified(table, key, value)`: the value is one that reading this table may produce. */
  ghost predicate Enabled<K, T, V>(justified: (T, K, V) -> bool, w: World<K, T, V>, step: Step<K, T, V>) {
    match step
    case Wait(until) => w.clock <= until
    case SetTable(_) => true
    case Read(key, value) => justified(w.table, key, value)
    case Store(fill) => fill in w.pending
    case Drop(fill) => fill in w.pending
    case Delete(_) => true
  }

  ghost function Next<K, T, V>(ttl: nat, w: World<K, T, V>, step: Step<K, T, V>): World<K, T, V> {
    match step
    case Wait(until) => w.(clock := until)
    case SetTable(table) => w.(table := table)
    case Read(key, value) =>
      w.(history := w.history + [Moment(w.clock, w.table)],
         pending := w.pending + multiset{Fill(key, value, |w.history|)})
    case Store(fill) =>
      w.(cache := w.cache[fill.key := Entry(fill.value, w.clock + ttl, fill.readAt)],
         pending := w.pending - multiset{fill})
    case Drop(fill) => w.(pending := w.pending - multiset{fill})
    case Delete(key) => w.(cache := w.cache - {key})
  }

  /** Redis returns an entry only before its expiry. */
  predicate IsLive<K, T, V(==)>(w: World<K, T, V>, key: K) {
    key in w.cache && w.clock < w.cache[key].expiresAt
  }

  /** A store happens at most `delay` seconds after its read; with `delay == 0` they are one step. */
  ghost predicate Prompt<K, T, V>(delay: nat, w: World<K, T, V>, step: Step<K, T, V>) {
    step.Store? ==> step.fill.readAt < |w.history| && w.clock <= w.history[step.fill.readAt].time + delay
  }

  ghost predicate GoodRead<K, T, V>(justified: (T, K, V) -> bool, w: World<K, T, V>, key: K, value: V, readAt: nat) {
    && readAt < |w.history|
    && justified(w.history[readAt].table, key, value)
    && w.history[readAt].time <= w.clock
  }

  ghost predicate Inv<K(!new), T, V(!new)>(justified: (T, K, V) -> bool, ttl: nat, delay: nat, w: World<K, T, V>) {
    && (forall f :: f in w.pending ==> GoodRead(justified, w, f.key, f.value, f.readAt))
    && (forall k :: k in w.cache ==>
          && GoodRead(justified, w, k, w.cache[k].value, w.cache[k].readAt)
          && w.cache[k].expiresAt <= w.history[w.cache[k].readAt].time + delay + ttl)
  }

  lemma GoodReadKept<K, T, V>(justified: (T, K, V) -> bool, ttl: nat, w: World<K, T, V>, step: Step<K, T, V>, key: K,
                              value: V, readAt: nat)
    requires GoodRead(justified, w, key, value, readAt) && Enabled(justified, w, step)
    ensures GoodRead(justified, Next(ttl, w, step), key, value, readAt)
    ensures Next(ttl, w, step).history[readAt] == w.history[readAt]
  {
  }

  lemma InvKept<K(!new), T, V(!new)>(justified: (T, K, V) -> bool, ttl: nat, delay: nat, w: World<K, T, V>,
                  step: Step<K, T, V>)
    requires Inv(justified, ttl, delay, w) && Enabled(justified, w, step) && Prompt(delay, w, step)
    ensures Inv(justified, ttl, delay, Next(ttl, w, step))
  {
    var w' := Next(ttl, w, step);
    forall f | f in w'.pending ensures GoodRead(justified, w', f.key, f.value, f.readAt) {
      if f in w.pending {
        GoodReadKept(justified, ttl, w, step, f.key, f.value, f.readAt);
      }
    }
    forall k | k in w'.cache
      ensures GoodRead(justified, w', k, w'.cache[k].value, w'.cache[k].readAt)
      ensures w'.cache[k].expiresAt <= w'.history[w'.cache[k].readAt].time + delay + ttl
    {
      GoodReadKept(justified, ttl, w, step, k, w'.cache[k].value, w'.cache[k].readAt);
    }
  }

  ghost predicate ValidRun<K, T, V>(justified: (T, K, V) -> bool, ttl: nat, delay: nat, w: World<K, T, V>,
                                    run: seq<Step<K, T, V>>)
    decreases |run|
  {
    run != [] ==>
      Enabled(justified, w, run[0]) && Prompt(delay, w, run[0]) &&
          ValidRun(justified, ttl, delay, Next(ttl, w, run[0]), run[1..])
  }

  ghost function Final<K, T, V>(ttl: nat, w: World<K, T, V>, run: seq<Step<K, T, V>>): World<K, T, V>
    decreases |run|
  {
    if run == [] then w else Final(ttl, Next(ttl, w, run[0]), run[1..])
  }

  /** The table as it was at some instant less than `bound` seconds ago justified the value. */
  ghost predicate JustifiedWithin<K, T, V>(justified: (T, K, V) -> bool, w: World<K, T, V>, key: K, value: V,
                                           bound: nat) {
    exists i :: 0 <= i < |w.history| && justified(w.history[i].table, key, value)
                && w.history[i].time <= w.clock < w.history[i].time + bound
  }

  lemma {:induction false} InvHolds<K(!new), T, V(!new)>(justified: (T, K, V) -> bool, ttl: nat, delay: nat,
                                      w: World<K, T, V>, run: seq<Step<K, T, V>>)
    requires Inv(justified, ttl, delay, w) && ValidRun(justified, ttl, delay, w, run)
    ensures Inv(justified, ttl, delay, Final(ttl, w, run))
    decreases |run|
  {
    if run == [] {
    } else {
      InvKept(justified, ttl, delay, w, run[0]);
      InvHolds(justified, ttl, delay, Next(ttl, w, run[0]), run[1..]);
    }
  }

  /** Over any run, a value the cache returns was true of the table less than `ttl + delay` ago. */
  lemma Staleness<K(!new), T, V(!new)>(justified: (T, K, V) -> bool, ttl: nat, delay: nat, w: World<K, T, V>,
                    run: seq<Step<K, T, V>>, key: K)
    requires w.cache == map[] && w.pending == multiset{} && ValidRun(justified, ttl, delay, w, run)
    requires IsLive(Final(ttl, w, run), key)
    ensures JustifiedWithin(justified, Final(ttl, w, run), key, Final(ttl, w, run).cache[key].value, ttl + delay)
  {
    InvHolds(justified, ttl, delay, w, run);
    var end := Final(ttl, w, run);
    assert GoodRead(justified, end, key, end.cache[key].value, end.cache[key].readAt);
  }
}
