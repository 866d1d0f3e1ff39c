/** Choosing the upstreams of a request: the eligible models, least loaded first. */
module UpstreamSelection {
  import opened Models
  import opened Sums
  import opened UsageCounters

  datatype ModelRow = ModelRow(id: int, upstreamId: int, fullname: string, cname: string, isActive: bool,
      features: seq<string>)

  datatype UpstreamRow = UpstreamRow(provider: string, status: string)

  /** A model joined with the upstream it belongs to. */
  datatype Candidate = Candidate(model: ModelRow, upstream: UpstreamRow)

  datatype ModelQuery = ModelQuery(cname: string, provider: string, feature: string)

  datatype UpstreamClient = UpstreamClient(modelDbId: int, upstreamId: int, fullname: string)

  // ---------------------------------------------------------------- the query

  predicate Matches(c: Candidate, query: ModelQuery) {
    && c.model.cname == query.cname
    && c.upstream.provider == query.provider
    && c.upstream.status == "online"
    && c.model.isActive
    && query.feature in c.model.features
  }

  /** The query promises no order: `models` lists the table in whatever order it is scanned. */
  function FindModels(models: seq<ModelRow>, upstreams: map<int, UpstreamRow>,
                      query: ModelQuery): (rows: seq<Candidate>)
    ensures forall c :: c in rows <==>
      && c.model in models && c.model.upstreamId in upstreams && c.upstream == upstreams[c.model.upstreamId]
      && c.model.cname == query.cname && c.model.isActive && query.feature in c.model.features
      && c.upstream.provider == query.provider && c.upstream.status == "online"
  {
    if models == [] then []
    else
      var m := models[0];
      var rest := FindModels(models[1..], upstreams, query);
      assert models == [m] + models[1..];
      if m.upstreamId in upstreams && Matches(Candidate(m, upstreams[m.upstreamId]), query)
      then [Candidate(m, upstreams[m.upstreamId])] + rest
      else rest
  }

  ghost predicate DistinctIds(models: seq<ModelRow>) {
    forall i, j :: 0 <= i < j < |models| ==> models[i].id != models[j].id
  }

  function ModelsOf(rows: seq<Candidate>): (models: seq<ModelRow>)
    ensures |models| == |rows| && forall i :: 0 <= i < |rows| ==> models[i] == rows[i].model
  {
    seq(|rows|, i requires 0 <= i < |rows| => rows[i].model)
  }

  /** `rows` are the models that stand at the increasing places `at`. */
  ghost predicate AtPlaces(rows: seq<Candidate>, at: seq<nat>, models: seq<ModelRow>) {
    && |at| == |rows|
    && (forall k :: 0 <= k < |at| ==> at[k] < |models| && rows[k].model == models[at[k]])
    && (forall k, l :: 0 <= k < l < |at| ==> at[k] < at[l])
  }

  lemma PlacesBehindFirst(rows: seq<Candidate>, at: seq<nat>, models: seq<ModelRow>) returns (shifted: seq<nat>)
    requires models != [] && AtPlaces(rows, at, models[1..])
    ensures AtPlaces(rows, shifted, models) && 0 !in shifted
  {
    shifted := seq(|at|, k requires 0 <= k < |at| => at[k] + 1);
    forall k | 0 <= k < |shifted| ensures shifted[k] < |models| && rows[k].model == models[shifted[k]] {
      assert models[1..][at[k]] == models[shifted[k]];
    }
  }

  lemma FirstPlace(first: Candidate, rows: seq<Candidate>, at: seq<nat>, models: seq<ModelRow>)
    requires models != [] && first.model == models[0] && AtPlaces(rows, at, models) && 0 !in at
    ensures AtPlaces([first] + rows, [0] + at, models)
  {
    forall k | 0 <= k < |at| ensures at[k] > 0 {
      assert at[k] in at;
    }
  }

  /** The answer lists its models in the order of the scan, each row of the table at most once. */
  lemma {:induction false} FoundInOrder(models: seq<ModelRow>, upstreams: map<int, UpstreamRow>, query: ModelQuery)
    returns (at: seq<nat>)
    ensures AtPlaces(FindModels(models, upstreams, query), at, models)
  {
    at := [];
    if models == [] {
    } else {
      var rows, rest := FindModels(models, upstreams, query), FindModels(models[1..], upstreams, query);
      var later := FoundInOrder(models[1..], upstreams, query);
      at := PlacesBehindFirst(rest, later, models);
      if rows != rest {
        FirstPlace(rows[0], rest, at, models);
        at := [0] + at;
      }
    }
  }

  /** So with distinct ids no model is in it twice. */
  lemma FoundOnce(models: seq<ModelRow>, upstreams: map<int, UpstreamRow>, query: ModelQuery)
    requires DistinctIds(models)
    ensures DistinctIds(ModelsOf(FindModels(models, upstreams, query)))
  {
    var at := FoundInOrder(models, upstreams, query);
  }

  function MarkOffline(upstreams: map<int, UpstreamRow>, id: int): map<int, UpstreamRow> {
    if id in upstreams then upstreams[id := upstreams[id].(status := "offline")] else upstreams
  }

  /** Marking an upstream offline removes its models from every answer and no other model from any. */
  lemma OfflineUpstreamIsSkipped(models: seq<ModelRow>, upstreams: map<int, UpstreamRow>, query: ModelQuery, id: int,
                                 c: Candidate)
    ensures c in FindModels(models, MarkOffline(upstreams, id), query) <==>
            c in FindModels(models, upstreams, query) && c.model.upstreamId != id
  {
    if c.model.upstreamId == id && id in upstreams {
      assert MarkOffline(upstreams, id)[id].status == "offline";
      assert c in FindModels(models, MarkOffline(upstreams, id), query) ==> c.upstream.status == "online";
    }
  }

  // ---------------------------------------------------------------- rank

  /** Candidate `i` goes before `j`: less used, or as much used and earlier in the answer. */
  predicate Before(usages: seq<int>, i: nat, j: nat)
    requires i < |usages| && j < |usages|
  {
    usages[i] < usages[j] || (usages[i] == usages[j] && i < j)
  }

  function Predecessors(usages: seq<int>, i: nat): set<nat>
    requires i < |usages|
  {
    set j: nat | j < |usages| && Before(usages, j, i)
  }

  /** How many candidates go before `i`. */
  function Rank(usages: seq<int>, i: nat): nat
    requires i < |usages|
  {
    |Predecessors(usages, i)|
  }

  /** Ranks list the candidates by usage, and candidates of equal usage in the answer's order. */
  lemma RankOrders(usages: seq<int>, i: nat, j: nat)
    requires i < |usages| && j < |usages|
    ensures Rank(usages, i) < Rank(usages, j) <==> Before(usages, i, j)
    ensures Rank(usages, i) == Rank(usages, j) <==> i == j
  {
    if Before(usages, i, j) {
      assert i in Predecessors(usages, j) && i !in Predecessors(usages, i);
      SubsetCardinality(Predecessors(usages, i), Predecessors(usages, j));
    } else if Before(usages, j, i) {
      assert j in Predecessors(usages, i) && j !in Predecessors(usages, j);
      SubsetCardinality(Predecessors(usages, j), Predecessors(usages, i));
    }
  }

  // ---------------------------------------------------------------- sorting

  /** An entry of the sorted vector: the usage and which candidate it refers to. */
  datatype Entry = Entry(usage: int, candidate: nat)

  ghost predicate Lists(entries: seq<Entry>, usages: seq<int>, n: nat)
    requires n <= |usages|
  {
    && |entries| == n
    && (forall k :: 0 <= k < n ==> entries[k].candidate < n && entries[k].usage == usages[entries[k].candidate])
    && (forall k, l :: 0 <= k < l < n ==> Before(usages, entries[k].candidate, entries[l].candidate))
  }

  function Below(n: nat): (s: set<nat>)
    ensures |s| == n
    ensures forall i: nat :: i in s <==> i < n
  {
    if n == 0 then {} else Below(n - 1) + {n - 1}
  }

  lemma {:induction false} PrefixSize(entries: seq<Entry>, usages: seq<int>, k: nat, prefix: set<nat>)
    requires Lists(entries, usages, |usages|) && k <= |usages|
    requires prefix == set l: nat | l < k :: entries[l].candidate
    ensures |prefix| == k
  {
    if k == 0 {
    } else {
      var shorter := set l: nat | l < k - 1 :: entries[l].candidate;
      PrefixSize(entries, usages, k - 1, shorter);
      assert prefix == shorter + {entries[k - 1].candidate};
      assert entries[k - 1].candidate !in shorter;
    }
  }

  lemma EveryCandidateListed(entries: seq<Entry>, usages: seq<int>, i: nat) returns (k: nat)
    requires Lists(entries, usages, |usages|) && i < |usages|
    ensures k < |usages| && entries[k].candidate == i
  {
    var all := set l: nat | l < |usages| :: entries[l].candidate;
    PrefixSize(entries, usages, |usages|, all);
    assert all <= Below(|usages|);
    SubsetCardinality(all, Below(|usages|));
    assert i in all;
    k :| k < |usages| && entries[k].candidate == i;
  }

  /** In a sorted vector of all the candidates, each one stands at its rank. */
  lemma SortedAtRank(entries: seq<Entry>, usages: seq<int>, i: nat)
    requires Lists(entries, usages, |usages|) && i < |usages|
    ensures Rank(usages, i) < |usages| && entries[Rank(usages, i)].candidate == i
  {
    var k := EveryCandidateListed(entries, usages, i);
    var prefix := set l: nat | l < k :: entries[l].candidate;
    PrefixSize(entries, usages, k, prefix);
    forall j | j in Predecessors(usages, i) ensures j in prefix {
      var l := EveryCandidateListed(entries, usages, j);
      assert l < k;
    }
    assert prefix == Predecessors(usages, i);
  }

  lemma InsertedStaysSorted(entries: seq<Entry>, usages: seq<int>, i: nat, k: nat)
    requires i < |usages| && Lists(entries, usages, i) && k <= i
    requires k > 0 ==> entries[k - 1].usage <= usages[i]
    requires k < i ==> usages[i] < entries[k].usage
    ensures Lists(entries[..k] + [Entry(usages[i], i)] + entries[k..], usages, i + 1)
  {
  }

  /** The stable sort by usage; an entry is inserted behind those of the same usage. */
  method SortByUsage(usages: seq<int>) returns (entries: seq<Entry>)
    ensures Lists(entries, usages, |usages|)
  {
    entries := [];
    for i := 0 to |usages|
      invariant Lists(entries, usages, i)
    {
      var k := i;
      while k > 0 && usages[i] < entries[k - 1].usage
        invariant 0 <= k <= i
        invariant k < i ==> usages[i] < entries[k].usage
      {
        k := k - 1;
      }
      InsertedStaysSorted(entries, usages, i, k);
      entries := entries[..k] + [Entry(usages[i], i)] + entries[k..];
    }
  }

  // ---------------------------------------------------------------- selection

  function ClientOf(c: Candidate): UpstreamClient {
    UpstreamClient(c.model.id, c.model.upstreamId, c.model.fullname)
  }

  function Min(a: nat, b: nat): nat {
    if a < b then a else b
  }

  /** The output tokens each candidate is seen to have produced this hour. */
  function UsagesSeen(rows: seq<Candidate>, log: seq<Increment>, now: int, unavailable: bool): (usages: seq<int>)
    ensures |usages| == |rows|
  {
    seq(|rows|, i requires 0 <= i < |rows| =>
      if unavailable then 0 else TotalOf(log, CounterKey(Output, rows[i].model.id, HourOf(now))))
  }

  /** `clients` are the `count` candidates of lowest rank, in the order of their ranks. */
  ghost predicate LeastLoaded(clients: seq<UpstreamClient>, rows: seq<Candidate>, usages: seq<int>, count: nat)
    requires |usages| == |rows|
  {
    && |clients| == Min(count, |rows|)
    && forall i: nat :: i < |rows| && Rank(usages, i) < |clients| ==> clients[Rank(usages, i)] == ClientOf(rows[i])
  }

  /** The client's three ids are those of one of the candidates. */
  predicate IsClientOfSome(client: UpstreamClient, rows: seq<Candidate>) {
    exists c :: c in rows && client.modelDbId == c.model.id && client.upstreamId == c.model.upstreamId &&
      client.fullname == c.model.fullname
  }

  function ModelIds(rows: seq<Candidate>): (ids: seq<int>)
    ensures |ids| == |rows|
  {
    seq(|rows|, i requires 0 <= i < |rows| => rows[i].model.id)
  }

  /**
   The usages are paired with the candidates, so a reply with no place for the only candidate drops
   it; in every other case the selection has as many clients as asked or there are.
   */
  method SelectModelClients(found: Result<seq<Candidate>>, counters: TokenCounters, now: int, faults: set<Fault>,
                            nilReply: NilReply, count: nat)
    returns (clients: seq<UpstreamClient>)
    requires counters.Valid() && counters.clock <= now
    ensures found.Err? ==> clients == []
    ensures found.Ok? ==>
      var dropped := !Unavailable(faults) && ReplyIsEmpty(ModelIds(found.value), counters.log, now, nilReply);
      && (dropped ==> clients == [])
      && (forall k :: 0 <= k < |clients| ==> IsClientOfSome(clients[k], found.value))
      && |clients| == (if dropped then 0 else if count < |found.value| then count else |found.value|)
      && (!dropped ==> LeastLoaded(clients, found.value,
          UsagesSeen(found.value, counters.log, now, Unavailable(faults)), count))
      && (|clients| == Min(count, |found.value|) <==> !dropped || count == 0)
  {
    if found.Err? || found.value == [] {
      return [];
    }
    var rows := found.value;
    var usages := counters.GetOutputTokenUsageBatch(ModelIds(rows), now, faults, nilReply);
    var entries := SortByUsage(usages);
    var chosen := entries[..Min(count, |entries|)];
    clients := [];
    for k := 0 to |chosen|
      invariant |clients| == k
      invariant forall l :: 0 <= l < k ==> clients[l] == ClientOf(rows[entries[l].candidate])
      invariant forall l :: 0 <= l < k ==> rows[entries[l].candidate] in rows
    {
      clients := clients + [ClientOf(rows[chosen[k].candidate])];
    }
    if usages != [] {
      assert usages == UsagesSeen(rows, counters.log, now, Unavailable(faults));
      forall i: nat | i < |rows| && Rank(usages, i) < |clients|
        ensures clients[Rank(usages, i)] == ClientOf(rows[i])
      {
        SortedAtRank(entries, usages, i);
      }
    }
  }

  lemma RankBounded(usages: seq<int>, i: nat)
    requires i < |usages|
    ensures Rank(usages, i) < |usages|
  {
    assert i in Below(|usages|) && i !in Predecessors(usages, i);
    SubsetCardinality(Predecessors(usages, i), Below(|usages|));
  }

  lemma {:induction false} RanksDistinct(usages: seq<int>, k: nat, ranks: set<nat>)
    requires k <= |usages| && ranks == set i: nat | i < k :: Rank(usages, i)
    ensures |ranks| == k
  {
    if k == 0 {
    } else {
      var fewer := set i: nat | i < k - 1 :: Rank(usages, i);
      RanksDistinct(usages, k - 1, fewer);
      assert ranks == fewer + {Rank(usages, k - 1)};
      forall i: nat | i < k - 1 ensures Rank(usages, i) != Rank(usages, k - 1) {
        RankOrders(usages, i, k - 1);
      }
    }
  }

  /** Every place is the rank of some candidate. */
  lemma RankOnto(usages: seq<int>, place: nat) returns (i: nat)
    requires place < |usages|
    ensures i < |usages| && Rank(usages, i) == place
  {
    var n := |usages|;
    var ranks := set j: nat | j < n :: Rank(usages, j);
    RanksDistinct(usages, n, ranks);
    forall j: nat | j < n ensures Rank(usages, j) in Below(n) {
      RankBounded(usages, j);
    }
    SubsetCardinality(ranks, Below(n));
    assert place in ranks;
    i :| i < n && Rank(usages, i) == place;
  }

  /** The rows and their usages leave exactly one possible selection. */
  lemma SelectionIsDetermined(clients: seq<UpstreamClient>, other: seq<UpstreamClient>, rows: seq<Candidate>,
                              usages: seq<int>, count: nat)
    requires |usages| == |rows|
    requires LeastLoaded(clients, rows, usages, count) && LeastLoaded(other, rows, usages, count)
    ensures clients == other
  {
    forall place: nat | place < |clients| ensures clients[place] == other[place] {
      var i := RankOnto(usages, place);
    }
  }

  /** A candidate left out is at least as used as each one chosen, and among equals it comes later in the answer. */
  lemma NoneLeftOutIsLessUsed(clients: seq<UpstreamClient>, rows: seq<Candidate>, usages: seq<int>, count: nat,
                              place: nat, unchosen: nat)
    returns (chosen: nat)
    requires |usages| == |rows| && LeastLoaded(clients, rows, usages, count)
    requires place < |clients| && unchosen < |rows| && Rank(usages, unchosen) >= count
    ensures chosen < |rows| && clients[place] == ClientOf(rows[chosen])
    ensures usages[chosen] < usages[unchosen] || (usages[chosen] == usages[unchosen] && chosen < unchosen)
  {
    chosen := RankOnto(usages, place);
    RankOrders(usages, chosen, unchosen);
  }

  /** With distinct models in the table, no model is chosen twice, so a retry goes to another one. */
  lemma NoModelIsChosenTwice(models: seq<ModelRow>, upstreams: map<int, UpstreamRow>, query: ModelQuery,
                             clients: seq<UpstreamClient>, usages: seq<int>, count: nat)
    requires DistinctIds(models) && |usages| == |FindModels(models, upstreams, query)|
    requires LeastLoaded(clients, FindModels(models, upstreams, query), usages, count)
    ensures forall k, l :: 0 <= k < l < |clients| ==> clients[k].modelDbId != clients[l].modelDbId
  {
    var rows := FindModels(models, upstreams, query);
    FoundOnce(models, upstreams, query);
    forall k, l | 0 <= k < l < |clients| ensures clients[k].modelDbId != clients[l].modelDbId {
      var i := RankOnto(usages, k);
      var j := RankOnto(usages, l);
      assert ModelsOf(rows)[i].id != ModelsOf(rows)[j].id;
    }
  }
}
