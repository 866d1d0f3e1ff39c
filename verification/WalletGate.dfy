/** The balance check in front of every proxied request, and the wallet cache it trusts. */
module WalletGate {
  import opened Models
  import opened TtlCache

  const WALLET_CACHE_TTL: nat := 300

  datatype Verdict = Pass | NoWalletRecord | InsufficientBalance | LookupFailed

  function Judge(wallet: Option<Wallet>): Verdict {
    match wallet
    case None => NoWalletRecord
    case Some(w) => if w.balance <= 0.0 then InsufficientBalance else Pass
  }

  /** A request passes exactly with a wallet whose balance is positive. */
  lemma JudgedByBalance(wallet: Wallet)
    ensures wallet.balance > 0.0 ==> Judge(Some(wallet)) == Pass
    ensures wallet.balance <= 0.0 ==> Judge(Some(wallet)) == InsufficientBalance
    ensures Judge(None) == NoWalletRecord
  {
  }

  // ---------------------------------------------------------------- the check and the cache write

  datatype Fault = CacheGet | FindWallet | CacheSet

  datatype CachedWallet = CachedWallet(wallet: Wallet, expiresAt: int)

  class WalletCache {
    var entries: map<int, CachedWallet>

    method GetWalletInfo(accountId: int, now: int, faults: set<Fault>) returns (r: Option<Wallet>)
      ensures r == if CacheGet !in faults && accountId in entries && now < entries[accountId].expiresAt
                   then Some(entries[accountId].wallet) else None
    {
      if CacheGet in faults || accountId !in entries || entries[accountId].expiresAt <= now {
        return None;
      }
      return Some(entries[accountId].wallet);
    }

    /** Called only after a settlement has committed; the check itself never fills the cache. */
    method SetWalletInfo(accountId: int, wallet: Wallet, now: int, faults: set<Fault>)
      modifies this
      ensures CacheSet !in faults ==> entries == old(entries)[accountId := CachedWallet(wallet, now + 300)]
      ensures entries == if CacheSet in faults then old(entries)
                         else old(entries)[accountId := CachedWallet(wallet, now + WALLET_CACHE_TTL)]
    {
      if CacheSet !in faults {
        entries := entries[accountId := CachedWallet(wallet, now + WALLET_CACHE_TTL)];
      }
    }

    method CheckWalletBalance(wallets: map<int, Wallet>, accountId: int, now: int, faults: set<Fault>)
      returns (verdict: Verdict)
      ensures verdict ==
        if CacheGet !in faults && accountId in entries &&
            now < entries[accountId].expiresAt then Judge(Some(entries[accountId].wallet))
        else if FindWallet in faults then LookupFailed
        else Judge(Lookup(wallets, accountId))
      ensures verdict == Pass ==>
        (accountId in wallets && wallets[accountId].balance > 0.0) || (accountId in entries &&
            entries[accountId].wallet.balance > 0.0)
    {
      var wallet := GetWalletInfo(accountId, now, faults);
      if wallet.None? {
        if FindWallet in faults {
          return LookupFailed;
        }
        if accountId !in wallets {
          return NoWalletRecord;
        }
        wallet := Some(wallets[accountId]);
      }
      if wallet.value.balance <= 0.0 {
        return InsufficientBalance;
      }
      return Pass;
    }
  }

  // ---------------------------------------------------------------- runs with late or failed cache writes

  type GateWorld = World<int, map<int, Wallet>, Wallet>
  type GateStep = Step<int, map<int, Wallet>, Wallet>

  /**
   A published wallet was the account's row when it was read: at the commit if the settlement wrote
   or inserted it, at the start of the transaction if it left the row alone.
   */
  ghost function IsRow(): (map<int, Wallet>, int, Wallet) -> bool {
    (wallets, accountId, wallet) => accountId in wallets && wallets[accountId] == wallet
  }

  /** What a request is answered when the database answers; its cache read may fail. */
  function Answer(w: GateWorld, accountId: int, cacheFails: bool): Verdict {
    if !cacheFails && IsLive(w, accountId) then Judge(Some(w.cache[accountId].value))
        else Judge(Lookup(w.table, accountId))
  }

  ghost predicate JudgedWithin(w: GateWorld, accountId: int, verdict: Verdict, bound: nat) {
    || verdict == Judge(Lookup(w.table, accountId))
    || exists i :: 0 <= i < |w.history| && verdict == Judge(Lookup(w.history[i].table, accountId))
                   && w.history[i].time <= w.clock < w.history[i].time + bound
  }

  /** The cache of the methods, as a state of the cache-and-table world. */
  predicate Mirrors(w: GateWorld, entries: map<int, CachedWallet>) {
    && w.cache.Keys == entries.Keys
    && forall a :: a in entries ==>
        w.cache[a].value == entries[a].wallet && w.cache[a].expiresAt == entries[a].expiresAt
  }

  /** What `CheckWalletBalance` decides is the world's answer. */
  lemma CheckIsAnswer(w: GateWorld, entries: map<int, CachedWallet>, accountId: int, faults: set<Fault>)
    requires Mirrors(w, entries) && FindWallet !in faults
    ensures Answer(w, accountId, CacheGet in faults) ==
      if CacheGet !in faults && accountId in entries && w.clock < entries[accountId].expiresAt
      then Judge(Some(entries[accountId].wallet))
      else Judge(Lookup(w.table, accountId))
  {
  }

  /** What `SetWalletInfo` does is the store of a committed wallet, or its loss. */
  lemma SetWalletInfoIsStep(w: GateWorld, entries: map<int, CachedWallet>, fill: Fill<int, Wallet>, faults: set<Fault>)
    requires Mirrors(w, entries) && fill in w.pending
    ensures var step: GateStep := if CacheSet in faults then Drop(fill) else Store(fill);
            var entries' := if CacheSet in faults then entries
                            else entries[fill.key := CachedWallet(fill.value, w.clock + WALLET_CACHE_TTL)];
            Enabled(IsRow(), w, step) && Mirrors(Next(WALLET_CACHE_TTL, w, step), entries')
  {
  }

  /**
   Whatever cache reads and writes fail, the gate answers as the database did at some instant of the
   last 300 seconds, plus the time a worker may take from reading the row it publishes, which for a
   settlement that leaves the balance alone is the start of its transaction, to its cache write.
   */
  lemma GateStaleness(delay: nat, w: GateWorld, run: seq<GateStep>, accountId: int, cacheFails: bool)
    requires w.cache == map[] && w.pending == multiset{} && ValidRun(IsRow(), WALLET_CACHE_TTL, delay, w, run)
    ensures var end := Final(WALLET_CACHE_TTL, w, run);
            JudgedWithin(end, accountId, Answer(end, accountId, cacheFails), WALLET_CACHE_TTL + delay)
  {
    var end := Final(WALLET_CACHE_TTL, w, run);
    if IsLive(end, accountId) {
      Staleness(IsRow(), WALLET_CACHE_TTL, delay, w, run, accountId);
      var i :| 0 <= i < |end.history| && IsRow()(end.history[i].table, accountId, end.cache[accountId].value)
               && end.history[i].time <= end.clock < end.history[i].time + (WALLET_CACHE_TTL + delay);
      assert end.history[i].table[accountId] == end.cache[accountId].value;
      assert Judge(Some(end.cache[accountId].value)) == Judge(Lookup(end.history[i].table, accountId));
    }
  }

  /** In numbers: no verdict is older than 300 seconds and that time. */
  lemma JudgedWithin300Seconds(delay: nat, w: GateWorld, run: seq<GateStep>, accountId: int, cacheFails: bool)
    requires w.cache == map[] && w.pending == multiset{} && ValidRun(IsRow(), WALLET_CACHE_TTL, delay, w, run)
    ensures var end := Final(WALLET_CACHE_TTL, w, run);
            JudgedWithin(end, accountId, Answer(end, accountId, cacheFails), 300 + delay)
  {
    GateStaleness(delay, w, run, accountId, cacheFails);
  }

  /** A wallet that is published now is read from the database again 300 seconds later. */
  lemma PublishedEntryIsGoneAfter300Seconds(w: GateWorld, fill: Fill<int, Wallet>, later: int, cacheFails: bool)
    requires fill in w.pending && w.clock + 300 <= later
    ensures var stored: GateWorld := Next(WALLET_CACHE_TTL, w, Store(fill));
            var end: GateWorld := Next(WALLET_CACHE_TTL, stored, Wait(later));
            !IsLive(end, fill.key) && Answer(end, fill.key, cacheFails) == Judge(Lookup(w.table, fill.key))
  {
  }

  // ---------------------------------------------------------------- when a cached wallet is the row

  predicate CachedIsRow(w: GateWorld, a: int) {
    a in w.cache && a in w.table && w.table[a] == w.cache[a].value
  }

  /** The row of `a` when the `i`-th read was made. */
  function RowAtRead(w: GateWorld, i: nat, a: int): Option<Wallet>
    requires i < |w.history|
  {
    Lookup(w.history[i].table, a)
  }

  /** A store makes the cached wallet the row exactly when the row has not changed since the store's read. */
  lemma StoreIsRowIff(delay: nat, w: GateWorld, fill: Fill<int, Wallet>)
    requires Inv(IsRow(), WALLET_CACHE_TTL, delay, w) && fill in w.pending
    ensures fill.readAt < |w.history|
    ensures CachedIsRow(Next(WALLET_CACHE_TTL, w, Store(fill)), fill.key) <==>
            RowAtRead(w, fill.readAt, fill.key) == Lookup(w.table, fill.key)
  {
    assert GoodRead(IsRow(), w, fill.key, fill.value, fill.readAt);
  }

  /** Over any run, a cached wallet is the row if and only if the row is now what it was when the wallet was read. */
  lemma CachedIsRowIff(delay: nat, w: GateWorld, run: seq<GateStep>, a: int)
    requires Inv(IsRow(), WALLET_CACHE_TTL, delay, w) && ValidRun(IsRow(), WALLET_CACHE_TTL, delay, w, run)
    requires a in Final(WALLET_CACHE_TTL, w, run).cache
    ensures var end := Final(WALLET_CACHE_TTL, w, run);
            && end.cache[a].readAt < |end.history|
            && (CachedIsRow(end, a) <==> RowAtRead(end, end.cache[a].readAt, a) == Lookup(end.table, a))
  {
    InvHolds(IsRow(), WALLET_CACHE_TTL, delay, w, run);
    var end := Final(WALLET_CACHE_TTL, w, run);
    assert GoodRead(IsRow(), end, a, end.cache[a].value, end.cache[a].readAt);
  }

  /** No commit of the run changes the row of `a`. */
  ghost predicate RowUntouched(w: GateWorld, run: seq<GateStep>, a: int)
    decreases |run|
  {
    run != [] ==>
      && (run[0].SetTable? ==> Lookup(run[0].table, a) == Lookup(w.table, a))
      && RowUntouched(Next(WALLET_CACHE_TTL, w, run[0]), run[1..], a)
  }

  lemma {:induction false} HistoryGrows(w: GateWorld, run: seq<GateStep>, a: int)
    ensures var end := Final(WALLET_CACHE_TTL, w, run);
            && |w.history| <= |end.history| && (forall i :: 0 <= i < |w.history| ==> end.history[i] == w.history[i])
            && (RowUntouched(w, run, a) ==> Lookup(end.table, a) == Lookup(w.table, a))
    decreases |run|
  {
    if run == [] {
    } else {
      var w' := Next(WALLET_CACHE_TTL, w, run[0]);
      assert |w.history| <= |w'.history| && forall i :: 0 <= i < |w.history| ==> w'.history[i] == w.history[i];
      HistoryGrows(w', run[1..], a);
    }
  }

  /**
   The wallet read at `w`, if it is the one cached at the end of the run, is the row exactly when
   the row is again what it was at `w`; so it is when no commit of that account came in between.
   */
  lemma CachedSinceRead(delay: nat, w: GateWorld, wallet: Wallet, run: seq<GateStep>, a: int)
    requires Inv(IsRow(), WALLET_CACHE_TTL, delay, w) && Enabled(IsRow(), w, Read(a, wallet))
    requires var read := Next(WALLET_CACHE_TTL, w, Read(a, wallet));
             && ValidRun(IsRow(), WALLET_CACHE_TTL, delay, read, run)
             && var end := Final(WALLET_CACHE_TTL, read, run); a in end.cache && end.cache[a].readAt == |w.history|
    ensures var read := Next(WALLET_CACHE_TTL, w, Read(a, wallet));
            var end := Final(WALLET_CACHE_TTL, read, run);
            && (CachedIsRow(end, a) <==> Lookup(end.table, a) == Some(wallet))
            && (RowUntouched(read, run, a) ==> CachedIsRow(end, a))
  {
    var read := Next(WALLET_CACHE_TTL, w, Read(a, wallet));
    var step: GateStep := Read(a, wallet);
    InvKept(IsRow(), WALLET_CACHE_TTL, delay, w, step);
    CachedIsRowIff(delay, read, run, a);
    HistoryGrows(read, run, a);
    var end := Final(WALLET_CACHE_TTL, read, run);
    assert end.history[|w.history|] == read.history[|w.history|] == Moment(w.clock, w.table);
  }

  // ---------------------------------------------------------------- writes out of order

  /**
   Two settlements of one account whose cache writes arrive in the other order leave the older
   wallet in the cache: the account is refused although its balance is positive.
   */
  lemma ReorderedWritesMislead()
    ensures exists run: seq<GateStep> :: EndsRefused(run)
  {
    var poor, rich := Wallet(0.0, 1), Wallet(5.0, 2);
    var w0 := EmptyWorld();
    var w1: GateWorld := Next(WALLET_CACHE_TTL, w0, SetTable(map[7 := poor]));
    var w2: GateWorld := Next(WALLET_CACHE_TTL, w1, Read(7, poor));
    var w3: GateWorld := Next(WALLET_CACHE_TTL, w2, SetTable(map[7 := rich]));
    assert w3 == World(0, map[7 := rich], [Moment(0, map[7 := poor])], map[], multiset{Fill(7, poor, 0)});
    var rest := StoresOutOfOrder(poor, rich);
    OneStep(w2, SetTable(map[7 := rich]), rest);
    var r2: seq<GateStep> := [SetTable(map[7 := rich])] + rest;
    OneStep(w1, Read(7, poor), r2);
    var r1: seq<GateStep> := [Read(7, poor)] + r2;
    OneStep(w0, SetTable(map[7 := poor]), r1);
    assert EndsRefused([SetTable(map[7 := poor])] + r1);
  }

  /** The newer wallet is read and stored; then the fill of the older one, read before, is stored over it. */
  lemma StoresOutOfOrder(poor: Wallet, rich: Wallet) returns (run: seq<GateStep>)
    requires poor.balance <= 0.0 < rich.balance
    ensures var w: GateWorld :=
        World(0, map[7 := rich], [Moment(0, map[7 := poor])], map[], multiset{Fill(7, poor, 0)});
            var end := Final(WALLET_CACHE_TTL, w, run);
            && ValidRun(IsRow(), WALLET_CACHE_TTL, 0, w, run)
            && Answer(end, 7, false) == InsufficientBalance && Judge(Lookup(end.table, 7)) == Pass
  {
    var w3: GateWorld := World(0, map[7 := rich], [Moment(0, map[7 := poor])], map[], multiset{Fill(7, poor, 0)});
    var w4: GateWorld := Next(WALLET_CACHE_TTL, w3, Read(7, rich));
    var w5: GateWorld := Next(WALLET_CACHE_TTL, w4, Store(Fill(7, rich, 1)));
    OneStep(w5, Store(Fill(7, poor, 0)), []);
    var r5: seq<GateStep> := [Store(Fill(7, poor, 0))] + [];
    OneStep(w4, Store(Fill(7, rich, 1)), r5);
    var r4: seq<GateStep> := [Store(Fill(7, rich, 1))] + r5;
    OneStep(w3, Read(7, rich), r4);
    run := [Read(7, rich)] + r4;
  }

  ghost function EmptyWorld(): GateWorld {
    World(0, map[], [], map[], multiset{})
  }

  ghost predicate EndsRefused(run: seq<GateStep>) {
    && ValidRun(IsRow(), WALLET_CACHE_TTL, 0, EmptyWorld(), run)
    && var end := Final(WALLET_CACHE_TTL, EmptyWorld(), run);
       Answer(end, 7, false) == InsufficientBalance && Judge(Lookup(end.table, 7)) == Pass
  }

  lemma OneStep(w: GateWorld, step: GateStep, rest: seq<GateStep>)
    requires Enabled(IsRow(), w, step) && Prompt(0, w, step)
    requires ValidRun(IsRow(), WALLET_CACHE_TTL, 0, Next(WALLET_CACHE_TTL, w, step), rest)
    ensures ValidRun(IsRow(), WALLET_CACHE_TTL, 0, w, [step] + rest)
    ensures Final(WALLET_CACHE_TTL, w, [step] + rest) == Final(WALLET_CACHE_TTL, Next(WALLET_CACHE_TTL, w, step), rest)
  {
    assert ([step] + rest)[1..] == rest;
  }
}
