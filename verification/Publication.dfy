/**
 What settlements publish in the wallet cache. A settlement publishes the wallet it wrote; one that
 leaves the balance alone, because a subscription paid or nothing was due, publishes the row it read,
 without a lock, at the start of its transaction.
 */
module Publication {
  import opened Models
  import opened Ledger
  import Interleaving
  import LedgerLaws
  import WalletGate

  // ---------------------------------------------------------------- settlements that publish

  /** The settlements in progress and the cached wallets; entries expire in `WalletGate`. */
  datatype System = System(base: Interleaving.System, cache: map<int, Wallet>)

  /** Commit and cache write are one step; the write may fail. */
  datatype Step = Other(step: Interleaving.Step) | CommitAndPublish(w: int, written: bool)

  /** The commit changes the balance it read. */
  predicate ChangesBalance(db: Db, p: Interleaving.Phase)
    requires p.Prepared? && p.id in db.changes
  {
    var balance := Interleaving.Snapshot(p).balance;
    NewBalance(balance, db.changes[p.id].content, Interleaving.Choice(p.paid)) != balance
  }

  /** The wallet a settlement returns: the one it wrote, else the one it read or inserted. */
  function Returned(db: Db, p: Interleaving.Phase): Wallet
    requires p.Prepared? && p.id in db.changes
  {
    var wallet := Interleaving.Snapshot(p);
    if ChangesBalance(db, p)
    then Wallet(NewBalance(wallet.balance, db.changes[p.id].content, Interleaving.Choice(p.paid)), p.now)
    else wallet
  }

  ghost predicate Enabled(s: System, step: Step) {
    match step
    case Other(step) => !step.Commit? && Interleaving.Enabled(s.base, step)
    case CommitAndPublish(w, _) => Interleaving.Enabled(s.base, Interleaving.Commit(w))
  }

  /** The account whose settlement a worker commits. */
  ghost function AccountOf(s: System, w: int): int
    requires Enabled(s, CommitAndPublish(w, true))
  {
    s.base.db.changes[s.base.workers[w].id].accountId
  }

  ghost function BaseStep(step: Step): Interleaving.Step {
    match step
    case Other(step) => step
    case CommitAndPublish(w, _) => Interleaving.Commit(w)
  }

  ghost function Next(s: System, step: Step): System
    requires Enabled(s, step)
  {
    System(
      Interleaving.Next(s.base, BaseStep(step)),
      if step.CommitAndPublish? && step.written
      then s.cache[AccountOf(s, step.w) := Returned(s.base.db, s.base.workers[step.w])]
      else s.cache)
  }

  ghost predicate ValidRun(s: System, run: seq<Step>)
    decreases |run|
  {
    run != [] ==> Enabled(s, run[0]) && ValidRun(Next(s, run[0]), run[1..])
  }

  ghost function Final(s: System, run: seq<Step>): System
    requires ValidRun(s, run)
    decreases |run|
  {
    if run == [] then s else Final(Next(s, run[0]), run[1..])
  }

  // ---------------------------------------------------------------- when a cached wallet is the row

  predicate CachedIsRow(s: System, a: int) {
    a in s.cache && Lookup(s.base.db.wallets, a) == Some(s.cache[a])
  }

  /** What a worker publishes is the row: it changed or inserted the wallet, or what it read is current. */
  ghost predicate PublishesRow(s: System, w: int)
    requires Enabled(s, CommitAndPublish(w, true))
  {
    var p := s.base.workers[w];
    || ChangesBalance(s.base.db, p)
    || p.wallet.None?
    || Lookup(s.base.db.wallets, AccountOf(s, w)) == p.wallet
  }

  /** A publication leaves the row in the cache if and only if the balance changed or the row read is still current. */
  lemma PublicationIsRowIff(s: System, w: int)
    requires Enabled(s, CommitAndPublish(w, true))
    ensures CachedIsRow(Next(s, CommitAndPublish(w, true)), AccountOf(s, w)) <==> PublishesRow(s, w)
  {
  }

  /**
   A commit whose cache write fails leaves the cached wallet the row if and only if it does not
   change the balance and the wallet was the row, or it was the very wallet the commit writes.
   */
  lemma LostPublicationIsRowIff(s: System, w: int)
    requires Enabled(s, CommitAndPublish(w, false))
    ensures var a, p := AccountOf(s, w), s.base.workers[w];
            CachedIsRow(Next(s, CommitAndPublish(w, false)), a) <==>
              if ChangesBalance(s.base.db, p) || p.wallet.None?
              then a in s.cache && s.cache[a] == Returned(s.base.db, p)
              else CachedIsRow(s, a)
  {
  }

  /** Nothing else touches the account's row or its cached wallet. */
  lemma OthersKeepCached(s: System, step: Step, a: int)
    requires Enabled(s, step) && (step.CommitAndPublish? ==> AccountOf(s, step.w) != a)
    ensures CachedIsRow(Next(s, step), a) <==> CachedIsRow(s, a)
  {
  }

  /** Going through a run: whether the cached wallet of `a` is the row at its end, told from the guards of its steps. */
  ghost predicate StaysRow(s: System, run: seq<Step>, a: int, before: bool)
    requires ValidRun(s, run)
    decreases |run|
  {
    if run == [] then before
    else
      var step := run[0];
      StaysRow(Next(s, step), run[1..], a,
        if !step.CommitAndPublish? || AccountOf(s, step.w) != a then before
        else if step.written then PublishesRow(s, step.w)
        else
          var p := s.base.workers[step.w];
          if ChangesBalance(s.base.db, p) || p.wallet.None? then a in s.cache && s.cache[a] == Returned(s.base.db, p)
          else before)
  }

  /** Over any run the cached wallet is the row exactly as the publications of the account say. */
  lemma {:induction false} CachedIsRowIff(s: System, run: seq<Step>, a: int)
    requires ValidRun(s, run)
    ensures CachedIsRow(Final(s, run), a) <==> StaysRow(s, run, a, CachedIsRow(s, a))
    decreases |run|
  {
    if run == [] {
    } else {
      var step := run[0];
      if !step.CommitAndPublish? || AccountOf(s, step.w) != a {
        OthersKeepCached(s, step, a);
      } else if step.written {
        PublicationIsRowIff(s, step.w);
      } else {
        LostPublicationIsRowIff(s, step.w);
      }
      CachedIsRowIff(Next(s, step), run[1..], a);
    }
  }

  // ---------------------------------------------------------------- when the gate agrees with the database

  ghost predicate AllWritten(run: seq<Step>) {
    forall i :: 0 <= i < |run| && run[i].CommitAndPublish? ==> run[i].written
  }

  /** No two transactions in progress settle changes of one account, at any time of the run. */
  ghost predicate ExclusiveRun(s: System, run: seq<Step>)
    requires ValidRun(s, run)
    decreases |run|
  {
    Interleaving.Exclusive(s.base) && (run != [] ==> ExclusiveRun(Next(s, run[0]), run[1..]))
  }

  /** Both answers the gate can give, from a live entry or from the database, are the same. */
  ghost predicate GateAgrees(s: System, a: int) {
    a in s.cache ==> WalletGate.Judge(Some(s.cache[a])) == WalletGate.Judge(Lookup(s.base.db.wallets, a))
  }

  /**
   If settlements of one account never overlap and every cache write follows its commit at once and
   succeeds, a cached wallet is the row and the gate answers as the database.
   */
  lemma {:induction false} GateAnswersAsDatabase(s: System, run: seq<Step>, a: int)
    requires Interleaving.Inv(s.base) && Interleaving.AllUpToDate(s.base)
    requires ValidRun(s, run) && ExclusiveRun(s, run) && AllWritten(run)
    requires a in s.cache ==> CachedIsRow(s, a)
    ensures a in Final(s, run).cache ==> CachedIsRow(Final(s, run), a)
    ensures GateAgrees(Final(s, run), a)
    decreases |run|
  {
    if run == [] {
    } else {
      var step := run[0];
      Interleaving.InvKept(s.base, BaseStep(step));
      Interleaving.UpToDateKept(s.base, BaseStep(step));
      if step.CommitAndPublish? && AccountOf(s, step.w) == a {
        assert Interleaving.UpToDate(s.base.db, s.base.workers[step.w]);
        PublicationIsRowIff(s, step.w);
      } else {
        OthersKeepCached(s, step, a);
      }
      assert forall i :: 0 <= i < |run[1..]| ==> run[1..][i] == run[i + 1];
      GateAnswersAsDatabase(Next(s, step), run[1..], a);
    }
  }

  // ---------------------------------------------------------------- a stale publication

  lemma PrependStep(s: System, step: Step, rest: seq<Step>)
    requires Enabled(s, step) && ValidRun(Next(s, step), rest)
    ensures ValidRun(s, [step] + rest) && Final(s, [step] + rest) == Final(Next(s, step), rest)
  {
    assert ([step] + rest)[1..] == rest;
  }

  function TheSubscription(): Subscription {
    Subscription(7, Active, Some(0), Some(100), 0, 50, 0, 0.0)
  }

  function TheSpend(): Content {
    Spend(SpendToken(1, 1.0, 1.0, 0, 0.0, 0.0, 1, 0))
  }

  /** An empty wallet, an active subscription with room, a spend and a deposit that wait to be settled. */
  ghost function SpendAndDeposit(): Db {
    Db(map[7 := Wallet(0.0, 0)], map[1 := TheSubscription()],
       map[1 := BalanceChange(7, "spend", TheSpend(), false, 0),
           2 := BalanceChange(7, "deposit", Deposit(5.0), false, 0)])
  }

  /** The deposit is settled and published; the spend's worker had read the wallet before. */
  ghost function DepositPublished(): System {
    var db := SpendAndDeposit();
    System(
      Interleaving.System(
        db.(wallets := map[7 := Wallet(5.0, 2)],
            changes := db.changes[2 := BalanceChange(7, "deposit", Deposit(5.0), true, 0)]),
        map[11 := Interleaving.WalletRead(1, Some(Wallet(0.0, 0)), 1)]),
      map[7 := Wallet(5.0, 2)])
  }

  ghost predicate EndsMisled(s: System, run: seq<Step>) {
    && ValidRun(s, run) && AllWritten(run)
    && var end := Final(s, run);
       && Lookup(end.base.db.wallets, 7) == Some(Wallet(5.0, 2)) && Lookup(end.cache, 7) == Some(Wallet(0.0, 0))
       && WalletGate.Judge(Lookup(end.base.db.wallets, 7)) == WalletGate.Pass
       && WalletGate.Judge(Lookup(end.cache, 7)) == WalletGate.InsufficientBalance
  }

  ghost predicate CanMislead(s: System) {
    exists run :: EndsMisled(s, run)
  }

  lemma StepBack(s: System, step: Step)
    requires Enabled(s, step) && (step.CommitAndPublish? ==> step.written) && CanMislead(Next(s, step))
    ensures CanMislead(s)
  {
    var run :| EndsMisled(Next(s, step), run);
    PrependStep(s, step, run);
    assert EndsMisled(s, [step] + run);
  }

  /** The spend is paid by the subscription, leaves the wallet alone, and publishes the row of before the deposit. */
  lemma SpendPublishesOldRow()
    ensures CanMislead(DepositPublished())
  {
    var s := DepositPublished();
    var prepare := Other(Interleaving.Prepare(11, Some(1)));
    assert AddI64(1, 0) == 1 && TotalTokens(TheSpend().spend) == 1;
    assert Eligible(TheSubscription(), 7, 1, 1);
    assert Interleaving.Enabled(s.base, prepare.step);
    var prepared := Next(s, prepare);
    var p := prepared.base.workers[11];
    assert p.paid == Some(Interleaving.Payment(1, TheSubscription())) && !ChangesBalance(prepared.base.db, p);
    var end := Next(prepared, CommitAndPublish(11, true));
    assert end.base.db.wallets == map[7 := Wallet(5.0, 2)] && end.cache == map[7 := Wallet(0.0, 0)];
    assert EndsMisled(end, []);
    StepBack(prepared, CommitAndPublish(11, true));
    StepBack(s, prepare);
  }

  ghost function BothHaveRead(): System {
    System(
      Interleaving.System(SpendAndDeposit(),
        map[10 := Interleaving.WalletRead(2, Some(Wallet(0.0, 0)), 2),
            11 := Interleaving.WalletRead(1, Some(Wallet(0.0, 0)), 1)]),
      map[])
  }

  ghost function DepositPrepared(): System {
    System(
      Interleaving.System(SpendAndDeposit(),
        map[10 := Interleaving.Prepared(2, Some(Wallet(0.0, 0)), 2, None, SpendAndDeposit().subscriptions),
            11 := Interleaving.WalletRead(1, Some(Wallet(0.0, 0)), 1)]),
      map[])
  }

  lemma DepositWrites()
    ensures var db, p := SpendAndDeposit(), DepositPrepared().base.workers[10];
            && Payable(db, 2, None) && Interleaving.Written(db, p) == DepositPublished().base.db
            && Returned(db, p) == Wallet(5.0, 2)
  {
    var db, p := SpendAndDeposit(), DepositPrepared().base.workers[10];
    assert NewBalance(0.0, Deposit(5.0), None) == 5.0;
    assert Interleaving.Written(db, p).wallets == map[7 := Wallet(5.0, 2)];
  }

  lemma CommitBack(s: System, w: int, a: int, db: Db, workers: map<int, Interleaving.Phase>, wallet: Wallet)
    requires Interleaving.Enabled(s.base, Interleaving.Commit(w)) && AccountOf(s, w) == a
    requires Interleaving.Written(s.base.db, s.base.workers[w]) == db && s.base.workers - {w} == workers
    requires Returned(s.base.db, s.base.workers[w]) == wallet
    requires CanMislead(System(Interleaving.System(db, workers), s.cache[a := wallet]))
    ensures CanMislead(s)
  {
    StepBack(s, CommitAndPublish(w, true));
  }

  lemma DepositCommits()
    ensures CanMislead(DepositPrepared())
  {
    SpendPublishesOldRow();
    DepositWrites();
    var s, published := DepositPrepared(), DepositPublished();
    assert s.base.workers - {10} == published.base.workers;
    assert s.cache[7 := Wallet(5.0, 2)] == published.cache;
    CommitBack(s, 10, 7, published.base.db, published.base.workers, Wallet(5.0, 2));
  }

  lemma OtherBack(s: System, step: Interleaving.Step, next: Interleaving.System)
    requires !step.Commit? && Interleaving.Enabled(s.base, step) && Interleaving.Next(s.base, step) == next
    requires CanMislead(System(next, s.cache))
    ensures CanMislead(s)
  {
    StepBack(s, Other(step));
  }

  lemma DepositIsPublished()
    ensures CanMislead(BothHaveRead())
  {
    DepositCommits();
    var s, next := BothHaveRead(), DepositPrepared().base;
    assert Interleaving.Next(s.base, Interleaving.Prepare(10, None)).workers == next.workers;
    OtherBack(s, Interleaving.Prepare(10, None), next);
  }

  ghost function BothLocked(): Interleaving.System {
    Interleaving.System(SpendAndDeposit(), map[10 := Interleaving.Locked(2), 11 := Interleaving.Locked(1)])
  }

  ghost function SpendHasRead(): Interleaving.System {
    Interleaving.System(SpendAndDeposit(),
      map[10 := Interleaving.Locked(2), 11 := Interleaving.WalletRead(1, Some(Wallet(0.0, 0)), 1)])
  }

  lemma DepositReads()
    ensures CanMislead(System(SpendHasRead(), map[]))
  {
    DepositIsPublished();
    assert Interleaving.Next(SpendHasRead(), Interleaving.ReadWallet(10, 2)) == BothHaveRead().base;
    OtherBack(System(SpendHasRead(), map[]), Interleaving.ReadWallet(10, 2), BothHaveRead().base);
  }

  lemma LockedCanRead()
    ensures CanMislead(System(BothLocked(), map[]))
  {
    DepositReads();
    assert Interleaving.Next(BothLocked(), Interleaving.ReadWallet(11, 1)) == SpendHasRead();
    OtherBack(System(BothLocked(), map[]), Interleaving.ReadWallet(11, 1), SpendHasRead());
  }

  /**
   Overlapping settlements mislead the gate though every cache write succeeds and follows its commit at
   once: a worker reads an empty wallet for a spend a subscription will pay; another settles and publishes a
   deposit of 5; the first commits, leaves the row at 5, and publishes the empty wallet it read.
   */
  lemma StalePublication()
    ensures exists run :: EndsMisled(System(Interleaving.System(SpendAndDeposit(), map[]), map[]), run)
  {
    LockedCanRead();
    var idle := Interleaving.System(SpendAndDeposit(), map[]);
    var locked := Interleaving.System(SpendAndDeposit(), map[10 := Interleaving.Locked(2)]);
    assert Interleaving.Next(locked, Interleaving.Lock(11, 1)) == BothLocked();
    OtherBack(System(locked, map[]), Interleaving.Lock(11, 1), BothLocked());
    assert Interleaving.Next(idle, Interleaving.Lock(10, 2)) == locked;
    OtherBack(System(idle, map[]), Interleaving.Lock(10, 2), locked);
  }
}
