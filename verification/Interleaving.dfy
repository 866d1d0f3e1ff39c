/**
 Settlements run by many workers at once. The transaction is split where other transactions can
 get in between: locking the change row, reading the wallet, reading the subscriptions,
 committing. The wallet and the subscription rows are read without a lock and written back as
 absolute values.
 */
module Interleaving {
  import opened Models
  import opened Sums
  import opened Ledger
  import opened LedgerLaws

  /** The subscription row a worker read and means to charge. */
  datatype Payment = Payment(id: int, row: Subscription)

  /** `seen` is history: the subscriptions as they were when the payment was chosen. */
  datatype Phase =
    | Locked(id: int)
    | WalletRead(id: int, wallet: Option<Wallet>, now: int)
    | Prepared(id: int, wallet: Option<Wallet>, now: int, paid: Option<Payment>, seen: map<int, Subscription>)

  /** The committed tables and the transactions in progress, by worker. */
  datatype System = System(db: Db, workers: map<int, Phase>)

  datatype Step =
    | Lock(w: int, id: int)
    | ReadWallet(w: int, now: int)
    | Prepare(w: int, choice: Option<int>)
    | Commit(w: int)
    | Abort(w: int)
    | Admin(step: LedgerLaws.Step)

  function Choice(paid: Option<Payment>): Option<int> {
    if paid.Some? then Some(paid.value.id) else None
  }

  function Snapshot(p: Phase): Wallet
    requires !p.Locked?
  {
    if p.wallet.Some? then p.wallet.value else Wallet(0.0, p.now)
  }

  /** What a prepared transaction writes when it commits on top of `db`. */
  function Written(db: Db, p: Phase): Db
    requires p.Prepared? && Payable(db, p.id, Choice(p.paid))
  {
    var c := db.changes[p.id];
    var wallet := Snapshot(p);
    var balance := NewBalance(wallet.balance, c.content, Choice(p.paid));
    Db(
      if balance != wallet.balance then db.wallets[c.accountId := Wallet(balance, p.now)]
      else if p.wallet.None? then db.wallets[c.accountId := wallet]
      else db.wallets,
      if p.paid.Some?
      then db.subscriptions[p.paid.value.id := db.subscriptions[p.paid.value.id].(
        usedTotalTokens := p.paid.value.row.usedTotalTokens + TotalTokens(c.content.spend),
        usedMoney := p.paid.value.row.usedMoney + SpendAmount(c.content.spend))]
      else db.subscriptions,
      db.changes[p.id := c.(isApplied := true, subscriptionId := if p.paid.Some? then p.paid.value.id else 0)])
  }

  ghost predicate Enabled(s: System, step: Step) {
    match step
    case Lock(w, id) =>
      && w !in s.workers
      && id in s.db.changes && !s.db.changes[id].isApplied
      && forall v :: v in s.workers ==> s.workers[v].id != id
    case ReadWallet(w, _) => w in s.workers && s.workers[w].Locked? && s.workers[w].id in s.db.changes
    case Prepare(w, choice) =>
      && w in s.workers && s.workers[w].WalletRead?
      && s.workers[w].id in s.db.changes
      && ChoiceOk(s.db, s.workers[w].id, choice, s.workers[w].now)
    case Commit(w) =>
      && w in s.workers && s.workers[w].Prepared?
      && Payable(s.db, s.workers[w].id, Choice(s.workers[w].paid))
      // the unique index on wallets refuses a second row for the account
      && (s.workers[w].wallet.None? ==> s.db.changes[s.workers[w].id].accountId !in s.db.wallets)
    case Abort(w) => w in s.workers
    case Admin(step) => !step.Settle? && Writable(s.db, step)
  }

  ghost function Next(s: System, step: Step): System
    requires Enabled(s, step)
  {
    match step
    case Lock(w, id) => s.(workers := s.workers[w := Locked(id)])
    case ReadWallet(w, now) =>
      var a := s.db.changes[s.workers[w].id].accountId;
      var wallet := if a in s.db.wallets then Some(s.db.wallets[a]) else None;
      s.(workers := s.workers[w := WalletRead(s.workers[w].id, wallet, now)])
    case Prepare(w, choice) =>
      var p := s.workers[w];
      var paid := if choice.Some? then Some(Payment(choice.value, s.db.subscriptions[choice.value])) else None;
      s.(workers := s.workers[w := Prepared(p.id, p.wallet, p.now, paid, s.db.subscriptions)])
    case Commit(w) => System(Written(s.db, s.workers[w]), s.workers - {w})
    case Abort(w) => s.(workers := s.workers - {w})
    case Admin(step) => s.(db := LedgerLaws.Next(s.db, step))
  }

  ghost predicate ValidRun(s: System, run: seq<Step>)
    decreases |run|
  {
    run != [] ==> Enabled(s, run[0]) && ValidRun(Next(s, run[0]), run[1..])
  }

  ghost function Final(s: System, run: seq<Step>): System
    requires ValidRun(s, run)
    decreases |run|
  {
    if run == [] then s else Final(Next(s, run[0]), run[1..])
  }

  // ---------------------------------------------------------------- what the row lock gives

  /** What a payment that is about to be written promises about the row it will be written to. */
  ghost predicate PaymentOk(db: Db, p: Phase)
    requires p.Prepared? && p.id in db.changes
  {
    p.paid.Some? ==>
      && Payable(db, p.id, Choice(p.paid))
      && p.paid.value.row.usedTotalTokens + TotalTokens(db.changes[p.id].content.spend)
           <= db.subscriptions[p.paid.value.id].totalTokenLimit
  }

  /** The payment is the one the subscription query chose from the rows it saw. */
  ghost predicate ChoiceWasRight(db: Db, p: Phase)
    requires p.Prepared? && p.id in db.changes
  {
    var c := db.changes[p.id];
    && (p.paid.Some? ==> p.paid.value.id in p.seen && p.paid.value.row == p.seen[p.paid.value.id])
    && match c.content
       case Spend(spend) => Selects(p.seen, c.accountId, TotalTokens(spend), p.now, Choice(p.paid))
       case _ => p.paid.None?
  }

  /** A locked change is unapplied, is locked once, and no pending charge exceeds its quota. */
  ghost predicate Inv(s: System) {
    && 0 !in s.db.subscriptions
    && (forall w :: w in s.workers ==> s.workers[w].id in s.db.changes && !s.db.changes[s.workers[w].id].isApplied)
    && (forall v, w :: v in s.workers && w in s.workers && v != w ==> s.workers[v].id != s.workers[w].id)
    && (forall w :: w in s.workers && s.workers[w].Prepared? ==>
          PaymentOk(s.db, s.workers[w]) && ChoiceWasRight(s.db, s.workers[w]))
  }

  lemma InvKept(s: System, step: Step)
    requires Inv(s) && Enabled(s, step)
    ensures Inv(Next(s, step))
  {
    var s' := Next(s, step);
    forall w | w in s'.workers && s'.workers[w].Prepared?
      ensures PaymentOk(s'.db, s'.workers[w]) && ChoiceWasRight(s'.db, s'.workers[w])
    {
      if w in s.workers && s.workers[w].Prepared? {
        assert PaymentOk(s.db, s.workers[w]) && ChoiceWasRight(s.db, s.workers[w]);
      }
    }
  }

  /**
   A commit of a spend writes to one payer only. Either no balance changes and one subscription row
   does, the one that was eligible with the highest `sort_order` among the rows seen; or no
   subscription changes, none of the rows seen being eligible, and one wallet does. The amounts are
   those of the rows read, which another commit may have changed since.
   */
  lemma SpendPaidWholeInterleaved(s: System, w: int)
    requires Inv(s) && Enabled(s, Commit(w)) && s.db.changes[s.workers[w].id].content.Spend?
    ensures var p := s.workers[w]; var c := s.db.changes[p.id]; var db' := Next(s, Commit(w)).db;
            var tokens, amount := TotalTokens(c.content.spend), SpendAmount(c.content.spend);
            && (forall a :: a != c.accountId ==> Balance(db', a) == Balance(s.db, a))
            && (forall sub :: p.paid.None? || sub != p.paid.value.id ==> Usage(db', sub) == Usage(s.db, sub))
            && Selects(p.seen, c.accountId, tokens, p.now, Choice(p.paid))
            && match p.paid
               case None =>
                 amount != 0.0 ==> Balance(db', c.accountId).money == Snapshot(p).balance - amount
               case Some(payment) =>
                 && Balance(db', c.accountId) == Balance(s.db, c.accountId)
                 && Usage(db', payment.id) ==
                     Amount(payment.row.usedMoney + amount, payment.row.usedTotalTokens + tokens)
                 && payment.row == p.seen[payment.id]
  {
    var p := s.workers[w];
    assert ChoiceWasRight(s.db, p) && PaymentOk(s.db, p);
  }

  ghost function Commits(s: System, run: seq<Step>, id: int): nat
    requires ValidRun(s, run)
    decreases |run|
  {
    if run == [] then 0 else
      (if run[0].Commit? && s.workers[run[0].w].id == id then 1 else 0) + Commits(Next(s, run[0]), run[1..], id)
  }

  /** Whatever the interleaving, a change takes effect at most once, and only by being marked. */
  lemma {:induction false} CommittedAtMostOnce(s: System, run: seq<Step>, id: int)
    requires Inv(s) && ValidRun(s, run)
    ensures Commits(s, run, id) + (if IsApplied(s.db, id) then 1 else 0) ==
            if IsApplied(Final(s, run).db, id) then 1 else 0
    decreases |run|
  {
    if run == [] {
    } else {
      InvKept(s, run[0]);
      CommittedAtMostOnce(Next(s, run[0]), run[1..], id);
    }
  }

  /** Even when reads and writes of one subscription interleave, it stays within its token limit. */
  lemma {:induction false} QuotaKeptInterleaved(s: System, run: seq<Step>, sub: int)
    requires Inv(s) && ValidRun(s, run) && WithinQuota(s.db, sub)
    ensures WithinQuota(Final(s, run).db, sub)
    ensures Final(s, run).db.subscriptions[sub].totalTokenLimit == s.db.subscriptions[sub].totalTokenLimit
    decreases |run|
  {
    if run == [] {
    } else {
      InvKept(s, run[0]);
      if run[0].Commit? {
        assert PaymentOk(s.db, s.workers[run[0].w]);
      }
      QuotaKeptInterleaved(Next(s, run[0]), run[1..], sub);
    }
  }

  // ---------------------------------------------------------------- when the ledger equation holds

  /** The wallet this commit would write was read before another settlement changed it. */
  predicate StaleWallet(db: Db, p: Phase)
    requires p.Prepared? && p.id in db.changes
  {
    var c := db.changes[p.id];
    && NewBalance(Snapshot(p).balance, c.content, Choice(p.paid)) != Snapshot(p).balance
    && Snapshot(p).balance != Balance(db, c.accountId).money
  }

  predicate StaleUsage(db: Db, p: Phase)
    requires p.Prepared?
  {
    p.paid.Some? && p.paid.value.id in db.subscriptions
    && (p.paid.value.row.usedTotalTokens != db.subscriptions[p.paid.value.id].usedTotalTokens
        || p.paid.value.row.usedMoney != db.subscriptions[p.paid.value.id].usedMoney)
  }

  lemma CommitWalletResidue(s: System, w: int)
    requires Inv(s) && Enabled(s, Commit(w))
    ensures var p := s.workers[w]; var a := s.db.changes[p.id].accountId;
            WalletResidue(Written(s.db, p), a) == WalletResidue(s.db, a) <==> !StaleWallet(s.db, p)
  {
    var p := s.workers[w];
    var db' := Written(s.db, p);
    var c := s.db.changes[p.id];
    TotalUpdate(s.db.changes, WalletEffect(c.accountId), p.id, db'.changes[p.id]);
    if Choice(p.paid).Some? {
      assert db'.wallets == if p.wallet.None? then s.db.wallets[c.accountId := Snapshot(p)] else s.db.wallets;
    }
  }

  lemma CommitUsageResidue(s: System, w: int)
    requires Inv(s) && Enabled(s, Commit(w)) && s.workers[w].paid.Some?
    ensures var p := s.workers[w]; var sub := p.paid.value.id;
            UsageResidue(Written(s.db, p), sub) == UsageResidue(s.db, sub) <==> !StaleUsage(s.db, p)
  {
    var p := s.workers[w];
    TotalUpdate(s.db.changes, UsageEffect(p.paid.value.id), p.id, Written(s.db, p).changes[p.id]);
  }

  /**
   A commit keeps the ledger equations exactly when nothing it writes was read before
   another commit changed it.
   */
  lemma CommitKeepsLedgerIff(s: System, w: int)
    requires Inv(s) && Enabled(s, Commit(w))
    ensures var p := s.workers[w]; var a := s.db.changes[p.id].accountId; var db' := Written(s.db, p);
            (WalletResidue(db', a) == WalletResidue(s.db, a)
              && (p.paid.Some? ==> UsageResidue(db', p.paid.value.id) == UsageResidue(s.db, p.paid.value.id)))
            <==> !StaleWallet(s.db, p) && !StaleUsage(s.db, p)
  {
    CommitWalletResidue(s, w);
    if s.workers[w].paid.Some? {
      CommitUsageResidue(s, w);
    }
  }

  /** A commit of nothing stale is the atomic settlement of the ledger. */
  lemma FreshCommitIsAtomic(s: System, w: int)
    requires Inv(s) && Enabled(s, Commit(w))
    requires var p := s.workers[w]; var a := s.db.changes[p.id].accountId;
             p.wallet == if a in s.db.wallets then Some(s.db.wallets[a]) else None
    requires !StaleUsage(s.db, s.workers[w])
    ensures var p := s.workers[w]; Written(s.db, p) == Settled(s.db, p.id, Choice(p.paid), p.now)
  {
    var p := s.workers[w];
    assert Written(s.db, p).wallets == Settled(s.db, p.id, Choice(p.paid), p.now).wallets;
  }

  /** No two transactions in progress settle changes of one account. */
  ghost predicate Exclusive(s: System) {
    forall v, w :: v in s.workers && w in s.workers && v != w
                   && s.workers[v].id in s.db.changes && s.workers[w].id in s.db.changes ==>
      s.db.changes[s.workers[v].id].accountId != s.db.changes[s.workers[w].id].accountId
  }

  ghost predicate UpToDate(db: Db, p: Phase) {
    p.id in db.changes ==>
      var a := db.changes[p.id].accountId;
      && (!p.Locked? ==> p.wallet == if a in db.wallets then Some(db.wallets[a]) else None)
      && (p.Prepared? ==> !StaleUsage(db, p))
  }

  ghost predicate AllUpToDate(s: System) {
    forall w :: w in s.workers ==> UpToDate(s.db, s.workers[w])
  }

  /** While settlements of one account do not overlap, every snapshot stays current. */
  lemma UpToDateKept(s: System, step: Step)
    requires Inv(s) && AllUpToDate(s) && Exclusive(s) && Enabled(s, step)
    ensures AllUpToDate(Next(s, step))
  {
    var s' := Next(s, step);
    forall v | v in s'.workers ensures UpToDate(s'.db, s'.workers[v]) {
      if v in s.workers {
        assert UpToDate(s.db, s.workers[v]);
        if s.workers[v].Prepared? {
          assert PaymentOk(s.db, s.workers[v]);
        }
      }
    }
  }

  ghost predicate ExclusiveRun(s: System, run: seq<Step>)
    requires ValidRun(s, run)
    decreases |run|
  {
    Exclusive(s) && (run != [] ==> ExclusiveRun(Next(s, run[0]), run[1..]))
  }

  lemma ExclusiveStepKeepsResidues(s: System, step: Step, a: int, sub: int)
    requires Inv(s) && AllUpToDate(s) && Enabled(s, step) && sub != 0
    ensures var s' := Next(s, step);
            && WalletResidue(s'.db, a) == WalletResidue(s.db, a)
            && UsageResidue(s'.db, sub) == UsageResidue(s.db, sub)
            && NetResidue(s'.db, a) == NetResidue(s.db, a)
  {
    if step.Commit? {
      var p := s.workers[step.w];
      FreshCommitIsAtomic(s, step.w);
      var atomic := LedgerLaws.Settle(p.id, Choice(p.paid), p.now);
      WalletStep(s.db, atomic, a);
      UsageStep(s.db, atomic, sub);
      NetStep(s.db, atomic, a);
    } else if step.Admin? {
      WalletStep(s.db, step.step, a);
      UsageStep(s.db, step.step, sub);
      NetStep(s.db, step.step, a);
    }
  }

  /** If settlements of one account never overlap, the ledger equations hold over the whole run. */
  lemma {:induction false} LedgerUnderExclusion(s: System, run: seq<Step>, a: int, sub: int)
    requires Inv(s) && AllUpToDate(s) && ValidRun(s, run) && ExclusiveRun(s, run) && sub != 0
    ensures var end := Final(s, run);
            && WalletResidue(end.db, a) == WalletResidue(s.db, a)
            && UsageResidue(end.db, sub) == UsageResidue(s.db, sub)
            && NetResidue(end.db, a) == NetResidue(s.db, a)
    decreases |run|
  {
    if run == [] {
    } else {
      InvKept(s, run[0]);
      UpToDateKept(s, run[0]);
      ExclusiveStepKeepsResidues(s, run[0], a, sub);
      LedgerUnderExclusion(Next(s, run[0]), run[1..], a, sub);
    }
  }

  lemma PrependStep(s: System, step: Step, rest: seq<Step>)
    requires Enabled(s, step) && ValidRun(Next(s, step), rest)
    ensures ValidRun(s, [step] + rest) && Final(s, [step] + rest) == Final(Next(s, step), rest)
  {
    assert ([step] + rest)[1..] == rest;
  }

  ghost function TwoDeposits(): Db {
    Db(map[7 := Wallet(0.0, 0)], map[],
       map[1 := BalanceChange(7, "first", Deposit(5.0), false, 0),
           2 := BalanceChange(7, "second", Deposit(3.0), false, 0)])
  }

  ghost function BothPrepared(): System {
    System(TwoDeposits(),
           map[10 := Prepared(1, Some(Wallet(0.0, 0)), 0, None, map[]),
               11 := Prepared(2, Some(Wallet(0.0, 0)), 0, None, map[])])
  }

  ghost function BothRead(): System {
    System(TwoDeposits(),
        map[10 := WalletRead(1, Some(Wallet(0.0, 0)), 0), 11 := WalletRead(2, Some(Wallet(0.0, 0)), 0)])
  }

  lemma ReadersCanPrepare(rest: seq<Step>)
    requires ValidRun(BothPrepared(), rest)
    ensures var run := [Prepare(10, None)] + ([Prepare(11, None)] + rest);
            ValidRun(BothRead(), run) && Final(BothRead(), run) == Final(BothPrepared(), rest)
  {
    var wallet := Some(Wallet(0.0, 0));
    var s5 := System(TwoDeposits(), map[10 := Prepared(1, wallet, 0, None, map[]), 11 := WalletRead(2, wallet, 0)]);
    assert Next(s5, Prepare(11, None)) == BothPrepared();
    PrependStep(s5, Prepare(11, None), rest);
    assert Next(BothRead(), Prepare(10, None)) == s5;
    PrependStep(BothRead(), Prepare(10, None), [Prepare(11, None)] + rest);
  }

  lemma WorkersCanRead(rest: seq<Step>)
    requires ValidRun(BothRead(), rest)
    ensures var run := [Lock(10, 1)] + ([Lock(11, 2)] + ([ReadWallet(10, 0)] + ([ReadWallet(11, 0)] + rest)));
            ValidRun(System(TwoDeposits(), map[]), run) &&
                Final(System(TwoDeposits(), map[]), run) == Final(BothRead(), rest)
  {
    var db, wallet := TwoDeposits(), Some(Wallet(0.0, 0));
    var s3 := System(db, map[10 := WalletRead(1, wallet, 0), 11 := Locked(2)]);
    assert Next(s3, ReadWallet(11, 0)) == BothRead();
    PrependStep(s3, ReadWallet(11, 0), rest);
    var r3 := [ReadWallet(11, 0)] + rest;
    var s2 := System(db, map[10 := Locked(1), 11 := Locked(2)]);
    assert Next(s2, ReadWallet(10, 0)) == s3;
    PrependStep(s2, ReadWallet(10, 0), r3);
    var r2 := [ReadWallet(10, 0)] + r3;
    var s1 := System(db, map[10 := Locked(1)]);
    assert Next(s1, Lock(11, 2)) == s2;
    PrependStep(s1, Lock(11, 2), r2);
    assert Next(System(db, map[]), Lock(10, 1)) == s1;
    PrependStep(System(db, map[]), Lock(10, 1), [Lock(11, 2)] + r2);
  }

  /**
   Without that hypothesis the equation fails: two deposits of one account, both read before
   either commits, leave the wallet with only one of them although both are marked applied.
   */
  lemma OverlapLosesADeposit()
    ensures exists run ::
      && ValidRun(System(TwoDeposits(), map[]), run)
      && var end := Final(System(TwoDeposits(), map[]), run);
         IsApplied(end.db, 1) && IsApplied(end.db, 2) && Balance(end.db, 7).money == 3.0
  {
    var s6 := BothPrepared();
    var s7 := Next(s6, Commit(10));
    assert s7.workers == map[11 := s6.workers[11]];
    var s8 := Next(s7, Commit(11));
    assert ValidRun(s8, []) && Final(s8, []) == s8;
    PrependStep(s7, Commit(11), []);
    PrependStep(s6, Commit(10), [Commit(11)] + []);
    var commits := [Commit(10)] + ([Commit(11)] + []);
    ReadersCanPrepare(commits);
    WorkersCanRead([Prepare(10, None)] + ([Prepare(11, None)] + commits));
  }
}
