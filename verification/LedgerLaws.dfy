/** What every run of ledger steps keeps, whatever the order, the times and the tie-breaks. */
module LedgerLaws {
  import opened Models
  import opened Sums
  import opened Ledger

  // ---------------------------------------------------------------- runs

  /** One atomic change of the tables. A rolled back or duplicated task is a `Skip`. */
  datatype Step =
    | Settle(id: int, choice: Option<int>, now: int)
    | InsertChange(id: int, accountId: int, requestId: string, content: Content)
    | InsertSubscription(id: int, accountId: int)
    | SetStatus(id: int, status: SubscriptionStatus)
    | Skip

  /** What the accounting laws need of a step; a settlement need not have chosen well. */
  ghost predicate Writable(db: Db, step: Step) {
    match step
    case Settle(id, choice, now) => Payable(db, id, choice) && !db.changes[id].isApplied
    case InsertChange(id, _, requestId, _) =>
      id !in db.changes && forall i :: i in db.changes ==> db.changes[i].uniqueRequestId != requestId
    case InsertSubscription(id, _) => id != 0 && id !in db.subscriptions
    case SetStatus(id, _) => id in db.subscriptions
    case Skip => true
  }

  /** The steps the code takes: a settlement pays from the subscription it selected. */
  ghost predicate Enabled(db: Db, step: Step) {
    Writable(db, step) && (step.Settle? ==> ChoiceOk(db, step.id, step.choice, step.now))
  }

  ghost function Next(db: Db, step: Step): Db
    requires Writable(db, step)
  {
    match step
    case Settle(id, choice, now) => Settled(db, id, choice, now)
    case InsertChange(id, accountId, requestId, content) =>
      db.(changes := db.changes[id := BalanceChange(accountId, requestId, content, false, 0)])
    case InsertSubscription(id, accountId) =>
      db.(subscriptions := db.subscriptions[id := Subscription(accountId, Pending, None, None, 0, 0, 0, 0.0)])
    case SetStatus(id, status) =>
      db.(subscriptions := db.subscriptions[id := db.subscriptions[id].(status := status)])
    case Skip => db
  }

  /** A change never changes its account, its request id or its content. */
  predicate SameChange(c: BalanceChange, c': BalanceChange) {
    c.accountId == c'.accountId && c.uniqueRequestId == c'.uniqueRequestId && c.content == c'.content
  }

  lemma ChangesFrame(db: Db, step: Step)
    requires Writable(db, step)
    ensures forall id :: id in db.changes ==>
        id in Next(db, step).changes && SameChange(db.changes[id], Next(db, step).changes[id])
    ensures forall id :: IsApplied(db, id) ==> IsApplied(Next(db, step), id)
    ensures forall id :: id in Next(db, step).changes ==>
              id in db.changes
              || (step.InsertChange? && id == step.id
                  && Next(db, step).changes[id] ==
                      BalanceChange(step.accountId, step.requestId, step.content, false, 0))
  {
  }

  ghost predicate ValidRun(db: Db, run: seq<Step>)
    decreases |run|
  {
    run != [] ==> Enabled(db, run[0]) && ValidRun(Next(db, run[0]), run[1..])
  }

  ghost function Final(db: Db, run: seq<Step>): Db
    requires ValidRun(db, run)
    decreases |run|
  {
    if run == [] then db else Final(Next(db, run[0]), run[1..])
  }

  // ---------------------------------------------------------------- totals over the tables

  ghost function Over<V>(rows: map<int, V>, effect: V -> Amount): int -> Amount {
    id => if id in rows then effect(rows[id]) else ZERO
  }

  ghost function Total<V>(rows: map<int, V>, effect: V -> Amount): Amount {
    Sum(rows.Keys, Over(rows, effect))
  }

  lemma TotalUpdate<V>(rows: map<int, V>, effect: V -> Amount, id: int, row: V)
    requires id in rows
    ensures Total(rows[id := row], effect) == Total(rows, effect).Minus(effect(rows[id])).Plus(effect(row))
  {
    assert rows[id := row].Keys == rows.Keys;
    SumUpdate(rows.Keys, Over(rows, effect), Over(rows[id := row], effect), id);
  }

  lemma TotalInsert<V>(rows: map<int, V>, effect: V -> Amount, id: int, row: V)
    requires id !in rows
    ensures Total(rows[id := row], effect) == Total(rows, effect).Plus(effect(row))
  {
    assert rows[id := row].Keys == rows.Keys + {id};
    SumInsert(rows.Keys, Over(rows[id := row], effect), id);
    SumCongruence(rows.Keys, Over(rows, effect), Over(rows[id := row], effect));
  }

  /** Money into the account (positive) or out of it, whoever pays. */
  function Signed(content: Content): Money {
    match content
    case Spend(s) => -SpendAmount(s)
    case Deposit(amount) => amount
    case AddCredit(amount) => amount
    case Withdraw(amount) => -amount
  }

  /** What an applied change did to the wallet of `a`: nothing when a subscription paid. */
  ghost function WalletEffect(a: int): BalanceChange -> Amount {
    (c: BalanceChange) =>
      if c.isApplied && c.accountId == a && c.subscriptionId == 0 then Amount(Signed(c.content), 0) else ZERO
  }

  /** What an applied change used of subscription `s`. */
  ghost function UsageEffect(s: int): BalanceChange -> Amount {
    (c: BalanceChange) =>
      if c.isApplied && c.content.Spend? && c.subscriptionId == s
      then Amount(SpendAmount(c.content.spend), TotalTokens(c.content.spend)) else ZERO
  }

  ghost function AccountEffect(a: int): BalanceChange -> Amount {
    (c: BalanceChange) => if c.isApplied && c.accountId == a then Amount(Signed(c.content), 0) else ZERO
  }

  ghost function UsedBy(a: int): Subscription -> Amount {
    (s: Subscription) => if s.accountId == a then Amount(s.usedMoney, 0) else ZERO
  }

  /** An account without a wallet row counts as an empty wallet. */
  function Balance(db: Db, a: int): Amount {
    Amount(if a in db.wallets then db.wallets[a].balance else 0.0, 0)
  }

  function Usage(db: Db, s: int): Amount {
    if s in db.subscriptions then Amount(db.subscriptions[s].usedMoney, db.subscriptions[s].usedTotalTokens) else ZERO
  }

  /** The wallet less everything the account's subscriptions paid for. */
  ghost function Net(db: Db, a: int): Amount {
    Balance(db, a).Minus(Total(db.subscriptions, UsedBy(a)))
  }

  // ---------------------------------------------------------------- one step

  /** What a wallet holds beyond the changes recorded against it. */
  ghost function WalletResidue(db: Db, a: int): Amount {
    Balance(db, a).Minus(Total(db.changes, WalletEffect(a)))
  }

  ghost function UsageResidue(db: Db, s: int): Amount {
    Usage(db, s).Minus(Total(db.changes, UsageEffect(s)))
  }

  ghost function NetResidue(db: Db, a: int): Amount {
    Net(db, a).Minus(Total(db.changes, AccountEffect(a)))
  }

  lemma WalletStep(db: Db, step: Step, a: int)
    requires Writable(db, step)
    ensures WalletResidue(Next(db, step), a) == WalletResidue(db, a)
  {
    var db' := Next(db, step);
    match step
    case Settle(id, _, _) => TotalUpdate(db.changes, WalletEffect(a), id, db'.changes[id]);
    case InsertChange(id, _, _, _) => TotalInsert(db.changes, WalletEffect(a), id, db'.changes[id]);
    case _ =>
  }

  lemma UsageStep(db: Db, step: Step, s: int)
    requires s != 0 && Writable(db, step)
    ensures UsageResidue(Next(db, step), s) == UsageResidue(db, s)
  {
    var db' := Next(db, step);
    match step
    case Settle(id, _, _) => TotalUpdate(db.changes, UsageEffect(s), id, db'.changes[id]);
    case InsertChange(id, _, _, _) => TotalInsert(db.changes, UsageEffect(s), id, db'.changes[id]);
    case _ =>
  }

  /** How much a settlement adds to what the subscriptions of `a` paid. */
  function PaidBySubscription(c: BalanceChange, choice: Option<int>, a: int): Amount {
    if choice.Some? && c.content.Spend? && c.accountId == a then Amount(SpendAmount(c.content.spend), 0) else ZERO
  }

  lemma SubscriptionsAfterSettle(db: Db, id: int, choice: Option<int>, now: int, a: int)
    requires Payable(db, id, choice)
    ensures Total(Settled(db, id, choice, now).subscriptions, UsedBy(a))
         == Total(db.subscriptions, UsedBy(a)).Plus(PaidBySubscription(db.changes[id], choice, a))
  {
    if choice.Some? {
      TotalUpdate(db.subscriptions, UsedBy(a), choice.value,
          Charged(db.subscriptions[choice.value], db.changes[id].content.spend));
    }
  }

  lemma AccountEffectAfterSettle(db: Db, id: int, choice: Option<int>, now: int, a: int)
    requires Payable(db, id, choice) && !db.changes[id].isApplied
    ensures Total(Settled(db, id, choice, now).changes, AccountEffect(a))
         == Total(db.changes, AccountEffect(a)).Plus(
              if db.changes[id].accountId == a then Amount(Signed(db.changes[id].content), 0) else ZERO)
  {
    TotalUpdate(db.changes, AccountEffect(a), id, Settled(db, id, choice, now).changes[id]);
  }

  lemma BalanceAfterSettle(db: Db, id: int, choice: Option<int>, now: int, a: int)
    requires Payable(db, id, choice)
    ensures Balance(Settled(db, id, choice, now), a).Minus(Balance(db, a))
         == if db.changes[id].accountId == a && choice.None? then Amount(Signed(db.changes[id].content), 0) else ZERO
  {
  }

  lemma NetFromParts(db: Db, db': Db, a: int, wallet: Money, subscriptions: Money)
    requires Balance(db', a).Minus(Balance(db, a)) == Amount(wallet, 0)
    requires Total(db'.subscriptions, UsedBy(a)) == Total(db.subscriptions, UsedBy(a)).Plus(Amount(subscriptions, 0))
    requires Total(db'.changes, AccountEffect(a)) ==
        Total(db.changes, AccountEffect(a)).Plus(Amount(wallet - subscriptions, 0))
    ensures NetResidue(db', a) == NetResidue(db, a)
  {
  }

  lemma NetSettle(db: Db, id: int, choice: Option<int>, now: int, a: int)
    requires Payable(db, id, choice) && !db.changes[id].isApplied
    ensures NetResidue(Settled(db, id, choice, now), a) == NetResidue(db, a)
  {
    BalanceAfterSettle(db, id, choice, now, a);
    SubscriptionsAfterSettle(db, id, choice, now, a);
    AccountEffectAfterSettle(db, id, choice, now, a);
    var c := db.changes[id];
    var db' := Settled(db, id, choice, now);
    if c.accountId != a {
      NetFromParts(db, db', a, 0.0, 0.0);
    } else if choice.None? {
      NetFromParts(db, db', a, Signed(c.content), 0.0);
    } else {
      NetFromParts(db, db', a, 0.0, SpendAmount(c.content.spend));
    }
  }

  lemma NetStep(db: Db, step: Step, a: int)
    requires Writable(db, step)
    ensures NetResidue(Next(db, step), a) == NetResidue(db, a)
  {
    var db' := Next(db, step);
    match step
    case Settle(id, choice, now) => NetSettle(db, id, choice, now, a);
    case InsertChange(id, _, _, _) => TotalInsert(db.changes, AccountEffect(a), id, db'.changes[id]);
    case InsertSubscription(id, _) => TotalInsert(db.subscriptions, UsedBy(a), id, db'.subscriptions[id]);
    case SetStatus(id, _) => TotalUpdate(db.subscriptions, UsedBy(a), id, db'.subscriptions[id]);
    case Skip =>
  }

  // ---------------------------------------------------------------- whole runs

  lemma {:induction false} ResiduesKept(db: Db, run: seq<Step>, a: int, s: int)
    requires s != 0 && ValidRun(db, run)
    ensures WalletResidue(Final(db, run), a) == WalletResidue(db, a)
    ensures UsageResidue(Final(db, run), s) == UsageResidue(db, s)
    ensures NetResidue(Final(db, run), a) == NetResidue(db, a)
    decreases |run|
  {
    if run == [] {
    } else {
      WalletStep(db, run[0], a);
      UsageStep(db, run[0], s);
      NetStep(db, run[0], a);
      ResiduesKept(Next(db, run[0]), run[1..], a, s);
    }
  }

  lemma SolveForAfter(before: Amount, after: Amount, spent: Amount, spent': Amount)
    requires after.Minus(spent') == before.Minus(spent)
    ensures after == before.Plus(spent').Minus(spent)
  {
  }

  /** Every wallet moves by exactly the deposits, credits, withdrawals and spends applied to it. */
  lemma WalletLedger(db: Db, run: seq<Step>, a: int)
    requires ValidRun(db, run)
    ensures var end := Final(db, run);
            Balance(end, a) ==
              Balance(db, a).Plus(Total(end.changes, WalletEffect(a))).Minus(Total(db.changes, WalletEffect(a)))
  {
    ResiduesKept(db, run, a, 1);
    var end := Final(db, run);
    SolveForAfter(Balance(db, a), Balance(end, a),
                  Total(db.changes, WalletEffect(a)), Total(end.changes, WalletEffect(a)));
  }

  /** Every subscription's usage moves by exactly the spends marked with its id. */
  lemma UsageLedger(db: Db, run: seq<Step>, s: int)
    requires s != 0 && ValidRun(db, run)
    ensures var end := Final(db, run);
            Usage(end, s) ==
              Usage(db, s).Plus(Total(end.changes, UsageEffect(s))).Minus(Total(db.changes, UsageEffect(s)))
  {
    ResiduesKept(db, run, 0, s);
    var end := Final(db, run);
    SolveForAfter(Usage(db, s), Usage(end, s), Total(db.changes, UsageEffect(s)), Total(end.changes, UsageEffect(s)));
  }

  /** The account as a whole moves by every change applied to it, whoever paid. */
  lemma NetLedger(db: Db, run: seq<Step>, a: int)
    requires ValidRun(db, run)
    ensures var end := Final(db, run);
            Net(end, a) ==
              Net(db, a).Plus(Total(end.changes, AccountEffect(a))).Minus(Total(db.changes, AccountEffect(a)))
  {
    ResiduesKept(db, run, a, 1);
    var end := Final(db, run);
    SolveForAfter(Net(db, a), Net(end, a), Total(db.changes, AccountEffect(a)), Total(end.changes, AccountEffect(a)));
  }

  /** Each change is settled at most once, and exactly once if it became applied. */
  ghost function Settlements(run: seq<Step>, id: int): nat {
    if run == [] then 0 else (if run[0].Settle? && run[0].id == id then 1 else 0) + Settlements(run[1..], id)
  }

  predicate IsApplied(db: Db, id: int) {
    id in db.changes && db.changes[id].isApplied
  }

  lemma AppliedAfterStep(db: Db, step: Step, id: int)
    requires Writable(db, step)
    ensures IsApplied(Next(db, step), id) <==> IsApplied(db, id) || (step.Settle? && step.id == id)
  {
  }

  lemma {:induction false} SettledAtMostOnce(db: Db, run: seq<Step>, id: int)
    requires ValidRun(db, run)
    ensures Settlements(run, id) + (if IsApplied(db, id) then 1 else 0) ==
            if IsApplied(Final(db, run), id) then 1 else 0
    decreases |run|
  {
    if run == [] {
    } else {
      SettledAtMostOnce(Next(db, run[0]), run[1..], id);
    }
  }

  /** Rows never disappear; a change keeps its account, key and content, and stays applied. */
  lemma {:induction false} ChangesPersist(db: Db, run: seq<Step>, id: int)
    requires ValidRun(db, run) && id in db.changes
    ensures var end := Final(db, run);
            && id in end.changes
            && SameChange(db.changes[id], end.changes[id])
            && (db.changes[id].isApplied ==> end.changes[id] == db.changes[id])
    decreases |run|
  {
    if run == [] {
    } else {
      ChangesPersist(Next(db, run[0]), run[1..], id);
    }
  }

  predicate WithinQuota(db: Db, s: int) {
    s in db.subscriptions && db.subscriptions[s].usedTotalTokens <= db.subscriptions[s].totalTokenLimit
  }

  /** No settlement takes a subscription over its token limit. */
  lemma {:induction false} QuotaKept(db: Db, run: seq<Step>, s: int)
    requires ValidRun(db, run) && WithinQuota(db, s)
    ensures WithinQuota(Final(db, run), s)
    ensures Final(db, run).subscriptions[s].totalTokenLimit == db.subscriptions[s].totalTokenLimit
    decreases |run|
  {
    if run == [] {
    } else {
      QuotaKept(Next(db, run[0]), run[1..], s);
    }
  }

  // ---------------------------------------------------------------- order independence

  /** Two histories of the same tables that have applied the same changes for account `a`. */
  ghost predicate SameApplied(db1: Db, db2: Db, a: int) {
    && (forall id :: IsApplied(db1, id) && db1.changes[id].accountId == a ==>
          IsApplied(db2, id) && db2.changes[id].accountId == a && db2.changes[id].content == db1.changes[id].content)
    && (forall id :: IsApplied(db2, id) && db2.changes[id].accountId == a ==>
          IsApplied(db1, id) && db1.changes[id].accountId == a)
  }

  lemma SameEffectsSameTotal(changes1: map<int, BalanceChange>, changes2: map<int, BalanceChange>,
                             effect: BalanceChange -> Amount)
    requires forall id :: Over(changes1, effect)(id) == Over(changes2, effect)(id)
    ensures Total(changes1, effect) == Total(changes2, effect)
  {
    var common := changes1.Keys * changes2.Keys;
    var f, g := Over(changes1, effect), Over(changes2, effect);
    assert forall id :: f(id) == g(id);
    assert forall id :: id !in changes1 ==> f(id) == ZERO;
    assert forall id :: id !in changes2 ==> g(id) == ZERO;
    SumRestrict(changes1.Keys, common, Over(changes1, effect));
    SumRestrict(changes2.Keys, common, Over(changes2, effect));
    SumCongruence(common, Over(changes1, effect), Over(changes2, effect));
  }

  lemma SameAppliedSameEffects(db1: Db, db2: Db, a: int)
    requires SameApplied(db1, db2, a)
    ensures Total(db1.changes, AccountEffect(a)) == Total(db2.changes, AccountEffect(a))
  {
    SameEffectsSameTotal(db1.changes, db2.changes, AccountEffect(a));
  }

  /**
   Any two runs from the same tables that end with the same changes of `a` applied leave the
   account with the same net position, even when different subscriptions paid.
   */
  lemma OrderIndependence(db: Db, run1: seq<Step>, run2: seq<Step>, a: int)
    requires ValidRun(db, run1) && ValidRun(db, run2)
    requires SameApplied(Final(db, run1), Final(db, run2), a)
    ensures Net(Final(db, run1), a) == Net(Final(db, run2), a)
  {
    NetLedger(db, run1, a);
    NetLedger(db, run2, a);
    SameAppliedSameEffects(Final(db, run1), Final(db, run2), a);
  }

  /** Whenever the run settles a change of the account, no subscription is eligible to pay for it. */
  ghost predicate NoneEligible(db: Db, run: seq<Step>, a: int)
    requires ValidRun(db, run)
    decreases |run|
  {
    run != [] ==>
      && (run[0].Settle? && db.changes[run[0].id].accountId == a ==> !HasEligible(db, run[0].id, run[0].now))
      && NoneEligible(Next(db, run[0]), run[1..], a)
  }

  /** While no subscription is eligible, every change of `a` that is settled is paid by the wallet. */
  lemma {:induction false} PaidByWallet(db: Db, run: seq<Step>, a: int, id: int)
    requires ValidRun(db, run) && NoneEligible(db, run, a)
    requires IsApplied(Final(db, run), id) && Final(db, run).changes[id].accountId == a
    ensures IsApplied(db, id) ==> Final(db, run).changes[id] == db.changes[id]
    ensures !IsApplied(db, id) ==> Final(db, run).changes[id].subscriptionId == 0
    decreases |run|
  {
    if run == [] {
    } else {
      var step, next := run[0], Next(db, run[0]);
      if step.Settle? && db.changes[step.id].accountId == a {
        NoChoiceWithoutEligible(db, step);
      }
      PaidByWallet(next, run[1..], a, id);
      ChangesFrame(db, step);
      if id in next.changes {
        ChangesPersist(next, run[1..], id);
      }
    }
  }

  lemma NoChoiceWithoutEligible(db: Db, step: Step)
    requires step.Settle? && Enabled(db, step) && !HasEligible(db, step.id, step.now)
    ensures step.choice.None?
  {
  }

  /**
   When no subscription is eligible for the changes of `a` that are settled, any two runs that end
   with the same changes of `a` applied leave the same balance in its wallet.
   */
  lemma OrderIndependenceOfWallets(db: Db, run1: seq<Step>, run2: seq<Step>, a: int)
    requires ValidRun(db, run1) && ValidRun(db, run2)
    requires NoneEligible(db, run1, a) && NoneEligible(db, run2, a)
    requires SameApplied(Final(db, run1), Final(db, run2), a)
    ensures Balance(Final(db, run1), a) == Balance(Final(db, run2), a)
  {
    var end1, end2 := Final(db, run1), Final(db, run2);
    WalletLedger(db, run1, a);
    WalletLedger(db, run2, a);
    forall id ensures Over(end1.changes, WalletEffect(a))(id) == Over(end2.changes, WalletEffect(a))(id) {
      if IsApplied(end1, id) && end1.changes[id].accountId == a {
        PaidByWallet(db, run1, a, id);
        PaidByWallet(db, run2, a, id);
      }
    }
    SameEffectsSameTotal(end1.changes, end2.changes, WalletEffect(a));
  }

  /** No subscription of the account has both its times, as none has that was created over the API. */
  ghost predicate NoneDated(db: Db, a: int) {
    forall id :: id in db.subscriptions && db.subscriptions[id].accountId == a ==>
      db.subscriptions[id].startAt.None? || db.subscriptions[id].endAt.None?
  }

  /** Such subscriptions are never eligible, whoever activates them. */
  lemma {:induction false} UndatedNeverEligible(db: Db, run: seq<Step>, a: int)
    requires ValidRun(db, run) && NoneDated(db, a)
    ensures NoneEligible(db, run, a)
    decreases |run|
  {
    if run == [] {
    } else {
      UndatedNeverEligible(Next(db, run[0]), run[1..], a);
    }
  }

  /** Whenever the run settles a change of the account, each of its subscriptions has ended or not begun. */
  ghost predicate NoneRunning(db: Db, run: seq<Step>, a: int)
    requires ValidRun(db, run)
    decreases |run|
  {
    run != [] ==>
      && (run[0].Settle? && db.changes[run[0].id].accountId == a ==>
            forall id :: id in db.subscriptions && db.subscriptions[id].accountId == a ==>
              var s := db.subscriptions[id];
              s.startAt.None? || s.endAt.None? || run[0].now < s.startAt.value || s.endAt.value <= run[0].now)
      && NoneRunning(Next(db, run[0]), run[1..], a)
  }

  /** Subscriptions that have ended or not begun are not eligible either, so the wallet pays. */
  lemma {:induction false} EndedNeverEligible(db: Db, run: seq<Step>, a: int)
    requires ValidRun(db, run) && NoneRunning(db, run, a)
    ensures NoneEligible(db, run, a)
    decreases |run|
  {
    if run == [] {
    } else {
      EndedNeverEligible(Next(db, run[0]), run[1..], a);
    }
  }

  ghost predicate NoneActive(db: Db, a: int) {
    forall id :: id in db.subscriptions && db.subscriptions[id].accountId == a ==> !db.subscriptions[id].status.Active?
  }

  ghost predicate NothingActivated(run: seq<Step>) {
    forall i :: 0 <= i < |run| ==> !(run[i].SetStatus? && run[i].status.Active?)
  }

  /** Nor is a subscription that is not active at the start, if none is activated. */
  lemma {:induction false} InactiveNeverEligible(db: Db, run: seq<Step>, a: int)
    requires ValidRun(db, run) && NoneActive(db, a) && NothingActivated(run)
    ensures NoneEligible(db, run, a)
    decreases |run|
  {
    if run == [] {
    } else {
      assert forall i :: 0 <= i < |run[1..]| ==> run[1..][i] == run[i + 1];
      InactiveNeverEligible(Next(db, run[0]), run[1..], a);
    }
  }

  predicate SettlementsOnly(run: seq<Step>) {
    forall i :: 0 <= i < |run| ==> run[i].Settle? || run[i].Skip?
  }

  ghost function SettledIds(run: seq<Step>): set<int> {
    set i | 0 <= i < |run| && run[i].Settle? :: run[i].id
  }

  lemma {:induction false} AppliedExactlySettled(db: Db, run: seq<Step>, id: int)
    requires ValidRun(db, run) && SettlementsOnly(run)
    ensures IsApplied(Final(db, run), id) <==> IsApplied(db, id) || id in SettledIds(run)
    ensures Final(db, run).changes.Keys == db.changes.Keys
    decreases |run|
  {
    if run == [] {
    } else {
      var rest := run[1..];
      AppliedExactlySettled(Next(db, run[0]), rest, id);
      assert SettledIds(run) == SettledIds(rest) + (if run[0].Settle? then {run[0].id} else {}) by {
        forall x | x in SettledIds(run) ensures x in SettledIds(rest) + (if run[0].Settle? then {run[0].id} else {}) {
          var i :| 0 <= i < |run| && run[i].Settle? && run[i].id == x;
          if i > 0 { assert rest[i - 1] == run[i]; }
        }
        forall x | x in SettledIds(rest) ensures x in SettledIds(run) {
          var i :| 0 <= i < |rest| && rest[i].Settle? && rest[i].id == x;
          assert run[i + 1] == rest[i];
        }
      }
    }
  }

  /** Settling one set of changes in two orders, at any times and with any tie-breaks. */
  lemma SettlementOrderIrrelevant(db: Db, run1: seq<Step>, run2: seq<Step>, a: int)
    requires ValidRun(db, run1) && SettlementsOnly(run1)
    requires ValidRun(db, run2) && SettlementsOnly(run2)
    requires SettledIds(run1) == SettledIds(run2)
    ensures Net(Final(db, run1), a) == Net(Final(db, run2), a)
  {
    AppliedExactlySettled(db, run1, 0);
    AppliedExactlySettled(db, run2, 0);
    forall id
      ensures IsApplied(Final(db, run1), id) <==> IsApplied(Final(db, run2), id)
      ensures id in db.changes ==>
        Final(db, run1).changes[id].accountId == Final(db, run2).changes[id].accountId
        && Final(db, run1).changes[id].content == Final(db, run2).changes[id].content
    {
      AppliedExactlySettled(db, run1, id);
      AppliedExactlySettled(db, run2, id);
      if id in db.changes {
        ChangesPersist(db, run1, id);
        ChangesPersist(db, run2, id);
      }
    }
    OrderIndependence(db, run1, run2, a);
  }
}
