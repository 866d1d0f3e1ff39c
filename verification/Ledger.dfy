/**
 The ledger step: settling one balance change against a subscription or the wallet inside
 one transaction.
 */
module Ledger {
  import opened Models

  /** The three tables a settlement reads and writes. */
  datatype Db = Db(
    wallets: map<int, Wallet>,
    subscriptions: map<int, Subscription>,
    changes: map<int, BalanceChange>)

  // ---------------------------------------------------------------- the settlement, as a function

  /** `i64 + i64`, which wraps in a release build. */
  function TotalTokens(s: SpendToken): int {
    AddI64(s.inputTokens, s.outputTokens)
  }

  function SpendAmount(s: SpendToken): Money {
    s.inputSpendAmount + s.outputSpendAmount
  }

  /** The conditions of the subscription query that do not involve the quota. */
  predicate Current(s: Subscription, accountId: int, now: int) {
    && s.accountId == accountId
    && s.status.Active?
    && s.startAt.Some? && s.startAt.value <= now
    && s.endAt.Some? && s.endAt.value > now
  }

  predicate Eligible(s: Subscription, accountId: int, tokens: int, now: int) {
    Current(s, accountId, now) && s.totalTokenLimit >= s.usedTotalTokens + tokens
  }

  /** Postgres raises an error when a BIGINT sum leaves its range. */
  predicate Overflows(subs: map<int, Subscription>, accountId: int, tokens: int, now: int) {
    exists id :: id in subs && Current(subs[id], accountId, now) && !InI64(subs[id].usedTotalTokens + tokens)
  }

  /** `choice` is an eligible row of maximal `sort_order`; ties are broken arbitrarily. */
  ghost predicate Selects(subs: map<int, Subscription>, accountId: int, tokens: int, now: int, choice: Option<int>) {
    match choice
    case None => forall id :: id in subs ==> !Eligible(subs[id], accountId, tokens, now)
    case Some(best) =>
      && best in subs
      && Eligible(subs[best], accountId, tokens, now)
      && forall id :: id in subs && Eligible(subs[id], accountId, tokens, now) ==>
          subs[id].sortOrder <= subs[best].sortOrder
  }

  ghost predicate ChoiceOk(db: Db, id: int, choice: Option<int>, now: int)
    requires id in db.changes
  {
    var c := db.changes[id];
    match c.content
    case Spend(s) =>
      && !Overflows(db.subscriptions, c.accountId, TotalTokens(s), now)
      && Selects(db.subscriptions, c.accountId, TotalTokens(s), now, choice)
    case _ => choice.None?
  }

  function WalletOrNew(wallets: map<int, Wallet>, accountId: int, now: int): Wallet {
    if accountId in wallets then wallets[accountId] else Wallet(0.0, now)
  }

  function NewBalance(balance: Money, content: Content, choice: Option<int>): Money {
    match content
    case Spend(s) => if choice.Some? then balance else balance - SpendAmount(s)
    case Deposit(amount) => balance + amount
    case AddCredit(amount) => balance + amount
    case Withdraw(amount) => balance - amount
  }

  function Charged(s: Subscription, spend: SpendToken): Subscription {
    s.(usedTotalTokens := s.usedTotalTokens + TotalTokens(spend), usedMoney := s.usedMoney + SpendAmount(spend))
  }

  /** A choice that a settlement of change `id` could write to. */
  predicate Payable(db: Db, id: int, choice: Option<int>) {
    && id in db.changes
    && (choice.Some? ==>
      && db.changes[id].content.Spend?
      && choice.value in db.subscriptions && choice.value != 0
      && db.subscriptions[choice.value].accountId == db.changes[id].accountId)
  }

  /** The committed effect of settling change `id`. */
  function Settled(db: Db, id: int, choice: Option<int>, now: int): Db
    requires Payable(db, id, choice)
  {
    var c := db.changes[id];
    var wallet := WalletOrNew(db.wallets, c.accountId, now);
    var balance := NewBalance(wallet.balance, c.content, choice);
    Db(
      db.wallets[c.accountId := if balance != wallet.balance then Wallet(balance, now) else wallet],
      if choice.Some?
      then db.subscriptions[choice.value := Charged(db.subscriptions[choice.value], c.content.spend)]
      else db.subscriptions,
      db.changes[id := c.(isApplied := true, subscriptionId := if choice.Some? then choice.value else 0)])
  }

  /** What settling one change does, in the amounts and counts of its own content. */
  lemma SettledInItsAmounts(db: Db, id: int, choice: Option<int>, now: int)
    requires Payable(db, id, choice)
    ensures var c, db' := db.changes[id], Settled(db, id, choice, now);
            var before := if c.accountId in db.wallets then db.wallets[c.accountId].balance else 0.0;
            && db'.wallets.Keys == db.wallets.Keys + {c.accountId}
            && (forall a :: a in db.wallets && a != c.accountId ==> db'.wallets[a] == db.wallets[a])
            && (choice.None? ==> db'.subscriptions == db.subscriptions)
            && (forall change :: change in db.changes && change != id ==> db'.changes[change] == db.changes[change])
            && db'.changes[id].isApplied && db'.changes[id].content == c.content
            && db'.changes[id].accountId == c.accountId && db'.changes[id].uniqueRequestId == c.uniqueRequestId
            && db'.changes[id].subscriptionId == (if choice.Some? then choice.value else 0)
            && var Wallet(balance, updatedAt) := db'.wallets[c.accountId];
               && (balance != before || c.accountId !in db.wallets ==> updatedAt == now)
               && (balance == before && c.accountId in db.wallets ==> updatedAt == db.wallets[c.accountId].updatedAt)
               && match c.content
                  case Deposit(amount) => balance == before + amount
                  case AddCredit(amount) => balance == before + amount
                  case Withdraw(amount) => balance == before - amount
                  case Spend(spend) =>
                    if choice.None? then balance == before - spend.inputSpendAmount - spend.outputSpendAmount
                    else balance == before
    ensures choice.Some? ==>
            var spend := db.changes[id].content.spend;
            var row, row' := db.subscriptions[choice.value], Settled(db, id, choice, now).subscriptions[choice.value];
            && Settled(db, id, choice, now).subscriptions == db.subscriptions[choice.value := row']
            && row'.usedMoney == row.usedMoney + spend.inputSpendAmount + spend.outputSpendAmount
            && (InI64(spend.inputTokens + spend.outputTokens) ==>
                  row'.usedTotalTokens == row.usedTotalTokens + spend.inputTokens + spend.outputTokens)
            && row' == row.(usedMoney := row'.usedMoney, usedTotalTokens := row'.usedTotalTokens)
  {
  }

  /** A subscription that may pay is active, has begun, has not ended, and has room; a better one does not exist. */
  lemma ChosenInItsFields(subs: map<int, Subscription>, accountId: int, tokens: int, now: int, best: int)
    requires Selects(subs, accountId, tokens, now, Some(best))
    ensures best in subs && subs[best].accountId == accountId && subs[best].status.Active?
    ensures subs[best].startAt.Some? && subs[best].endAt.Some?
    ensures subs[best].startAt.value <= now < subs[best].endAt.value
    ensures subs[best].usedTotalTokens + tokens <= subs[best].totalTokenLimit
  {
  }

  // ---------------------------------------------------------------- the settlement, as the worker runs it

  datatype Statement =
    | BeginTx | FetchChange | FetchWallet | InsertWallet | SelectSubscription
    | UpdateSubscription | UpdateWallet | MarkApplied | CommitTx

  /** Some subscription of the account can take the whole spend, so the wallet is not charged. */
  ghost predicate HasEligible(db: Db, id: int, now: int) {
    && id in db.changes && db.changes[id].content.Spend?
    && exists s :: s in db.subscriptions &&
         Eligible(db.subscriptions[s], db.changes[id].accountId, TotalTokens(db.changes[id].content.spend), now)
  }

  predicate TokenOverflow(db: Db, id: int, now: int) {
    && id in db.changes && db.changes[id].content.Spend?
    && Overflows(db.subscriptions, db.changes[id].accountId, TotalTokens(db.changes[id].content.spend), now)
  }

  /** A statement that applying change `id` runs is one of those that fail. */
  ghost predicate StatementFails(db: Db, id: int, now: int, faults: set<Statement>)
    requires id in db.changes
  {
    var c := db.changes[id];
    var balance := WalletOrNew(db.wallets, c.accountId, now).balance;
    || FetchWallet in faults
    || (c.accountId !in db.wallets && InsertWallet in faults)
    || (c.content.Spend? && SelectSubscription in faults)
    || (if HasEligible(db, id, now) then UpdateSubscription in faults
        else NewBalance(balance, c.content, None) != balance && UpdateWallet in faults)
    || MarkApplied in faults
  }

  /** Delivering the settlement of `id` now settles it. */
  ghost predicate Settles(db: Db, id: int, now: int, faults: set<Statement>) {
    && id in db.changes && !db.changes[id].isApplied
    && !TokenOverflow(db, id, now)
    && BeginTx !in faults && FetchChange !in faults && CommitTx !in faults
    && !StatementFails(db, id, now, faults)
  }

  datatype Outcome = NotFound | AlreadyApplied | Failed | Applied(wallet: Wallet, paidBy: Option<int>)

  lemma HasElement(ids: set<int>)
    requires ids != {}
    ensures exists id :: id in ids
  {
    if forall id :: id !in ids {
      assert false;
    }
  }

  /** The tables as a transaction sees them. `faults` says which statements fail this time. */
  class LedgerStore {
    var wallets: map<int, Wallet>
    var subscriptions: map<int, Subscription>
    var balanceChanges: map<int, BalanceChange>
    var nextChangeId: int

    function State(): Db
      reads this
    {
      Db(wallets, subscriptions, balanceChanges)
    }

    /** BIGSERIAL ids start at 1, and an id is never handed out twice. */
    ghost predicate Valid()
      reads this
    {
      && 0 !in subscriptions
      && nextChangeId > 0
      && forall id :: id in balanceChanges ==> 0 < id < nextChangeId
    }

    /** `INSERT INTO balance_changes`, which the unique index on the request id may refuse. */
    method CreateBalanceChange(accountId: int, uniqueRequestId: string, content: Content) returns (r: Result<int>)
      requires Valid()
      modifies this
      ensures Valid()
      ensures r.Ok? <==> forall id :: id in old(balanceChanges) ==>
          old(balanceChanges)[id].uniqueRequestId != uniqueRequestId
      ensures r.Err? ==> State() == old(State())
      ensures r.Ok? ==>
        && r.value !in old(balanceChanges)
        && State() == old(State()).(changes :=
            old(balanceChanges)[r.value := BalanceChange(accountId, uniqueRequestId, content, false, 0)])
    {
      if exists id :: id in balanceChanges && balanceChanges[id].uniqueRequestId == uniqueRequestId {
        return Err;
      }
      balanceChanges := balanceChanges[nextChangeId := BalanceChange(accountId, uniqueRequestId, content, false, 0)];
      r := Ok(nextChangeId);
      nextChangeId := nextChangeId + 1;
    }

    method GetCurrentSubscription(accountId: int, tokens: int, now: int, faults: set<Statement>)
      returns (r: Result<Option<int>>)
      ensures r.Err? <==> SelectSubscription in faults || Overflows(subscriptions, accountId, tokens, now)
      ensures r.Err? && SelectSubscription !in faults ==>
        exists id :: && id in subscriptions && subscriptions[id].accountId == accountId
                     && !InI64(subscriptions[id].usedTotalTokens + tokens)
      ensures r.Ok? ==> forall id :: id in subscriptions && Current(subscriptions[id], accountId, now) ==>
        -0x8000_0000_0000_0000 <= subscriptions[id].usedTotalTokens + tokens <= 0x7fff_ffff_ffff_ffff
      ensures r.Ok? ==> Selects(subscriptions, accountId, tokens, now, r.value)
      ensures r.Ok? && r.value.Some? ==>
        && r.value.value in subscriptions
        && var s := subscriptions[r.value.value];
           && s.accountId == accountId && s.status.Active?
           && s.startAt.Some? && s.endAt.Some? && s.startAt.value <= now < s.endAt.value
           && s.usedTotalTokens + tokens <= s.totalTokenLimit
      ensures r.Ok? ==> forall id :: id in subscriptions ==>
        var s := subscriptions[id];
        || s.accountId != accountId || !s.status.Active?
        || s.startAt.None? || s.endAt.None? || now < s.startAt.value || s.endAt.value <= now
        || s.usedTotalTokens + tokens > s.totalTokenLimit
        || (r.value.Some? && s.sortOrder <= subscriptions[r.value.value].sortOrder)
    {
      if SelectSubscription in faults || Overflows(subscriptions, accountId, tokens, now) {
        return Err;
      }
      var best: Option<int> := None;
      var todo := subscriptions.Keys;
      while todo != {}
        invariant todo <= subscriptions.Keys
        invariant best.Some? ==>
            best.value in subscriptions && Eligible(subscriptions[best.value], accountId, tokens, now)
        invariant forall id ::
          id in subscriptions && id !in todo && Eligible(subscriptions[id], accountId, tokens, now) ==>
          best.Some? && subscriptions[id].sortOrder <= subscriptions[best.value].sortOrder
      {
        HasElement(todo);
        var id :| id in todo;
        if Eligible(subscriptions[id], accountId, tokens, now)
           && (best.None? || subscriptions[best.value].sortOrder < subscriptions[id].sortOrder) {
          best := Some(id);
        }
        todo := todo - {id};
      }
      return Ok(best);
    }

    /** Writes the usage computed from the row read earlier, as an absolute value. */
    method IncrementSubscriptionUsage(id: int, row: Subscription, tokens: int, amount: Money, faults: set<Statement>)
      returns (ok: bool)
      requires id in subscriptions
      modifies this`subscriptions
      ensures ok <==> UpdateSubscription !in faults
      ensures ok ==> subscriptions == old(subscriptions)[id :=
        old(subscriptions)[id].(usedTotalTokens := row.usedTotalTokens + tokens, usedMoney := row.usedMoney + amount)]
    {
      if UpdateSubscription in faults {
        return false;
      }
      subscriptions := subscriptions[id :=
        subscriptions[id].(usedTotalTokens := row.usedTotalTokens + tokens, usedMoney := row.usedMoney + amount)];
      return true;
    }

    method MarkBalanceChangeApplied(id: int, subscriptionId: int, faults: set<Statement>) returns (ok: bool)
      requires id in balanceChanges
      modifies this`balanceChanges
      ensures ok <==> MarkApplied !in faults
      ensures ok ==> balanceChanges == old(balanceChanges)[id :=
        old(balanceChanges)[id].(isApplied := true, subscriptionId := subscriptionId)]
    {
      if MarkApplied in faults {
        return false;
      }
      balanceChanges := balanceChanges[id := balanceChanges[id].(isApplied := true, subscriptionId := subscriptionId)];
      return true;
    }

    /** On `Err` the tables are left half written: the caller must roll back. */
    method ApplyBalanceChange(id: int, now: int, faults: set<Statement>)
      returns (r: Result<Wallet>, choice: Option<int>)
      requires Valid() && id in balanceChanges
      modifies this
      ensures nextChangeId == old(nextChangeId)
      ensures r.Ok? ==>
        && ChoiceOk(old(State()), id, choice, now) && Payable(old(State()), id, choice)
        && State() == Settled(old(State()), id, choice, now)
        && wallets[old(balanceChanges)[id].accountId] == r.value
      ensures r.Err? <==> TokenOverflow(old(State()), id, now) || StatementFails(old(State()), id, now, faults)
    {
      var change := balanceChanges[id];
      var accountId := change.accountId;
      choice := None;
      if FetchWallet in faults {
        return Err, choice;
      }
      if accountId !in wallets {
        if InsertWallet in faults {
          return Err, choice;
        }
        wallets := wallets[accountId := Wallet(0.0, now)];
      }
      var accountWallet := wallets[accountId];

      var subscriptionId := 0;
      var newBalance;
      match change.content {
        case Spend(spend) =>
          var totalTokens := AddI64(spend.inputTokens, spend.outputTokens);
          var spendAmount := spend.inputSpendAmount + spend.outputSpendAmount;
          var current := GetCurrentSubscription(accountId, totalTokens, now, faults);
          if current.Err? {
            return Err, choice;
          }
          choice := current.value;
          if choice.Some? {
            subscriptionId := choice.value;
            var ok := IncrementSubscriptionUsage(choice.value, subscriptions[choice.value], totalTokens, spendAmount,
                faults);
            if !ok {
              return Err, choice;
            }
            newBalance := accountWallet.balance;
          } else {
            newBalance := accountWallet.balance - spendAmount;
          }
        case Deposit(amount) => newBalance := accountWallet.balance + amount;
        case AddCredit(amount) => newBalance := accountWallet.balance + amount;
        case Withdraw(amount) => newBalance := accountWallet.balance - amount;
      }

      if newBalance != accountWallet.balance {
        if UpdateWallet in faults {
          return Err, choice;
        }
        accountWallet := Wallet(newBalance, now);
        wallets := wallets[accountId := accountWallet];
      }
      var marked := MarkBalanceChangeApplied(id, subscriptionId, faults);
      if !marked {
        return Err, choice;
      }
      return Ok(accountWallet), choice;
    }

    /** Every return before the commit drops the transaction, which rolls it back. */
    method SettleBalanceChange(id: int, now: int, faults: set<Statement>) returns (outcome: Outcome)
      requires Valid()
      modifies this
      ensures Valid()
      ensures !outcome.Applied? ==> State() == old(State())
      ensures outcome.Applied? ==>
        && id in old(balanceChanges) && !old(balanceChanges)[id].isApplied
        && ChoiceOk(old(State()), id, outcome.paidBy, now) && Payable(old(State()), id, outcome.paidBy)
        && State() == Settled(old(State()), id, outcome.paidBy, now)
        && wallets[old(balanceChanges)[id].accountId] == outcome.wallet
      ensures outcome.Applied? <==> Settles(old(State()), id, now, faults)
      ensures outcome.Applied? ==>
        && BeginTx !in faults && FetchChange !in faults && FetchWallet !in faults
        && MarkApplied !in faults && CommitTx !in faults
        && var c := old(balanceChanges)[id];
           && (c.accountId !in old(wallets) ==> InsertWallet !in faults)
           && (c.content.Spend? ==> SelectSubscription !in faults)
           && (outcome.paidBy.Some? ==> UpdateSubscription !in faults)
           && var before := if c.accountId in old(wallets) then old(wallets)[c.accountId].balance else 0.0;
              (UpdateWallet in faults ==> outcome.wallet.balance == before)
      ensures outcome.Failed? && faults !! {BeginTx, FetchChange, FetchWallet, MarkApplied, CommitTx} ==>
        && id in old(balanceChanges)
        && var c := old(balanceChanges)[id];
           || (c.accountId !in old(wallets) && InsertWallet in faults)
           || (c.content.Spend? && (faults * {SelectSubscription, UpdateSubscription} != {}))
           || UpdateWallet in faults || TokenOverflow(old(State()), id, now)
      ensures outcome.NotFound? <==> BeginTx !in faults && FetchChange !in faults && id !in old(balanceChanges)
      ensures outcome.AlreadyApplied? <==>
        BeginTx !in faults && FetchChange !in faults && id in old(balanceChanges) && old(balanceChanges)[id].isApplied
    {
      if BeginTx in faults || FetchChange in faults {
        return Failed;
      }
      if id !in balanceChanges {
        return NotFound;
      }
      if balanceChanges[id].isApplied {
        return AlreadyApplied;
      }
      var savedWallets, savedSubscriptions, savedChanges := wallets, subscriptions, balanceChanges;
      var applied, choice := ApplyBalanceChange(id, now, faults);
      if applied.Err? || CommitTx in faults {
        wallets, subscriptions, balanceChanges := savedWallets, savedSubscriptions, savedChanges;
        return Failed;
      }
      return Applied(applied.value, choice);
    }
  }
}
