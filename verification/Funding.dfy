/** Deposits, withdrawals and credits requested over the API, and what the withdrawal check protects. */
module Funding {
  import opened Models
  import opened Ledger
  import opened LedgerLaws
  import Billing

  datatype Fault = FindAccount | FindWallet | InsertRow | Push

  /** `NotQueued`: the change is recorded, but its settlement was never scheduled. */
  datatype Response = Created(id: int) | NotQueued(id: int) | InvalidAmount | UnknownAccount | InsufficientBalance |
      DatabaseError

  class FundingDesk {
    const ledger: LedgerStore
    var accounts: set<int>
    var settleQueue: multiset<int>

    constructor (ledger: LedgerStore, accounts: set<int>)
      ensures this.ledger == ledger && this.accounts == accounts && settleQueue == multiset{}
    {
      this.ledger, this.accounts, settleQueue := ledger, accounts, multiset{};
    }

    /** `create_deposit`, `create_withdraw` and `create_credit`; there is no transaction around insert and push. */
    method Create(accountId: int, uniqueRequestId: string, content: Content, faults: set<Fault>)
      returns (response: Response)
      requires ledger.Valid() && !content.Spend?
      modifies ledger, this`settleQueue
      ensures ledger.Valid()
      ensures response.Created? || response.NotQueued? ==>
        && response.id !in old(ledger.balanceChanges) && response.id in ledger.balanceChanges
        && ledger.balanceChanges[response.id] == BalanceChange(accountId, uniqueRequestId, content, false, 0)
        && Writable(old(ledger.State()), LedgerLaws.InsertChange(response.id, accountId, uniqueRequestId, content))
        && ledger.State() == LedgerLaws.Next(old(ledger.State()),
            LedgerLaws.InsertChange(response.id, accountId, uniqueRequestId, content))
      ensures !response.Created? && !response.NotQueued? ==> ledger.State() == old(ledger.State())
      ensures settleQueue == old(settleQueue) + if response.Created? then multiset{response.id} else multiset{}
      ensures response.Created? || response.NotQueued? <==>
        && content.amount > 0.0 && accountId in accounts
        && (content.Withdraw? ==>
              accountId in old(ledger.wallets) && old(ledger.wallets)[accountId].balance >= content.amount)
        && (forall id :: id in old(ledger.balanceChanges) ==>
              old(ledger.balanceChanges)[id].uniqueRequestId != uniqueRequestId)
        && FindAccount !in faults && InsertRow !in faults && (content.Withdraw? ==> FindWallet !in faults)
      ensures response.NotQueued? ==> Push in faults
      ensures response.Created? ==> Push !in faults
    {
      if content.amount <= 0.0 {
        return InvalidAmount;
      }
      if FindAccount in faults {
        return DatabaseError;
      }
      if accountId !in accounts {
        return UnknownAccount;
      }
      if content.Withdraw? {
        if FindWallet in faults {
          return DatabaseError;
        }
        if accountId !in ledger.wallets || ledger.wallets[accountId].balance < content.amount {
          return InsufficientBalance;
        }
      }
      if InsertRow in faults {
        return DatabaseError;
      }
      var created := ledger.CreateBalanceChange(accountId, uniqueRequestId, content);
      if created.Err? {
        return DatabaseError;
      }
      if Push in faults {
        return NotQueued(created.value);
      }
      settleQueue := settleQueue + multiset{created.value};
      return Created(created.value);
    }
  }

  /** What `Create` does is one `CreateChange` action of the pipeline, pushed exactly when it answers `Created`. */
  lemma CreateIsAction(s: Billing.System, after: Db, settleQueue: multiset<int>, accountId: int,
                       uniqueRequestId: string, content: Content, response: Response)
    requires !content.Spend? && (response.Created? || response.NotQueued?)
    requires Writable(s.db, LedgerLaws.InsertChange(response.id, accountId, uniqueRequestId, content))
    requires after == LedgerLaws.Next(s.db,
        LedgerLaws.InsertChange(response.id, accountId, uniqueRequestId, content))
    requires settleQueue == s.settleQueue + if response.Created? then multiset{response.id} else multiset{}
    ensures var action := Billing.CreateChange(response.id, accountId, uniqueRequestId, content, response.Created?);
            && Billing.Possible(s, action)
            && Billing.After(s, action) == s.(db := after, settleQueue := settleQueue)
  {
  }

  // ---------------------------------------------------------------- what the check protects

  /** Distinct withdrawals of account `a` that wait to be settled. */
  ghost predicate PendingWithdrawals(db: Db, ids: seq<int>, a: int) {
    && (forall i :: 0 <= i < |ids| ==>
          ids[i] in db.changes && !db.changes[ids[i]].isApplied && db.changes[ids[i]].accountId == a &&
              db.changes[ids[i]].content.Withdraw?)
    && forall i, j :: 0 <= i < j < |ids| ==> ids[i] != ids[j]
  }

  function WithdrawalOf(db: Db, id: int): Money {
    if id in db.changes && db.changes[id].content.Withdraw? then db.changes[id].content.amount else 0.0
  }

  function Requested(db: Db, ids: seq<int>): Money {
    if ids == [] then 0.0 else WithdrawalOf(db, ids[0]) + Requested(db, ids[1..])
  }

  function SettledInOrder(db: Db, ids: seq<int>, now: int): Db
    decreases |ids|
  {
    if ids == [] then db
    else if Payable(db, ids[0], None) then SettledInOrder(Settled(db, ids[0], None, now), ids[1..], now)
    else db
  }

  lemma {:induction false} RequestedKept(db: Db, db': Db, ids: seq<int>)
    requires forall i :: 0 <= i < |ids| ==> WithdrawalOf(db', ids[i]) == WithdrawalOf(db, ids[i])
    ensures Requested(db', ids) == Requested(db, ids)
  {
    if ids == [] {
    } else {
      assert WithdrawalOf(db', ids[0]) == WithdrawalOf(db, ids[0]);
      forall i | 0 <= i < |ids[1..]| ensures WithdrawalOf(db', ids[1..][i]) == WithdrawalOf(db, ids[1..][i]) {
        assert ids[1..][i] == ids[i + 1];
      }
      RequestedKept(db, db', ids[1..]);
    }
  }

  /**
   Each withdrawal was checked alone, when it was requested. Settled together they leave the
   balance non-negative if and only if it covers their sum.
   */
  lemma {:induction false} WithdrawalsCoveredIff(db: Db, ids: seq<int>, a: int, now: int)
    requires PendingWithdrawals(db, ids, a)
    ensures Balance(SettledInOrder(db, ids, now), a).money == Balance(db, a).money - Requested(db, ids)
    ensures Balance(SettledInOrder(db, ids, now), a).money >= 0.0 <==> Requested(db, ids) <= Balance(db, a).money
    decreases |ids|
  {
    if ids == [] {
    } else {
      var db' := Settled(db, ids[0], None, now);
      var rest := ids[1..];
      assert forall i :: 0 <= i < |rest| ==> rest[i] == ids[i + 1];
      RequestedKept(db, db', rest);
      WithdrawalsCoveredIff(db', rest, a, now);
    }
  }

  /** Two withdrawals of 4 pass the check of a wallet that holds 5; settled, they leave it at -3. */
  method TwoWithdrawalsOverdraw(desk: FundingDesk, accountId: int, now: int)
    requires desk.ledger.Valid() && accountId in desk.accounts
    requires accountId in desk.ledger.wallets && desk.ledger.wallets[accountId].balance == 5.0
    requires desk.ledger.balanceChanges == map[]
    modifies desk.ledger, desk`settleQueue
    ensures accountId in desk.ledger.wallets && desk.ledger.wallets[accountId].balance == -3.0
  {
    var first := desk.Create(accountId, "first", Withdraw(4.0), {});
    var second := desk.Create(accountId, "second", Withdraw(4.0), {});
    assert first.Created? && second.Created? && first.id != second.id;
    var _ := desk.ledger.SettleBalanceChange(first.id, now, {});
    assert desk.ledger.wallets[accountId].balance == 1.0;
    var _ := desk.ledger.SettleBalanceChange(second.id, now, {});
  }
}
