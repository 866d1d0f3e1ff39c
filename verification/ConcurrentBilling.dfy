/**
 The whole pipeline with settlements that interleave: event workers, funding and administration act on
 the ledger tables while any number of settling workers are between their reads and their commits.
 */
module ConcurrentBilling {
  import opened Models
  import opened Sums
  import Billing
  import Interleaving
  import LedgerLaws

  datatype World = World(billing: Billing.System, workers: map<int, Interleaving.Phase>)

  /** A worker takes its task from the settle queue; `Acknowledge` removes one, done or not. */
  datatype Action =
    | Pipeline(action: Billing.Action)
    | Worker(step: Interleaving.Step)
    | Acknowledge(id: int)

  function Base(w: World): Interleaving.System {
    Interleaving.System(w.billing.db, w.workers)
  }

  ghost predicate Possible(w: World, action: Action) {
    match action
    case Pipeline(action) => !action.SettleTask? && Billing.Possible(w.billing, action)
    case Worker(step) =>
      !step.Admin? && Interleaving.Enabled(Base(w), step) && (step.Lock? ==> step.id in w.billing.settleQueue)
    case Acknowledge(_) => true
  }

  ghost function After(w: World, action: Action): World
    requires Possible(w, action)
  {
    match action
    case Pipeline(action) => w.(billing := Billing.After(w.billing, action))
    case Worker(step) =>
      var base := Interleaving.Next(Base(w), step);
      World(w.billing.(db := base.db), base.workers)
    case Acknowledge(id) => w.(billing := w.billing.(settleQueue := w.billing.settleQueue - multiset{id}))
  }

  /** What an action does to the ledger tables and the settlements in progress. */
  ghost function BaseStep(w: World, action: Action): Interleaving.Step
    requires Possible(w, action)
  {
    match action
    case Pipeline(action) => Interleaving.Admin(Billing.LedgerStep(w.billing, action))
    case Worker(step) => step
    case Acknowledge(_) => Interleaving.Admin(LedgerLaws.Skip)
  }

  /** To the ledger, every action is a step of the interleaved settlements. */
  lemma ActionIsBaseStep(w: World, action: Action)
    requires Possible(w, action)
    ensures Interleaving.Enabled(Base(w), BaseStep(w, action))
    ensures Base(After(w, action)) == Interleaving.Next(Base(w), BaseStep(w, action))
  {
  }

  ghost predicate ValidHistory(w: World, run: seq<Action>)
    decreases |run|
  {
    run != [] ==> Possible(w, run[0]) && ValidHistory(After(w, run[0]), run[1..])
  }

  ghost function End(w: World, run: seq<Action>): World
    requires ValidHistory(w, run)
    decreases |run|
  {
    if run == [] then w else End(After(w, run[0]), run[1..])
  }

  // ---------------------------------------------------------------- every interleaving

  ghost predicate Inv(w: World) {
    Billing.BillingInv(w.billing) && Interleaving.Inv(Base(w))
  }

  /** Marking a change applied leaves the billing of events as it was. */
  lemma BillingKeptByWorker(w: World, step: Interleaving.Step)
    requires Inv(w) && Possible(w, Worker(step))
    ensures Billing.BillingInv(After(w, Worker(step)).billing)
  {
    var b, b' := w.billing, After(w, Worker(step)).billing;
    forall k | k in b'.quotes ensures Billing.QuoteOk(b', k) {
      Billing.QuoteOkFrame(b, b', k);
    }
    forall id | id in b'.db.changes && b'.db.changes[id].content.Spend? ensures Billing.HasQuote(b', id) {
      Billing.HasQuoteKept(b, b', id);
    }
  }

  lemma BillingKeptByAcknowledge(w: World, id: int)
    requires Inv(w)
    ensures Billing.BillingInv(After(w, Acknowledge(id)).billing)
  {
    var b, b' := w.billing, After(w, Acknowledge(id)).billing;
    forall k | k in b.quotes ensures Billing.QuoteOk(b', k) {
      Billing.QuoteOkFrame(b, b', k);
    }
    forall change | change in b.db.changes && b.db.changes[change].content.Spend? ensures Billing.HasQuote(b', change) {
      Billing.HasQuoteKept(b, b', change);
    }
  }

  lemma BillingKept(w: World, action: Action)
    requires Inv(w) && Possible(w, action)
    ensures Billing.BillingInv(After(w, action).billing)
  {
    match action
    case Pipeline(step) => Billing.BillingInvKept(w.billing, step);
    case Worker(step) => BillingKeptByWorker(w, step);
    case Acknowledge(id) => BillingKeptByAcknowledge(w, id);
  }

  lemma InvKept(w: World, action: Action)
    requires Inv(w) && Possible(w, action)
    ensures Inv(After(w, action))
  {
    BillingKept(w, action);
    ActionIsBaseStep(w, action);
    Interleaving.InvKept(Base(w), BaseStep(w, action));
  }

  lemma {:induction false} InvHolds(w: World, run: seq<Action>)
    requires Inv(w) && ValidHistory(w, run)
    ensures Inv(End(w, run))
    decreases |run|
  {
    if run == [] {
    } else {
      InvKept(w, run[0]);
      InvHolds(After(w, run[0]), run[1..]);
    }
  }

  /** A fresh deployment with no settlement in progress. */
  ghost predicate Fresh(w: World) {
    Billing.Fresh(w.billing) && w.workers == map[] && 0 !in w.billing.db.subscriptions
  }

  /** However settlements interleave, the applied spends of an account are its billed events, each once, as quoted. */
  lemma AppliedSpendIsBilledCost(w: World, run: seq<Action>, a: int)
    requires Fresh(w) && ValidHistory(w, run)
    ensures var end := End(w, run).billing;
            LedgerLaws.Total(end.db.changes, Billing.SpendEffect(a)) ==
              Sum(Billing.BilledKeys(end, a), Billing.CostOf(end))
  {
    InvHolds(w, run);
    Billing.AppliedSpendIsBilledCost(End(w, run).billing, a);
  }

  // ---------------------------------------------------------------- without overlap

  /** No two transactions in progress settle changes of one account, at any time of the run. */
  ghost predicate ExclusiveHistory(w: World, run: seq<Action>)
    requires ValidHistory(w, run)
    decreases |run|
  {
    Interleaving.Exclusive(Base(w)) && (run != [] ==> ExclusiveHistory(After(w, run[0]), run[1..]))
  }

  lemma {:induction false} NetResidueKept(w: World, run: seq<Action>, a: int)
    requires Inv(w) && Interleaving.AllUpToDate(Base(w)) && ValidHistory(w, run) && ExclusiveHistory(w, run)
    ensures LedgerLaws.NetResidue(End(w, run).billing.db, a) == LedgerLaws.NetResidue(w.billing.db, a)
    decreases |run|
  {
    if run == [] {
    } else {
      ActionIsBaseStep(w, run[0]);
      Interleaving.UpToDateKept(Base(w), BaseStep(w, run[0]));
      Interleaving.ExclusiveStepKeepsResidues(Base(w), BaseStep(w, run[0]), a, 1);
      InvKept(w, run[0]);
      NetResidueKept(After(w, run[0]), run[1..], a);
    }
  }

  lemma NetFromResidue(net: Amount, net': Amount, total: Amount, total': Amount, funding: Amount, funding': Amount,
                       billed: Amount)
    requires net'.Minus(total') == net.Minus(total)
    requires total == funding && total' == funding'.Minus(billed)
    ensures net' == net.Plus(funding').Minus(funding).Minus(billed)
  {
  }

  /**
   End to end: whatever was redelivered, rolled back, lost or settled late, if settlements of one
   account do not overlap, the account has moved by its deposits, credits and withdrawals, less the
   quoted cost of each billed event once.
   */
  lemma EndToEndBilling(w: World, run: seq<Action>, a: int)
    requires Fresh(w) && ValidHistory(w, run) && ExclusiveHistory(w, run)
    ensures var before, end := w.billing, End(w, run).billing;
            LedgerLaws.Net(end.db, a) == LedgerLaws.Net(before.db, a)
              .Plus(LedgerLaws.Total(end.db.changes, Billing.FundingEffect(a)))
              .Minus(LedgerLaws.Total(before.db.changes, Billing.FundingEffect(a)))
              .Minus(Sum(Billing.BilledKeys(end, a), Billing.CostOf(end)))
  {
    var before, end := w.billing, End(w, run).billing;
    InvHolds(w, run);
    NetResidueKept(w, run, a);
    Billing.AccountTotalSplits(before, a);
    Billing.AccountTotalSplits(end, a);
    assert Billing.BilledKeys(before, a) == {};
    NetFromResidue(LedgerLaws.Net(before.db, a), LedgerLaws.Net(end.db, a),
                   LedgerLaws.Total(before.db.changes, LedgerLaws.AccountEffect(a)),
                   LedgerLaws.Total(end.db.changes, LedgerLaws.AccountEffect(a)),
                   LedgerLaws.Total(before.db.changes, Billing.FundingEffect(a)),
                   LedgerLaws.Total(end.db.changes, Billing.FundingEffect(a)),
                   Sum(Billing.BilledKeys(end, a), Billing.CostOf(end)));
  }
}
