/** Where the value of a portfolio comes from, and where trading costs do not show. */
module Accounting {
  import opened Prelude
  import opened Penelope
  import opened Uist
  import opened NoLookahead
  import opened Costs
  import opened BrokerModel
  import opened BrokerLedger
  import opened BrokerRuns
  import opened LiquidationBounds
  import opened CostBasis
  import opened Holdings
  import opened Samples

  // ---------- sums ----------

  ghost predicate Distinct(keys: seq<Symbol>) {
    forall i, k :: 0 <= i < k < |keys| ==> keys[i] != keys[k]
  }

  lemma {:induction false} SumAgrees(f: Symbol -> real, g: Symbol -> real, keys: seq<Symbol>)
    requires forall s :: s in keys ==> f(s) == g(s)
    ensures Sum(f, keys) == Sum(g, keys)
  {
    if keys != [] {
      assert keys[|keys| - 1] in keys && forall s :: s in keys[..|keys| - 1] ==> s in keys;
      SumAgrees(f, g, keys[..|keys| - 1]);
    }
  }

  /** Two functions that differ at one key. */
  lemma {:induction false} SumDiffersAt(f: Symbol -> real, g: Symbol -> real, keys: seq<Symbol>, k: Symbol, delta: real)
    requires Distinct(keys) && k in keys && g(k) == f(k) + delta
    requires forall s :: s in keys && s != k ==> g(s) == f(s)
    ensures Sum(g, keys) == Sum(f, keys) + delta
  {
    var n := |keys| - 1;
    assert keys[n] in keys && forall s :: s in keys[..n] ==> s in keys && s != keys[n];
    if keys[n] == k {
      SumAgrees(f, g, keys[..n]);
    } else {
      var i :| 0 <= i < |keys| && keys[i] == k;
      assert keys[..n][i] == k;
      SumDiffersAt(f, g, keys[..n], k, delta);
    }
  }

  lemma {:induction false} SumOfZero(f: Symbol -> real, keys: seq<Symbol>)
    requires forall s :: s in keys ==> f(s) == 0.0
    ensures Sum(f, keys) == 0.0
  {
    if keys != [] {
      assert keys[|keys| - 1] in keys && forall s :: s in keys[..|keys| - 1] ==> s in keys;
      SumOfZero(f, keys[..|keys| - 1]);
    }
  }

  lemma {:induction false} SumMinus(f: Symbol -> real, g: Symbol -> real, h: Symbol -> real, keys: seq<Symbol>)
    requires forall s :: s in keys ==> h(s) == f(s) - g(s)
    ensures Sum(h, keys) == Sum(f, keys) - Sum(g, keys)
  {
    if keys != [] {
      assert keys[|keys| - 1] in keys && forall s :: s in keys[..|keys| - 1] ==> s in keys;
      SumMinus(f, g, h, keys[..|keys| - 1]);
    }
  }

  lemma InFront(s: Symbol, all: seq<Symbol>)
    requires s in all && s != all[|all| - 1]
    ensures s in all[..|all| - 1]
  {
    var k :| 0 <= k < |all| && all[k] == s;
    assert all[..|all| - 1][k] == s;
  }

  lemma Without(keys: seq<Symbol>, i: nat) returns (rest: seq<Symbol>)
    requires Distinct(keys) && i < |keys|
    ensures rest == keys[..i] + keys[i + 1..] && Distinct(rest)
    ensures forall s :: s in rest <==> s in keys && s != keys[i]
  {
    rest := keys[..i] + keys[i + 1..];
    forall s ensures s in rest <==> s in keys && s != keys[i] {
      if s in keys && s != keys[i] {
        var k :| 0 <= k < |keys| && keys[k] == s;
        assert rest[if k < i then k else k - 1] == s;
      }
    }
  }

  lemma NoneOfNone(keys: seq<Symbol>, all: seq<Symbol>)
    requires forall s :: s in keys ==> s in all
    ensures all == [] ==> keys == []
  {
    if keys != [] {
      assert keys[0] in all;
    }
  }

  /** What the last of the keys adds, given what the others do. */
  lemma SumLast(f: Symbol -> real, keys: seq<Symbol>, last: Symbol) returns (rest: seq<Symbol>)
    requires Distinct(keys) && (last !in keys ==> f(last) == 0.0)
    ensures Distinct(rest) && (forall s :: s in rest <==> s in keys && s != last) && Sum(f, keys) == Sum(f, rest) + f(last)
  {
    if last in keys {
      var i :| 0 <= i < |keys| && keys[i] == last;
      rest := Without(keys, i);
      SumWithout(f, keys, i);
    } else {
      rest := keys;
    }
  }

  /** Keys at which there is nothing to add do not matter. */
  lemma {:induction false} SumOverMore(f: Symbol -> real, keys: seq<Symbol>, all: seq<Symbol>)
    requires Distinct(keys) && Distinct(all) && forall s :: s in keys ==> s in all
    requires forall s :: s in all && s !in keys ==> f(s) == 0.0
    ensures Sum(f, all) == Sum(f, keys)
    decreases |all|
  {
    NoneOfNone(keys, all);
    if all != [] {
      var init, last := all[..|all| - 1], all[|all| - 1];
      assert last in all && forall s :: s in init ==> s in all && s != last;
      var rest := SumLast(f, keys, last);
      forall s | s in rest ensures s in init {
        InFront(s, all);
      }
      SumOverMore(f, rest, init);
    }
  }

  // ---------- where the value comes from ----------

  /** Every symbol that was ever traded is listed, once. */
  ghost predicate Lists(symbols: seq<Symbol>, log: seq<Trade>) {
    Distinct(symbols) && forall t :: t in log ==> t.symbol in symbols
  }

  /** Cash paid and received for trades is the net cost of every symbol traded. */
  lemma {:induction false} NetCostsAddUp(log: seq<Trade>, symbols: seq<Symbol>)
    requires Lists(symbols, log)
    ensures NetProceeds(log) == -Sum(s => NetCost(log, s), symbols)
  {
    if log == [] {
      SumOfZero(s => NetCost(log, s), symbols);
    } else {
      var n := |log| - 1;
      var init, t := log[..n], log[n];
      assert log == init + [t] && t in log && forall u :: u in init ==> u in log;
      NetCostsAddUp(init, symbols);
      var f, g := (s: Symbol) => NetCost(init, s), (s: Symbol) => NetCost(log, s);
      forall s ensures g(s) == f(s) + if s == t.symbol then -CashEffect(t) else 0.0 {
        NetCostSnoc(init, t, s);
      }
      SumDiffersAt(f, g, symbols, t.symbol, -CashEffect(t));
      SumAgrees(f, s => NetCost(init, s), symbols);
      SumAgrees(g, s => NetCost(log, s), symbols);
    }
  }

  /** What a symbol has contributed: what the position is worth, less what was paid for it net of
      what was received. */
  function Gain(b: Broker, s: Symbol): real {
    OrZero(PositionValue(b, s)) - NetCost(b.log, s)
  }

  lemma HeldIsTraded(j: Joint, ds: Dataset, s: Symbol)
    requires JointOk(j, ds) && s in j.brk.holdings
    ensures exists t :: t in j.brk.log && t.symbol == s
  {
    assert Lookup(j.brk.holdings, s, 0.0) == NetQuantity(j.brk.log, s) != 0.0;
    if forall t :: t in j.brk.log ==> t.symbol != s {
      UntradedIsFlat(j.brk.log, s);
    }
  }

  lemma PositionsAreListed(j: Joint, ds: Dataset, keys: seq<Symbol>, symbols: seq<Symbol>)
    requires JointOk(j, ds) && IsEnumeration(keys, j.brk.holdings.Keys) && Lists(symbols, j.brk.log)
    ensures Sum(s => OrZero(PositionValue(j.brk, s)), symbols) == Sum(s => OrZero(PositionValue(j.brk, s)), keys)
  {
    forall s | s in keys ensures s in symbols {
      HeldIsTraded(j, ds, s);
    }
    SumOverMore(s => OrZero(PositionValue(j.brk, s)), keys, symbols);
  }

  /** In any state with its books in order, total value is cash and positions, and cash what trades
      left of it: the gains of every symbol traded make up the rest. */
  lemma ValueIsGains(j: Joint, ds: Dataset, keys: seq<Symbol>, symbols: seq<Symbol>)
    requires JointOk(j, ds) && IsEnumeration(keys, j.brk.holdings.Keys) && Lists(symbols, j.brk.log)
    ensures TotalValue(j.brk, keys) == j.brk.cash - NetProceeds(j.brk.log) + Sum(s => Gain(j.brk, s), symbols)
  {
    var b := j.brk;
    ValuesAreSums(b, keys);
    PositionsAreListed(j, ds, keys, symbols);
    NetCostsAddUp(b.log, symbols);
    SumMinus(s => OrZero(PositionValue(b, s)), s => NetCost(b.log, s), s => Gain(b, s), symbols);
  }

  /** In every reachable state the total value of a portfolio is what the client paid in net of what
      was paid out, and the gain of every symbol ever traded. */
  lemma ValueIsAccountedFor(ds: Dataset, id: nat, name: string, costs: seq<Cost>, ops: seq<BrokerOp>, keys: seq<Symbol>, symbols: seq<Symbol>)
    requires DatasetSound(ds) && Runnable(Start(ds, id, name, costs), ds, ops)
    requires var b := BrokerRun(Start(ds, id, name, costs), ds, ops).brk;
             IsEnumeration(keys, b.holdings.Keys) && Lists(symbols, b.log)
    ensures var j := Start(ds, id, name, costs);
            var b := BrokerRun(j, ds, ops).brk;
            TotalValue(b, keys) == ClientFlows(j, ds, ops) + Sum(s => Gain(b, s), symbols)
  {
    BooksAlwaysBalance(ds, id, name, costs, ops);
    ValueIsGains(BrokerRun(Start(ds, id, name, costs), ds, ops), ds, keys, symbols);
  }

  // ---------- charges ----------

  /** What the costs charge the trades of a log. */
  function TotalCharges(costs: seq<Cost>, log: seq<Trade>): real {
    if log == [] then 0.0
    else TotalCharges(costs, log[..|log| - 1]) + Charges(costs, log[|log| - 1].quantity, log[|log| - 1].value)
  }

  lemma StepKeepsCosts(j: Joint, ds: Dataset, op: BrokerOp)
    requires JointOk(j, ds) && Enabled(j, ds, op)
    ensures BrokerStep(j, ds, op).brk.costs == j.brk.costs
  {
    match op
    case CheckOp(keys) =>
      SettleKeepsJointOk(j, ds);
      SettlingKeepsCosts(j, ds);
      RebalancingMovesNoCash(Settle(j, ds), keys);
    case LiquidateOp(x, keys) =>
      HeldIsPriced(j, ds);
    case _ =>
  }

  lemma {:induction false} RunKeepsCosts(j: Joint, ds: Dataset, ops: seq<BrokerOp>)
    requires JointOk(j, ds) && Runnable(j, ds, ops)
    ensures BrokerRun(j, ds, ops).brk.costs == j.brk.costs
    decreases |ops|
  {
    if ops != [] {
      StepKeepsCosts(j, ds, ops[0]);
      RunKeepsCosts(BrokerStep(j, ds, ops[0]), ds, ops[1..]);
    }
  }

  /** Charges are never taken from cash: in every reachable state cash is the balance with the charges
      of all trades deducted exactly when those add up to nothing. */
  lemma ChargesAreNotPaid(ds: Dataset, id: nat, name: string, costs: seq<Cost>, ops: seq<BrokerOp>)
    requires DatasetSound(ds) && Runnable(Start(ds, id, name, costs), ds, ops)
    ensures var j := Start(ds, id, name, costs);
            var b := BrokerRun(j, ds, ops).brk;
            && b.costs == costs
            && (b.cash == ClientFlows(j, ds, ops) + NetProceeds(b.log) - TotalCharges(costs, b.log) <==> TotalCharges(costs, b.log) == 0.0)
  {
    BooksAlwaysBalance(ds, id, name, costs, ops);
    RunKeepsCosts(Start(ds, id, name, costs), ds, ops);
  }

  lemma {:induction false} ChargesArePositive(costs: seq<Cost>, quantity: real, value: real)
    requires Sensible(costs) && quantity >= 0.0 && value >= 0.0
    ensures Charges(costs, quantity, value) >= 0.0
  {
    if costs != [] {
      var n := |costs| - 1;
      ChargesArePositive(costs[..n], quantity, value);
      MulLe(0.0, costs[n].amount, quantity);
      MulLe(0.0, costs[n].amount, value);
    }
  }

  /** For trades that are not negative that is when every single one is charged nothing. */
  lemma {:induction false} NothingChargedWhen(costs: seq<Cost>, log: seq<Trade>)
    requires Sensible(costs) && forall t :: t in log ==> t.quantity >= 0.0 && t.value >= 0.0
    ensures TotalCharges(costs, log) >= 0.0
    ensures TotalCharges(costs, log) == 0.0 <==> forall t :: t in log ==> Charges(costs, t.quantity, t.value) == 0.0
  {
    if log != [] {
      var n := |log| - 1;
      var init, t := log[..n], log[n];
      assert log == init + [t] && t in log && forall u :: u in init ==> u in log;
      NothingChargedWhen(costs, init);
      ChargesArePositive(costs, t.quantity, t.value);
    }
  }

  /** A purchase for 50 with a flat cost of 1 leaves 950 of 1000, not 949. */
  lemma ChargeIsNotPaid() returns (j: Joint)
    ensures DatasetSound(SAMPLE_DATA) && JointOk(j, SAMPLE_DATA)
    ensures var start := Start(SAMPLE_DATA, 0, "SAMPLE", [Flat(1.0)]);
            && Runnable(start, SAMPLE_DATA, SAMPLE_OPS) && j == BrokerRun(start, SAMPLE_DATA, SAMPLE_OPS)
            && j.brk.cash == 950.0 && TotalCharges(j.brk.costs, j.brk.log) == 1.0
  {
    j := SampleHolding([Flat(1.0)]);
    assert j.brk.log[..0] == [] && [Flat(1.0)][..0] == [];
    assert Charges([], 5.0, 50.0) == 0.0;
    assert Charges([Flat(1.0)], 5.0, 50.0) == 1.0;
  }
}
