/** The fixed-weight strategy: once per clock tick it settles, rebalances and takes a snapshot.  A
    run of the strategy is a broker run, so everything proved of those holds of it.  The default
    schedule, which always trades, is left implicit. */
module StaticWeight {
  import opened Prelude
  import opened Penelope
  import opened Uist
  import opened NoLookahead
  import opened BrokerModel
  import opened BrokerLedger
  import opened BrokerRuns
  import opened LiquidationBounds
  import opened Rebalance
  import opened UistBroker
  import CashFlow
  import opened Costs

  datatype Snapshot = Snapshot(date: int, portfolioValue: real, netCashFlow: real, inflation: real)

  /** What the strategy answers its client: deposits always succeed. */
  datatype StrategyEvent = DepositAccepted(cash: real) | WithdrawalPaid(cash: real) | WithdrawalRefused(cash: real)

  /** One update: the states it goes through, and the orders in which it happened to visit the
      holdings, twice, and the targets. */
  datatype Round = Round(before: Joint, settled: Joint, visited: seq<Symbol>, checked: Joint,
                         held: seq<Symbol>, targets: seq<Symbol>, after: Joint)

  ghost predicate RoundOk(r: Round, ds: Dataset, weights: map<Symbol, real>) {
    && r.settled == Settle(r.before, ds) && CanRebalance(r.settled.brk)
    && IsEnumeration(r.visited, r.settled.brk.holdings.Keys)
    && r.checked == RebalanceCash(r.settled, r.visited)
    && IsEnumeration(r.targets, weights.Keys)
    && Rebalanced(r.checked, r, weights)
  }

  /** Rebalancing towards the weights on the liquidation value of what is held. */
  ghost predicate Rebalanced(checked: Joint, r: Round, weights: map<Symbol, real>)
    requires forall s :: s in r.targets ==> s in weights
  {
    && IsEnumeration(r.held, checked.brk.holdings.Keys)
    && LiquidationValue(checked.brk, r.held) != 0.0
    && r.after == SendOrders(checked, DiffOrders(checked.brk, weights, LiquidationValue(checked.brk, r.held), r.targets))
  }

  /** Rounds that follow one another from `j` to `j'`. */
  ghost predicate Chain(j: Joint, rounds: seq<Round>, j': Joint) {
    if rounds == [] then j' == j
    else
      var n := |rounds| - 1;
      Chain(j, rounds[..n], rounds[n].before) && j' == rounds[n].after
  }

  /** The round made at the i-th update of a run. */
  function Nth(rounds: seq<Round>, i: nat): Round
    requires i < |rounds|
  {
    rounds[i]
  }

  ghost predicate RunOk(rounds: seq<Round>, ds: Dataset, weights: map<Symbol, real>) {
    forall i :: 0 <= i < |rounds| ==> RoundOk(Nth(rounds, i), ds, weights)
  }

  lemma EachRoundOk(rounds: seq<Round>, ds: Dataset, weights: map<Symbol, real>, i: nat)
    requires RunOk(rounds, ds, weights) && i < |rounds|
    ensures RoundOk(rounds[i], ds, weights)
  {
    var r := Nth(rounds, i);
  }

  lemma PrefixOk(rounds: seq<Round>, ds: Dataset, weights: map<Symbol, real>, n: nat)
    requires RunOk(rounds, ds, weights) && n <= |rounds|
    ensures RunOk(rounds[..n], ds, weights)
  {
    forall i | 0 <= i < n ensures RoundOk(Nth(rounds[..n], i), ds, weights) {
      EachRoundOk(rounds, ds, weights, i);
    }
  }

  /** The snapshot shows the date of the clock, and the total value in whatever order it is added
      up. */
  ghost predicate Shows(s: Snapshot, j: Joint) {
    && s.date == j.bt.date && s.inflation == 0.0
    && forall keys :: IsEnumeration(keys, j.brk.holdings.Keys) ==> s.portfolioValue == TotalValue(j.brk, keys)
  }

  ghost predicate Records(history: seq<Snapshot>, rounds: seq<Round>, netCashFlow: real) {
    && |history| == |rounds|
    && forall i :: 0 <= i < |history| ==> Shows(history[i], rounds[i].after) && history[i].netCashFlow == netCashFlow
  }

  // ---------- a strategy run is a broker run ----------

  function Sends(os: seq<Order>): (r: seq<BrokerOp>)
    ensures |r| == |os|
  {
    seq(|os|, i requires 0 <= i < |os| => SendOp(os[i]))
  }

  lemma SendsPath(j: Joint, ds: Dataset, os: seq<Order>) returns (states: seq<Joint>)
    requires JointOk(j, ds) && forall o :: o in os ==> Sendable(j.brk, o)
    ensures Path(Moves(ds), states, Sends(os)) && states[0] == j && states[|os|] == SendOrders(j, os)
  {
    assert forall i :: 0 <= i <= |os| ==> forall o :: o in os[..i] ==> o in os;
    states := seq(|os| + 1, i requires 0 <= i <= |os| => SendOrders(j, os[..i]));
    forall i | 0 <= i < |os| ensures Moves(ds)(states[i], Sends(os)[i], states[i + 1]) {
      assert os[..i + 1][..i] == os[..i] && os[i] in os;
      SendAllKeepsJointOk(j, ds, os[..i]);
    }
    assert os[..|os|] == os;
  }

  /** Neither checking nor sending moves client money, and neither is a liquidation. */
  predicate Internal(ops: seq<BrokerOp>) {
    forall i :: 0 <= i < |ops| ==> ops[i].CheckOp? || ops[i].SendOp?
  }

  lemma RoundKeepsJointOk(r: Round, ds: Dataset, weights: map<Symbol, real>)
    requires JointOk(r.before, ds) && RoundOk(r, ds, weights)
    ensures JointOk(r.after, ds)
  {
    var checked := r.checked;
    CheckKeepsJointOk(r.before, ds, r.visited);
    SendAllKeepsJointOk(checked, ds, DiffOrders(checked.brk, weights, LiquidationValue(checked.brk, r.held), r.targets));
  }

  lemma CheckMoves(j: Joint, ds: Dataset, keys: seq<Symbol>, checked: Joint)
    requires JointOk(j, ds) && CanRebalance(Settle(j, ds).brk) && IsEnumeration(keys, Settle(j, ds).brk.holdings.Keys)
    requires checked == Check(j, ds, keys)
    ensures Moves(ds)(j, CheckOp(keys), checked)
  {
    assert BrokerStep(j, ds, CheckOp(keys)) == checked;
  }

  lemma RoundIs(r: Round, ds: Dataset, weights: map<Symbol, real>) returns (orders: seq<Order>)
    requires JointOk(r.before, ds) && RoundOk(r, ds, weights)
    ensures Moves(ds)(r.before, CheckOp(r.visited), r.checked) && JointOk(r.checked, ds)
    ensures (forall o :: o in orders ==> Sendable(r.checked.brk, o)) && r.after == SendOrders(r.checked, orders)
  {
    CheckKeepsJointOk(r.before, ds, r.visited);
    CheckMoves(r.before, ds, r.visited, r.checked);
    orders := DiffOrders(r.checked.brk, weights, LiquidationValue(r.checked.brk, r.held), r.targets);
  }

  lemma CheckThenSends(before: Joint, check: BrokerOp, checked: Joint, orders: seq<Order>, ds: Dataset)
    returns (states: seq<Joint>, ops: seq<BrokerOp>)
    requires Moves(ds)(before, check, checked) && check.CheckOp? && JointOk(checked, ds)
    requires forall o :: o in orders ==> Sendable(checked.brk, o)
    ensures Internal(ops) && Path(Moves(ds), states, ops) && states[0] == before && states[|ops|] == SendOrders(checked, orders)
  {
    var sent := SendsPath(checked, ds, orders);
    PathPrepends(Moves(ds), before, check, sent, Sends(orders));
    ops := [check] + Sends(orders);
    states := [before] + sent;
  }

  /** One update is a check followed by sends. */
  lemma RoundPath(r: Round, ds: Dataset, weights: map<Symbol, real>) returns (states: seq<Joint>, ops: seq<BrokerOp>)
    requires JointOk(r.before, ds) && RoundOk(r, ds, weights)
    ensures Internal(ops) && Path(Moves(ds), states, ops) && states[0] == r.before && states[|ops|] == r.after
  {
    var orders := RoundIs(r, ds, weights);
    states, ops := CheckThenSends(r.before, CheckOp(r.visited), r.checked, orders, ds);
  }

  lemma {:induction false} ChainPath(j: Joint, rounds: seq<Round>, j': Joint, ds: Dataset, weights: map<Symbol, real>)
    returns (states: seq<Joint>, ops: seq<BrokerOp>)
    requires JointOk(j, ds) && Chain(j, rounds, j') && RunOk(rounds, ds, weights)
    ensures Internal(ops) && Path(Moves(ds), states, ops) && states[0] == j && states[|ops|] == j'
    ensures JointOk(j', ds)
  {
    if rounds == [] {
      states, ops := [j], [];
    } else {
      var n := |rounds| - 1;
      PrefixOk(rounds, ds, weights, n);
      EachRoundOk(rounds, ds, weights, n);
      var first, firstOps := ChainPath(j, rounds[..n], rounds[n].before, ds, weights);
      var last, lastOps := RoundPath(rounds[n], ds, weights);
      RoundKeepsJointOk(rounds[n], ds, weights);
      PathsJoin(Moves(ds), first, firstOps, last, lastOps);
      states, ops := first + last[1..], firstOps + lastOps;
    }
  }

  /** A whole run of the strategy is a run of the broker. */
  lemma ChainIsBrokerRun(j: Joint, rounds: seq<Round>, j': Joint, ds: Dataset, weights: map<Symbol, real>)
    returns (ops: seq<BrokerOp>)
    requires JointOk(j, ds) && Chain(j, rounds, j') && RunOk(rounds, ds, weights)
    ensures Internal(ops) && Runnable(j, ds, ops) && BrokerRun(j, ds, ops) == j'
  {
    var states;
    states, ops := ChainPath(j, rounds, j', ds, weights);
    PathIsRun(ds, states, ops);
  }

  lemma {:induction false} InternalMovesNoClientMoney(j: Joint, ds: Dataset, ops: seq<BrokerOp>)
    requires JointOk(j, ds) && Runnable(j, ds, ops) && Internal(ops)
    ensures ClientFlows(j, ds, ops) == 0.0
    decreases |ops|
  {
    if ops != [] {
      InternalMovesNoClientMoney(BrokerStep(j, ds, ops[0]), ds, ops[1..]);
    }
  }

  /** Nor do they touch the recorded flow, rightly so. */
  lemma {:induction false} InternalRecordsNothing(j: Joint, ds: Dataset, flow: real, ops: seq<BrokerOp>)
    requires JointOk(j, ds) && Runnable(j, ds, ops) && Internal(ops)
    ensures CashFlow.Recorded(j, ds, flow, ops) == flow && CashFlow.AllRecordRightly(j, ds, flow, ops)
    decreases |ops|
  {
    if ops != [] {
      assert ops[0].CheckOp? || ops[0].SendOp?;
      InternalRecordsNothing(BrokerStep(j, ds, ops[0]), ds, flow, ops[1..]);
    }
  }

  /** Running the strategy keeps the books in order; cash moves by nothing but its own trades. */
  lemma StrategyCash(j: Joint, rounds: seq<Round>, j': Joint, ds: Dataset, weights: map<Symbol, real>)
    requires JointOk(j, ds) && Chain(j, rounds, j') && RunOk(rounds, ds, weights)
    ensures JointOk(j', ds) && j.brk.log <= j'.brk.log
    ensures j'.brk.cash == j.brk.cash + NetProceeds(j'.brk.log[|j.brk.log|..])
  {
    var ops := ChainIsBrokerRun(j, rounds, j', ds, weights);
    CashIsAccountedFor(j, ds, ops);
    InternalMovesNoClientMoney(j, ds, ops);
  }

  /** A whole backtest: a fresh broker, a first deposit, whatever orders come first, and a run.  All
      the cash there is at the end is the deposit and the proceeds of the exchange's trade log. */
  lemma WholeBacktest(ds: Dataset, id: nat, name: string, costs: seq<Cost>, cash: real, first: seq<Order>,
                      rounds: seq<Round>, j': Joint, weights: map<Symbol, real>)
    requires DatasetSound(ds)
    requires var d := Start(ds, id, name, costs).(brk := DepositCash(Start(ds, id, name, costs).brk, cash).0);
             && (forall o :: o in first ==> Sendable(d.brk, o))
             && Chain(SendOrders(d, first), rounds, j')
    requires RunOk(rounds, ds, weights)
    ensures JointOk(j', ds) && j'.brk.cash == cash + NetProceeds(j'.bt.exchange.tradeLog)
  {
    var d := Start(ds, id, name, costs).(brk := DepositCash(Start(ds, id, name, costs).brk, cash).0);
    SendAllKeepsJointOk(d, ds, first);
    SendingOnlyQueues(d, first);
    StrategyCash(SendOrders(d, first), rounds, j', ds, weights);
    assert j'.brk.log[0..] == j'.brk.log;
  }

  /** A strategy whose broker has failed runs out its data without another order. */
  lemma FailedStrategy(j: Joint, rounds: seq<Round>, j': Joint, ds: Dataset, weights: map<Symbol, real>)
    returns (filled: seq<Order>)
    requires JointOk(j, ds) && Chain(j, rounds, j') && RunOk(rounds, ds, weights) && j.brk.state.Failed?
    ensures OnlyFills(j, j', filled, 0.0)
  {
    var ops := ChainIsBrokerRun(j, rounds, j', ds, weights);
    InternalMovesNoClientMoney(j, ds, ops);
    filled := FailedForGood(j, ds, ops);
  }

  lemma Appended(j: Joint, rounds: seq<Round>, r: Round, ds: Dataset, weights: map<Symbol, real>)
    requires Chain(j, rounds, r.before) && RunOk(rounds, ds, weights) && RoundOk(r, ds, weights)
    ensures Chain(j, rounds + [r], r.after) && RunOk(rounds + [r], ds, weights)
  {
    assert (rounds + [r])[..|rounds|] == rounds;
    forall i | 0 <= i < |rounds + [r]| ensures RoundOk(Nth(rounds + [r], i), ds, weights) {
      if i < |rounds| {
        EachRoundOk(rounds, ds, weights, i);
      }
    }
  }

  // ---------- the clock ----------

  /** An update moves the clock by one position. */
  lemma RoundTicks(r: Round, ds: Dataset, weights: map<Symbol, real>)
    requires RoundOk(r, ds, weights)
    ensures r.after.bt.pos == r.before.bt.pos + 1
  {
    RebalancingOnlyQueues(r.settled, r.visited);
    var checked := r.checked;
    SendingOnlyQueues(checked, DiffOrders(checked.brk, weights, LiquidationValue(checked.brk, r.held), r.targets));
  }

  lemma RebalancingOnlyQueues(j: Joint, keys: seq<Symbol>)
    requires CanRebalance(j.brk) && IsEnumeration(keys, j.brk.holdings.Keys)
    ensures RebalanceCash(j, keys).bt.pos == j.bt.pos
  {
    if j.brk.cash < 0.0 {
      SendingOnlyQueues(j, Liquidate(j.brk, keys, -j.brk.cash + BUFFER).orders);
    }
  }

  ghost predicate Ticks(rounds: seq<Round>) {
    forall i :: 0 <= i < |rounds| ==> rounds[i].after.bt.pos == rounds[i].before.bt.pos + 1
  }

  lemma {:induction false} ChainTicks(j: Joint, rounds: seq<Round>, j': Joint, ds: Dataset, k: nat)
    requires Chain(j, rounds, j') && Ticks(rounds)
    ensures j'.bt.pos == j.bt.pos + |rounds|
    ensures k < |rounds| ==> rounds[k].after.bt.pos == j.bt.pos + k + 1
  {
    if rounds != [] {
      var n := |rounds| - 1;
      ChainTicks(j, rounds[..n], rounds[n].before, ds, k);
    }
  }

  lemma RunTicks(rounds: seq<Round>, ds: Dataset, weights: map<Symbol, real>)
    requires RunOk(rounds, ds, weights)
    ensures Ticks(rounds)
  {
    forall i | 0 <= i < |rounds| ensures rounds[i].after.bt.pos == rounds[i].before.bt.pos + 1 {
      EachRoundOk(rounds, ds, weights, i);
      RoundTicks(rounds[i], ds, weights);
    }
  }

  lemma {:induction false} ChainInvariant(inv: Joint -> bool, j: Joint, rounds: seq<Round>, j': Joint, k: nat)
    requires inv(j) && Chain(j, rounds, j')
    requires forall i :: 0 <= i < |rounds| ==> inv(rounds[i].before) ==> inv(rounds[i].after)
    ensures inv(j') && (k < |rounds| ==> inv(rounds[k].after))
  {
    if rounds != [] {
      var n := |rounds| - 1;
      ChainInvariant(inv, j, rounds[..n], rounds[n].before, k);
    }
  }

  lemma KeepsJointOk(rounds: seq<Round>, ds: Dataset, weights: map<Symbol, real>, i: nat)
    requires RunOk(rounds, ds, weights) && i < |rounds|
    ensures JointOk(rounds[i].before, ds) ==> JointOk(rounds[i].after, ds)
  {
    EachRoundOk(rounds, ds, weights, i);
    if JointOk(rounds[i].before, ds) {
      RoundKeepsJointOk(rounds[i], ds, weights);
    }
  }

  /** The books are in order after every update. */
  lemma JointOkAt(j: Joint, rounds: seq<Round>, j': Joint, ds: Dataset, weights: map<Symbol, real>, k: nat)
    requires JointOk(j, ds) && Chain(j, rounds, j') && RunOk(rounds, ds, weights) && k < |rounds|
    ensures JointOk(rounds[k].after, ds)
  {
    var inv := (x: Joint) => JointOk(x, ds);
    forall i | 0 <= i < |rounds| ensures inv(rounds[i].before) ==> inv(rounds[i].after) {
      KeepsJointOk(rounds, ds, weights, i);
    }
    ChainInvariant(inv, j, rounds, j', k);
    assert inv(rounds[k].after);
  }

  lemma PositionAfter(j: Joint, rounds: seq<Round>, j': Joint, ds: Dataset, weights: map<Symbol, real>, k: nat)
    requires Chain(j, rounds, j') && RunOk(rounds, ds, weights)
    ensures j'.bt.pos == j.bt.pos + |rounds|
    ensures k < |rounds| ==> rounds[k].after.bt.pos == j.bt.pos + k + 1
  {
    RunTicks(rounds, ds, weights);
    ChainTicks(j, rounds, j', ds, k);
  }

  lemma DateOf(j: Joint, ds: Dataset)
    requires JointOk(j, ds)
    ensures ds.dates != [] && j.bt.date == DateAt(ds, j.bt.pos)
  {
  }

  /** The k-th update leaves the clock k positions after the start, on that position's date. */
  lemma ClockAfter(j: Joint, rounds: seq<Round>, j': Joint, ds: Dataset, weights: map<Symbol, real>, k: nat)
    requires JointOk(j, ds) && Chain(j, rounds, j') && RunOk(rounds, ds, weights) && k < |rounds|
    ensures rounds[k].after.bt.pos == j.bt.pos + k + 1
    ensures rounds[k].after.bt.date == DateAt(ds, j.bt.pos + k + 1)
  {
    PositionAfter(j, rounds, j', ds, weights, k);
    JointOkAt(j, rounds, j', ds, weights, k);
    DateOf(rounds[k].after, ds);
  }

  /** From a fresh backtest a full run makes one update per date, and snapshot k, counted from one,
      carries date index min(k, length - 1): of two or more dates the first is never shown and the
      last one twice, and a single date is shown once. */
  lemma SnapshotDates(j: Joint, rounds: seq<Round>, j': Joint, ds: Dataset, weights: map<Symbol, real>, history: seq<Snapshot>, flow: real)
    requires JointOk(j, ds) && Chain(j, rounds, j') && RunOk(rounds, ds, weights) && Records(history, rounds, flow)
    requires j.bt.pos == 0 && !HasNext(ds, j'.bt.pos) && j'.bt.pos <= |ds.dates|
    ensures |history| == |ds.dates|
    ensures forall i :: 0 <= i < |history| ==> history[i].date == ds.dates[Min(i + 1, |ds.dates| - 1)]
  {
    PositionAfter(j, rounds, j', ds, weights, 0);
    forall i | 0 <= i < |history| ensures history[i].date == ds.dates[Min(i + 1, |ds.dates| - 1)] {
      ClockAfter(j, rounds, j', ds, weights, i);
      assert Shows(history[i], rounds[i].after);
    }
  }

  // ---------- plans made before anything fills ----------

  /** What a plan is made from, apart from prices. */
  ghost predicate SameAssets(b: Broker, b': Broker) {
    b.cash == b'.cash && b.holdings == b'.holdings && b.costs == b'.costs && b.log == b'.log
  }

  /** An update in which nothing fills plans from what there was, and leaves that as it is. */
  lemma QuietRound(r: Round, ds: Dataset, weights: map<Symbol, real>)
    requires JointOk(r.before, ds) && RoundOk(r, ds, weights) && r.checked.brk.log == r.before.brk.log
    ensures JointOk(r.after, ds) && SameAssets(r.checked.brk, r.before.brk) && SameAssets(r.after.brk, r.checked.brk)
  {
    RebalancingMovesNoCash(r.settled, r.visited);
    QuietSettle(r.before, ds);
    RoundKeepsJointOk(r, ds, weights);
  }

  /** The plan made by each update. */
  function PlansOf(rounds: seq<Round>): (ps: seq<Planned>)
    ensures |ps| == |rounds|
  {
    seq(|rounds|, i requires 0 <= i < |rounds| =>
      Planned(rounds[i].checked.brk, LiquidationValue(rounds[i].checked.brk, rounds[i].held), rounds[i].targets))
  }

  ghost predicate NothingFills(j: Joint, rounds: seq<Round>) {
    forall i :: 0 <= i < |rounds| ==> Nth(rounds, i).checked.brk.log == j.brk.log
  }

  lemma QuietRun(j: Joint, rounds: seq<Round>, j': Joint, ds: Dataset, weights: map<Symbol, real>, k: nat)
    requires JointOk(j, ds) && Chain(j, rounds, j') && RunOk(rounds, ds, weights) && NothingFills(j, rounds) && k < |rounds|
    ensures SameAssets(rounds[k].after.brk, j.brk)
  {
    var inv := (x: Joint) => JointOk(x, ds) && SameAssets(x.brk, j.brk);
    forall i | 0 <= i < |rounds| ensures inv(rounds[i].before) ==> inv(rounds[i].after) {
      var r := Nth(rounds, i);
      EachRoundOk(rounds, ds, weights, i);
      if inv(r.before) {
        QuietRound(r, ds, weights);
      }
    }
    ChainInvariant(inv, j, rounds, j', k);
    assert inv(rounds[k].after);
  }

  /** Until something fills, every update of a run plans from the same cash and holdings, and sends
      what it plans; what those plans commit together is bounded by the sum of their targets alone,
      one portfolio value for each update. */
  lemma UnfilledPlansAddUp(j: Joint, rounds: seq<Round>, j': Joint, ds: Dataset, weights: map<Symbol, real>)
    requires JointOk(j, ds) && Chain(j, rounds, j') && RunOk(rounds, ds, weights) && NothingFills(j, rounds)
    requires AllAffordable(PlansOf(rounds), weights)
    ensures Committed(PlansOf(rounds), weights) <= Allotted(PlansOf(rounds), weights)
    ensures forall i :: 0 <= i < |rounds| ==> SentPlan(Nth(rounds, i), PlansOf(rounds)[i], weights)
    ensures forall i :: 0 <= i < |rounds| ==> SameAssets(PlansOf(rounds)[i].b, j.brk)
  {
    PlansAddUp(PlansOf(rounds), weights);
    forall i | 0 <= i < |rounds| ensures SameAssets(PlansOf(rounds)[i].b, j.brk) && SentPlan(Nth(rounds, i), PlansOf(rounds)[i], weights) {
      QuietRun(j, rounds, j', ds, weights, i);
      EachRoundOk(rounds, ds, weights, i);
      SentIsPlanned(rounds[i], ds, weights);
    }
  }

  /** The update sends the orders of the plan, sells first. */
  ghost predicate SentPlan(r: Round, p: Planned, weights: map<Symbol, real>) {
    && p.b == r.checked.brk && (forall s :: s in p.keys ==> s in weights)
    && r.after == SendOrders(r.checked, DiffOrders(p.b, weights, p.total, p.keys))
  }

  lemma SentIsPlanned(r: Round, ds: Dataset, weights: map<Symbol, real>)
    requires RoundOk(r, ds, weights)
    ensures SentPlan(r, Planned(r.checked.brk, LiquidationValue(r.checked.brk, r.held), r.targets), weights)
    ensures SameAssets(r.after.brk, r.checked.brk)
  {
  }

  ghost predicate Worthless(b: Broker) {
    exists held :: IsEnumeration(held, b.holdings.Keys) && LiquidationValue(b, held) == 0.0
  }

  function EndOf(start: Joint, rounds: seq<Round>): Joint {
    if rounds == [] then start else rounds[|rounds| - 1].after
  }

  /** How far a run has come: the rounds it has made and the snapshots it has added. */
  ghost predicate Progress(before: seq<Snapshot>, history: seq<Snapshot>, rounds: seq<Round>, start: Joint,
                           ds: Dataset, weights: map<Symbol, real>, flow: real)
  {
    && Chain(start, rounds, EndOf(start, rounds)) && RunOk(rounds, ds, weights)
    && EndOf(start, rounds).bt.pos == start.bt.pos + |rounds|
    && |history| == |before| + |rounds| && history[..|before|] == before
    && Records(history[|before|..], rounds, flow)
  }

  lemma Progressed(before: seq<Snapshot>, history: seq<Snapshot>, history': seq<Snapshot>, rounds: seq<Round>,
                   start: Joint, r: Round, ds: Dataset, weights: map<Symbol, real>, flow: real)
    requires Progress(before, history, rounds, start, ds, weights, flow) && RoundOk(r, ds, weights)
    requires r.before == EndOf(start, rounds)
    requires |history'| == |history| + 1 && history'[..|history|] == history
    requires Shows(history'[|history|], r.after) && history'[|history|].netCashFlow == flow
    ensures Progress(before, history', rounds + [r], start, ds, weights, flow)
  {
    Appended(start, rounds, r, ds, weights);
    RoundTicks(r, ds, weights);
    RecordsOneMore(before, history, history', rounds, r, flow);
  }

  lemma RecordsOneMore(before: seq<Snapshot>, history: seq<Snapshot>, history': seq<Snapshot>, rounds: seq<Round>, r: Round, flow: real)
    requires |history| == |before| + |rounds| && history[..|before|] == before && Records(history[|before|..], rounds, flow)
    requires |history'| == |history| + 1 && history'[..|history|] == history
    requires Shows(history'[|history|], r.after) && history'[|history|].netCashFlow == flow
    ensures history'[..|before|] == before && Records(history'[|before|..], rounds + [r], flow)
  {
    assert history' == history + [history'[|history|]];
    assert history'[|before|..] == history[|before|..] + [history'[|history|]];
  }

  // ---------- the strategy object ----------

  class StaticWeightStrategy {
    const brkr: UistBroker
    const targetWeights: map<Symbol, real>
    var netCashFlow: real
    var history: seq<Snapshot>

    ghost predicate Valid()
      reads brkr, brkr.log, brkr.httpClient, brkr.httpClient.Repr
    {
      && this !in brkr.httpClient.Repr
      && brkr.Valid() && JointOk(brkr.Both(), brkr.Data())
    }

    constructor (brkr: UistBroker, weights: map<Symbol, real>)
      requires brkr.Valid() && JointOk(brkr.Both(), brkr.Data())
      ensures Valid() && this.brkr == brkr && targetWeights == weights
      ensures netCashFlow == 0.0 && history == []
    {
      this.brkr, targetWeights, netCashFlow, history := brkr, weights, 0.0, [];
    }

    method GetSnapshot() returns (s: Snapshot)
      requires Valid()
      ensures Shows(s, brkr.Both()) && s.netCashFlow == netCashFlow
    {
      var now := brkr.Now();
      var keys := Enumerate(brkr.holdings.Keys);
      var value := brkr.GetTotalValue(keys);
      ghost var b := brkr.View();
      forall other | IsEnumeration(other, b.holdings.Keys) ensures value == TotalValue(b, other) {
        ValuesIgnoreOrder(b, keys, other);
      }
      s := Snapshot(now.now, value, netCashFlow, 0.0);
    }

    method Record()
      requires Valid()
      modifies this`history
      ensures Valid() && brkr.Both() == old(brkr.Both()) && brkr.Data() == old(brkr.Data())
      ensures brkr.httpClient.Repr == old(brkr.httpClient.Repr)
      ensures |history| == |old(history)| + 1 && history[..|old(history)|] == old(history)
      ensures Shows(history[|old(history)|], brkr.Both()) && history[|old(history)|].netCashFlow == netCashFlow
    {
      var snap := GetSnapshot();
      history := history + [snap];
    }

    /** Sends the orders that move the broker towards the target weights.  A portfolio worth nothing
        cannot be traded: the source stops the program, here `ok` is false. */
    method TradeTowardsTarget() returns (ok: bool, ghost held: seq<Symbol>, ghost targets: seq<Symbol>)
      requires Valid()
      modifies brkr`pendingOrders, brkr.httpClient.Repr
      ensures Valid() && brkr.Data() == old(brkr.Data()) && brkr.httpClient.Repr == old(brkr.httpClient.Repr)
      ensures IsEnumeration(held, old(brkr.holdings).Keys) && IsEnumeration(targets, targetWeights.Keys)
      ensures var total := LiquidationValue(old(brkr.View()), held);
              && (ok <==> total != 0.0)
              && brkr.Both() == if ok then SendOrders(old(brkr.Both()), DiffOrders(old(brkr.View()), targetWeights, total, targets))
                                else old(brkr.Both())
    {
      var orders;
      orders, held, targets := brkr.DiffBrkrAgainstTargetWeights(targetWeights);
      if orders.None? {
        return false, held, targets;
      }
      SendAllKeepsJointOk(brkr.Both(), brkr.Data(), orders.value);
      var _ := brkr.SendOrders(orders.value);
      ok := true;
    }

    method CheckBroker() returns (ghost visited: seq<Symbol>)
      requires Valid()
      modifies brkr, brkr.log, brkr.httpClient.Repr
      ensures Valid() && brkr.Data() == old(brkr.Data()) && brkr.httpClient.Repr == old(brkr.httpClient.Repr)
      ensures var m := Settle(old(brkr.Both()), brkr.Data());
              && CanRebalance(m.brk) && IsEnumeration(visited, m.brk.holdings.Keys)
              && brkr.Both() == RebalanceCash(m, visited)
    {
      SettleKeepsJointOk(brkr.Both(), brkr.Data());
      visited := brkr.Check();
    }

    /** One tick of the strategy; without a snapshot when the portfolio turned out worthless. */
    method Update() returns (ok: bool, ghost round: Round)
      requires Valid()
      modifies this`history, brkr, brkr.log, brkr.httpClient.Repr
      ensures Valid() && brkr.Data() == old(brkr.Data()) && brkr.httpClient.Repr == old(brkr.httpClient.Repr)
      ensures ok ==> RoundOk(round, brkr.Data(), targetWeights)
      ensures ok ==> round.before == old(brkr.Both()) && round.after == brkr.Both()
      ensures ok ==> |history| == |old(history)| + 1 && history[..|old(history)|] == old(history)
      ensures ok ==> Shows(history[|old(history)|], brkr.Both()) && history[|old(history)|].netCashFlow == netCashFlow
      ensures !ok ==> Worthless(brkr.View())
      ensures !ok ==> history == old(history)
    {
      ghost var before := brkr.Both();
      ghost var visited := CheckBroker();
      ghost var checked := brkr.Both();
      ghost var held, targets;
      ok, held, targets := TradeTowardsTarget();
      round := Round(before, Settle(before, brkr.Data()), visited, checked, held, targets, brkr.Both());
      if ok {
        Record();
      }
    }

    /** Reports success whether or not the broker took the money, and doubles the recorded flow. */
    method DepositCash(cash: real) returns (event: StrategyEvent)
      requires Valid()
      modifies this`netCashFlow, brkr`cash
      ensures Valid() && brkr.Remote() == old(brkr.Remote()) && brkr.Data() == old(brkr.Data())
      ensures brkr.httpClient.Repr == old(brkr.httpClient.Repr)
      ensures brkr.View() == BrokerModel.DepositCash(old(brkr.View()), cash).0
      ensures netCashFlow == CashFlow.Record(old(brkr.Both()), old(netCashFlow), DepositOp(cash)) && event == DepositAccepted(cash)
    {
      var _ := brkr.DepositCash(cash);
      brkr.Undisturbed();
      netCashFlow := netCashFlow + netCashFlow;
      event := DepositAccepted(cash);
    }

    method CountWithdrawal(ok: bool, withdrawn: real, ghost before: Joint, ghost op: BrokerOp)
      requires Valid() && (op.WithdrawOp? || op.LiquidateOp?) && op.amount == withdrawn && ok == CashFlow.ReportsPaid(before, op)
      modifies this`netCashFlow
      ensures Valid() && brkr.Both() == old(brkr.Both()) && brkr.Data() == old(brkr.Data())
      ensures netCashFlow == CashFlow.Record(before, old(netCashFlow), op)
    {
      if ok {
        netCashFlow := netCashFlow - withdrawn;
      }
    }

    method WithdrawCash(cash: real) returns (event: StrategyEvent)
      requires Valid()
      modifies this`netCashFlow, brkr`cash
      ensures Valid() && brkr.Remote() == old(brkr.Remote()) && brkr.Data() == old(brkr.Data())
      ensures var (b, answer) := BrokerModel.WithdrawCash(old(brkr.View()), cash);
              && brkr.View() == b
              && event == (if answer.WithdrawSuccess? then WithdrawalPaid(cash) else WithdrawalRefused(cash))
      ensures netCashFlow == CashFlow.Record(old(brkr.Both()), old(netCashFlow), WithdrawOp(cash))
    {
      ghost var before := brkr.Both();
      var answer := brkr.WithdrawCash(cash);
      brkr.Undisturbed();
      CountWithdrawal(answer.WithdrawSuccess?, cash, before, WithdrawOp(cash));
      event := if answer.WithdrawSuccess? then WithdrawalPaid(cash) else WithdrawalRefused(cash);
    }

    /** Counts the money as withdrawn although the liquidation has only queued sales. */
    method WithdrawCashWithLiquidation(cash: real) returns (event: StrategyEvent, ghost positions: seq<Symbol>)
      requires Valid()
      modifies this`netCashFlow, brkr`cash, brkr`pendingOrders, brkr.httpClient.Repr
      ensures Valid() && brkr.Data() == old(brkr.Data())
      ensures Priced(old(brkr.View())) && IsEnumeration(positions, old(brkr.holdings).Keys)
      ensures var (j, answer) := WithdrawWithLiquidation(old(brkr.Both()), cash, positions);
              && brkr.Both() == j
              && event == (if answer.WithdrawSuccess? then WithdrawalPaid(cash) else WithdrawalRefused(cash))
      ensures netCashFlow == CashFlow.Record(old(brkr.Both()), old(netCashFlow), LiquidateOp(cash, positions))
    {
      ghost var before, ds := brkr.Both(), brkr.Data();
      HeldIsPriced(before, ds);
      var answer;
      answer, positions := brkr.WithdrawCashWithLiquidation(cash);
      LiquidationKeepsJointOk(before, ds, cash, positions);
      CountWithdrawal(answer.WithdrawSuccess?, cash, before, LiquidateOp(cash, positions));
      event := if answer.WithdrawSuccess? then WithdrawalPaid(cash) else WithdrawalRefused(cash);
    }

    /** The first deposit and the first trades; false when the portfolio is worthless even so. */
    method Init(initialCash: real) returns (ok: bool, ghost held: seq<Symbol>, ghost targets: seq<Symbol>)
      requires Valid()
      modifies this`netCashFlow, brkr`cash, brkr`pendingOrders, brkr.httpClient.Repr
      ensures Valid() && brkr.Data() == old(brkr.Data())
      ensures IsEnumeration(held, old(brkr.holdings).Keys) && IsEnumeration(targets, targetWeights.Keys)
      ensures var b := BrokerModel.DepositCash(old(brkr.View()), initialCash).0;
              var total := LiquidationValue(b, held);
              && (ok <==> total != 0.0)
              && brkr.Both() == if ok then SendOrders(Joint(b, old(brkr.Remote())), DiffOrders(b, targetWeights, total, targets))
                                else Joint(b, old(brkr.Remote()))
    {
      var _ := DepositCash(initialCash);
      ok, held, targets := TradeTowardsTarget();
    }

    method MoreDates() returns (more: bool)
      requires Valid()
      ensures more == HasNext(brkr.Data(), brkr.Both().bt.pos)
    {
      var clock := brkr.Now();
      more := clock.hasNext;
    }

    /** `Update`, keeping account of the run so far. */
    method UpdateOnce(ghost before: seq<Snapshot>, ghost start: Joint, ghost rounds: seq<Round>)
      returns (ok: bool, ghost rounds': seq<Round>)
      requires Valid() && brkr.Both() == EndOf(start, rounds)
      requires Progress(before, history, rounds, start, brkr.Data(), targetWeights, netCashFlow)
      modifies this`history, brkr, brkr.log, brkr.httpClient.Repr
      ensures Valid() && brkr.Data() == old(brkr.Data()) && brkr.httpClient.Repr == old(brkr.httpClient.Repr)
      ensures Progress(before, history, rounds', start, brkr.Data(), targetWeights, netCashFlow)
      ensures if ok then |rounds'| == |rounds| + 1 && brkr.Both() == EndOf(start, rounds') else Worthless(brkr.View())
    {
      ghost var shown, ds := history, brkr.Data();
      ghost var round;
      ok, round := Update();
      if !ok {
        return false, rounds;
      }
      Progressed(before, shown, history, rounds, start, round, ds, targetWeights, netCashFlow);
      rounds' := rounds + [round];
    }

    /** One turn of the loop: an update, then a look at the clock. */
    method Turn(ghost before: seq<Snapshot>, ghost start: Joint, ghost rounds: seq<Round>)
      returns (ok: bool, more: bool, ghost rounds': seq<Round>)
      requires Valid() && brkr.Both() == EndOf(start, rounds)
      requires Progress(before, history, rounds, start, brkr.Data(), targetWeights, netCashFlow)
      modifies this`history, brkr, brkr.log, brkr.httpClient.Repr
      ensures Valid() && brkr.Data() == old(brkr.Data()) && brkr.httpClient.Repr == old(brkr.httpClient.Repr)
      ensures Progress(before, history, rounds', start, brkr.Data(), targetWeights, netCashFlow)
      ensures if ok then |rounds'| == |rounds| + 1 && brkr.Both() == EndOf(start, rounds') else Worthless(brkr.View())
      ensures ok ==> more == HasNext(brkr.Data(), start.bt.pos + |rounds'|)
    {
      ok, rounds' := UpdateOnce(before, start, rounds);
      more := MoreDates();
    }

    /** Runs the data out: one update per remaining date, unless the portfolio becomes worthless. */
    method Run() returns (ok: bool, ghost rounds: seq<Round>)
      requires Valid()
      modifies this`history, brkr, brkr.log, brkr.httpClient.Repr
      ensures Valid() && brkr.Data() == old(brkr.Data())
      ensures Progress(old(history), history, rounds, old(brkr.Both()), brkr.Data(), targetWeights, netCashFlow)
      ensures ok ==> brkr.Both() == EndOf(old(brkr.Both()), rounds)
      ensures ok ==> |rounds| == if HasNext(brkr.Data(), old(brkr.Both()).bt.pos) then |brkr.Data().dates| - old(brkr.Both()).bt.pos else 0
      ensures !ok ==> Worthless(brkr.View())
    {
      rounds := [];
      ghost var start, before, ds := brkr.Both(), history, brkr.Data();
      var hasNext := MoreDates();
      while hasNext
        invariant Valid() && brkr.Data() == ds && brkr.httpClient.Repr == old(brkr.httpClient.Repr)
        invariant brkr.Both() == EndOf(start, rounds)
        invariant Progress(before, history, rounds, start, ds, targetWeights, netCashFlow)
        invariant hasNext == HasNext(ds, start.bt.pos + |rounds|)
        invariant rounds != [] ==> start.bt.pos + |rounds| <= |ds.dates|
        decreases |ds.dates| - start.bt.pos - |rounds|
      {
        ok, hasNext, rounds := Turn(before, start, rounds);
        if !ok {
          return;
        }
      }
      ok := true;
    }
  }
}
