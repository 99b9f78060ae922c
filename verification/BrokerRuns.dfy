/** Whole runs of a broker: its books always balance, and a failed broker stops trading. */
module BrokerRuns {
  import opened Prelude
  import opened Penelope
  import opened Uist
  import opened UistServer
  import opened NoLookahead
  import opened BrokerModel
  import opened BrokerLedger
  import Costs

  /** `keys` is the order in which the holdings are visited, which a hash map leaves open. */
  datatype BrokerOp =
    | DepositOp(amount: real)
    | WithdrawOp(amount: real)
    | LiquidateOp(amount: real, keys: seq<Symbol>)
    | SendOp(order: Order)
    | CheckOp(keys: seq<Symbol>)

  ghost predicate Enabled(j: Joint, ds: Dataset, op: BrokerOp) {
    match op
    case SendOp(o) => Sendable(j.brk, o)
    case LiquidateOp(_, keys) => IsEnumeration(keys, j.brk.holdings.Keys)
    case CheckOp(keys) => IsEnumeration(keys, Settle(j, ds).brk.holdings.Keys)
    case _ => true
  }

  /** One operation.  That prices are there whenever the code unwraps a quote follows from the
      books being in order. */
  ghost function BrokerStep(j: Joint, ds: Dataset, op: BrokerOp): (r: Joint)
    requires JointOk(j, ds) && Enabled(j, ds, op)
    ensures JointOk(r, ds)
  {
    match op
    case DepositOp(x) => j.(brk := DepositCash(j.brk, x).0)
    case WithdrawOp(x) => j.(brk := WithdrawCash(j.brk, x).0)
    case LiquidateOp(x, keys) =>
      HeldIsPriced(j, ds);
      LiquidationKeepsJointOk(j, ds, x, keys);
      WithdrawWithLiquidation(j, x, keys).0
    case SendOp(o) =>
      SendKeepsJointOk(j, ds, o);
      SendOrder(j, o).0
    case CheckOp(keys) =>
      SettleKeepsJointOk(j, ds);
      CheckKeepsJointOk(j, ds, keys);
      Check(j, ds, keys)
  }

  ghost predicate Runnable(j: Joint, ds: Dataset, ops: seq<BrokerOp>)
    requires JointOk(j, ds)
    decreases |ops|
  {
    ops == [] || (Enabled(j, ds, ops[0]) && Runnable(BrokerStep(j, ds, ops[0]), ds, ops[1..]))
  }

  /** The books balance in every reachable state: `JointOk` is kept by every run. */
  ghost function BrokerRun(j: Joint, ds: Dataset, ops: seq<BrokerOp>): (r: Joint)
    requires JointOk(j, ds) && Runnable(j, ds, ops)
    ensures JointOk(r, ds)
    decreases |ops|
  {
    if ops == [] then j else BrokerRun(BrokerStep(j, ds, ops[0]), ds, ops[1..])
  }

  // ---------- cash ----------

  /** Client money moved by one operation.  A liquidation that fails still debits the request when
      the cash at hand covers it. */
  ghost function ClientFlow(j: Joint, op: BrokerOp): real {
    match op
    case DepositOp(x) => if j.brk.state.Ready? then x else 0.0
    case WithdrawOp(x) => if j.brk.state.Ready? && x <= j.brk.cash then -x else 0.0
    case LiquidateOp(x, keys) =>
      if Priced(j.brk) && IsEnumeration(keys, j.brk.holdings.Keys)
         && WithdrawWithLiquidation(j, x, keys).1.WithdrawFailure? && x <= j.brk.cash then -x else 0.0
    case _ => 0.0
  }

  ghost function ClientFlows(j: Joint, ds: Dataset, ops: seq<BrokerOp>): real
    requires JointOk(j, ds) && Runnable(j, ds, ops)
    decreases |ops|
  {
    if ops == [] then 0.0
    else ClientFlow(j, ops[0]) + ClientFlows(BrokerStep(j, ds, ops[0]), ds, ops[1..])
  }

  /** Rebalancing queues orders; it never moves cash. */
  lemma RebalancingMovesNoCash(j: Joint, keys: seq<Symbol>)
    requires CanRebalance(j.brk) && IsEnumeration(keys, j.brk.holdings.Keys)
    ensures var r := RebalanceCash(j, keys);
            && r.brk.cash == j.brk.cash && r.brk.holdings == j.brk.holdings && r.brk.log == j.brk.log
            && r.brk.quotes == j.brk.quotes && r.brk.costs == j.brk.costs && r.bt.exchange.book == j.bt.exchange.book
            && (j.brk.state.Failed? ==> r == j)
            && (j.brk.cash >= 0.0 ==> r == j)
  {
    if j.brk.cash < 0.0 {
      var x := -j.brk.cash + BUFFER;
      assert x > j.brk.cash;
      SendingOnlyQueues(j, Liquidate(j.brk, keys, x).orders);
    }
  }

  lemma {:induction false} SendingOnlyQueues(j: Joint, os: seq<Order>)
    requires forall o :: o in os ==> Sendable(j.brk, o)
    ensures var r := SendOrders(j, os);
            && r.bt == j.bt.(exchange := j.bt.exchange.(buffer := r.bt.exchange.buffer))
            && (j.brk.state.Failed? ==> r == j)
  {
    if os != [] {
      SendingOnlyQueues(j, os[..|os| - 1]);
    }
  }

  lemma StepMovesCash(j: Joint, ds: Dataset, op: BrokerOp)
    requires JointOk(j, ds) && Enabled(j, ds, op)
    ensures var r := BrokerStep(j, ds, op);
            && j.brk.log <= r.brk.log
            && r.brk.cash == j.brk.cash + ClientFlow(j, op) + NetProceeds(r.brk.log[|j.brk.log|..])
  {
    match op
    case CheckOp(keys) =>
      SettleKeepsJointOk(j, ds);
      RebalancingMovesNoCash(Settle(j, ds), keys);
    case LiquidateOp(x, keys) =>
      HeldIsPriced(j, ds);
    case _ =>
  }

  /** What was logged between three moments adds up. */
  lemma LogSuffixes(a: seq<Trade>, b: seq<Trade>, c: seq<Trade>)
    requires a <= b <= c
    ensures c[|a|..] == b[|a|..] + c[|b|..]
    ensures NetProceeds(c[|a|..]) == NetProceeds(b[|a|..]) + NetProceeds(c[|b|..])
  {
    NetConcat(b[|a|..], c[|b|..], "");
    assert c[|a|..] == b[|a|..] + c[|b|..];
  }

  /** Cash is what the client paid in net of what was paid out, plus logged sells, minus logged
      buys, over any run. */
  lemma {:induction false} CashIsAccountedFor(j: Joint, ds: Dataset, ops: seq<BrokerOp>)
    requires JointOk(j, ds) && Runnable(j, ds, ops)
    ensures var r := BrokerRun(j, ds, ops);
            && j.brk.log <= r.brk.log
            && r.brk.cash == j.brk.cash + ClientFlows(j, ds, ops) + NetProceeds(r.brk.log[|j.brk.log|..])
    decreases |ops|
  {
    if ops != [] {
      var mid := BrokerStep(j, ds, ops[0]);
      StepMovesCash(j, ds, ops[0]);
      CashIsAccountedFor(mid, ds, ops[1..]);
      LogSuffixes(j.brk.log, mid.brk.log, BrokerRun(j, ds, ops).brk.log);
    }
  }

  /** A fresh broker on a fresh backtest. */
  ghost function Start(ds: Dataset, id: nat, name: string, costs: seq<Costs.Cost>): (j: Joint)
    requires DatasetSound(ds)
    ensures JointOk(j, ds)
  {
    StartsJointOk(ds, id, name, costs);
    Joint(FreshBroker(ds.inner[ds.dates[0]], costs), FreshBacktest(id, ds, name))
  }

  /** Everything together, from the start: whatever a client does with a fresh broker, the broker
      log is the exchange's trade log, pending orders are what the exchange still holds, holdings
      are the net logged quantities and absent exactly when zero, the quote cache holds the last
      quotes, everything held is priced, and cash is accounted for. */
  lemma BooksAlwaysBalance(ds: Dataset, id: nat, name: string, costs: seq<Costs.Cost>, ops: seq<BrokerOp>)
    requires DatasetSound(ds) && Runnable(Start(ds, id, name, costs), ds, ops)
    ensures var r := BrokerRun(Start(ds, id, name, costs), ds, ops);
            && r.brk.log == r.bt.exchange.tradeLog
            && (forall s :: Lookup(r.brk.pending, s, 0.0) == OnExchange(r.bt.exchange, s))
            && (forall s :: Lookup(r.brk.holdings, s, 0.0) == NetQuantity(r.brk.log, s))
            && (forall s :: s in r.brk.holdings <==> NetQuantity(r.brk.log, s) != 0.0)
            && (forall s :: LastQuote(ds, s, IndexAt(ds, r.bt.pos)) == if s in r.brk.quotes then Some(r.brk.quotes[s]) else None)
            && Priced(r.brk)
            && r.brk.cash == ClientFlows(Start(ds, id, name, costs), ds, ops) + NetProceeds(r.brk.log)
  {
    var j := Start(ds, id, name, costs);
    var r := BrokerRun(j, ds, ops);
    CashIsAccountedFor(j, ds, ops);
    assert r.brk.log[0..] == r.brk.log;
    HeldIsPriced(r, ds);
    forall s ensures s in r.brk.holdings <==> NetQuantity(r.brk.log, s) != 0.0 {
      assert Lookup(r.brk.holdings, s, 0.0) == NetQuantity(r.brk.log, s);
    }
  }

  // ---------- runs written out ----------

  /** A run written out: the state before each operation, and the last one. */
  ghost predicate Path<S, O>(step: (S, O, S) -> bool, states: seq<S>, ops: seq<O>) {
    |states| == |ops| + 1 && forall i :: 0 <= i < |ops| ==> step(states[i], ops[i], states[i + 1])
  }

  lemma PathsJoin<S, O>(step: (S, O, S) -> bool, s: seq<S>, a: seq<O>, s': seq<S>, b: seq<O>)
    requires Path(step, s, a) && Path(step, s', b) && s[|a|] == s'[0]
    ensures Path(step, s + s'[1..], a + b)
  {
  }

  lemma PathSplits<S, O>(step: (S, O, S) -> bool, states: seq<S>, ops: seq<O>)
    requires Path(step, states, ops) && ops != []
    ensures step(states[0], ops[0], states[1]) && Path(step, states[1..], ops[1..])
  {
  }

  ghost function Moves(ds: Dataset): (Joint, BrokerOp, Joint) -> bool {
    (j: Joint, op: BrokerOp, j': Joint) => JointOk(j, ds) && Enabled(j, ds, op) && j' == BrokerStep(j, ds, op)
  }

  lemma FirstMove(ds: Dataset, j: Joint, op: BrokerOp, j': Joint)
    requires Moves(ds)(j, op, j')
    ensures JointOk(j, ds) && Enabled(j, ds, op) && j' == BrokerStep(j, ds, op) && JointOk(j', ds)
  {
  }

  lemma {:induction false} PathIsRun(ds: Dataset, states: seq<Joint>, ops: seq<BrokerOp>)
    requires Path(Moves(ds), states, ops) && JointOk(states[0], ds)
    ensures Runnable(states[0], ds, ops) && BrokerRun(states[0], ds, ops) == states[|ops|]
    decreases |ops|
  {
    if ops != [] {
      PathSplits(Moves(ds), states, ops);
      FirstMove(ds, states[0], ops[0], states[1]);
      PathIsRun(ds, states[1..], ops[1..]);
    }
  }

  lemma PathPrepends<S, O>(step: (S, O, S) -> bool, first: S, op: O, states: seq<S>, ops: seq<O>)
    requires Path(step, states, ops) && step(first, op, states[0])
    ensures Path(step, [first] + states, [op] + ops) && ([first] + states)[|ops| + 1] == states[|ops|]
  {
  }

  lemma IsMove(ds: Dataset, j: Joint, op: BrokerOp, j': Joint)
    requires JointOk(j, ds) && Enabled(j, ds, op) && j' == BrokerStep(j, ds, op)
    ensures Moves(ds)(j, op, j')
  {
  }

  // ---------- a failed broker ----------

  /** The orders a pass over the book executes. */
  function Executed(inner: seq<Order>, row: Row): seq<Order> {
    if inner == [] then []
    else
      var n := |inner| - 1;
      Executed(inner[..n], row) + if Decide(inner[n], row).Some? then [inner[n]] else []
  }

  /** Every order the exchange has accepted and not executed. */
  function Resting(e: Exchange): multiset<Order> {
    multiset(Bare(e.buffer)) + multiset(Bare(e.book.inner))
  }

  ghost predicate Fills(ts: seq<Trade>, os: seq<Order>) {
    |ts| == |os| && forall k :: 0 <= k < |ts| ==>
      ts[k].symbol == os[k].symbol && ts[k].quantity == os[k].shares && (ts[k].typ.Sell? <==> IsSell(os[k]))
  }

  lemma {:induction false} ExecutionSplits(inner: seq<Order>, row: Row)
    ensures multiset(Bare(inner)) == multiset(Bare(Rest(inner, row))) + multiset(Bare(Executed(inner, row)))
  {
    if inner != [] {
      var n := |inner| - 1;
      var init, x := inner[..n], inner[n];
      assert inner == init + [x];
      ExecutionSplits(init, row);
      BareSnoc(init, x);
      match Decide(x, row) {
        case Some(t) =>
          BareSnoc(Executed(init, row), x);
          assert Rest(inner, row) == Rest(init, row);
        case None =>
          BareSnoc(Rest(init, row), x);
          assert Executed(inner, row) == Executed(init, row);
      }
    }
  }

  lemma {:induction false} TradesFill(inner: seq<Order>, row: Row)
    ensures Fills(Trades(inner, row), Bare(Executed(inner, row)))
  {
    if inner != [] {
      var n := |inner| - 1;
      TradesFill(inner[..n], row);
      FillEffect(inner[n], row);
      BareConcat(Executed(inner[..n], row), [inner[n]]);
      match Decide(inner[n], row) {
        case Some(t) =>
        case None =>
          assert Executed(inner, row) == Executed(inner[..n], row);
          assert Trades(inner, row) == Trades(inner[..n], row);
      }
    }
  }

  /** A tick loses and invents no order: what rested is what still rests and what was executed. */
  lemma TickKeepsOrders(e: Exchange, row: Row)
    ensures Resting(e) == Resting(TickSpec(e, row).exchange) + multiset(Bare(Executed(e.book.inner, row)))
    ensures Fills(TickSpec(e, row).trades, Bare(Executed(e.book.inner, row)))
  {
    ExecutionSplits(e.book.inner, row);
    TradesFill(e.book.inner, row);
    SortingKeepsBare(e.buffer);
    var inserted := Stamp(SortBuffer(e.buffer), e.book.lastInserted);
    assert Bare(inserted) == Bare(SortBuffer(e.buffer));
    BareConcat(Rest(e.book.inner, row), inserted);
  }

  /** `r` differs from `j` by fills of resting orders and by client money alone. */
  ghost predicate OnlyFills(j: Joint, r: Joint, filled: seq<Order>, flow: real) {
    && r.brk.state.Failed?
    && j.brk.log <= r.brk.log
    && Fills(r.brk.log[|j.brk.log|..], filled)
    && Resting(j.bt.exchange) == Resting(r.bt.exchange) + multiset(filled)
    && r.brk.cash == j.brk.cash + flow + NetProceeds(r.brk.log[|j.brk.log|..])
  }

  lemma FailedCheck(j: Joint, ds: Dataset, keys: seq<Symbol>) returns (filled: seq<Order>)
    requires JointOk(j, ds) && Enabled(j, ds, CheckOp(keys)) && j.brk.state.Failed?
    ensures OnlyFills(j, BrokerStep(j, ds, CheckOp(keys)), filled, 0.0)
  {
    var r := BrokerStep(j, ds, CheckOp(keys));
    StepMovesCash(j, ds, CheckOp(keys));
    TickHasQuotes(j, ds);
    SettleKeepsJointOk(j, ds);
    RebalancingMovesNoCash(Settle(j, ds), keys);
    var row := ds.inner[j.bt.date];
    TickKeepsOrders(j.bt.exchange, row);
    filled := Bare(Executed(j.bt.exchange.book.inner, row));
    assert r.brk.log[|j.brk.log|..] == TickSpec(j.bt.exchange, row).trades;
  }

  /** Apart from checks, nothing a failed broker is asked for reaches the exchange or the log. */
  lemma FailedRequest(j: Joint, ds: Dataset, op: BrokerOp)
    requires JointOk(j, ds) && Enabled(j, ds, op) && j.brk.state.Failed? && !op.CheckOp?
    ensures var r := BrokerStep(j, ds, op);
            r == j.(brk := j.brk.(cash := j.brk.cash + ClientFlow(j, op)))
  {
    if op.LiquidateOp? {
      HeldIsPriced(j, ds);
      SendingOnlyQueues(j, Liquidate(j.brk, op.keys, op.amount).orders);
    }
  }

  lemma FailedStep(j: Joint, ds: Dataset, op: BrokerOp) returns (filled: seq<Order>)
    requires JointOk(j, ds) && Enabled(j, ds, op) && j.brk.state.Failed?
    ensures OnlyFills(j, BrokerStep(j, ds, op), filled, ClientFlow(j, op))
  {
    if op.CheckOp? {
      filled := FailedCheck(j, ds, op.keys);
    } else {
      FailedRequest(j, ds, op);
      filled := [];
    }
  }

  lemma OnlyFillsCompose(j: Joint, mid: Joint, r: Joint, first: seq<Order>, rest: seq<Order>, f: real, g: real)
    requires OnlyFills(j, mid, first, f) && OnlyFills(mid, r, rest, g)
    ensures OnlyFills(j, r, first + rest, f + g)
  {
    LogSuffixes(j.brk.log, mid.brk.log, r.brk.log);
  }

  /** Once failed, always failed: in every continuation, liquidations included, no order reaches the
      exchange, the orders resting there only become fewer, and cash moves only by their fills and
      by the client's flows, to which deposits, withdrawals and sends contribute nothing. */
  lemma {:induction false} FailedForGood(j: Joint, ds: Dataset, ops: seq<BrokerOp>) returns (filled: seq<Order>)
    requires JointOk(j, ds) && Runnable(j, ds, ops) && j.brk.state.Failed?
    ensures OnlyFills(j, BrokerRun(j, ds, ops), filled, ClientFlows(j, ds, ops))
    ensures (forall k :: 0 <= k < |ops| ==> !ops[k].LiquidateOp?) ==> ClientFlows(j, ds, ops) == 0.0
    decreases |ops|
  {
    if ops == [] {
      filled := [];
    } else {
      var mid := BrokerStep(j, ds, ops[0]);
      var first := FailedStep(j, ds, ops[0]);
      var rest := FailedForGood(mid, ds, ops[1..]);
      filled := first + rest;
      OnlyFillsCompose(j, mid, BrokerRun(j, ds, ops), first, rest, ClientFlow(j, ops[0]), ClientFlows(mid, ds, ops[1..]));
    }
  }

  /** The one flow left: a liquidation asked for by the client of a failed broker reaches no exchange
      and leaves the broker failed, but takes cash exactly when it reports failure, is covered by
      the cash at hand, and is not for nothing. */
  lemma FailedLiquidation(j: Joint, ds: Dataset, x: real, keys: seq<Symbol>)
    requires JointOk(j, ds) && Enabled(j, ds, LiquidateOp(x, keys)) && j.brk.state.Failed? && Priced(j.brk)
    ensures var (r, event) := WithdrawWithLiquidation(j, x, keys);
            && r.brk.state.Failed? && r.bt == j.bt && r.brk.log == j.brk.log
            && (r.brk.cash != j.brk.cash <==> event.WithdrawFailure? && x <= j.brk.cash && x != 0.0)
  {
    SendingOnlyQueues(j, Liquidate(j.brk, keys, x).orders);
  }
}
