/** Broker states that a few operations reach, for the inputs on which other components fall short. */
module Samples {
  import opened Prelude
  import opened Penelope
  import opened Sorting
  import opened Uist
  import opened UistServer
  import opened NoLookahead
  import opened BrokerModel
  import opened BrokerLedger
  import opened BrokerRuns
  import opened LiquidationBounds
  import opened Holdings
  import Costs

  // ---------- what a purchase costs ----------

  lemma OneTrade(o: Order, row: Row)
    requires o.orderType == MarketBuy && o.symbol in row
    ensures Trades([o], row) == [ExecuteBuy(row[o.symbol], o)]
  {
    assert Decide(o, row) == Some(ExecuteBuy(row[o.symbol], o));
    assert [o][..0] == [] && Trades([], row) == [];
  }

  lemma ProceedsOfOne(t: Trade)
    ensures NetProceeds([t]) == CashEffect(t)
  {
    assert [t][..0] == [] && NetProceeds([]) == 0.0;
  }

  lemma EmptyBookSettles(j: Joint, ds: Dataset)
    requires JointOk(j, ds) && j.bt.exchange.book.inner == []
    ensures var b := Settle(j, ds).brk; b.log == j.brk.log && b.cash == j.brk.cash && b.costs == j.brk.costs
  {
    TickHasQuotes(j, ds);
    SettleKeepsJointOk(j, ds);
    SettlingKeepsCosts(j, ds);
    assert Trades([], ds.inner[j.bt.date]) == [];
  }

  lemma PurchaseInBookSettles(j: Joint, ds: Dataset, o: Order)
    requires JointOk(j, ds) && j.bt.exchange.book.inner == [o] && o.orderType == MarketBuy
    requires QuotedAt(ds, o.symbol, IndexAt(ds, j.bt.pos))
    ensures var b, q := Settle(j, ds).brk, ds.inner[DateAt(ds, j.bt.pos)][o.symbol];
            b.log == j.brk.log + [ExecuteBuy(q, o)] && b.cash == j.brk.cash - ExecuteBuy(q, o).value && b.costs == j.brk.costs
  {
    TickHasQuotes(j, ds);
    SettleKeepsJointOk(j, ds);
    SettlingKeepsCosts(j, ds);
    var t := ExecuteBuy(ds.inner[j.bt.date][o.symbol], o);
    OneTrade(o, ds.inner[j.bt.date]);
    ProceedsOfOne(t);
    assert CashEffect(t) == -t.value;
  }

  lemma SameFill(q: Quote, o: Order, stamped: Order)
    requires stamped == o.(orderId := stamped.orderId)
    ensures ExecuteBuy(q, stamped) == ExecuteBuy(q, o)
  {
  }

  /** A tick brings a waiting order into an empty book; nothing settles yet. */
  lemma OrderEnters(j: Joint, ds: Dataset, o: Order) returns (mid: Joint, stamped: Order)
    requires JointOk(j, ds) && j.bt.exchange.book.inner == [] && j.bt.exchange.buffer == [o]
    ensures mid == Settle(j, ds) && JointOk(mid, ds) && mid.bt.pos == j.bt.pos + 1
    ensures stamped == o.(orderId := stamped.orderId) && mid.bt.exchange.book.inner == [stamped]
    ensures mid.brk.log == j.brk.log && mid.brk.cash == j.brk.cash && mid.brk.costs == j.brk.costs
  {
    TickHasQuotes(j, ds);
    SettleKeepsJointOk(j, ds);
    EmptyBookSettles(j, ds);
    EntersAlone(j.bt.exchange, ds.inner[j.bt.date], o);
    mid, stamped := Settle(j, ds), o.(orderId := Some(j.bt.exchange.book.lastInserted));
  }

  /** It is paid for at the ask of the second date, and nothing else. */
  lemma PurchaseIsPaid(j: Joint, ds: Dataset, o: Order)
    requires JointOk(j, ds) && j.bt.exchange.book.inner == [] && j.bt.exchange.buffer == [o] && o.orderType == MarketBuy
    requires QuotedAt(ds, o.symbol, IndexAt(ds, j.bt.pos + 1))
    ensures var b, q := Settle(Settle(j, ds), ds).brk, ds.inner[DateAt(ds, j.bt.pos + 1)][o.symbol];
            b.log == j.brk.log + [ExecuteBuy(q, o)] && b.cash == j.brk.cash - ExecuteBuy(q, o).value && b.costs == j.brk.costs
  {
    var mid, stamped := OrderEnters(j, ds, o);
    PurchaseInBookSettles(mid, ds, stamped);
    SameFill(ds.inner[DateAt(ds, mid.bt.pos)][o.symbol], o, stamped);
  }

  // ---------- a broker that holds something ----------

  /** On the sample data the books of a broker with one trade in its log leave nothing open. */
  lemma SampleBooks(j: Joint, t: Trade)
    requires JointOk(j, SAMPLE_DATA) && j.brk.log == [t] && t.symbol == "ABC" && SignedQuantity(t) == 5.0
    ensures j.brk.holdings == map["ABC" := 5.0] && j.brk.quotes == SAMPLE
  {
    assert [t] == [] + [t];
    forall s ensures s in j.brk.holdings <==> s == "ABC" {
      NetSnoc([], t, s);
      assert Lookup(j.brk.holdings, s, 0.0) == NetQuantity(j.brk.log, s);
    }
    assert Lookup(j.brk.holdings, "ABC", 0.0) == NetQuantity(j.brk.log, "ABC");
    SampleQuotes(j);
  }

  lemma SampleQuotes(j: Joint)
    requires JointOk(j, SAMPLE_DATA)
    ensures j.brk.quotes == SAMPLE
  {
    forall s ensures (s in j.brk.quotes <==> s in SAMPLE) && (s in SAMPLE ==> j.brk.quotes[s] == SAMPLE[s]) {
      assert IndexAt(SAMPLE_DATA, j.bt.pos) == 0;
      assert LastQuote(SAMPLE_DATA, s, 0) == if s in j.brk.quotes then Some(j.brk.quotes[s]) else None;
    }
  }

  lemma NothingTraded(j: Joint)
    requires JointOk(j, SAMPLE_DATA) && j.brk.log == []
    ensures j.brk.holdings == map[]
  {
    forall s ensures s !in j.brk.holdings {
      assert Lookup(j.brk.holdings, s, 0.0) == NetQuantity(j.brk.log, s);
    }
  }

  lemma QuietCheck(j: Joint, keys: seq<Symbol>)
    requires JointOk(j, SAMPLE_DATA) && Settle(j, SAMPLE_DATA).brk.cash >= 0.0
    requires IsEnumeration(keys, Settle(j, SAMPLE_DATA).brk.holdings.Keys)
    ensures Moves(SAMPLE_DATA)(j, CheckOp(keys), Settle(j, SAMPLE_DATA))
  {
  }

  /** Deposit 1000, buy 5 "ABC" at 10, and check twice. */
  const SAMPLE_OPS := [DepositOp(1000.0), SendOp(MarketBuyOrder("ABC", 5.0)), CheckOp([]), CheckOp(["ABC"])]

  /** The states in between, whatever the costs: before the checks ... */
  lemma SampleSent(costs: seq<Costs.Cost>) returns (start: Joint, rich: Joint, sent: Joint)
    ensures DatasetSound(SAMPLE_DATA) && start == Start(SAMPLE_DATA, 0, "SAMPLE", costs)
    ensures Moves(SAMPLE_DATA)(start, SAMPLE_OPS[0], rich) && Moves(SAMPLE_DATA)(rich, SAMPLE_OPS[1], sent)
    ensures JointOk(sent, SAMPLE_DATA) && sent.brk.log == [] && sent.brk.cash == 1000.0
    ensures sent.brk.costs == costs && sent.brk.state.Ready?
    ensures sent.bt.exchange.book.inner == [] && sent.bt.exchange.buffer == [MarketBuyOrder("ABC", 5.0)]
  {
    SampleIsSound();
    var ds, o := SAMPLE_DATA, MarketBuyOrder("ABC", 5.0);
    start := Start(ds, 0, "SAMPLE", costs);
    rich := start.(brk := DepositCash(start.brk, 1000.0).0);
    IsMove(ds, start, DepositOp(1000.0), rich);
    assert rich.brk.quotes["ABC"].ask == 10.0 && Accepts(rich.brk, o);
    sent := SendOrder(rich, o).0;
    IsMove(ds, rich, SendOp(o), sent);
    SendKeepsJointOk(rich, ds, o);
  }

  /** ... and after them. */
  lemma SampleSettled(sent: Joint) returns (mid: Joint, j: Joint)
    requires JointOk(sent, SAMPLE_DATA) && sent.brk.log == [] && sent.brk.cash == 1000.0 && sent.brk.state.Ready?
    requires sent.bt.exchange.book.inner == [] && sent.bt.exchange.buffer == [MarketBuyOrder("ABC", 5.0)]
    ensures mid == Settle(sent, SAMPLE_DATA) && JointOk(mid, SAMPLE_DATA) && mid.brk.log == [] && mid.brk.cash == 1000.0
    ensures j == Settle(mid, SAMPLE_DATA) && JointOk(j, SAMPLE_DATA) && j.brk.cash == 950.0 && j.brk.costs == sent.brk.costs
    ensures j.brk.log == [ExecuteBuy(SAMPLE["ABC"], MarketBuyOrder("ABC", 5.0))] && j.brk.state.Ready?
  {
    SampleIsSound();
    EmptyBookSettles(sent, SAMPLE_DATA);
    SettleKeepsJointOk(sent, SAMPLE_DATA);
    PurchaseIsPaid(sent, SAMPLE_DATA, MarketBuyOrder("ABC", 5.0));
    mid := Settle(sent, SAMPLE_DATA);
    SettleKeepsJointOk(mid, SAMPLE_DATA);
    j := Settle(mid, SAMPLE_DATA);
    assert DateAt(SAMPLE_DATA, sent.bt.pos + 1) == 100;
    assert ExecuteBuy(SAMPLE["ABC"], MarketBuyOrder("ABC", 5.0)).value == 50.0;
  }

  /** Whatever the costs, a broker that did so is a reachable one with 950 left. */
  lemma SampleHolding(costs: seq<Costs.Cost>) returns (j: Joint)
    ensures DatasetSound(SAMPLE_DATA) && JointOk(j, SAMPLE_DATA)
    ensures var start := Start(SAMPLE_DATA, 0, "SAMPLE", costs);
            Runnable(start, SAMPLE_DATA, SAMPLE_OPS) && j == BrokerRun(start, SAMPLE_DATA, SAMPLE_OPS)
    ensures j.brk.cash == 950.0 && j.brk.holdings == map["ABC" := 5.0] && j.brk.quotes == SAMPLE
    ensures j.brk.state.Ready? && j.brk.costs == costs
    ensures j.brk.log == [ExecuteBuy(SAMPLE["ABC"], MarketBuyOrder("ABC", 5.0))]
  {
    var start, rich, sent := SampleSent(costs);
    var mid;
    mid, j := SampleSettled(sent);
    SampleBooks(j, ExecuteBuy(SAMPLE["ABC"], MarketBuyOrder("ABC", 5.0)));
    SettleKeepsJointOk(sent, SAMPLE_DATA);
    NothingTraded(mid);
    QuietCheck(sent, []);
    QuietCheck(mid, ["ABC"]);
    FourMoves(SAMPLE_DATA, start, rich, sent, mid, j, SAMPLE_OPS);
  }

  lemma FourMoves(ds: Dataset, j0: Joint, j1: Joint, j2: Joint, j3: Joint, j4: Joint, ops: seq<BrokerOp>)
    requires JointOk(j0, ds) && |ops| == 4 && Moves(ds)(j0, ops[0], j1) && Moves(ds)(j1, ops[1], j2)
    requires Moves(ds)(j2, ops[2], j3) && Moves(ds)(j3, ops[3], j4)
    ensures Runnable(j0, ds, ops) && BrokerRun(j0, ds, ops) == j4
  {
    PathIsRun(ds, [j0, j1, j2, j3, j4], ops);
  }

  // ---------- a broker that overspends ----------

  lemma TwoEnter(e: Exchange, row: Row, o: Order)
    requires e.book.inner == [] && e.buffer == [o, o] && !IsSell(o)
    ensures var k := e.book.lastInserted;
            TickSpec(e, row).exchange.book.inner == [o.(orderId := Some(k)), o.(orderId := Some(k + 1))]
  {
    assert [o, o][..1] == [o] && [o][..0] == [];
    assert FrontFirst([o][..0], SELLS_FIRST) == [] && !SELLS_FIRST(o);
    assert SortBuffer([o]) == [o];
    assert SortBuffer([o, o]) == [o, o];
  }

  lemma TwoTrades(a: Order, b: Order, row: Row, t: Trade)
    requires Decide(a, row) == Some(t) && Decide(b, row) == Some(t)
    ensures Trades([a, b], row) == [t, t]
  {
    assert [a, b][..1] == [a] && [a][..0] == [];
    assert Trades([], row) == [];
    assert Trades([a], row) == [t];
  }

  lemma TwiceBought(t: Trade)
    requires t.typ.Buy?
    ensures NetProceeds([t, t]) == -t.value - t.value
    ensures forall s :: NetQuantity([t, t], s) == if s == t.symbol then t.quantity + t.quantity else 0.0
  {
    assert [t, t][..1] == [t] && [t][..0] == [];
    assert NetProceeds([]) == 0.0 && NetProceeds([t]) == -t.value;
    forall s ensures NetQuantity([t, t], s) == if s == t.symbol then t.quantity + t.quantity else 0.0 {
      assert NetQuantity([], s) == 0.0;
      assert NetQuantity([t], s) == if s == t.symbol then t.quantity else 0.0;
    }
  }

  /** Deposit 1000, buy 90 "ABC" at 10 twice, and check twice. */
  const SPENDING_OPS := [DepositOp(1000.0), SendOp(MarketBuyOrder("ABC", 90.0)), SendOp(MarketBuyOrder("ABC", 90.0)),
                         CheckOp([]), CheckOp(["ABC"])]

  lemma SpendingSent() returns (start: Joint, rich: Joint, once: Joint, sent: Joint)
    ensures DatasetSound(SAMPLE_DATA) && start == Start(SAMPLE_DATA, 0, "SAMPLE", [])
    ensures Moves(SAMPLE_DATA)(start, SPENDING_OPS[0], rich) && Moves(SAMPLE_DATA)(rich, SPENDING_OPS[1], once)
    ensures Moves(SAMPLE_DATA)(once, SPENDING_OPS[2], sent)
    ensures JointOk(sent, SAMPLE_DATA) && sent.brk.log == [] && sent.brk.cash == 1000.0
    ensures sent.brk.costs == [] && sent.brk.state.Ready?
    ensures var o := MarketBuyOrder("ABC", 90.0); sent.bt.exchange.book.inner == [] && sent.bt.exchange.buffer == [o, o]
  {
    SampleIsSound();
    var ds, o := SAMPLE_DATA, MarketBuyOrder("ABC", 90.0);
    start := Start(ds, 0, "SAMPLE", []);
    rich := start.(brk := DepositCash(start.brk, 1000.0).0);
    IsMove(ds, start, DepositOp(1000.0), rich);
    assert rich.brk.quotes["ABC"].ask == 10.0 && Accepts(rich.brk, o);
    once := SendOrder(rich, o).0;
    IsMove(ds, rich, SendOp(o), once);
    SendKeepsJointOk(rich, ds, o);
    sent := SendOrder(once, o).0;
    IsMove(ds, once, SendOp(o), sent);
    SendKeepsJointOk(once, ds, o);
  }

  lemma SpendingSettled(sent: Joint) returns (mid: Joint, settled: Joint)
    requires JointOk(sent, SAMPLE_DATA) && sent.brk.log == [] && sent.brk.cash == 1000.0
    requires var o := MarketBuyOrder("ABC", 90.0); sent.bt.exchange.book.inner == [] && sent.bt.exchange.buffer == [o, o]
    ensures mid == Settle(sent, SAMPLE_DATA) && JointOk(mid, SAMPLE_DATA) && mid.brk.log == [] && mid.brk.cash == 1000.0
    ensures settled == Settle(mid, SAMPLE_DATA) && JointOk(settled, SAMPLE_DATA) && settled.brk.cash == -800.0
    ensures settled.brk.holdings == map["ABC" := 180.0] && settled.brk.costs == sent.brk.costs
    ensures settled.brk.state == mid.brk.state == sent.brk.state
  {
    SampleIsSound();
    var ds, o := SAMPLE_DATA, MarketBuyOrder("ABC", 90.0);
    TickHasQuotes(sent, ds);
    EmptyBookSettles(sent, ds);
    SettleKeepsJointOk(sent, ds);
    TwoEnter(sent.bt.exchange, ds.inner[sent.bt.date], o);
    mid := Settle(sent, ds);
    TwoPurchasesSettle(mid, mid.bt.exchange.book.inner[0], mid.bt.exchange.book.inner[1]);
    settled := Settle(mid, ds);
  }

  lemma TwoPurchasesSettle(mid: Joint, a: Order, b: Order)
    requires JointOk(mid, SAMPLE_DATA) && mid.brk.log == [] && mid.brk.cash == 1000.0 && mid.bt.exchange.book.inner == [a, b]
    requires a.(orderId := None) == b.(orderId := None) == MarketBuyOrder("ABC", 90.0)
    ensures var r := Settle(mid, SAMPLE_DATA);
            && JointOk(r, SAMPLE_DATA) && r.brk.cash == -800.0 && r.brk.holdings == map["ABC" := 180.0]
            && r.brk.costs == mid.brk.costs && r.brk.state == mid.brk.state
  {
    var t := TwoPurchasesTrade(mid, a, b);
    SettleKeepsJointOk(mid, SAMPLE_DATA);
    SettlingKeepsCosts(mid, SAMPLE_DATA);
    TwiceBought(t);
    TwiceHeld(Settle(mid, SAMPLE_DATA), t);
  }

  lemma TwoPurchasesTrade(mid: Joint, a: Order, b: Order) returns (t: Trade)
    requires JointOk(mid, SAMPLE_DATA) && mid.bt.exchange.book.inner == [a, b]
    requires a.(orderId := None) == b.(orderId := None) == MarketBuyOrder("ABC", 90.0)
    ensures t == Trade("ABC", 900.0, 90.0, 100, Buy) && BacktestTick(mid.bt, SAMPLE_DATA).1.executedTrades == [t, t]
  {
    SampleIsSound();
    t := Trade("ABC", 900.0, 90.0, 100, Buy);
    TickHasQuotes(mid, SAMPLE_DATA);
    TwoTrades(a, b, SAMPLE, t);
  }

  lemma TwiceHeld(j: Joint, t: Trade)
    requires JointOk(j, SAMPLE_DATA) && j.brk.log == [t, t] && t.typ.Buy? && t.quantity > 0.0
    ensures j.brk.holdings == map[t.symbol := t.quantity + t.quantity]
  {
    TwiceBought(t);
    forall s ensures s in j.brk.holdings <==> s == t.symbol {
      assert Lookup(j.brk.holdings, s, 0.0) == NetQuantity(j.brk.log, s);
    }
    assert Lookup(j.brk.holdings, t.symbol, 0.0) == NetQuantity(j.brk.log, t.symbol);
  }

  /** Each purchase is within the cash, both together are not: the broker ends up 800 short with
      positions worth 1620, and the check fails it. */
  lemma OverspentFails() returns (j: Joint)
    ensures DatasetSound(SAMPLE_DATA) && JointOk(j, SAMPLE_DATA)
    ensures var start := Start(SAMPLE_DATA, 0, "SAMPLE", []);
            Runnable(start, SAMPLE_DATA, SPENDING_OPS) && j == BrokerRun(start, SAMPLE_DATA, SPENDING_OPS)
    ensures j.brk.state.Failed? && j.brk.cash == -800.0 && j.brk.holdings == map["ABC" := 180.0]
  {
    var start, rich, once, sent := SpendingSent();
    var mid, settled := SpendingSettled(sent);
    NothingTraded(mid);
    QuietCheck(sent, []);
    j := RebalanceCash(settled, ["ABC"]);
    FailingCheck(mid, settled, j);
    FiveMoves(SAMPLE_DATA, start, rich, once, sent, mid, j, SPENDING_OPS);
  }

  lemma FiveMoves(ds: Dataset, j0: Joint, j1: Joint, j2: Joint, j3: Joint, j4: Joint, j5: Joint, ops: seq<BrokerOp>)
    requires JointOk(j0, ds) && |ops| == 5 && Moves(ds)(j0, ops[0], j1) && Moves(ds)(j1, ops[1], j2)
    requires Moves(ds)(j2, ops[2], j3) && Moves(ds)(j3, ops[3], j4) && Moves(ds)(j4, ops[4], j5)
    ensures Runnable(j0, ds, ops) && BrokerRun(j0, ds, ops) == j5
  {
    PathIsRun(ds, [j0, j1, j2, j3, j4, j5], ops);
  }

  lemma FailingCheck(mid: Joint, settled: Joint, j: Joint)
    requires JointOk(mid, SAMPLE_DATA) && settled == Settle(mid, SAMPLE_DATA) && mid.brk.state.Ready?
    requires settled.brk.cash == -800.0 && settled.brk.holdings == map["ABC" := 180.0] && settled.brk.costs == []
    requires JointOk(settled, SAMPLE_DATA) && CanRebalance(settled.brk) && j == RebalanceCash(settled, ["ABC"])
    ensures Moves(SAMPLE_DATA)(mid, CheckOp(["ABC"]), j) && j.brk.state.Failed?
    ensures j.brk.cash == -800.0 && j.brk.holdings == map["ABC" := 180.0] && JointOk(j, SAMPLE_DATA)
  {
    var b := settled.brk;
    SampleQuotes(settled);
    IsMove(SAMPLE_DATA, mid, CheckOp(["ABC"]), j);
    OverspentValue(b);
    CheckFailsWhen(mid, SAMPLE_DATA, ["ABC"]);
    RebalancingMovesNoCash(settled, ["ABC"]);
    FirstMove(SAMPLE_DATA, mid, CheckOp(["ABC"]), j);
  }

  lemma OverspentValue(b: Broker)
    requires b.cash == -800.0 && b.holdings == map["ABC" := 180.0] && b.quotes == SAMPLE && b.costs == []
    ensures LongOnly(b) && LiquidationValue(b, ["ABC"]) == 820.0
  {
    assert ["ABC"][..0] == [];
    assert PositionValue(b, "ABC") == Some(1620.0);
    assert LiquidationValue(b, []) == -800.0;
    var gross := Costs.Terms(1620.0, Quotient(1620.0, 180.0));
    assert Costs.ImpactTotal(b.costs, gross, false) == gross;
  }
}
