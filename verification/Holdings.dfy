/** When holdings stay non-negative.  The broker refuses to sell more than it holds, but lets a sale
    of something it does not hold pass, and takes no account of sales already on their way. */
module Holdings {
  import opened Prelude
  import opened Penelope
  import opened Sorting
  import opened Uist
  import opened NoLookahead
  import opened BrokerModel
  import opened BrokerLedger
  import opened BrokerRuns
  import opened LiquidationBounds
  import Costs

  /** Shares of `s` that outstanding sells will take out of the holding. */
  function Owed(os: seq<Order>, s: Symbol): real {
    if os == [] then 0.0
    else Owed(os[..|os| - 1], s) + if os[|os| - 1].symbol == s && IsSell(os[|os| - 1]) then os[|os| - 1].shares else 0.0
  }

  function OwedOn(e: Exchange, s: Symbol): real {
    Owed(e.buffer, s) + Owed(e.book.inner, s)
  }

  /** Shares of `s` that came in by trades. */
  function Bought(ts: seq<Trade>, s: Symbol): real {
    if ts == [] then 0.0
    else Bought(ts[..|ts| - 1], s) + if ts[|ts| - 1].symbol == s && ts[|ts| - 1].typ.Buy? then ts[|ts| - 1].quantity else 0.0
  }

  /** Shares of `s` that outstanding buys will bring in. */
  function Incoming(os: seq<Order>, s: Symbol): real {
    if os == [] then 0.0
    else Incoming(os[..|os| - 1], s) + if os[|os| - 1].symbol == s && !IsSell(os[|os| - 1]) then os[|os| - 1].shares else 0.0
  }

  predicate Sized(os: seq<Order>) {
    forall i :: 0 <= i < |os| ==> os[i].shares >= 0.0
  }

  // ---------- one fill ----------

  /** After a fill the holding is non-negative exactly when the order does not sell more than is
      held at that moment (or buy so negative a number of shares); other holdings do not move. */
  lemma FillKeepsLong(b: Broker, o: Order, row: Row, t: Trade)
    requires Decide(o, row) == Some(t)
    ensures Lookup(ApplyTrade(b, t).holdings, o.symbol, 0.0) >= 0.0
            <==> (if IsSell(o) then o.shares else -o.shares) <= Lookup(b.holdings, o.symbol, 0.0)
    ensures forall s :: s != o.symbol ==> Lookup(ApplyTrade(b, t).holdings, s, 0.0) == Lookup(b.holdings, s, 0.0)
  {
    FillEffect(o, row);
  }

  // ---------- one tick ----------

  lemma {:induction false} OwedConcat(a: seq<Order>, b: seq<Order>, s: Symbol)
    ensures Owed(a + b, s) == Owed(a, s) + Owed(b, s)
  {
    if b == [] {
      assert a + b == a;
    } else {
      var n := |b| - 1;
      assert (a + b)[..|a + b| - 1] == a + b[..n];
      OwedConcat(a, b[..n], s);
    }
  }

  lemma OwedSnoc(a: seq<Order>, o: Order, s: Symbol)
    ensures Owed(a + [o], s) == Owed(a, s) + if o.symbol == s && IsSell(o) then o.shares else 0.0
  {
    assert (a + [o])[..|a|] == a;
  }

  lemma BoughtSnoc(a: seq<Trade>, t: Trade, s: Symbol)
    ensures Bought(a + [t], s) == Bought(a, s) + if t.symbol == s && t.typ.Buy? then t.quantity else 0.0
  {
    assert (a + [t])[..|a|] == a;
  }

  lemma {:induction false} OwedIsPositive(os: seq<Order>, s: Symbol)
    requires Sized(os)
    ensures Owed(os, s) >= 0.0
  {
    if os != [] {
      OwedIsPositive(os[..|os| - 1], s);
    }
  }

  lemma {:induction false} SortingKeepsOwed(buffer: seq<Order>, s: Symbol)
    ensures Owed(SortBuffer(buffer), s) == Owed(buffer, s)
  {
    if buffer != [] {
      var n := |buffer| - 1;
      SortingKeepsOwed(buffer[..n], s);
      if IsSell(buffer[n]) {
        OwedConcat([buffer[n]], SortBuffer(buffer[..n]), s);
      } else {
        OwedConcat(SortBuffer(buffer[..n]), [buffer[n]], s);
      }
    }
  }

  lemma {:induction false} StampingKeepsOwed(os: seq<Order>, first: nat, s: Symbol)
    ensures Owed(Stamp(os, first), s) == Owed(os, s)
  {
    if os != [] {
      var n := |os| - 1;
      assert Stamp(os, first)[..n] == Stamp(os[..n], first);
      StampingKeepsOwed(os[..n], first, s);
    }
  }

  lemma FillIsTrade(o: Order, row: Row, t: Trade)
    requires Decide(o, row) == Some(t)
    ensures t.symbol == o.symbol && t.quantity == o.shares && (t.typ.Buy? <==> !IsSell(o))
    ensures SignedQuantity(t) == Effect(o)
  {
  }

  lemma {:induction false} ExecutionOwes(inner: seq<Order>, row: Row, s: Symbol)
    ensures Owed(inner, s) == Owed(Rest(inner, row), s) + Bought(Trades(inner, row), s) - NetQuantity(Trades(inner, row), s)
    ensures Sized(inner) ==> Bought(Trades(inner, row), s) >= 0.0
  {
    if inner != [] {
      var n := |inner| - 1;
      var init, x := inner[..n], inner[n];
      ExecutionOwes(init, row, s);
      match Decide(x, row) {
        case Some(t) =>
          FillIsTrade(x, row, t);
          BoughtSnoc(Trades(init, row), t, s);
          NetSnoc(Trades(init, row), t, s);
          assert Rest(inner, row) == Rest(init, row);
        case None =>
          OwedSnoc(Rest(init, row), x, s);
          assert Trades(inner, row) == Trades(init, row);
      }
    }
  }

  /** What a tick takes off the shares owed is what it sells. */
  lemma TickOwes(e: Exchange, row: Row, s: Symbol)
    ensures OwedOn(e, s) == OwedOn(TickSpec(e, row).exchange, s) + Bought(TickSpec(e, row).trades, s) - NetQuantity(TickSpec(e, row).trades, s)
    ensures Sized(e.book.inner) ==> Bought(TickSpec(e, row).trades, s) >= 0.0
  {
    ExecutionOwes(e.book.inner, row, s);
    SortingKeepsOwed(e.buffer, s);
    StampingKeepsOwed(SortBuffer(e.buffer), e.book.lastInserted, s);
    OwedConcat(Rest(e.book.inner, row), Stamp(SortBuffer(e.buffer), e.book.lastInserted), s);
  }

  lemma TickKeepsSized(e: Exchange, row: Row)
    requires Sized(e.buffer) && Sized(e.book.inner)
    ensures Sized(TickSpec(e, row).exchange.buffer) && Sized(TickSpec(e, row).exchange.book.inner)
  {
    var rest, sorted := Rest(e.book.inner, row), SortBuffer(e.buffer);
    RestIsSubsequence(e.book.inner, row);
    forall i | 0 <= i < |rest| ensures rest[i].shares >= 0.0 {
      assert rest[i] in e.book.inner;
    }
    SortedBuffer(e.buffer);
    forall i | 0 <= i < |sorted| ensures sorted[i].shares >= 0.0 {
      assert sorted[i] in multiset(e.buffer);
    }
  }

  // ---------- whole runs ----------

  /** Orders have sizes, and outstanding sells can be delivered. */
  ghost predicate Covered(j: Joint) {
    && Sized(j.bt.exchange.buffer) && Sized(j.bt.exchange.book.inner)
    && forall s :: OwedOn(j.bt.exchange, s) <= Lookup(j.brk.holdings, s, 0.0)
  }

  lemma CoveredIsLong(j: Joint, s: Symbol)
    requires Covered(j)
    ensures Lookup(j.brk.holdings, s, 0.0) >= 0.0
  {
    OwedIsPositive(j.bt.exchange.buffer, s);
    OwedIsPositive(j.bt.exchange.book.inner, s);
    assert OwedOn(j.bt.exchange, s) <= Lookup(j.brk.holdings, s, 0.0);
  }

  /** What a careful client makes sure of before sending: the order has a size and, if it sells, the
      holding covers it on top of everything already on its way out. */
  predicate OrderCovered(j: Joint, o: Order) {
    o.shares >= 0.0
    && (IsSell(o) ==> o.shares <= Lookup(j.brk.holdings, o.symbol, 0.0) - OwedOn(j.bt.exchange, o.symbol))
  }

  lemma SendKeepsCovered(j: Joint, o: Order)
    requires Covered(j) && Sendable(j.brk, o)
    requires Accepts(j.brk, o) ==> OrderCovered(j, o)
    ensures Covered(SendOrder(j, o).0)
    ensures forall s :: s != o.symbol ==> OwedOn(SendOrder(j, o).0.bt.exchange, s) == OwedOn(j.bt.exchange, s)
  {
    if Accepts(j.brk, o) {
      var j' := SendOrder(j, o).0;
      forall s
        ensures OwedOn(j'.bt.exchange, s) <= Lookup(j'.brk.holdings, s, 0.0)
        ensures s != o.symbol ==> OwedOn(j'.bt.exchange, s) == OwedOn(j.bt.exchange, s)
      {
        OwedSnoc(j.bt.exchange.buffer, o, s);
        assert OwedOn(j.bt.exchange, s) <= Lookup(j.brk.holdings, s, 0.0);
      }
    }
  }

  lemma {:induction false} OutstandingSplits(os: seq<Order>, s: Symbol)
    ensures Outstanding(os, s) == Incoming(os, s) - Owed(os, s)
    ensures Sized(os) ==> Incoming(os, s) >= 0.0
  {
    if os != [] {
      OutstandingSplits(os[..|os| - 1], s);
    }
  }

  /** The broker can tell from its own books: holding plus pending never understates what is free to
      sell, and is exactly that when no purchase of the symbol is outstanding. */
  lemma PendingTellsOwed(j: Joint, ds: Dataset, s: Symbol)
    requires JointOk(j, ds) && Covered(j)
    ensures var e := j.bt.exchange;
            && Lookup(j.brk.pending, s, 0.0) == Incoming(e.buffer, s) + Incoming(e.book.inner, s) - OwedOn(e, s)
            && Lookup(j.brk.pending, s, 0.0) >= -OwedOn(e, s)
            && (Lookup(j.brk.pending, s, 0.0) == -OwedOn(e, s) <==> Incoming(e.buffer, s) == Incoming(e.book.inner, s) == 0.0)
  {
    OutstandingSplits(j.bt.exchange.buffer, s);
    OutstandingSplits(j.bt.exchange.book.inner, s);
    assert Lookup(j.brk.pending, s, 0.0) == OnExchange(j.bt.exchange, s);
  }

  predicate DistinctSymbols(os: seq<Order>) {
    forall i, k :: 0 <= i < k < |os| ==> os[i].symbol != os[k].symbol
  }

  lemma {:induction false} SendAllKeepsCovered(j: Joint, os: seq<Order>)
    requires Covered(j) && DistinctSymbols(os)
    requires forall o :: o in os ==> Sendable(j.brk, o) && OrderCovered(j, o)
    ensures Covered(SendOrders(j, os))
    ensures forall s :: (forall o :: o in os ==> o.symbol != s) ==> OwedOn(SendOrders(j, os).bt.exchange, s) == OwedOn(j.bt.exchange, s)
  {
    if os != [] {
      var n := |os| - 1;
      var init, o := os[..n], os[n];
      assert forall k :: k in init ==> k in os && k.symbol != o.symbol;
      SendAllKeepsCovered(j, init);
      assert o in os && OrderCovered(j, o) && Sendable(j.brk, o);
      SendKeepsCovered(SendOrders(j, init), o);
    }
  }

  lemma {:induction false} PlansAreDistinct(b: Broker, keys: seq<Symbol>, x: real)
    requires forall s :: s in keys ==> s in b.quotes
    requires forall i, k :: 0 <= i < k < |keys| ==> keys[i] != keys[k]
    ensures DistinctSymbols(Liquidate(b, keys, x).orders)
  {
    if keys != [] {
      var n := |keys| - 1;
      assert forall s :: s in keys[..n] ==> s in keys && s != keys[n];
      PlansAreDistinct(b, keys[..n], x);
      var os := Liquidate(b, keys[..n], x).orders;
      assert forall i :: 0 <= i < |os| ==> os[i] in os;
    }
  }

  /** The liquidation commits nothing that is already on its way out. */
  ghost predicate LiquidationCovered(j: Joint, x: real, keys: seq<Symbol>)
    requires Priced(j.brk) && IsEnumeration(keys, j.brk.holdings.Keys)
  {
    WithdrawWithLiquidation(j, x, keys).1.WithdrawSuccess? ==>
      forall o :: o in Liquidate(j.brk, keys, x).orders ==> OrderCovered(j, o)
  }

  ghost predicate RebalanceCovered(j: Joint, keys: seq<Symbol>)
    requires CanRebalance(j.brk) && IsEnumeration(keys, j.brk.holdings.Keys)
  {
    j.brk.cash < 0.0 ==> LiquidationCovered(j, -j.brk.cash + BUFFER, keys)
  }

  lemma LiquidationKeepsCovered(j: Joint, x: real, keys: seq<Symbol>)
    requires Priced(j.brk) && IsEnumeration(keys, j.brk.holdings.Keys)
    requires Covered(j) && LiquidationCovered(j, x, keys)
    ensures Covered(WithdrawWithLiquidation(j, x, keys).0)
  {
    PlansAreDistinct(j.brk, keys, x);
    if WithdrawWithLiquidation(j, x, keys).1.WithdrawSuccess? {
      SendAllKeepsCovered(j, Liquidate(j.brk, keys, x).orders);
    }
  }

  lemma SettleKeepsCovered(j: Joint, ds: Dataset)
    requires JointOk(j, ds) && Covered(j)
    ensures Covered(Settle(j, ds))
  {
    var j' := Settle(j, ds);
    TickHasQuotes(j, ds);
    SettleKeepsJointOk(j, ds);
    var row := ds.inner[j.bt.date];
    TickKeepsSized(j.bt.exchange, row);
    forall s ensures OwedOn(j'.bt.exchange, s) <= Lookup(j'.brk.holdings, s, 0.0) {
      TickOwes(j.bt.exchange, row, s);
      HoldingAfter(j, ds, s);
      assert OwedOn(j.bt.exchange, s) <= Lookup(j.brk.holdings, s, 0.0);
    }
  }

  lemma HoldingAfter(j: Joint, ds: Dataset, s: Symbol)
    requires JointOk(j, ds) && j.bt.date in ds.inner
    ensures Lookup(Settle(j, ds).brk.holdings, s, 0.0)
            == Lookup(j.brk.holdings, s, 0.0) + NetQuantity(Trades(j.bt.exchange.book.inner, ds.inner[j.bt.date]), s)
  {
    TickHasQuotes(j, ds);
    SettleKeepsJointOk(j, ds);
    var trades := Trades(j.bt.exchange.book.inner, ds.inner[j.bt.date]);
    NetConcat(j.brk.log, trades, s);
    assert Lookup(Settle(j, ds).brk.holdings, s, 0.0) == NetQuantity(j.brk.log + trades, s);
    assert Lookup(j.brk.holdings, s, 0.0) == NetQuantity(j.brk.log, s);
  }

  /** What is asked of each operation of a run. */
  ghost predicate OpCovered(j: Joint, ds: Dataset, op: BrokerOp)
    requires JointOk(j, ds) && Enabled(j, ds, op)
  {
    match op
    case SendOp(o) => Accepts(j.brk, o) ==> OrderCovered(j, o)
    case LiquidateOp(x, keys) =>
      HeldIsPriced(j, ds);
      LiquidationCovered(j, x, keys)
    case CheckOp(keys) =>
      SettleKeepsJointOk(j, ds);
      RebalanceCovered(Settle(j, ds), keys)
    case _ => true
  }

  lemma StepKeepsCovered(j: Joint, ds: Dataset, op: BrokerOp)
    requires JointOk(j, ds) && Enabled(j, ds, op) && Covered(j) && OpCovered(j, ds, op)
    ensures Covered(BrokerStep(j, ds, op))
  {
    match op
    case SendOp(o) => SendKeepsCovered(j, o);
    case LiquidateOp(x, keys) =>
      HeldIsPriced(j, ds);
      LiquidationKeepsCovered(j, x, keys);
    case CheckOp(keys) => CheckKeepsCovered(j, ds, keys);
    case _ =>
  }

  lemma CheckKeepsCovered(j: Joint, ds: Dataset, keys: seq<Symbol>)
    requires JointOk(j, ds) && Enabled(j, ds, CheckOp(keys)) && Covered(j) && OpCovered(j, ds, CheckOp(keys))
    ensures Covered(BrokerStep(j, ds, CheckOp(keys)))
  {
    SettleKeepsJointOk(j, ds);
    SettleKeepsCovered(j, ds);
    RebalanceKeepsCovered(Settle(j, ds), keys);
  }

  lemma RebalanceKeepsCovered(j: Joint, keys: seq<Symbol>)
    requires CanRebalance(j.brk) && IsEnumeration(keys, j.brk.holdings.Keys) && Covered(j)
    requires RebalanceCovered(j, keys)
    ensures Covered(RebalanceCash(j, keys))
  {
    if j.brk.cash < 0.0 {
      var x := -j.brk.cash + BUFFER;
      LiquidationKeepsCovered(j, x, keys);
      var r := RebalanceLiquidates(j, keys, x);
      CoveredAlike(r, RebalanceCash(j, keys));
    }
  }

  lemma RebalanceLiquidates(j: Joint, keys: seq<Symbol>, x: real) returns (r: Joint)
    requires CanRebalance(j.brk) && IsEnumeration(keys, j.brk.holdings.Keys) && j.brk.cash < 0.0 && x == -j.brk.cash + BUFFER
    ensures r == WithdrawWithLiquidation(j, x, keys).0
    ensures RebalanceCash(j, keys).bt == r.bt && RebalanceCash(j, keys).brk.holdings == r.brk.holdings
  {
    r := WithdrawWithLiquidation(j, x, keys).0;
  }

  lemma CoveredAlike(j: Joint, j': Joint)
    requires Covered(j) && j'.bt == j.bt && j'.brk.holdings == j.brk.holdings
    ensures Covered(j')
  {
    forall s ensures OwedOn(j'.bt.exchange, s) <= Lookup(j'.brk.holdings, s, 0.0) {
      assert OwedOn(j.bt.exchange, s) <= Lookup(j.brk.holdings, s, 0.0);
    }
  }

  ghost predicate AllCovered(j: Joint, ds: Dataset, ops: seq<BrokerOp>)
    requires JointOk(j, ds) && Runnable(j, ds, ops)
    decreases |ops|
  {
    ops == [] || (OpCovered(j, ds, ops[0]) && AllCovered(BrokerStep(j, ds, ops[0]), ds, ops[1..]))
  }

  lemma {:induction false} RunKeepsCovered(j: Joint, ds: Dataset, ops: seq<BrokerOp>)
    requires JointOk(j, ds) && Runnable(j, ds, ops) && Covered(j) && AllCovered(j, ds, ops)
    ensures Covered(BrokerRun(j, ds, ops))
    decreases |ops|
  {
    if ops != [] {
      StepKeepsCovered(j, ds, ops[0]);
      RunKeepsCovered(BrokerStep(j, ds, ops[0]), ds, ops[1..]);
    }
  }

  /** No holding is negative in any state reachable by covered operations; so where bids are
      positive the bounds on liquidations apply. */
  lemma StaysLong(ds: Dataset, id: nat, name: string, costs: seq<Costs.Cost>, ops: seq<BrokerOp>)
    requires DatasetSound(ds) && Runnable(Start(ds, id, name, costs), ds, ops)
    requires AllCovered(Start(ds, id, name, costs), ds, ops)
    ensures var b := BrokerRun(Start(ds, id, name, costs), ds, ops).brk;
            && (forall s :: s in b.holdings ==> b.holdings[s] > 0.0)
            && ((forall s :: s in b.quotes ==> b.quotes[s].bid > 0.0) ==> LongOnly(b))
  {
    var j := Start(ds, id, name, costs);
    RunKeepsCovered(j, ds, ops);
    var r := BrokerRun(j, ds, ops);
    HeldIsPriced(r, ds);
    forall s | s in r.brk.holdings ensures r.brk.holdings[s] > 0.0 {
      CoveredIsLong(r, s);
    }
  }

  /** When a check fails a broker whose settled positions are long: it had failed already, or the
      settled cash is negative and what the broker is worth after costs does not cover the shortfall
      and the buffer, or its total value does not come to the buffer. */
  lemma CheckFailsWhen(j: Joint, ds: Dataset, keys: seq<Symbol>)
    requires JointOk(j, ds) && Enabled(j, ds, CheckOp(keys)) && LongOnly(Settle(j, ds).brk)
    ensures var b := Settle(j, ds).brk;
            BrokerStep(j, ds, CheckOp(keys)).brk.state.Failed?
            <==> j.brk.state.Failed?
                 || (b.cash < 0.0 && (LiquidationValue(b, keys) < 1000.0 - b.cash || TotalValue(b, keys) < 1000.0))
  {
    SettleKeepsJointOk(j, ds);
    var m := Settle(j, ds);
    if m.brk.state.Failed? {
      RebalancingMovesNoCash(m, keys);
    } else {
      RebalancingFailsWhen(m, keys);
    }
  }

  // ---------- how holdings do turn negative ----------

  lemma TradesOneMore(init: seq<Order>, x: Order, row: Row, s: Symbol)
    ensures NetQuantity(Trades(init + [x], row), s)
            == NetQuantity(Trades(init, row), s) + if Decide(x, row).Some? && x.symbol == s then Effect(x) else 0.0
  {
    assert (init + [x])[..|init|] == init;
    match Decide(x, row) {
      case Some(t) =>
        FillIsTrade(x, row, t);
        NetSnoc(Trades(init, row), t, s);
      case None =>
        assert Trades(init + [x], row) == Trades(init, row);
    }
  }

  lemma MarketDecides(o: Order, row: Row)
    requires IsMarket(o)
    ensures Decide(o, row).Some? <==> o.symbol in row
  {
  }

  /** A book of market orders executes every order whose symbol is quoted. */
  lemma {:induction false} MarketBookClears(inner: seq<Order>, row: Row, s: Symbol)
    requires forall o :: o in inner ==> IsMarket(o)
    ensures NetQuantity(Trades(inner, row), s) == if s in row then Outstanding(inner, s) else 0.0
  {
    if inner != [] {
      var n := |inner| - 1;
      var init, x := inner[..n], inner[n];
      assert inner == init + [x];
      assert x in inner && forall o :: o in init ==> o in inner;
      MarketBookClears(init, row, s);
      MarketDecides(x, row);
      TradesOneMore(init, x, row, s);
    }
  }

  ghost predicate MarketOnly(e: Exchange) {
    && (forall o :: o in e.buffer ==> IsMarket(o))
    && (forall o :: o in e.book.inner ==> IsMarket(o))
  }

  lemma {:induction false} SendAllKeepsMarket(j: Joint, os: seq<Order>)
    requires MarketOnly(j.bt.exchange) && forall o :: o in os ==> Sendable(j.brk, o)
    ensures MarketOnly(SendOrders(j, os).bt.exchange)
  {
    if os != [] {
      var n := |os| - 1;
      assert os[n] in os && forall o :: o in os[..n] ==> o in os;
      SendAllKeepsMarket(j, os[..n]);
    }
  }

  lemma SettleKeepsMarket(j: Joint, ds: Dataset)
    requires JointOk(j, ds) && MarketOnly(j.bt.exchange)
    ensures MarketOnly(Settle(j, ds).bt.exchange)
  {
    TickHasQuotes(j, ds);
    SortingKeepsMarket(j.bt.exchange.buffer, j.bt.exchange.book.lastInserted);
    RestIsSubsequence(j.bt.exchange.book.inner, ds.inner[j.bt.date]);
  }

  lemma LiquidationKeepsMarket(j: Joint, x: real, keys: seq<Symbol>)
    requires Priced(j.brk) && IsEnumeration(keys, j.brk.holdings.Keys) && MarketOnly(j.bt.exchange)
    ensures MarketOnly(WithdrawWithLiquidation(j, x, keys).0.bt.exchange)
  {
    SendAllKeepsMarket(j, Liquidate(j.brk, keys, x).orders);
  }

  lemma RebalanceKeepsMarket(j: Joint, keys: seq<Symbol>)
    requires CanRebalance(j.brk) && IsEnumeration(keys, j.brk.holdings.Keys) && MarketOnly(j.bt.exchange)
    ensures MarketOnly(RebalanceCash(j, keys).bt.exchange)
  {
    if j.brk.cash < 0.0 {
      LiquidationKeepsMarket(j, -j.brk.cash + BUFFER, keys);
    }
  }

  lemma CheckKeepsMarket(j: Joint, ds: Dataset, keys: seq<Symbol>)
    requires JointOk(j, ds) && Enabled(j, ds, CheckOp(keys)) && MarketOnly(j.bt.exchange)
    ensures MarketOnly(BrokerStep(j, ds, CheckOp(keys)).bt.exchange)
  {
    SettleKeepsJointOk(j, ds);
    SettleKeepsMarket(j, ds);
    RebalanceKeepsMarket(Settle(j, ds), keys);
  }

  lemma StepKeepsMarket(j: Joint, ds: Dataset, op: BrokerOp)
    requires JointOk(j, ds) && Enabled(j, ds, op) && MarketOnly(j.bt.exchange)
    ensures MarketOnly(BrokerStep(j, ds, op).bt.exchange)
  {
    match op
    case LiquidateOp(x, keys) =>
      HeldIsPriced(j, ds);
      LiquidationKeepsMarket(j, x, keys);
    case CheckOp(keys) => CheckKeepsMarket(j, ds, keys);
    case _ =>
  }

  lemma {:induction false} RunKeepsMarket(j: Joint, ds: Dataset, ops: seq<BrokerOp>)
    requires JointOk(j, ds) && Runnable(j, ds, ops) && MarketOnly(j.bt.exchange)
    ensures MarketOnly(BrokerRun(j, ds, ops).bt.exchange)
    decreases |ops|
  {
    if ops != [] {
      StepKeepsMarket(j, ds, ops[0]);
      RunKeepsMarket(BrokerStep(j, ds, ops[0]), ds, ops[1..]);
    }
  }

  /** The holding after a settlement is the one before plus what the book nets to, if the symbol is
      quoted. */
  lemma SettledHolding(j: Joint, ds: Dataset, s: Symbol)
    requires JointOk(j, ds) && forall o :: o in j.bt.exchange.book.inner ==> IsMarket(o)
    ensures j.bt.date in ds.inner
    ensures Lookup(Settle(j, ds).brk.holdings, s, 0.0)
            == Lookup(j.brk.holdings, s, 0.0) + if s in ds.inner[j.bt.date] then Outstanding(j.bt.exchange.book.inner, s) else 0.0
  {
    TickHasQuotes(j, ds);
    HoldingAfter(j, ds, s);
    MarketBookClears(j.bt.exchange.book.inner, ds.inner[j.bt.date], s);
  }

  /** In every reachable state: the next settlement leaves a holding non-negative exactly when the
      holding covers what the book owes less what it brings in, or the symbol is not quoted and the
      holding was non-negative. */
  lemma NextHoldingIsLong(ds: Dataset, id: nat, name: string, costs: seq<Costs.Cost>, ops: seq<BrokerOp>, s: Symbol)
    requires DatasetSound(ds) && Runnable(Start(ds, id, name, costs), ds, ops)
    ensures var r := BrokerRun(Start(ds, id, name, costs), ds, ops);
            var (held, inner) := (Lookup(r.brk.holdings, s, 0.0), r.bt.exchange.book.inner);
            && r.bt.date in ds.inner
            && (Lookup(Settle(r, ds).brk.holdings, s, 0.0) >= 0.0
                <==> if s in ds.inner[r.bt.date] then Owed(inner, s) <= held + Incoming(inner, s) else held >= 0.0)
  {
    var j := Start(ds, id, name, costs);
    RunKeepsMarket(j, ds, ops);
    var r := BrokerRun(j, ds, ops);
    SettledHolding(r, ds, s);
    OutstandingSplits(r.bt.exchange.book.inner, s);
  }

  lemma SortingKeepsMarket(buffer: seq<Order>, first: nat)
    requires forall o :: o in buffer ==> IsMarket(o)
    ensures forall o :: o in Stamp(SortBuffer(buffer), first) ==> IsMarket(o)
  {
    var sorted := SortBuffer(buffer);
    SortedBuffer(buffer);
    forall i | 0 <= i < |sorted| ensures IsMarket(sorted[i]) {
      assert sorted[i] in multiset(buffer);
    }
  }

  /** The buffer enters an empty book and nets to the same. */
  lemma BufferEnters(e: Exchange, row: Row, s: Symbol)
    requires forall o :: o in e.buffer ==> IsMarket(o)
    requires e.book.inner == []
    ensures forall o :: o in TickSpec(e, row).exchange.book.inner ==> IsMarket(o)
    ensures Outstanding(TickSpec(e, row).exchange.book.inner, s) == Outstanding(e.buffer, s)
  {
    SortingKeepsMarket(e.buffer, e.book.lastInserted);
    assert TickSpec(e, row).exchange.book.inner == Stamp(SortBuffer(e.buffer), e.book.lastInserted);
    SortingKeepsOutstanding(e.buffer, s);
    StampingKeepsOutstanding(SortBuffer(e.buffer), e.book.lastInserted, s);
  }

  lemma FirstSettlement(j: Joint, ds: Dataset, s: Symbol) returns (mid: Joint)
    requires JointOk(j, ds) && j.bt.exchange.book.inner == []
    requires forall o :: o in j.bt.exchange.buffer ==> IsMarket(o)
    ensures mid == Settle(j, ds) && JointOk(mid, ds) && mid.bt.pos == j.bt.pos + 1
    ensures forall o :: o in mid.bt.exchange.book.inner ==> IsMarket(o)
    ensures Outstanding(mid.bt.exchange.book.inner, s) == Outstanding(j.bt.exchange.buffer, s)
    ensures Lookup(mid.brk.holdings, s, 0.0) == Lookup(j.brk.holdings, s, 0.0)
  {
    SettledHolding(j, ds, s);
    TickHasQuotes(j, ds);
    BufferEnters(j.bt.exchange, ds.inner[j.bt.date], s);
    SettleKeepsJointOk(j, ds);
    mid := Settle(j, ds);
  }

  lemma SecondSettlement(mid: Joint, ds: Dataset, s: Symbol)
    requires JointOk(mid, ds) && QuotedAt(ds, s, IndexAt(ds, mid.bt.pos))
    requires forall o :: o in mid.bt.exchange.book.inner ==> IsMarket(o)
    ensures JointOk(Settle(mid, ds), ds)
    ensures Lookup(Settle(mid, ds).brk.holdings, s, 0.0) == Lookup(mid.brk.holdings, s, 0.0) + Outstanding(mid.bt.exchange.book.inner, s)
  {
    SettledHolding(mid, ds, s);
    SettleKeepsJointOk(mid, ds);
  }

  /** Orders wait for the next tick to enter the book and for the one after to execute: two
      settlements after sending into an empty book, everything sent has moved the holding. */
  lemma TwoSettlements(j: Joint, ds: Dataset, s: Symbol)
    requires JointOk(j, ds) && j.bt.exchange.book.inner == []
    requires forall o :: o in j.bt.exchange.buffer ==> IsMarket(o)
    requires QuotedAt(ds, s, IndexAt(ds, j.bt.pos + 1))
    ensures var r := Settle(Settle(j, ds), ds);
            JointOk(r, ds) && Lookup(r.brk.holdings, s, 0.0) == Lookup(j.brk.holdings, s, 0.0) + Outstanding(j.bt.exchange.buffer, s)
  {
    var mid := FirstSettlement(j, ds, s);
    assert IndexAt(ds, mid.bt.pos) == IndexAt(ds, j.bt.pos + 1);
    SecondSettlement(mid, ds, s);
  }

  /** A sale of something not held is accepted, whatever its size, and leaves a negative holding. */
  lemma NakedSale(j: Joint, ds: Dataset, s: Symbol, shares: real)
    requires JointOk(j, ds) && j.brk.state.Ready? && j.bt.exchange.book.inner == [] && j.bt.exchange.buffer == []
    requires s in j.brk.quotes && s !in j.brk.holdings && shares > 0.0
    requires QuotedAt(ds, s, IndexAt(ds, j.bt.pos + 1))
    ensures var (sent, event) := SendOrder(j, MarketSellOrder(s, shares));
            && event.OrderSentToExchange?
            && Lookup(Settle(Settle(sent, ds), ds).brk.holdings, s, 0.0) == -shares
  {
    var o := MarketSellOrder(s, shares);
    var sent := SendOrder(j, o).0;
    SendKeepsJointOk(j, ds, o);
    OutstandingSnoc([], o, s);
    assert sent.bt.exchange.buffer == [] + [o];
    TwoSettlements(sent, ds, s);
  }

  /** The whole holding can be sold twice, since sales on their way are not counted. */
  lemma SoldTwice(j: Joint, ds: Dataset, s: Symbol, held: real)
    requires JointOk(j, ds) && j.brk.state.Ready? && j.bt.exchange.book.inner == [] && j.bt.exchange.buffer == []
    requires s in j.brk.quotes && s in j.brk.holdings && held == j.brk.holdings[s] && held > 0.0
    requires QuotedAt(ds, s, IndexAt(ds, j.bt.pos + 1))
    ensures var (once, first) := SendOrder(j, MarketSellOrder(s, held));
            var (twice, second) := SendOrder(once, MarketSellOrder(s, held));
            && first.OrderSentToExchange? && second.OrderSentToExchange?
            && Lookup(Settle(Settle(twice, ds), ds).brk.holdings, s, 0.0) == -held
  {
    var o := MarketSellOrder(s, held);
    var once := SendOrder(j, o).0;
    var twice := SendOrder(once, o).0;
    SendKeepsJointOk(j, ds, o);
    SendKeepsJointOk(once, ds, o);
    OutstandingSnoc([], o, s);
    OutstandingSnoc([o], o, s);
    assert once.bt.exchange.buffer == [] + [o] && twice.bt.exchange.buffer == [o] + [o];
    TwoSettlements(twice, ds, s);
  }

  // ---------- such states exist ----------

  const SAMPLE: Row := map["ABC" := Quote(9.0, 10.0, "ABC", 100)]

  /** A single day, on which "ABC" is at 9 to sell and 10 to buy; the clock stands still on it. */
  const SAMPLE_DATA := Dataset([100], map[100 := SAMPLE])

  lemma SampleIsSound()
    ensures DatasetSound(SAMPLE_DATA)
    ensures QuotedAt(SAMPLE_DATA, "ABC", 0)
    ensures forall pos: nat :: IndexAt(SAMPLE_DATA, pos) == 0
  {
    var ds := SAMPLE_DATA;
    assert ds.dates == [100] && ds.inner[100] == SAMPLE;
    assert "ABC" in SAMPLE && SAMPLE.Keys == {"ABC"};
    forall t, s | t in ds.inner && s in ds.inner[t] ensures ds.inner[t][s].date == t && ds.inner[t][s].symbol == s {
      assert t == 100 && s == "ABC";
    }
  }

  lemma SampleStart() returns (j: Joint)
    ensures DatasetSound(SAMPLE_DATA) && j == Start(SAMPLE_DATA, 0, "SAMPLE", [])
    ensures JointOk(j, SAMPLE_DATA) && j.bt.exchange == FRESH
    ensures j.brk == FreshBroker(SAMPLE, [])
  {
    SampleIsSound();
    j := Start(SAMPLE_DATA, 0, "SAMPLE", []);
  }

  /** A fresh broker that sells 5 "ABC" ends up holding -5. */
  lemma NakedSaleInput()
    ensures DatasetSound(SAMPLE_DATA)
    ensures var (j, o) := (Start(SAMPLE_DATA, 0, "SAMPLE", []), MarketSellOrder("ABC", 5.0));
            && Sendable(j.brk, o)
            && SendOrder(j, o).1.OrderSentToExchange?
            && Lookup(Settle(Settle(SendOrder(j, o).0, SAMPLE_DATA), SAMPLE_DATA).brk.holdings, "ABC", 0.0) == -5.0
  {
    SampleIsSound();
    var j := SampleStart();
    NakedSale(j, SAMPLE_DATA, "ABC", 5.0);
  }

  /** A single market order that is quoted leaves the exchange empty again. */
  lemma OneOrderFills(j: Joint, ds: Dataset, o: Order)
    requires JointOk(j, ds) && j.bt.exchange.book.inner == [] && j.bt.exchange.buffer == [o] && IsMarket(o)
    requires QuotedAt(ds, o.symbol, IndexAt(ds, j.bt.pos + 1))
    ensures var e := Settle(Settle(j, ds), ds).bt.exchange; e.book.inner == [] && e.buffer == []
  {
    TickHasQuotes(j, ds);
    SettleKeepsJointOk(j, ds);
    var mid := Settle(j, ds);
    TickHasQuotes(mid, ds);
    EntersAlone(j.bt.exchange, ds.inner[j.bt.date], o);
    LeavesAlone(mid.bt.exchange, ds.inner[mid.bt.date], o);
  }

  lemma EntersAlone(e: Exchange, row: Row, o: Order)
    requires e.book.inner == [] && e.buffer == [o]
    ensures TickSpec(e, row).exchange.book.inner == [o.(orderId := Some(e.book.lastInserted))]
    ensures TickSpec(e, row).exchange.buffer == []
  {
    assert [o][..0] == [];
    assert FrontFirst([o][..0], SELLS_FIRST) == [];
    assert SortBuffer([o]) == [o];
  }

  lemma LeavesAlone(e: Exchange, row: Row, o: Order)
    requires |e.book.inner| == 1 && e.book.inner[0].symbol == o.symbol && IsMarket(e.book.inner[0]) && e.buffer == []
    requires o.symbol in row
    ensures TickSpec(e, row).exchange.book.inner == [] && TickSpec(e, row).exchange.buffer == []
  {
    MarketDecides(e.book.inner[0], row);
    assert e.book.inner[..0] == [];
    assert Rest(e.book.inner, row) == Rest(e.book.inner[..0], row);
  }

  /** A purchase sent into an empty exchange is all the broker holds two settlements later. */
  lemma PurchaseSettles(j: Joint, ds: Dataset, o: Order) returns (r: Joint)
    requires JointOk(j, ds) && j.bt.exchange.book.inner == [] && j.bt.exchange.buffer == [] && o.orderType == MarketBuy
    requires Sendable(j.brk, o) && Accepts(j.brk, o) && Lookup(j.brk.holdings, o.symbol, 0.0) == 0.0
    requires QuotedAt(ds, o.symbol, IndexAt(ds, j.bt.pos + 1))
    ensures r == Settle(Settle(SendOrder(j, o).0, ds), ds) && JointOk(r, ds) && r.brk.state.Ready?
    ensures r.bt.exchange.book.inner == [] && r.bt.exchange.buffer == []
    ensures o.symbol in r.brk.holdings && r.brk.holdings[o.symbol] == o.shares && o.symbol in r.brk.quotes
  {
    var sent := SendOrder(j, o).0;
    SendKeepsJointOk(j, ds, o);
    OutstandingSnoc([], o, o.symbol);
    assert sent.bt.exchange.buffer == [o] && [] + [o] == [o];
    TwoSettlements(sent, ds, o.symbol);
    OneOrderFills(sent, ds, o);
    SettleKeepsJointOk(sent, ds);
    SettleKeepsJointOk(Settle(sent, ds), ds);
    r := Settle(Settle(sent, ds), ds);
    HeldIsPriced(r, ds);
  }

  /** A broker that deposits 1000 and buys 5 "ABC" can then sell 5 twice, and holds -5. */
  lemma SoldTwiceInput() returns (rich: Joint, j: Joint)
    ensures DatasetSound(SAMPLE_DATA)
    ensures var start := Start(SAMPLE_DATA, 0, "SAMPLE", []);
            rich == start.(brk := DepositCash(start.brk, 1000.0).0)
    ensures var o := MarketBuyOrder("ABC", 5.0);
            Sendable(rich.brk, o) && j == Settle(Settle(SendOrder(rich, o).0, SAMPLE_DATA), SAMPLE_DATA)
    ensures var o := MarketSellOrder("ABC", 5.0);
            && Sendable(j.brk, o) && Lookup(j.brk.holdings, "ABC", 0.0) == 5.0
            && var (once, first) := SendOrder(j, o);
               var (twice, second) := SendOrder(once, o);
               && first.OrderSentToExchange? && second.OrderSentToExchange?
               && Lookup(Settle(Settle(twice, SAMPLE_DATA), SAMPLE_DATA).brk.holdings, "ABC", 0.0) == -5.0
  {
    SampleIsSound();
    var start := SampleStart();
    rich := start.(brk := DepositCash(start.brk, 1000.0).0);
    assert rich.brk.quotes["ABC"].ask == 10.0 && rich.brk.cash == 1000.0;
    j := PurchaseSettles(rich, SAMPLE_DATA, MarketBuyOrder("ABC", 5.0));
    SoldTwice(j, SAMPLE_DATA, "ABC", 5.0);
  }
}
