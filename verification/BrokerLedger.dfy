/** The broker's books against the exchange's: what each operation keeps. */
module BrokerLedger {
  import opened Prelude
  import opened Penelope
  import opened Uist
  import opened UistServer
  import opened NoLookahead
  import opened BrokerModel
  import Costs

  // ---------- folds over history ----------

  /** Signed shares of `s` over a list of orders. */
  function Outstanding(os: seq<Order>, s: Symbol): real {
    if os == [] then 0.0
    else Outstanding(os[..|os| - 1], s) + if os[|os| - 1].symbol == s then Effect(os[|os| - 1]) else 0.0
  }

  /** Signed shares of `s` over everything the exchange has not executed yet. */
  function OnExchange(e: Exchange, s: Symbol): real {
    Outstanding(e.buffer, s) + Outstanding(e.book.inner, s)
  }

  /** Net quantity of `s` over a trade log. */
  function NetQuantity(ts: seq<Trade>, s: Symbol): real {
    if ts == [] then 0.0
    else NetQuantity(ts[..|ts| - 1], s) + if ts[|ts| - 1].symbol == s then SignedQuantity(ts[|ts| - 1]) else 0.0
  }

  /** Proceeds of sells minus cost of buys over a trade log. */
  function NetProceeds(ts: seq<Trade>): real {
    if ts == [] then 0.0 else NetProceeds(ts[..|ts| - 1]) + CashEffect(ts[|ts| - 1])
  }

  lemma {:induction false} OutstandingConcat(a: seq<Order>, b: seq<Order>, s: Symbol)
    ensures Outstanding(a + b, s) == Outstanding(a, s) + Outstanding(b, s)
  {
    if b == [] {
      assert a + b == a;
    } else {
      var n := |b| - 1;
      assert (a + b)[..|a + b| - 1] == a + b[..n];
      OutstandingConcat(a, b[..n], s);
    }
  }

  lemma {:induction false} NetConcat(a: seq<Trade>, b: seq<Trade>, s: Symbol)
    ensures NetQuantity(a + b, s) == NetQuantity(a, s) + NetQuantity(b, s)
    ensures NetProceeds(a + b) == NetProceeds(a) + NetProceeds(b)
  {
    if b == [] {
      assert a + b == a;
    } else {
      var n := |b| - 1;
      assert (a + b)[..|a + b| - 1] == a + b[..n];
      NetConcat(a, b[..n], s);
    }
  }

  lemma OutstandingSnoc(a: seq<Order>, o: Order, s: Symbol)
    ensures Outstanding(a + [o], s) == Outstanding(a, s) + if o.symbol == s then Effect(o) else 0.0
  {
    assert (a + [o])[..|a|] == a;
  }

  lemma NetSnoc(a: seq<Trade>, t: Trade, s: Symbol)
    ensures NetQuantity(a + [t], s) == NetQuantity(a, s) + if t.symbol == s then SignedQuantity(t) else 0.0
  {
    assert (a + [t])[..|a|] == a;
  }

  // ---------- what a tick does to the shares on the exchange ----------

  lemma FillEffect(o: Order, row: Row)
    ensures Decide(o, row).Some? ==>
              Decide(o, row).value.symbol == o.symbol && SignedQuantity(Decide(o, row).value) == Effect(o)
  {
  }

  lemma {:induction false} ExecutionClears(inner: seq<Order>, row: Row, s: Symbol)
    ensures Outstanding(inner, s) == Outstanding(Rest(inner, row), s) + NetQuantity(Trades(inner, row), s)
  {
    if inner != [] {
      var n := |inner| - 1;
      var init, x := inner[..n], inner[n];
      ExecutionClears(init, row, s);
      FillEffect(x, row);
      match Decide(x, row) {
        case Some(t) =>
          NetSnoc(Trades(init, row), t, s);
          assert Rest(inner, row) == Rest(init, row);
        case None =>
          OutstandingSnoc(Rest(init, row), x, s);
          assert Trades(inner, row) == Trades(init, row);
      }
    }
  }

  lemma {:induction false} SortingKeepsOutstanding(buffer: seq<Order>, s: Symbol)
    ensures Outstanding(SortBuffer(buffer), s) == Outstanding(buffer, s)
  {
    if buffer != [] {
      var n := |buffer| - 1;
      SortingKeepsOutstanding(buffer[..n], s);
      if IsSell(buffer[n]) {
        OutstandingConcat([buffer[n]], SortBuffer(buffer[..n]), s);
      } else {
        OutstandingConcat(SortBuffer(buffer[..n]), [buffer[n]], s);
      }
    }
  }

  lemma {:induction false} StampingKeepsOutstanding(os: seq<Order>, first: nat, s: Symbol)
    ensures Outstanding(Stamp(os, first), s) == Outstanding(os, s)
  {
    if os != [] {
      var n := |os| - 1;
      assert Stamp(os, first)[..n] == Stamp(os[..n], first);
      StampingKeepsOutstanding(os[..n], first, s);
    }
  }

  /** Shares leave the exchange only as trades. */
  lemma TickConserves(e: Exchange, row: Row, s: Symbol)
    ensures OnExchange(e, s) == OnExchange(TickSpec(e, row).exchange, s) + NetQuantity(TickSpec(e, row).trades, s)
  {
    ExecutionClears(e.book.inner, row, s);
    SortingKeepsOutstanding(e.buffer, s);
    StampingKeepsOutstanding(SortBuffer(e.buffer), e.book.lastInserted, s);
    OutstandingConcat(Rest(e.book.inner, row), Stamp(SortBuffer(e.buffer), e.book.lastInserted), s);
  }

  // ---------- what reconciling does to the broker ----------

  ghost predicate NoZero(m: map<Symbol, real>) {
    forall s :: s in m ==> m[s] != 0.0
  }

  /** Holdings and pending orders follow the trades, symbol by symbol. */
  ghost predicate Follows(b: Broker, r: Broker, ts: seq<Trade>) {
    && (NoZero(b.holdings) ==> NoZero(r.holdings))
    && (forall s :: Lookup(r.holdings, s, 0.0) == Lookup(b.holdings, s, 0.0) + NetQuantity(ts, s))
    && (forall s :: Lookup(r.pending, s, 0.0) == Lookup(b.pending, s, 0.0) - NetQuantity(ts, s))
  }

  lemma OneMoreTrade(b: Broker, mid: Broker, ts: seq<Trade>, t: Trade)
    requires Follows(b, mid, ts)
    ensures Follows(b, ApplyTrade(mid, t), ts + [t])
  {
    var r := ApplyTrade(mid, t);
    forall s
      ensures Lookup(r.holdings, s, 0.0) == Lookup(b.holdings, s, 0.0) + NetQuantity(ts + [t], s)
      ensures Lookup(r.pending, s, 0.0) == Lookup(b.pending, s, 0.0) - NetQuantity(ts + [t], s)
    {
      NetSnoc(ts, t, s);
    }
  }

  lemma {:induction false} ReconcileEffect(b: Broker, ts: seq<Trade>)
    ensures var r := Reconcile(b, ts);
            && r.cash == b.cash + NetProceeds(ts)
            && r.log == b.log + ts
            && r.lastSeenTrade == b.lastSeenTrade + |ts|
            && r.quotes == b.quotes && r.costs == b.costs && r.state == b.state
            && Follows(b, r, ts)
  {
    if ts != [] {
      var n := |ts| - 1;
      ReconcileEffect(b, ts[..n]);
      OneMoreTrade(b, Reconcile(b, ts[..n]), ts[..n], ts[n]);
      assert ts == ts[..n] + [ts[n]];
    }
  }

  /** Trades of one side: what they came to ... */
  function Volume(ts: seq<Trade>, side: TradeType): real {
    if ts == [] then 0.0
    else Volume(ts[..|ts| - 1], side) + if ts[|ts| - 1].typ == side then ts[|ts| - 1].value else 0.0
  }

  /** ... and how many shares of a symbol they moved. */
  function SharesTraded(ts: seq<Trade>, side: TradeType, s: Symbol): real {
    if ts == [] then 0.0
    else
      SharesTraded(ts[..|ts| - 1], side, s)
      + if ts[|ts| - 1].typ == side && ts[|ts| - 1].symbol == s then ts[|ts| - 1].quantity else 0.0
  }

  /** Sells bring cash in and take shares out, buys the other way round. */
  lemma {:induction false} SoldLessBought(ts: seq<Trade>, s: Symbol)
    ensures NetProceeds(ts) == Volume(ts, Sell) - Volume(ts, Buy)
    ensures NetQuantity(ts, s) == SharesTraded(ts, Buy, s) - SharesTraded(ts, Sell, s)
  {
    if ts != [] {
      SoldLessBought(ts[..|ts| - 1], s);
    }
  }

  // ---------- the quote cache ----------

  /** The dataset quotes `s` at date index `k`. */
  predicate QuotedAt(ds: Dataset, s: Symbol, k: nat)
    requires k < |ds.dates|
  {
    ds.dates[k] in ds.inner && s in ds.inner[ds.dates[k]]
  }

  /** The quote of `s` at the greatest date index not above `upto` that quotes it. */
  function LastQuote(ds: Dataset, s: Symbol, upto: nat): Option<Quote>
    requires upto < |ds.dates|
  {
    if QuotedAt(ds, s, upto) then Some(ds.inner[ds.dates[upto]][s])
    else if upto == 0 then None
    else LastQuote(ds, s, upto - 1)
  }

  /** The last quote is the one at the greatest index that quotes the symbol ... */
  lemma {:induction false} LastQuoteIsLatest(ds: Dataset, s: Symbol, upto: nat, k: nat)
    requires k <= upto < |ds.dates|
    requires QuotedAt(ds, s, k) && forall m :: k < m <= upto ==> !QuotedAt(ds, s, m)
    ensures LastQuote(ds, s, upto) == Some(ds.inner[ds.dates[k]][s])
  {
    if k < upto {
      assert !QuotedAt(ds, s, upto);
      LastQuoteIsLatest(ds, s, upto - 1, k);
    }
  }

  /** ... and there is none exactly when no index does. */
  lemma {:induction false} NoLastQuote(ds: Dataset, s: Symbol, upto: nat)
    requires upto < |ds.dates|
    ensures LastQuote(ds, s, upto).None? <==> forall k :: 0 <= k <= upto ==> !QuotedAt(ds, s, k)
  {
    if upto > 0 {
      NoLastQuote(ds, s, upto - 1);
    }
  }

  /** The date index a clock position stands for. */
  function IndexAt(ds: Dataset, pos: nat): nat
    requires ds.dates != []
  {
    Min(pos, |ds.dates| - 1)
  }

  ghost predicate CacheOk(quotes: map<Symbol, Quote>, ds: Dataset, pos: nat)
    requires DatasetSound(ds)
  {
    forall s :: LastQuote(ds, s, IndexAt(ds, pos)) == if s in quotes then Some(quotes[s]) else None
  }

  lemma CacheAdvances(quotes: map<Symbol, Quote>, ds: Dataset, pos: nat)
    requires DatasetSound(ds) && CacheOk(quotes, ds, pos)
    ensures DateAt(ds, pos + 1) in ds.inner
    ensures CacheOk(quotes + ds.inner[DateAt(ds, pos + 1)], ds, pos + 1)
  {
    var i := IndexAt(ds, pos + 1);
    assert ds.dates[i] in ds.dates;
  }

  // ---------- the invariant ----------

  ghost predicate JointOk(j: Joint, ds: Dataset) {
    && DatasetSound(ds)
    && j.bt.date == DateAt(ds, j.bt.pos)
    && BookOk(j.bt.exchange.book)
    && j.brk.log == j.bt.exchange.tradeLog && j.brk.lastSeenTrade == |j.brk.log|
    && (forall s :: Lookup(j.brk.pending, s, 0.0) == OnExchange(j.bt.exchange, s))
    && (forall s :: Lookup(j.brk.holdings, s, 0.0) == NetQuantity(j.brk.log, s))
    && NoZero(j.brk.holdings)
    && CacheOk(j.brk.quotes, ds, j.bt.pos)
    && (forall t :: t in j.brk.log ==> t.symbol in j.brk.quotes)
  }

  lemma {:induction false} UntradedIsFlat(ts: seq<Trade>, s: Symbol)
    requires forall t :: t in ts ==> t.symbol != s
    ensures NetQuantity(ts, s) == 0.0
  {
    if ts != [] {
      UntradedIsFlat(ts[..|ts| - 1], s);
    }
  }

  /** Everything held has a price. */
  lemma HeldIsPriced(j: Joint, ds: Dataset)
    requires JointOk(j, ds)
    ensures Priced(j.brk)
  {
    forall s | s in j.brk.holdings ensures s in j.brk.quotes {
      if s !in j.brk.quotes {
        UntradedIsFlat(j.brk.log, s);
        assert false;
      }
    }
  }

  lemma SendKeepsJointOk(j: Joint, ds: Dataset, o: Order)
    requires JointOk(j, ds) && Sendable(j.brk, o)
    ensures JointOk(SendOrder(j, o).0, ds)
  {
    if Accepts(j.brk, o) {
      var j' := SendOrder(j, o).0;
      forall s ensures Lookup(j'.brk.pending, s, 0.0) == OnExchange(j'.bt.exchange, s) {
        OutstandingSnoc(j.bt.exchange.buffer, o, s);
        assert Lookup(j.brk.pending, s, 0.0) == OnExchange(j.bt.exchange, s);
      }
    }
  }

  lemma {:induction false} SendAllKeepsJointOk(j: Joint, ds: Dataset, os: seq<Order>)
    requires JointOk(j, ds) && forall o :: o in os ==> Sendable(j.brk, o)
    ensures JointOk(SendOrders(j, os), ds)
  {
    if os != [] {
      var n := |os| - 1;
      assert os[n] in os && Sendable(j.brk, os[n]);
      SendAllKeepsJointOk(j, ds, os[..n]);
      SendKeepsJointOk(SendOrders(j, os[..n]), ds, os[n]);
    }
  }

  /** The orders of a list that a broker accepts as it is. */
  function AcceptedOf(b: Broker, os: seq<Order>): seq<Order>
    requires forall o :: o in os ==> Sendable(b, o)
  {
    if os == [] then []
    else
      var n := |os| - 1;
      assert os[n] in os && forall o :: o in os[..n] ==> o in os;
      AcceptedOf(b, os[..n]) + if Accepts(b, os[n]) then [os[n]] else []
  }

  /** A list is sent order by order, and none of them changes what becomes of the others: all that
      are accepted end up in the buffer, in order, and pending. */
  lemma {:induction false} SendOrdersSends(j: Joint, os: seq<Order>, s: Symbol)
    requires forall o :: o in os ==> Sendable(j.brk, o)
    ensures var r := SendOrders(j, os);
            && r.bt == j.bt.(exchange := j.bt.exchange.(buffer := j.bt.exchange.buffer + AcceptedOf(j.brk, os)))
            && r.brk == j.brk.(pending := r.brk.pending)
            && Lookup(r.brk.pending, s, 0.0) == Lookup(j.brk.pending, s, 0.0) + Outstanding(AcceptedOf(j.brk, os), s)
  {
    if os == [] {
      assert j.bt.exchange.buffer + [] == j.bt.exchange.buffer;
    } else {
      var init, o := os[..|os| - 1], os[|os| - 1];
      assert os == init + [o] && o in os && forall k :: k in init ==> k in os;
      SendOrdersSends(j, init, s);
      SentOneMore(j, init, o);
      AcceptedSnoc(j.brk, init, o);
      SendOneMore(SendOrders(j, init), j.brk, o, AcceptedOf(j.brk, init), s);
      assert forall a: seq<Order>, x: seq<Order> :: j.bt.exchange.buffer + (a + x) == j.bt.exchange.buffer + a + x;
    }
  }

  lemma AcceptedSnoc(b: Broker, init: seq<Order>, o: Order)
    requires Sendable(b, o) && forall k :: k in init ==> Sendable(b, k)
    ensures AcceptedOf(b, init + [o]) == AcceptedOf(b, init) + if Accepts(b, o) then [o] else []
  {
    assert (init + [o])[..|init|] == init;
  }

  lemma SendOneMore(mid: Joint, b: Broker, o: Order, sent: seq<Order>, s: Symbol)
    requires Sendable(b, o) && mid.brk == b.(pending := mid.brk.pending)
    ensures var (r, more) := (SendOrder(mid, o).0, if Accepts(b, o) then [o] else []);
            && r.bt == mid.bt.(exchange := mid.bt.exchange.(buffer := mid.bt.exchange.buffer + more))
            && r.brk == b.(pending := r.brk.pending)
            && Lookup(r.brk.pending, s, 0.0) - Lookup(mid.brk.pending, s, 0.0) == Outstanding(sent + more, s) - Outstanding(sent, s)
  {
    AcceptsAlike(b, mid.brk, o);
    if Accepts(b, o) {
      OutstandingSnoc(sent, o, s);
      PendingOneMore(mid.brk.pending, o, s);
    } else {
      assert sent + [] == sent && mid.bt.exchange.buffer + [] == mid.bt.exchange.buffer;
    }
  }

  lemma PendingOneMore(pending: map<Symbol, real>, o: Order, s: Symbol)
    ensures Lookup(pending[o.symbol := Lookup(pending, o.symbol, 0.0) + Effect(o)], s, 0.0)
            == Lookup(pending, s, 0.0) + if o.symbol == s then Effect(o) else 0.0
  {
  }

  lemma LiquidationKeepsJointOk(j: Joint, ds: Dataset, x: real, keys: seq<Symbol>)
    requires JointOk(j, ds) && Priced(j.brk) && IsEnumeration(keys, j.brk.holdings.Keys)
    ensures JointOk(WithdrawWithLiquidation(j, x, keys).0, ds)
  {
    var plan := Liquidate(j.brk, keys, x);
    SendAllKeepsJointOk(j, ds, plan.orders);
  }

  lemma RebalanceKeepsJointOk(j: Joint, ds: Dataset, keys: seq<Symbol>)
    requires JointOk(j, ds) && CanRebalance(j.brk) && IsEnumeration(keys, j.brk.holdings.Keys)
    ensures JointOk(RebalanceCash(j, keys), ds)
  {
    HeldIsPriced(j, ds);
    LiquidationKeepsJointOk(j, ds, -j.brk.cash + BUFFER, keys);
  }

  lemma TradedIsQuoted(j: Joint, ds: Dataset, t: Trade)
    requires JointOk(j, ds) && j.bt.date in ds.inner && t in Trades(j.bt.exchange.book.inner, ds.inner[j.bt.date])
    ensures t.symbol in j.brk.quotes
  {
    var row, inner := ds.inner[j.bt.date], j.bt.exchange.book.inner;
    CompletedIdsAreBookIds(inner, row);
    var k :| 0 <= k < |Trades(inner, row)| && Trades(inner, row)[k] == t;
    var i :| 0 <= i < |inner| && inner[i].orderId.value == CompletedIds(inner, row)[k] && Decide(inner[i], row) == Some(t);
    FillHonoursOrder(inner[i], row);
    assert LastQuote(ds, t.symbol, IndexAt(ds, j.bt.pos)) == Some(row[t.symbol]);
  }

  /** The exchange half of settling: an ordinary tick on the quotes of the current date, after
      which there are quotes for the new date too. */
  lemma TickHasQuotes(j: Joint, ds: Dataset)
    requires JointOk(j, ds)
    ensures j.bt.date in ds.inner
    ensures var bt := BacktestTick(j.bt, ds).0;
            && bt.exchange == TickSpec(j.bt.exchange, ds.inner[j.bt.date]).exchange
            && BacktestTick(j.bt, ds).1.executedTrades == Trades(j.bt.exchange.book.inner, ds.inner[j.bt.date])
            && BookOk(bt.exchange.book)
            && bt.pos == j.bt.pos + 1 && bt.date == DateAt(ds, bt.pos) && bt.date in ds.inner
            && CacheOk(j.brk.quotes + ds.inner[bt.date], ds, bt.pos)
  {
    assert j.bt.date in ds.dates;
    TickKeepsBookOk(j.bt.exchange, ds.inner[j.bt.date]);
    CacheAdvances(j.brk.quotes, ds, j.bt.pos);
  }

  /** The broker half of settling: per symbol, both books move by what was traded. */
  lemma ReconcileKeepsBooks(j: Joint, b: Broker, row: Row)
    requires b == j.brk.(quotes := b.quotes)
    requires forall s :: Lookup(j.brk.pending, s, 0.0) == OnExchange(j.bt.exchange, s)
    requires forall s :: Lookup(j.brk.holdings, s, 0.0) == NetQuantity(j.brk.log, s)
    ensures var t := TickSpec(j.bt.exchange, row);
            var r := Reconcile(b, t.trades);
            && (forall s :: Lookup(r.pending, s, 0.0) == OnExchange(t.exchange, s))
            && (forall s :: Lookup(r.holdings, s, 0.0) == NetQuantity(j.brk.log + t.trades, s))
  {
    var t := TickSpec(j.bt.exchange, row);
    ReconcileEffect(b, t.trades);
    forall s
      ensures Lookup(Reconcile(b, t.trades).pending, s, 0.0) == OnExchange(t.exchange, s)
      ensures Lookup(Reconcile(b, t.trades).holdings, s, 0.0) == NetQuantity(j.brk.log + t.trades, s)
    {
      TickConserves(j.bt.exchange, row, s);
      NetConcat(j.brk.log, t.trades, s);
    }
  }

  /** Settling keeps the books, and every trade the exchange made arrives: the date after a tick
      always has quotes. */
  lemma SettleKeepsJointOk(j: Joint, ds: Dataset)
    requires JointOk(j, ds)
    ensures JointOk(Settle(j, ds), ds) && Priced(Settle(j, ds).brk)
    ensures Settle(j, ds).brk.log == j.brk.log + BacktestTick(j.bt, ds).1.executedTrades
    ensures Settle(j, ds).brk.cash == j.brk.cash + NetProceeds(BacktestTick(j.bt, ds).1.executedTrades)
    ensures Settle(j, ds).brk.state == j.brk.state
  {
    TickHasQuotes(j, ds);
    var (bt, tick) := BacktestTick(j.bt, ds);
    var b := j.brk.(quotes := j.brk.quotes + ds.inner[bt.date]);
    ReconcileKeepsBooks(j, b, ds.inner[j.bt.date]);
    ReconcileEffect(b, tick.executedTrades);
    forall t | t in tick.executedTrades ensures t.symbol in b.quotes {
      TradedIsQuoted(j, ds, t);
    }
    HeldIsPriced(Settle(j, ds), ds);
  }

  /** Settling without a trade leaves everything but the prices alone. */
  lemma QuietSettle(j: Joint, ds: Dataset)
    requires JointOk(j, ds) && Settle(j, ds).brk.log == j.brk.log
    ensures Settle(j, ds).brk == j.brk.(quotes := Settle(j, ds).brk.quotes)
  {
    TickHasQuotes(j, ds);
    SettleKeepsJointOk(j, ds);
    var trades := BacktestTick(j.bt, ds).1.executedTrades;
    assert |j.brk.log + trades| == |j.brk.log|;
    assert trades == [];
  }

  lemma SettlingKeepsCosts(j: Joint, ds: Dataset)
    ensures Settle(j, ds).brk.costs == j.brk.costs
  {
    var (bt, tick) := BacktestTick(j.bt, ds);
    var fetched := GetQuotes(ds, bt.date);
    if fetched.Some? {
      ReconcileEffect(j.brk.(quotes := j.brk.quotes + fetched.value), tick.executedTrades);
    }
  }

  lemma CheckKeepsJointOk(j: Joint, ds: Dataset, keys: seq<Symbol>)
    requires JointOk(j, ds) && CanRebalance(Settle(j, ds).brk) && IsEnumeration(keys, Settle(j, ds).brk.holdings.Keys)
    ensures JointOk(Check(j, ds, keys), ds)
  {
    SettleKeepsJointOk(j, ds);
    RebalanceKeepsJointOk(Settle(j, ds), ds, keys);
  }

  /** A fresh broker on a fresh backtest starts with its books in order. */
  lemma StartsJointOk(ds: Dataset, id: nat, name: string, costs: seq<Costs.Cost>)
    requires DatasetSound(ds)
    ensures ds.dates[0] in ds.inner
    ensures JointOk(Joint(FreshBroker(ds.inner[ds.dates[0]], costs), FreshBacktest(id, ds, name)), ds)
  {
    var first := ds.dates[0];
    assert first in ds.dates && Coherent(ds);
  }
}
