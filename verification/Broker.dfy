/** The broker, specified on values: what each operation makes of the broker and of the backtest
    it trades against. */
module BrokerModel {
  import opened Prelude
  import opened Penelope
  import opened Uist
  import opened UistServer
  import opened Costs

  datatype BrokerState = Ready | Failed

  datatype Broker = Broker(
    cash: real,
    holdings: map<Symbol, real>,
    pending: map<Symbol, real>,
    lastSeenTrade: nat,
    quotes: map<Symbol, Quote>,
    log: seq<Trade>,
    costs: seq<Cost>,
    state: BrokerState)

  datatype CashEvent =
    | WithdrawSuccess(amount: real)
    | WithdrawFailure(amount: real)
    | DepositSuccess(amount: real)
    | OperationFailure(amount: real)

  datatype OrderEvent = OrderSentToExchange(order: Order) | OrderInvalid(order: Order)

  /** The broker together with the one backtest it drives. */
  datatype Joint = Joint(brk: Broker, bt: Backtest)

  /** The smallest cash balance a rebalancing aims for. */
  const BUFFER := 1000.0

  function FreshBroker(quotes: Row, costs: seq<Cost>): Broker {
    Broker(0.0, map[], map[], 0, quotes, [], costs, Ready)
  }

  // ---------- valuation ----------

  function PositionValue(b: Broker, s: Symbol): Option<real> {
    if s in b.quotes && s in b.holdings then Some(b.quotes[s].bid * b.holdings[s]) else None
  }

  /** Division as far as the model goes: a zero divisor, infinite in floating point, gives zero. */
  function Quotient(a: real, b: real): real {
    if b == 0.0 then 0.0 else a / b
  }

  function PositionLiquidationValue(b: Broker, s: Symbol): Option<real> {
    var value := PositionValue(b, s);
    if value.None? then None
    else Some(ImpactTotal(b.costs, Terms(value.value, Quotient(value.value, b.holdings[s])), false).budget)
  }

  function OrZero(x: Option<real>): real {
    if x.Some? then x.value else 0.0
  }

  /** Cash plus every position after costs, the positions visited in the order of `keys`. */
  function LiquidationValue(b: Broker, keys: seq<Symbol>): real {
    if keys == [] then b.cash
    else LiquidationValue(b, keys[..|keys| - 1]) + OrZero(PositionLiquidationValue(b, keys[|keys| - 1]))
  }

  function TotalValue(b: Broker, keys: seq<Symbol>): real {
    if keys == [] then b.cash
    else TotalValue(b, keys[..|keys| - 1]) + OrZero(PositionValue(b, keys[|keys| - 1]))
  }

  // ---------- cash ----------

  function Debit(b: Broker, x: real): (Broker, CashEvent) {
    if x > b.cash then (b, WithdrawFailure(x)) else (b.(cash := b.cash - x), WithdrawSuccess(x))
  }

  function WithdrawCash(b: Broker, x: real): (Broker, CashEvent) {
    match b.state
    case Failed => (b, OperationFailure(x))
    case Ready => if x > b.cash then (b, WithdrawFailure(x)) else (Debit(b, x).0, WithdrawSuccess(x))
  }

  function DepositCash(b: Broker, x: real): (Broker, CashEvent) {
    match b.state
    case Failed => (b, OperationFailure(x))
    case Ready => (b.(cash := x + b.cash), DepositSuccess(x))
  }

  // ---------- orders ----------

  /** What the code takes for granted of an order: a broker that is still trading looks up the
      quote of the symbol and only knows market orders. */
  predicate Sendable(b: Broker, o: Order) {
    b.state.Ready? ==> o.symbol in b.quotes && IsMarket(o)
  }

  predicate HasCash(b: Broker, o: Order)
    requires o.symbol in b.quotes
  {
    IsSell(o) || b.cash > o.shares * b.quotes[o.symbol].ask
  }

  predicate HasHolding(b: Broker, o: Order) {
    IsSell(o) && o.symbol in b.holdings ==> b.holdings[o.symbol] >= o.shares
  }

  predicate Accepts(b: Broker, o: Order)
    requires Sendable(b, o)
  {
    b.state.Ready? && HasCash(b, o) && HasHolding(b, o) && o.shares != 0.0
  }

  function Effect(o: Order): real {
    if IsSell(o) then -o.shares else o.shares
  }

  function SendOrder(j: Joint, o: Order): (Joint, OrderEvent)
    requires Sendable(j.brk, o)
  {
    if Accepts(j.brk, o) then
      (Joint(j.brk.(pending := j.brk.pending[o.symbol := Lookup(j.brk.pending, o.symbol, 0.0) + Effect(o)]),
             j.bt.(exchange := Insert(j.bt.exchange, o))),
       OrderSentToExchange(o))
    else (j, OrderInvalid(o))
  }

  function SendOrders(j: Joint, os: seq<Order>): (r: Joint)
    requires forall o :: o in os ==> Sendable(j.brk, o)
    ensures r.brk == j.brk.(pending := r.brk.pending)
  {
    if os == [] then j
    else
      var n := |os| - 1;
      assert forall o :: o in os[..n] ==> o in os;
      var sent := SendOrders(j, os[..n]);
      assert Sendable(j.brk, os[n]);
      SendOrder(sent, os[n]).0
  }

  // ---------- liquidation ----------

  function Ceil(x: real): int {
    -((-x).Floor)
  }

  datatype Liquidation = Liquidation(orders: seq<Order>, left: real, done: bool)

  /** One position considered for sale: all of it when it is worth no more than what is still
      needed, otherwise just enough, rounding the price up, and then no other. */
  function LiquidateOne(b: Broker, l: Liquidation, s: Symbol): Liquidation
    requires s in b.quotes
  {
    var value := OrZero(PositionValue(b, s));
    if l.done then l
    else if value <= l.left then
      if s in b.holdings then
        Liquidation(l.orders + [MarketSellOrder(s, b.holdings[s])], l.left - value, false)
      else l
    else
      Liquidation(l.orders + [MarketSellOrder(s, Quotient(l.left, Ceil(b.quotes[s].bid) as real))], 0.0, true)
  }

  function Liquidate(b: Broker, keys: seq<Symbol>, x: real): (r: Liquidation)
    requires forall s :: s in keys ==> s in b.quotes
    ensures forall o :: o in r.orders ==> o.symbol in keys && o.orderType == MarketSell
  {
    if keys == [] then Liquidation([], x, false)
    else LiquidateOne(b, Liquidate(b, keys[..|keys| - 1], x), keys[|keys| - 1])
  }

  /** Every held symbol has a price. */
  predicate Priced(b: Broker) {
    b.holdings.Keys <= b.quotes.Keys
  }

  function WithdrawWithLiquidation(j: Joint, x: real, keys: seq<Symbol>): (Joint, CashEvent)
    requires Priced(j.brk) && IsEnumeration(keys, j.brk.holdings.Keys)
  {
    var plan := Liquidate(j.brk, keys, x);
    if x > LiquidationValue(j.brk, keys) || plan.left != 0.0 then
      (j.(brk := Debit(j.brk, x).0), WithdrawFailure(x))
    else (SendOrders(j, plan.orders), WithdrawSuccess(x))
  }

  /** Only a negative balance makes a rebalancing look at positions, and then at their prices. */
  predicate CanRebalance(b: Broker) {
    b.cash < 0.0 ==> Priced(b)
  }

  function RebalanceCash(j: Joint, keys: seq<Symbol>): Joint
    requires CanRebalance(j.brk) && IsEnumeration(keys, j.brk.holdings.Keys)
  {
    if j.brk.cash < 0.0 then
      var (j', event) := WithdrawWithLiquidation(j, -j.brk.cash + BUFFER, keys);
      if event.WithdrawFailure? then j'.(brk := j'.brk.(state := Failed)) else j'
    else j
  }

  // ---------- reconciling with the exchange ----------

  function SignedQuantity(t: Trade): real {
    if t.typ.Sell? then -t.quantity else t.quantity
  }

  function CashEffect(t: Trade): real {
    if t.typ.Sell? then t.value else -t.value
  }

  /** An entry that reaches zero is dropped. */
  function Settled(m: map<Symbol, real>, s: Symbol, x: real): map<Symbol, real> {
    if x == 0.0 then m - {s} else m[s := x]
  }

  function ApplyTrade(b: Broker, t: Trade): Broker {
    b.(cash := b.cash + CashEffect(t),
       log := b.log + [t],
       holdings := Settled(b.holdings, t.symbol, Lookup(b.holdings, t.symbol, 0.0) + SignedQuantity(t)),
       pending := Settled(b.pending, t.symbol, Lookup(b.pending, t.symbol, 0.0) - SignedQuantity(t)),
       lastSeenTrade := b.lastSeenTrade + 1)
  }

  function Reconcile(b: Broker, ts: seq<Trade>): Broker {
    if ts == [] then b else ApplyTrade(Reconcile(b, ts[..|ts| - 1]), ts[|ts| - 1])
  }

  /** The first half of `check`: tick the backtest, take in the new prices and settle the trades.
      Were there no quotes for the new date, the trades would be dropped. */
  function Settle(j: Joint, ds: Dataset): Joint {
    var (bt, tick) := BacktestTick(j.bt, ds);
    var fetched := GetQuotes(ds, bt.date);
    Joint(if fetched.Some? then Reconcile(j.brk.(quotes := j.brk.quotes + fetched.value), tick.executedTrades) else j.brk, bt)
  }

  function Check(j: Joint, ds: Dataset, keys: seq<Symbol>): Joint
    requires CanRebalance(Settle(j, ds).brk) && IsEnumeration(keys, Settle(j, ds).brk.holdings.Keys)
  {
    RebalanceCash(Settle(j, ds), keys)
  }

  lemma SentOneMore(start: Joint, init: seq<Order>, o: Order)
    requires Sendable(start.brk, o) && forall k :: k in init ==> Sendable(start.brk, k)
    ensures SendOrders(start, init + [o]) == SendOrder(SendOrders(start, init), o).0
  {
    assert (init + [o])[..|init|] == init;
  }

  /** What is pending does not matter to whether an order is accepted. */
  lemma AcceptsAlike(b: Broker, b': Broker, o: Order)
    requires b' == b.(pending := b'.pending) && Sendable(b, o)
    ensures Accepts(b', o) <==> Accepts(b, o)
  {
  }

  // ---------- what the client is answered ----------

  /** Withdrawals are answered by the state and the balance, and cash moves only with success. */
  lemma WithdrawAnswer(b: Broker, x: real)
    ensures var (r, event) := WithdrawCash(b, x);
            && (event == WithdrawSuccess(x) <==> b.state.Ready? && x <= b.cash)
            && (event == WithdrawFailure(x) <==> b.state.Ready? && x > b.cash)
            && (event == OperationFailure(x) <==> b.state.Failed?)
            && r == b.(cash := if event.WithdrawSuccess? then b.cash - x else b.cash)
  {
  }

  /** A deposit succeeds unless the broker has failed. */
  lemma DepositAnswer(b: Broker, x: real)
    ensures var (r, event) := DepositCash(b, x);
            && (event == DepositSuccess(x) <==> b.state.Ready?)
            && (event == OperationFailure(x) <==> b.state.Failed?)
            && r == b.(cash := if event.DepositSuccess? then b.cash + x else b.cash)
  {
  }

  /** Internal debits look at the balance alone, whatever the state. */
  lemma DebitAnswer(b: Broker, x: real)
    ensures var (r, event) := Debit(b, x);
            && (event == WithdrawSuccess(x) <==> x <= b.cash)
            && (event == WithdrawFailure(x) <==> x > b.cash)
            && r == b.(cash := if event.WithdrawSuccess? then b.cash - x else b.cash)
  {
  }

  /** In amounts: a trading broker sends a purchase exactly when it is for something and the cash
      exceeds what it costs at the ask, and a sale exactly when it is for something and nothing is
      held of the symbol, or enough.  An order sent waits on the exchange and is pending; otherwise
      it is called invalid and nothing changes. */
  lemma SentWhen(j: Joint, o: Order)
    requires Sendable(j.brk, o) && j.brk.state.Ready?
    ensures var (r, event) := SendOrder(j, o);
            var b := j.brk;
            && (o.orderType == MarketBuy ==>
                  (event == OrderSentToExchange(o) <==> o.shares != 0.0 && b.cash > o.shares * b.quotes[o.symbol].ask))
            && (o.orderType == MarketSell ==>
                  (event == OrderSentToExchange(o) <==>
                     o.shares != 0.0 && (o.symbol in b.holdings ==> b.holdings[o.symbol] >= o.shares)))
            && if event == OrderSentToExchange(o) then
                 && r.bt == j.bt.(exchange := j.bt.exchange.(buffer := j.bt.exchange.buffer + [o]))
                 && r.brk == b.(pending := r.brk.pending)
                 && Lookup(r.brk.pending, o.symbol, 0.0)
                    == Lookup(b.pending, o.symbol, 0.0) + (if o.orderType == MarketSell then -o.shares else o.shares)
                 && r.brk.pending - {o.symbol} == b.pending - {o.symbol}
               else (r, event) == (j, OrderInvalid(o))
  {
  }

  /** A failed broker sends nothing at all. */
  lemma FailedSendsNothing(j: Joint, o: Order)
    requires Sendable(j.brk, o) && j.brk.state.Failed?
    ensures SendOrder(j, o) == (j, OrderInvalid(o))
  {
  }

  /** With 100 in cash a purchase of 20 at 10 is turned down, and so is one of 10. */
  lemma UnaffordableExample(j: Joint, shares: real)
    requires j.brk.cash == 100.0 && j.brk.state.Ready? && (shares == 10.0 || shares == 20.0)
    requires "ABC" in j.brk.quotes && j.brk.quotes["ABC"].ask == 10.0
    ensures SendOrder(j, MarketBuyOrder("ABC", shares)) == (j, OrderInvalid(MarketBuyOrder("ABC", shares)))
  {
    SentWhen(j, MarketBuyOrder("ABC", shares));
  }
}
