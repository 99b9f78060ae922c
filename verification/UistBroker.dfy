/** The broker object, proved against the specification of the broker. */
module UistBroker {
  import opened Prelude
  import opened Penelope
  import opened Uist
  import opened UistServer
  import opened Costs
  import opened BrokerModel
  import opened BrokerLedger
  import opened CostBasis
  import opened Rebalance
  import opened LiquidationBounds

  /** Two servers that agree on everything but one backtest, and on which dataset that one uses. */
  ghost predicate SameElsewhere(s: Server, s': Server, id: nat) {
    && s'.last == s.last && s'.datasets == s.datasets && s'.backtests.Keys == s.backtests.Keys
    && forall i :: i in s.backtests && i != id ==> s'.backtests[i] == s.backtests[i]
  }

  lemma PositionIs(b: Broker, s: Symbol, price: real, shares: real, value: real)
    requires s in b.quotes && s in b.holdings && b.quotes[s].bid == price && b.holdings[s] == shares
    requires value == price * shares
    ensures PositionValue(b, s) == Some(value)
  {
    var worth := PositionValue(b, s).value;
    assert worth == price * shares;
  }

  function Queued(b: Broker, o: Order): Broker {
    b.(pending := b.pending[o.symbol := Lookup(b.pending, o.symbol, 0.0) + Effect(o)])
  }

  function TakenIn(b: Broker, quotes: Option<Row>, trades: seq<Trade>): Broker {
    if quotes.Some? then Reconcile(b.(quotes := b.quotes + quotes.value), trades) else b
  }

  lemma Settling(j: Joint, ds: Dataset, bt: Backtest, tick: TickResult)
    requires (bt, tick) == BacktestTick(j.bt, ds)
    ensures Settle(j, ds) == Joint(TakenIn(j.brk, GetQuotes(ds, bt.date), tick.executedTrades), bt)
  {
  }

  lemma Rebalanced(j: Joint, x: real, keys: seq<Symbol>, j': Joint, event: CashEvent)
    requires Priced(j.brk) && IsEnumeration(keys, j.brk.holdings.Keys) && j.brk.cash < 0.0
    requires x == -j.brk.cash + BUFFER && (j', event) == WithdrawWithLiquidation(j, x, keys)
    ensures RebalanceCash(j, keys)
            == j'.(brk := j'.brk.(state := if event.WithdrawFailure? then Failed else j'.brk.state))
  {
  }

  lemma Dispatched(j: Joint, o: Order)
    requires Sendable(j.brk, o)
    ensures BrokerModel.SendOrder(j, o)
            == if Accepts(j.brk, o) then (Joint(Queued(j.brk, o), j.bt.(exchange := Insert(j.bt.exchange, o))), OrderSentToExchange(o))
               else (j, OrderInvalid(o))
  {
  }

  ghost function Answers(b: Broker, os: seq<Order>): (r: seq<OrderEvent>)
    requires forall o :: o in os ==> Sendable(b, o)
    ensures |r| == |os|
  {
    seq(|os|, i requires 0 <= i < |os| =>
      assert os[i] in os; if Accepts(b, os[i]) then OrderSentToExchange(os[i]) else OrderInvalid(os[i]))
  }

  lemma Answered(start: Joint, before: Joint, init: seq<Order>, o: Order)
    requires Sendable(start.brk, o) && forall k :: k in init ==> Sendable(start.brk, k)
    requires before == BrokerModel.SendOrders(start, init)
    ensures Answers(start.brk, init + [o]) == Answers(start.brk, init) + [BrokerModel.SendOrder(before, o).1]
  {
    Dispatched(before, o);
    AcceptsAlike(start.brk, before.brk, o);
  }

  lemma PriceOf(b: Broker, o: Order, price: real, value: real)
    requires o.symbol in b.quotes && b.quotes[o.symbol].ask == price && value == o.shares * price
    ensures HasCash(b, o) <==> IsSell(o) || b.cash > value
  {
  }

  lemma {:induction false} DoneStays(b: Broker, keys: seq<Symbol>, i: nat, x: real)
    requires i <= |keys| && (forall s :: s in keys ==> s in b.quotes)
    requires (forall s :: s in keys[..i] ==> s in b.quotes) && Liquidate(b, keys[..i], x).done
    ensures Liquidate(b, keys, x) == Liquidate(b, keys[..i], x)
  {
    if i == |keys| {
      assert keys[..i] == keys;
    } else {
      var n := |keys| - 1;
      assert keys[..n][..i] == keys[..i];
      DoneStays(b, keys[..n], i, x);
    }
  }

  lemma {:induction false} StoppedStays(b: Broker, weights: map<Symbol, real>, total: real, keys: seq<Symbol>, i: nat)
    requires i <= |keys| && (forall s :: s in keys ==> s in weights)
    requires (forall s :: s in keys[..i] ==> s in weights) && MakePlan(b, weights, total, keys[..i]).stopped
    ensures MakePlan(b, weights, total, keys) == MakePlan(b, weights, total, keys[..i])
  {
    if i == |keys| {
      assert keys[..i] == keys;
    } else {
      var n := |keys| - 1;
      assert keys[..n][..i] == keys[..i];
      StoppedStays(b, weights, total, keys[..n], i);
    }
  }

  lemma DifferenceIs(b: Broker, weights: map<Symbol, real>, total: real, s: Symbol, target: real, diff: real)
    requires s in weights && target == total * weights[s] && diff == target - OrZero(PositionValue(b, s))
    ensures diff == Difference(b, weights, total, s)
  {
  }

  class UistBroker {
    var cash: real
    var holdings: map<Symbol, real>
    var pendingOrders: map<Symbol, real>
    var lastSeenTrade: nat
    var latestQuotes: map<Symbol, Quote>
    const log: UistBrokerLog
    const tradeCosts: seq<Cost>
    var brokerState: BrokerState
    const httpClient: AppState
    const backtestId: nat

    /** The client is the broker's own, and knows the backtest and its dataset. */
    ghost predicate Valid()
      reads httpClient, httpClient.Repr
    {
      && this !in httpClient.Repr && log !in httpClient.Repr
      && httpClient.Valid()
      && backtestId in httpClient.backtests
      && httpClient.backtests[backtestId].datasetName in httpClient.datasets
    }

    ghost function View(): Broker
      reads this, log
    {
      Broker(cash, holdings, pendingOrders, lastSeenTrade, latestQuotes, log.log, tradeCosts, brokerState)
    }

    /** The backtest this broker drives, as the server has it. */
    ghost function Remote(): Backtest
      requires Valid()
      reads httpClient, httpClient.Repr
    {
      httpClient.backtests[backtestId].View()
    }

    ghost function Both(): Joint
      requires Valid()
      reads this, log, httpClient, httpClient.Repr
    {
      Joint(View(), Remote())
    }

    ghost function Data(): Dataset
      requires Valid()
      reads httpClient, httpClient.Repr
    {
      httpClient.datasets[httpClient.backtests[backtestId].datasetName]
    }

    /** Nothing but the broker's own backtest has changed on the server. */
    twostate predicate Elsewhere()
      requires old(Valid()) && Valid()
      reads httpClient, httpClient.Repr
    {
      && httpClient.Repr == old(httpClient.Repr) && Data() == old(Data())
      && SameElsewhere(old(httpClient.View()), httpClient.View(), backtestId)
    }

    constructor (client: AppState, backtestId: nat, costs: seq<Cost>)
      requires client.Valid() && backtestId in client.backtests
      requires client.backtests[backtestId].datasetName in client.datasets
      requires client.backtests[backtestId].date in client.datasets[client.backtests[backtestId].datasetName].inner
      ensures Valid() && httpClient == client && this.backtestId == backtestId
      ensures Remote() == client.View().backtests[backtestId]
      ensures View() == FreshBroker(Data().inner[Remote().date], costs)
    {
      var quotes := client.FetchQuotes(backtestId);
      httpClient, this.backtestId, tradeCosts := client, backtestId, costs;
      cash, holdings, pendingOrders, lastSeenTrade, brokerState := 0.0, map[], map[], 0, Ready;
      log := new UistBrokerLog();
      latestQuotes := quotes.value;
    }

    /** Changes to the broker's own fields leave the server alone. */
    twostate lemma Undisturbed()
      requires old(Valid()) && forall o :: o in old(httpClient.Repr) ==> unchanged(o)
      ensures Valid() && Elsewhere() && Remote() == old(Remote()) && Data() == old(Data())
      ensures httpClient.Repr == old(httpClient.Repr) && httpClient.View() == old(httpClient.View())
    {
      assert httpClient.View().backtests == old(httpClient.View()).backtests;
    }

    // ---------- the client ----------

    method Place(order: Order)
      requires Valid()
      modifies httpClient.Repr
      ensures Valid() && Elsewhere()
      ensures Remote() == old(Remote()).(exchange := Insert(old(Remote()).exchange, order))
    {
      var _ := httpClient.InsertOrder(order, backtestId);
    }

    method Tick() returns (r: TickResult)
      requires Valid()
      modifies httpClient.Repr
      ensures Valid() && Elsewhere()
      ensures (Remote(), r) == BacktestTick(old(Remote()), Data())
    {
      var tick := httpClient.Tick(backtestId);
      r := tick.value;
    }

    method Fetch() returns (r: Option<Row>)
      requires Valid()
      ensures r == GetQuotes(Data(), Remote().date)
    {
      r := httpClient.FetchQuotes(backtestId);
    }

    /** Both halves of the clock the strategy reads. */
    method Now() returns (r: Clock)
      requires Valid()
      ensures r == Clock(Remote().date, HasNext(Data(), Remote().pos))
    {
      var clock := httpClient.CurrentTime(backtestId);
      r := clock.value;
    }

    // ---------- cash ----------

    method Credit(value: real) returns (event: CashEvent)
      modifies this`cash
      ensures cash == old(cash) + value && event == DepositSuccess(value)
    {
      cash := value + cash;
      event := DepositSuccess(value);
    }

    method Debit(value: real) returns (event: CashEvent)
      modifies this`cash
      ensures (View(), event) == BrokerModel.Debit(old(View()), value)
    {
      if value > cash {
        return WithdrawFailure(value);
      }
      cash := cash - value;
      event := WithdrawSuccess(value);
    }

    method DebitForce(value: real) returns (event: CashEvent)
      modifies this`cash
      ensures cash == old(cash) - value && event == WithdrawSuccess(value)
    {
      cash := cash - value;
      event := WithdrawSuccess(value);
    }

    method WithdrawCash(amount: real) returns (event: CashEvent)
      modifies this`cash
      ensures (View(), event) == BrokerModel.WithdrawCash(old(View()), amount)
    {
      match brokerState {
        case Failed => event := OperationFailure(amount);
        case Ready =>
          if amount > cash {
            return WithdrawFailure(amount);
          }
          var _ := Debit(amount);
          event := WithdrawSuccess(amount);
      }
    }

    method DepositCash(amount: real) returns (event: CashEvent)
      modifies this`cash
      ensures (View(), event) == BrokerModel.DepositCash(old(View()), amount)
    {
      match brokerState {
        case Failed => event := OperationFailure(amount);
        case Ready =>
          var _ := Credit(amount);
          event := DepositSuccess(amount);
      }
    }

    // ---------- valuation ----------

    method GetLiquidationValue(keys: seq<Symbol>) returns (value: real)
      ensures value == LiquidationValue(View(), keys)
    {
      value := cash;
      for i := 0 to |keys|
        invariant value == LiquidationValue(View(), keys[..i])
      {
        assert keys[..i + 1][..i] == keys[..i];
        var v := PositionValueOf(keys[i]);
        if v.Some? {
          var price := Quotient(v.value, holdings[keys[i]]);
          var net, _ := TradeImpactTotal(tradeCosts, v.value, price, false);
          value := value + net;
        }
      }
      assert keys[..|keys|] == keys;
    }

    method GetTotalValue(keys: seq<Symbol>) returns (value: real)
      ensures value == TotalValue(View(), keys)
    {
      value := cash;
      for i := 0 to |keys|
        invariant value == TotalValue(View(), keys[..i])
      {
        assert keys[..i + 1][..i] == keys[..i];
        var v := PositionValueOf(keys[i]);
        if v.Some? {
          value := value + v.value;
        }
      }
      assert keys[..|keys|] == keys;
    }

    method PositionValueOf(symbol: Symbol) returns (value: Option<real>)
      ensures value == PositionValue(View(), symbol)
      ensures value.Some? ==> symbol in holdings
    {
      if symbol in latestQuotes && symbol in holdings {
        var price, shares := latestQuotes[symbol].bid, holdings[symbol];
        PositionIs(View(), symbol, price, shares, price * shares);
        return Some(price * shares);
      }
      return None;
    }

    // ---------- orders ----------

    /** A broker that is still trading makes three checks on an order. */
    method Passes(order: Order) returns (ok: bool)
      requires Sendable(View(), order)
      ensures ok == Accepts(View(), order)
    {
      if brokerState.Failed? {
        return false;
      }
      var quote := latestQuotes[order.symbol];
      var value := order.shares * if IsSell(order) then quote.bid else quote.ask;
      PriceOf(View(), order, quote.ask, order.shares * quote.ask);
      if !IsSell(order) && cash <= value {
        return false;
      }
      if IsSell(order) && order.symbol in holdings && holdings[order.symbol] < order.shares {
        return false;
      }
      return order.shares != 0.0;
    }

    method AddPending(order: Order)
      modifies this`pendingOrders
      ensures View() == Queued(old(View()), order)
    {
      var orderEffect := if IsSell(order) then -order.shares else order.shares;
      if order.symbol in pendingOrders {
        var existing := pendingOrders[order.symbol] + orderEffect;
        pendingOrders := pendingOrders[order.symbol := existing];
      } else {
        pendingOrders := pendingOrders[order.symbol := orderEffect];
      }
    }

    /** Sends an accepted order, and counts it as pending. */
    method Queue(order: Order)
      requires Valid()
      modifies this`pendingOrders, httpClient.Repr
      ensures Valid() && Elsewhere()
      ensures View() == Queued(old(View()), order)
      ensures Remote() == old(Remote()).(exchange := Insert(old(Remote()).exchange, order))
    {
      Place(order);
      label placed:
      AddPending(order);
      Undisturbed@placed();
    }

    method SendOrder(order: Order) returns (event: OrderEvent)
      requires Valid() && Sendable(View(), order)
      modifies this`pendingOrders, httpClient.Repr
      ensures Valid() && Elsewhere()
      ensures (Both(), event) == BrokerModel.SendOrder(old(Both()), order)
    {
      var accepted := Passes(order);
      Dispatched(Both(), order);
      if !accepted {
        Undisturbed();
        return OrderInvalid(order);
      }
      Queue(order);
      return OrderSentToExchange(order);
    }

    /** One more order of a list: `sent` are those before it, `server` the server before them all. */
    method SendNext(ghost start: Joint, ghost server: Server, ghost sent: seq<Order>, order: Order) returns (event: OrderEvent)
      requires Valid() && Sendable(start.brk, order) && forall o :: o in sent ==> Sendable(start.brk, o)
      requires Both() == BrokerModel.SendOrders(start, sent)
      requires SameElsewhere(server, httpClient.View(), backtestId)
      modifies this`pendingOrders, httpClient.Repr
      ensures Valid() && httpClient.Repr == old(httpClient.Repr) && Data() == old(Data())
      ensures SameElsewhere(server, httpClient.View(), backtestId)
      ensures forall o :: o in sent + [order] ==> Sendable(start.brk, o)
      ensures Both() == BrokerModel.SendOrders(start, sent + [order])
      ensures Answers(start.brk, sent + [order]) == Answers(start.brk, sent) + [event]
    {
      ghost var before := Both();
      Answered(start, before, sent, order);
      SentOneMore(start, sent, order);
      event := SendOrder(order);
    }

    /** The events tell, order by order, whether the broker as it is accepts it: nothing sent on the
        way changes that. */
    method SendOrders(orders: seq<Order>) returns (events: seq<OrderEvent>)
      requires Valid() && forall o :: o in orders ==> Sendable(View(), o)
      modifies this`pendingOrders, httpClient.Repr
      ensures Valid() && Elsewhere()
      ensures Both() == BrokerModel.SendOrders(old(Both()), orders)
      ensures events == Answers(old(View()), orders)
    {
      ghost var start, server := Both(), httpClient.View();
      events := [];
      for i := 0 to |orders|
        invariant Valid() && httpClient.Repr == old(httpClient.Repr) && Data() == old(Data())
        invariant SameElsewhere(server, httpClient.View(), backtestId)
        invariant forall o :: o in orders[..i] ==> Sendable(start.brk, o)
        invariant Both() == BrokerModel.SendOrders(start, orders[..i])
        invariant events == Answers(start.brk, orders[..i])
      {
        assert orders[i] in orders;
        assert orders[..i + 1] == orders[..i] + [orders[i]];
        var event := SendNext(start, server, orders[..i], orders[i]);
        events := events + [event];
      }
      assert orders[..|orders|] == orders;
    }

    // ---------- liquidation ----------

    /** Sells position after position until `cash` is raised; stops at the one sold in part. */
    method PlanSales(positions: seq<Symbol>, cash: real) returns (sellOrders: seq<Order>, totalSold: real)
      requires forall s :: s in positions ==> s in latestQuotes
      ensures sellOrders == Liquidate(View(), positions, cash).orders
      ensures totalSold == Liquidate(View(), positions, cash).left
    {
      totalSold, sellOrders := cash, [];
      ghost var b := View();
      var i := 0;
      while i < |positions|
        invariant i <= |positions|
        invariant forall s :: s in positions[..i] ==> s in latestQuotes
        invariant Liquidate(b, positions[..i], cash) == Liquidation(sellOrders, totalSold, false)
      {
        assert positions[..i + 1][..i] == positions[..i];
        var ticker := positions[i];
        assert ticker in latestQuotes;
        var value := PositionValueOf(ticker);
        var positionValue := if value.Some? then value.value else 0.0;
        if positionValue <= totalSold {
          if ticker in holdings {
            sellOrders := sellOrders + [MarketSellOrder(ticker, holdings[ticker])];
            totalSold := totalSold - positionValue;
          }
        } else {
          var sharesReq := Quotient(totalSold, Ceil(latestQuotes[ticker].bid) as real);
          sellOrders := sellOrders + [MarketSellOrder(ticker, sharesReq)];
          totalSold := 0.0;
          assert Liquidate(b, positions[..i + 1], cash) == Liquidation(sellOrders, totalSold, true);
          DoneStays(b, positions, i + 1, cash);
          return;
        }
        i := i + 1;
      }
      assert positions[..i] == positions;
    }

    /** `positions` is the order in which the hash map of holdings happens to be visited. */
    method WithdrawCashWithLiquidation(cash: real) returns (event: CashEvent, ghost positions: seq<Symbol>)
      requires Valid() && Priced(View())
      modifies this`cash, this`pendingOrders, httpClient.Repr
      ensures Valid() && Elsewhere()
      ensures IsEnumeration(positions, old(holdings).Keys)
      ensures (Both(), event) == WithdrawWithLiquidation(old(Both()), cash, positions)
    {
      var keys := Enumerate(holdings.Keys);
      positions := keys;
      var value := GetLiquidationValue(keys);
      var sellOrders, totalSold := PlanSales(keys, cash);
      if cash > value || totalSold != 0.0 {
        var _ := Debit(cash);
        Undisturbed();
        return WithdrawFailure(cash), positions;
      }
      var _ := SendOrders(sellOrders);
      event := WithdrawSuccess(cash);
    }

    method RebalanceCash() returns (ghost positions: seq<Symbol>)
      requires Valid() && CanRebalance(View())
      modifies this`cash, this`pendingOrders, this`brokerState, httpClient.Repr
      ensures Valid() && Elsewhere()
      ensures IsEnumeration(positions, old(holdings).Keys)
      ensures Both() == BrokerModel.RebalanceCash(old(Both()), positions)
    {
      ghost var before := Both();
      if cash < 0.0 {
        var shortfall := cash * -1.0;
        var plusBuffer := shortfall + BUFFER;
        var res;
        res, positions := WithdrawCashWithLiquidation(plusBuffer);
        ghost var after := Both();
        FailUnlessRaised(res);
        Rebalanced(before, plusBuffer, positions, after, res);
      } else {
        positions := Enumerate(holdings.Keys);
        Undisturbed();
      }
    }

    method FailUnlessRaised(event: CashEvent)
      requires Valid()
      modifies this`brokerState
      ensures View() == old(View()).(state := if event.WithdrawFailure? then Failed else old(brokerState))
      ensures Valid() && Remote() == old(Remote()) && Data() == old(Data())
      ensures httpClient.Repr == old(httpClient.Repr) && httpClient.View() == old(httpClient.View())
    {
      if event.WithdrawFailure? {
        brokerState := Failed;
      }
      Undisturbed();
    }

    // ---------- reconciling with the exchange ----------

    method UpdateHoldings(symbol: Symbol, change: real)
      modifies this`holdings
      ensures holdings == Settled(old(holdings), symbol, change)
    {
      if change == 0.0 {
        holdings := holdings - {symbol};
      } else {
        holdings := holdings[symbol := change];
      }
    }

    method RecordTrade(trade: Trade)
      modifies this`cash, this`holdings, this`pendingOrders, this`lastSeenTrade, log
      ensures View() == ApplyTrade(old(View()), trade)
    {
      match trade.typ {
        case Buy => var _ := DebitForce(trade.value);
        case Sell => var _ := Credit(trade.value);
      }
      log.Record(trade);
      var currPosition := Lookup(holdings, trade.symbol, 0.0);
      UpdateHoldings(trade.symbol, if trade.typ.Buy? then currPosition + trade.quantity else currPosition - trade.quantity);
      var pending := Lookup(pendingOrders, trade.symbol, 0.0);
      var updatedPending := if trade.typ.Buy? then pending - trade.quantity else pending + trade.quantity;
      if updatedPending == 0.0 {
        pendingOrders := pendingOrders - {trade.symbol};
      } else {
        pendingOrders := pendingOrders[trade.symbol := updatedPending];
      }
      lastSeenTrade := lastSeenTrade + 1;
    }

    method RecordTrades(trades: seq<Trade>)
      modifies this`cash, this`holdings, this`pendingOrders, this`lastSeenTrade, log
      ensures View() == Reconcile(old(View()), trades)
    {
      ghost var start := View();
      for i := 0 to |trades|
        invariant View() == Reconcile(start, trades[..i])
      {
        assert trades[..i + 1][..i] == trades[..i];
        RecordTrade(trades[i]);
      }
      assert trades[..|trades|] == trades;
    }

    method UpdatePrices(row: Row)
      modifies this`latestQuotes
      ensures View() == old(View()).(quotes := old(latestQuotes) + row)
    {
      var symbols := Enumerate(row.Keys);
      for i := 0 to |symbols|
        invariant forall s :: s in latestQuotes <==> s in old(latestQuotes) || s in symbols[..i]
        invariant forall s :: s in latestQuotes ==>
          latestQuotes[s] == if s in symbols[..i] then row[s] else old(latestQuotes)[s]
      {
        assert symbols[i] in symbols;
        latestQuotes := latestQuotes[symbols[i] := row[symbols[i]]];
      }
      assert symbols[..|symbols|] == symbols;
      assert latestQuotes == old(latestQuotes) + row;
    }

    /** One tick of the whole system.  Books that are in order before are in order after; and then
        the prices a rebalancing may need are there. */
    method Check() returns (ghost positions: seq<Symbol>)
      requires Valid() && CanRebalance(Settle(Both(), Data()).brk)
      modifies this, log, httpClient.Repr
      ensures Valid() && Elsewhere()
      ensures IsEnumeration(positions, Settle(old(Both()), Data()).brk.holdings.Keys)
      ensures Both() == BrokerModel.Check(old(Both()), Data(), positions)
      ensures JointOk(old(Both()), Data()) ==> JointOk(Both(), Data())
    {
      ghost var before := Both();
      SettleAll();
      positions := RebalanceCash();
      if JointOk(before, Data()) {
        CheckKeepsJointOk(before, Data(), positions);
      }
    }

    /** The first half of `Check`. */
    method SettleAll()
      requires Valid()
      modifies this, log, httpClient.Repr
      ensures Valid() && Elsewhere()
      ensures Both() == Settle(old(Both()), Data())
    {
      ghost var before := Both();
      var tick := Tick();
      var quotes := Fetch();
      Settling(before, Data(), Remote(), tick);
      TakeIn(quotes, tick.executedTrades);
    }

    method TakeIn(quotes: Option<Row>, trades: seq<Trade>)
      requires Valid()
      modifies this`latestQuotes, this`cash, this`holdings, this`pendingOrders, this`lastSeenTrade, log
      ensures Valid() && Remote() == old(Remote()) && Data() == old(Data())
      ensures httpClient.Repr == old(httpClient.Repr) && httpClient.View() == old(httpClient.View())
      ensures View() == TakenIn(old(View()), quotes, trades)
    {
      if quotes.Some? {
        UpdatePrices(quotes.value);
        RecordTrades(trades);
      }
      Undisturbed();
    }

    // ---------- target weights ----------

    method RequiredSharesWithCosts(diff: real, quote: Quote) returns (shares: real)
      ensures shares == RequiredShares(tradeCosts, diff, quote)
    {
      var size := Abs(diff);
      if diff < 0.0 {
        var budget, price := TradeImpactTotal(tradeCosts, size, quote.bid, false);
        shares := -Floor(Quotient(budget, price));
      } else {
        var budget, price := TradeImpactTotal(tradeCosts, size, quote.ask, true);
        shares := Floor(Quotient(budget, price));
      }
    }

    /** A worthless portfolio cannot be traded: the source stops the program, modelled as no orders
        at all.  `held` and `targets` are the orders in which two hash maps happen to be visited. */
    method DiffBrkrAgainstTargetWeights(weights: map<Symbol, real>)
      returns (orders: Option<seq<Order>>, ghost held: seq<Symbol>, ghost targets: seq<Symbol>)
      ensures IsEnumeration(held, holdings.Keys) && IsEnumeration(targets, weights.Keys)
      ensures var total := LiquidationValue(View(), held);
              orders == if total == 0.0 then None else Some(DiffOrders(View(), weights, total, targets))
      ensures forall any :: IsEnumeration(any, holdings.Keys) ==> (orders.None? <==> LiquidationValue(View(), any) == 0.0)
      ensures orders.Some? ==> forall i, k :: 0 <= i < k < |orders.value| && IsSell(orders.value[k]) ==> IsSell(orders.value[i])
      ensures orders.Some? ==> forall o :: o in orders.value ==> Sendable(View(), o)
    {
      var keys := Enumerate(holdings.Keys);
      held := keys;
      var symbols := Enumerate(weights.Keys);
      targets := symbols;
      var totalValue := GetLiquidationValue(keys);
      ghost var b := View();
      forall any | IsEnumeration(any, b.holdings.Keys) ensures LiquidationValue(b, any) == totalValue {
        ValuesIgnoreOrder(b, keys, any);
      }
      if totalValue == 0.0 {
        return None, held, targets;
      }
      var plan := PlanTrades(weights, totalValue, symbols);
      orders := Some(plan.sells + plan.buys);
    }

    method PlanTrades(weights: map<Symbol, real>, totalValue: real, symbols: seq<Symbol>) returns (plan: Plan)
      requires forall s :: s in symbols ==> s in weights
      ensures plan == MakePlan(View(), weights, totalValue, symbols)
    {
      ghost var b := View();
      var buyOrders: seq<Order>, sellOrders: seq<Order> := [], [];
      var i := 0;
      while i < |symbols|
        invariant i <= |symbols|
        invariant forall s :: s in symbols[..i] ==> s in weights
        invariant MakePlan(b, weights, totalValue, symbols[..i]) == Plan(buyOrders, sellOrders, false)
      {
        assert symbols[..i + 1][..i] == symbols[..i];
        var symbol := symbols[i];
        assert symbol in symbols;
        var value := PositionValueOf(symbol);
        var diff := totalValue * weights[symbol] - OrZero(value);
        DifferenceIs(b, weights, totalValue, symbol, totalValue * weights[symbol], diff);
        if diff == 0.0 {
          assert MakePlan(b, weights, totalValue, symbols[..i + 1]) == Plan(buyOrders, sellOrders, true);
          StoppedStays(b, weights, totalValue, symbols, i + 1);
          return Plan(buyOrders, sellOrders, true);
        }
        if symbol in latestQuotes {
          var shares := RequiredSharesWithCosts(diff, latestQuotes[symbol]);
          if shares > 0.0 {
            buyOrders := buyOrders + [MarketBuyOrder(symbol, shares)];
          } else if shares < 0.0 {
            sellOrders := sellOrders + [MarketSellOrder(symbol, -shares)];
          }
        }
        i := i + 1;
      }
      assert symbols[..i] == symbols;
      plan := Plan(buyOrders, sellOrders, false);
    }
  }
}
