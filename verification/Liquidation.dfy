/** How much a liquidation sells, and that the iteration order of the holdings does not decide
    whether it succeeds. */
module LiquidationBounds {
  import opened Prelude
  import opened Penelope
  import opened Uist
  import opened Costs
  import opened BrokerModel

  // ---------- sums over an iteration order ----------

  function Sum(f: Symbol -> real, keys: seq<Symbol>): real {
    if keys == [] then 0.0 else Sum(f, keys[..|keys| - 1]) + f(keys[|keys| - 1])
  }

  lemma {:induction false} SumWithout(f: Symbol -> real, keys: seq<Symbol>, i: nat)
    requires i < |keys|
    ensures Sum(f, keys) == Sum(f, keys[..i] + keys[i + 1..]) + f(keys[i])
  {
    var n := |keys| - 1;
    if i == n {
      assert keys[..i] + keys[i + 1..] == keys[..n];
    } else {
      SumWithout(f, keys[..n], i);
      var without := keys[..i] + keys[i + 1..];
      assert without[..|without| - 1] == keys[..n][..i] + keys[..n][i + 1..];
    }
  }

  lemma EmptyEnumeration(a: seq<Symbol>, keys: set<Symbol>)
    requires IsEnumeration(a, keys)
    ensures a == [] <==> keys == {}
  {
    if a != [] {
      assert a[0] in a;
    }
  }

  /** Any two iteration orders give the same sum. */
  lemma {:induction false} SumIgnoresOrder(f: Symbol -> real, a: seq<Symbol>, b: seq<Symbol>, keys: set<Symbol>)
    requires IsEnumeration(a, keys) && IsEnumeration(b, keys)
    ensures Sum(f, a) == Sum(f, b)
  {
    if a == [] {
      EmptyEnumeration(a, keys);
      EmptyEnumeration(b, keys);
    } else {
      var n := |a| - 1;
      var last := a[n];
      assert last in b;
      var i :| 0 <= i < |b| && b[i] == last;
      var b' := b[..i] + b[i + 1..];
      DropIsEnumeration(a, keys, n);
      DropIsEnumeration(b, keys, i);
      assert a[..n] + a[n + 1..] == a[..n];
      SumIgnoresOrder(f, a[..n], b', keys - {last});
      SumWithout(f, b, i);
    }
  }

  lemma DropIsEnumeration(a: seq<Symbol>, keys: set<Symbol>, i: nat)
    requires IsEnumeration(a, keys) && i < |a|
    ensures IsEnumeration(a[..i] + a[i + 1..], keys - {a[i]})
  {
    var d := a[..i] + a[i + 1..];
    forall k ensures k in d <==> k in keys - {a[i]} {
      if k in keys && k != a[i] {
        var j :| 0 <= j < |a| && a[j] == k;
        assert d[if j < i then j else j - 1] == k;
      }
    }
  }

  lemma {:induction false} ValuesAreSums(b: Broker, keys: seq<Symbol>)
    ensures LiquidationValue(b, keys) == b.cash + Sum(s => OrZero(PositionLiquidationValue(b, s)), keys)
    ensures TotalValue(b, keys) == b.cash + Sum(s => OrZero(PositionValue(b, s)), keys)
  {
    if keys != [] {
      ValuesAreSums(b, keys[..|keys| - 1]);
    }
  }

  /** Valuations do not depend on the order in which a hash map is visited. */
  lemma ValuesIgnoreOrder(b: Broker, x: seq<Symbol>, y: seq<Symbol>)
    requires IsEnumeration(x, b.holdings.Keys) && IsEnumeration(y, b.holdings.Keys)
    ensures LiquidationValue(b, x) == LiquidationValue(b, y)
    ensures TotalValue(b, x) == TotalValue(b, y)
  {
    ValuesAreSums(b, x);
    ValuesAreSums(b, y);
    SumIgnoresOrder(s => OrZero(PositionLiquidationValue(b, s)), x, y, b.holdings.Keys);
    SumIgnoresOrder(s => OrZero(PositionValue(b, s)), x, y, b.holdings.Keys);
  }

  lemma NetOfPosition(b: Broker, s: Symbol, value: real)
    requires PositionValue(b, s) == Some(value)
    ensures PositionLiquidationValue(b, s) == Some(Less(value, Kept(b.costs), Taken(b.costs)))
  {
    NetTermsAre(b.costs, Terms(value, Quotient(value, b.holdings[s])), false);
  }

  function Times(taken: real, n: nat): real {
    taken * n as real
  }

  /** What the percentages leave of `worth`, less what the flat costs take `n` times. */
  function NetWorth(costs: seq<Cost>, worth: real, n: nat): real {
    Less(worth, Kept(costs), Times(Taken(costs), n))
  }

  lemma OneMoreTime(taken: real, n: nat)
    ensures Times(taken, n + 1) == Times(taken, n) + taken
  {
    MoreOf(taken, n as real, 1.0);
  }

  lemma LessAdds(worth: real, value: real, kept: real, taken: real, each: real)
    ensures Less(worth + value, kept, taken + each) == Less(worth, kept, taken) + Less(value, kept, each)
  {
    assert (worth + value) * kept == worth * kept + value * kept;
  }

  lemma OneMorePosition(costs: seq<Cost>, worth: real, value: real, n: nat, more: real)
    requires more == worth + value
    ensures NetWorth(costs, more, n + 1) == NetWorth(costs, worth, n) + Less(value, Kept(costs), Taken(costs))
  {
    OneMoreTime(Taken(costs), n);
    LessAdds(worth, value, Kept(costs), Times(Taken(costs), n), Taken(costs));
  }

  /** The value after costs: of everything the positions are worth, what the percentages leave, less
      what the flat costs take from each; costs per share do not count. */
  lemma {:induction false} LiquidationValueIs(b: Broker, keys: seq<Symbol>)
    requires forall s :: s in keys ==> s in b.holdings && s in b.quotes
    ensures LiquidationValue(b, keys) == b.cash + NetWorth(b.costs, TotalValue(b, keys) - b.cash, |keys|)
  {
    if keys == [] {
      NothingHeld(b.costs);
    } else {
      var n := |keys| - 1;
      assert keys[n] in keys && forall s :: s in keys[..n] ==> s in keys;
      LiquidationValueIs(b, keys[..n]);
      var value := PositionValue(b, keys[n]).value;
      NetOfPosition(b, keys[n], value);
      OneMorePosition(b.costs, TotalValue(b, keys[..n]) - b.cash, value, n, TotalValue(b, keys) - b.cash);
    }
  }

  lemma NothingHeld(costs: seq<Cost>)
    ensures NetWorth(costs, 0.0, 0) == 0.0
  {
  }

  /** With percentages alone: 10 "ABC" at 100 and 1% are worth 990 after costs, so that a liquidation
      for 995 is turned down. */
  lemma PercentageExample(j: Joint)
    requires j.brk.cash == 0.0 && j.brk.holdings == map["ABC" := 10.0] && j.brk.costs == [PctOfValue(0.01)]
    requires "ABC" in j.brk.quotes && j.brk.quotes["ABC"].bid == 100.0
    ensures IsEnumeration(["ABC"], j.brk.holdings.Keys) && LiquidationValue(j.brk, ["ABC"]) == 990.0
    ensures WithdrawWithLiquidation(j, 995.0, ["ABC"]) == (j, WithdrawFailure(995.0))
  {
    assert ["ABC"][..0] == [] && [PctOfValue(0.01)][..0] == [];
    assert PositionValue(j.brk, "ABC") == Some(1000.0);
    assert TotalValue(j.brk, ["ABC"]) == 1000.0;
    assert Kept(j.brk.costs) == 0.99 && Taken(j.brk.costs) == 0.0;
    LiquidationValueIs(j.brk, ["ABC"]);
  }

  // ---------- what a plan sells ----------

  /** Positive prices for everything held, and nothing held short. */
  ghost predicate LongOnly(b: Broker) {
    && Priced(b)
    && forall s :: s in b.holdings ==> b.quotes[s].bid > 0.0 && b.holdings[s] >= 0.0
  }

  /** What the orders bring in at current bids. */
  function SaleValue(os: seq<Order>, quotes: map<Symbol, Quote>): real {
    if os == [] then 0.0
    else
      var o := os[|os| - 1];
      SaleValue(os[..|os| - 1], quotes) + if o.symbol in quotes then quotes[o.symbol].bid * o.shares else 0.0
  }

  lemma SaleValueSnoc(os: seq<Order>, o: Order, quotes: map<Symbol, Quote>)
    ensures SaleValue(os + [o], quotes)
            == SaleValue(os, quotes) + if o.symbol in quotes then quotes[o.symbol].bid * o.shares else 0.0
  {
    assert (os + [o])[..|os|] == os;
  }

  ghost predicate WithinHoldings(b: Broker, os: seq<Order>) {
    && (forall o :: o in os ==> o.orderType == MarketSell && o.symbol in b.holdings && 0.0 <= o.shares <= b.holdings[o.symbol])
    && (forall i, j :: 0 <= i < j < |os| ==> os[i].symbol != os[j].symbol)
  }

  /** Rounding the price up sells a little too little: never more than the cash wanted, and short
      of it by at most one unit of cash per share. */
  lemma RoundingUp(left: real, bid: real, qty: real, shares: real)
    requires bid > 0.0 && qty >= 0.0 && 0.0 <= left < bid * qty
    requires shares == Quotient(left, Ceil(bid) as real)
    ensures 0.0 <= shares <= qty
    ensures bid * shares <= left <= bid * shares + shares
  {
    var c := Ceil(bid) as real;
    Undivided(left, c, shares);
    BetweenWholePrices(left, bid, c, shares);
    if shares > qty {
      Scale(qty, shares, bid);
      assert false;
    }
  }

  /** The price is rounded up to the next whole number, and not at all when it is one. */
  lemma RoundedUp(x: real)
    ensures Ceil(x) as real - 1.0 < x <= Ceil(x) as real
  {
  }

  lemma BetweenWholePrices(left: real, bid: real, c: real, shares: real)
    requires bid <= c <= bid + 1.0 && c * shares == left && shares >= 0.0
    ensures bid * shares <= left <= bid * shares + shares
  {
    NonNegative(c - bid, shares);
    NonNegative(bid + 1.0 - c, shares);
  }

  lemma NonNegative(a: real, b: real)
    requires a >= 0.0 && b >= 0.0
    ensures a * b >= 0.0
  {
  }

  lemma Undivided(a: real, b: real, q: real)
    requires a >= 0.0 && b > 0.0 && q == a / b
    ensures q >= 0.0 && b * q == a
  {
    if q < 0.0 {
      Negative(q, b);
      assert false;
    }
  }

  lemma Negative(a: real, b: real)
    requires a < 0.0 && b > 0.0
    ensures a * b < 0.0
  {
  }

  lemma Scale(a: real, b: real, k: real)
    requires a <= b && k >= 0.0
    ensures k * a <= k * b && a * k <= b * k
  {
    assert k * (b - a) >= 0.0;
  }

  /** What a plan over `keys` amounts to, `worth` being the value of those positions. */
  ghost predicate PlanOk(b: Broker, x: real, l: Liquidation, worth: real) {
    && WithinHoldings(b, l.orders)
    && l.left >= 0.0
    && (!l.done ==> SaleValue(l.orders, b.quotes) + l.left == x && l.left == x - worth)
    && (l.done ==> l.left == 0.0 && l.orders != [] && x < worth
                   && SaleValue(l.orders, b.quotes) <= x <= SaleValue(l.orders, b.quotes) + l.orders[|l.orders| - 1].shares)
  }

  lemma OneMoreOrder(b: Broker, os: seq<Order>, o: Order)
    requires WithinHoldings(b, os) && forall k :: k in os ==> k.symbol != o.symbol
    requires o.orderType == MarketSell && o.symbol in b.holdings && 0.0 <= o.shares <= b.holdings[o.symbol]
    ensures WithinHoldings(b, os + [o])
  {
    assert forall i :: 0 <= i < |os| ==> os[i] in os;
  }

  /** Selling all of a position worth `value`. */
  lemma SellAll(b: Broker, x: real, l: Liquidation, worth: real, s: Symbol, value: real)
    requires LongOnly(b) && s in b.holdings && value == b.quotes[s].bid * b.holdings[s]
    requires PlanOk(b, x, l, worth) && !l.done && value <= l.left
    requires forall o :: o in l.orders ==> o.symbol != s
    ensures PlanOk(b, x, Liquidation(l.orders + [MarketSellOrder(s, b.holdings[s])], l.left - value, false), worth + value)
  {
    var o := MarketSellOrder(s, b.holdings[s]);
    SaleValueSnoc(l.orders, o, b.quotes);
    OneMoreOrder(b, l.orders, o);
  }

  /** Selling part of it, `sold` being what that part brings in. */
  lemma SellPart(b: Broker, x: real, l: Liquidation, worth: real, o: Order, sold: real, value: real)
    requires PlanOk(b, x, l, worth) && !l.done && value > l.left
    requires forall k :: k in l.orders ==> k.symbol != o.symbol
    requires o.orderType == MarketSell && o.symbol in b.holdings && 0.0 <= o.shares <= b.holdings[o.symbol]
    requires o.symbol in b.quotes && sold == b.quotes[o.symbol].bid * o.shares && sold <= l.left <= sold + o.shares
    ensures PlanOk(b, x, Liquidation(l.orders + [o], 0.0, true), worth + value)
  {
    SaleValueSnoc(l.orders, o, b.quotes);
    OneMoreOrder(b, l.orders, o);
  }

  lemma PlanStep(b: Broker, x: real, l: Liquidation, worth: real, s: Symbol, value: real)
    requires LongOnly(b) && s in b.holdings && PlanOk(b, x, l, worth)
    requires PositionValue(b, s) == Some(value) && value >= 0.0
    requires forall o :: o in l.orders ==> o.symbol != s
    ensures PlanOk(b, x, LiquidateOne(b, l, s), worth + value)
  {
    if l.done {
    } else if value <= l.left {
      SellAll(b, x, l, worth, s, value);
    } else {
      var o := MarketSellOrder(s, Quotient(l.left, Ceil(b.quotes[s].bid) as real));
      RoundingUp(l.left, b.quotes[s].bid, b.holdings[s], o.shares);
      SellPart(b, x, l, worth, o, b.quotes[s].bid * o.shares, value);
      assert LiquidateOne(b, l, s) == Liquidation(l.orders + [o], 0.0, true);
    }
  }

  lemma PlanStepAt(b: Broker, x: real, l: Liquidation, worth: real, s: Symbol)
    requires LongOnly(b) && s in b.holdings && PlanOk(b, x, l, worth)
    requires forall o :: o in l.orders ==> o.symbol != s
    ensures PlanOk(b, x, LiquidateOne(b, l, s), worth + OrZero(PositionValue(b, s)))
  {
    NonNegative(b.quotes[s].bid, b.holdings[s]);
    PlanStep(b, x, l, worth, s, PositionValue(b, s).value);
  }

  lemma {:induction false} PlanIsOk(b: Broker, keys: seq<Symbol>, x: real)
    requires LongOnly(b) && x > 0.0
    requires forall s :: s in keys ==> s in b.holdings
    requires forall i, j :: 0 <= i < j < |keys| ==> keys[i] != keys[j]
    ensures PlanOk(b, x, Liquidate(b, keys, x), TotalValue(b, keys) - b.cash)
  {
    if keys != [] {
      var n := |keys| - 1;
      assert forall k :: k in keys[..n] ==> k in keys && k != keys[n];
      PlanIsOk(b, keys[..n], x);
      assert keys[n] in keys;
      PlanStepAt(b, x, Liquidate(b, keys[..n], x), TotalValue(b, keys[..n]) - b.cash, keys[n]);
    }
  }

  /** The orders that are not for zero shares. */
  function NonZero(os: seq<Order>): seq<Order> {
    if os == [] then []
    else
      var n := |os| - 1;
      NonZero(os[..n]) + if os[n].shares != 0.0 then [os[n]] else []
  }

  lemma {:induction false} NonZeroSellsTheSame(os: seq<Order>, quotes: map<Symbol, Quote>)
    ensures SaleValue(NonZero(os), quotes) == SaleValue(os, quotes)
  {
    if os != [] {
      var n := |os| - 1;
      NonZeroSellsTheSame(os[..n], quotes);
      if os[n].shares != 0.0 {
        SaleValueSnoc(NonZero(os[..n]), os[n], quotes);
      } else {
        assert NonZero(os) == NonZero(os[..n]);
      }
    }
  }

  lemma {:induction false} NonZeroIsPart(b: Broker, os: seq<Order>)
    requires WithinHoldings(b, os)
    ensures forall o :: o in NonZero(os) ==> o in os && o.shares > 0.0
    ensures WithinHoldings(b, NonZero(os))
    ensures os != [] && os[|os| - 1].shares != 0.0 ==> NonZero(os) != [] && NonZero(os)[|NonZero(os)| - 1] == os[|os| - 1]
  {
    if os != [] {
      var n := |os| - 1;
      var init, z := os[..n], NonZero(os[..n]);
      assert forall o :: o in init ==> o in os;
      NonZeroIsPart(b, init);
      forall o | o in z ensures o.symbol != os[n].symbol {
        var i :| 0 <= i < n && init[i] == o;
        assert os[i] == o;
      }
      if os[n].shares != 0.0 {
        assert os[n] in os;
        OneMoreOrder(b, z, os[n]);
      } else {
        assert NonZero(os) == z;
      }
    }
  }

  lemma SellSent(j: Joint, o: Order)
    requires j.brk.state.Ready? && o.symbol in j.brk.quotes && o.symbol in j.brk.holdings
    requires o.orderType == MarketSell && o.shares <= j.brk.holdings[o.symbol]
    ensures SendOrder(j, o).0.bt
            == j.bt.(exchange := j.bt.exchange.(buffer := j.bt.exchange.buffer + if o.shares != 0.0 then [o] else []))
  {
  }

  lemma {:induction false} SendingSells(j: Joint, os: seq<Order>)
    requires j.brk.state.Ready? && Priced(j.brk) && WithinHoldings(j.brk, os)
    requires forall o :: o in os ==> Sendable(j.brk, o)
    ensures SendOrders(j, os).bt == j.bt.(exchange := j.bt.exchange.(buffer := j.bt.exchange.buffer + NonZero(os)))
  {
    if os != [] {
      var n := |os| - 1;
      var init, o := os[..n], os[n];
      NonEmptyPrefix(j.brk, os);
      SendingSells(j, init);
      SellSent(SendOrders(j, init), o);
      OneMoreSent(j.bt.exchange.buffer, init, o);
      assert os == init + [o];
    }
  }

  lemma NonEmptyPrefix(b: Broker, os: seq<Order>)
    requires WithinHoldings(b, os) && os != []
    ensures WithinHoldings(b, os[..|os| - 1])
    ensures var o := os[|os| - 1]; o in os && o.orderType == MarketSell && o.symbol in b.holdings && o.shares <= b.holdings[o.symbol]
    ensures forall k :: k in os[..|os| - 1] ==> k in os
  {
    assert os[|os| - 1] in os && forall k :: k in os[..|os| - 1] ==> k in os;
  }

  lemma OneMoreSent(buffer: seq<Order>, init: seq<Order>, o: Order)
    ensures buffer + NonZero(init + [o]) == buffer + NonZero(init) + if o.shares != 0.0 then [o] else []
  {
    assert (init + [o])[..|init|] == init;
  }

  /** A liquidation succeeds exactly when the request is covered both by the portfolio after costs
      and by the positions alone; the order of the holdings is irrelevant to that. */
  lemma LiquidationSucceedsWhen(j: Joint, x: real, keys: seq<Symbol>)
    requires LongOnly(j.brk) && IsEnumeration(keys, j.brk.holdings.Keys) && x > 0.0
    ensures WithdrawWithLiquidation(j, x, keys).1 == WithdrawSuccess(x)
            <==> x <= LiquidationValue(j.brk, keys) && x <= TotalValue(j.brk, keys) - j.brk.cash
  {
    PlanIsOk(j.brk, keys, x);
  }

  /** What a successful liquidation puts on the exchange: sells only, at most one a symbol, never
      more than the holding, worth at most the request at current bids, and short of it by at most
      the number of shares of the last, partial order. */
  lemma SuccessfulLiquidation(j: Joint, x: real, keys: seq<Symbol>)
    requires LongOnly(j.brk) && IsEnumeration(keys, j.brk.holdings.Keys) && x > 0.0 && j.brk.state.Ready?
    requires WithdrawWithLiquidation(j, x, keys).1.WithdrawSuccess?
    ensures var r := WithdrawWithLiquidation(j, x, keys).0;
            var before, after := j.bt.exchange.buffer, r.bt.exchange.buffer;
            && before <= after
            && var sells := after[|before|..];
               && sells != []
               && (forall o :: o in sells ==> o.shares > 0.0)
               && WithinHoldings(j.brk, sells)
               && SaleValue(sells, j.brk.quotes) <= x <= SaleValue(sells, j.brk.quotes) + sells[|sells| - 1].shares
               && r.bt == j.bt.(exchange := j.bt.exchange.(buffer := after))
               && r.brk.cash == j.brk.cash
  {
    var plan := Liquidate(j.brk, keys, x);
    PlanIsOk(j.brk, keys, x);
    NonZeroSellsTheSame(plan.orders, j.brk.quotes);
    NonZeroIsPart(j.brk, plan.orders);
    SendingSells(j, plan.orders);
    var sells := NonZero(plan.orders);
    assert (j.bt.exchange.buffer + sells)[|j.bt.exchange.buffer|..] == sells;
    assert sells != [];
    if plan.done && plan.orders[|plan.orders| - 1].shares == 0.0 {
      assert SaleValue(sells, j.brk.quotes) == x;
    }
    assert sells[|sells| - 1] in sells;
  }

  /** A failed liquidation leaves cash alone exactly when the request exceeds the cash at hand (or
      is for nothing); when the cash covers it, it is taken although failure is reported. */
  lemma FailedLiquidationTakesCash(j: Joint, x: real, keys: seq<Symbol>)
    requires Priced(j.brk) && IsEnumeration(keys, j.brk.holdings.Keys)
    requires WithdrawWithLiquidation(j, x, keys).1.WithdrawFailure?
    ensures var r := WithdrawWithLiquidation(j, x, keys).0;
            && (r == j <==> x > j.brk.cash || x == 0.0)
            && (x <= j.brk.cash ==> r == j.(brk := j.brk.(cash := j.brk.cash - x)))
  {
  }

  /** Such a failure is real: with cash and no positions, every request up to the cash balance. */
  lemma CashOnlyLiquidationFails(j: Joint, x: real)
    requires j.brk.holdings == map[] && 0.0 < x <= j.brk.cash
    ensures IsEnumeration([], j.brk.holdings.Keys)
    ensures WithdrawWithLiquidation(j, x, []) == (j.(brk := j.brk.(cash := j.brk.cash - x)), WithdrawFailure(x))
  {
  }

  /** When a rebalancing fails a broker of long positions: what it is worth after costs does not
      cover the shortfall and 1000 more, or its positions and its negative cash together do not
      come to 1000. */
  lemma RebalancingFailsWhen(j: Joint, keys: seq<Symbol>)
    requires LongOnly(j.brk) && IsEnumeration(keys, j.brk.holdings.Keys) && j.brk.state.Ready?
    ensures RebalanceCash(j, keys).brk.state.Failed?
            <==> j.brk.cash < 0.0 && (LiquidationValue(j.brk, keys) < 1000.0 - j.brk.cash || TotalValue(j.brk, keys) < 1000.0)
  {
    if j.brk.cash < 0.0 {
      LiquidationSucceedsWhen(j, -j.brk.cash + BUFFER, keys);
    }
  }

  /** Otherwise it queues sells for the shortfall and 1000 more, as far as rounding allows. */
  lemma RebalancingSells(j: Joint, keys: seq<Symbol>)
    requires LongOnly(j.brk) && IsEnumeration(keys, j.brk.holdings.Keys) && j.brk.state.Ready? && j.brk.cash < 0.0
    requires RebalanceCash(j, keys).brk.state.Ready?
    ensures var before, after := j.bt.exchange.buffer, RebalanceCash(j, keys).bt.exchange.buffer;
            && before <= after
            && var sells := after[|before|..];
               && sells != [] && WithinHoldings(j.brk, sells)
               && SaleValue(sells, j.brk.quotes) <= 1000.0 - j.brk.cash <= SaleValue(sells, j.brk.quotes) + sells[|sells| - 1].shares
  {
    SuccessfulLiquidation(j, -j.brk.cash + BUFFER, keys);
  }

  ghost predicate WholePrices(b: Broker) {
    forall s :: s in b.quotes ==> b.quotes[s].bid == b.quotes[s].bid.Floor as real
  }

  /** A plan sells for exactly what is wanted when bids are whole numbers. */
  lemma {:induction false} WholePricesSellExactly(b: Broker, keys: seq<Symbol>, x: real)
    requires LongOnly(b) && WholePrices(b) && x > 0.0
    requires forall s :: s in keys ==> s in b.holdings
    requires forall i, j :: 0 <= i < j < |keys| ==> keys[i] != keys[j]
    ensures SaleValue(Liquidate(b, keys, x).orders, b.quotes) + Liquidate(b, keys, x).left == x
  {
    if keys != [] {
      var n := |keys| - 1;
      assert forall k :: k in keys[..n] ==> k in keys && k != keys[n];
      WholePricesSellExactly(b, keys[..n], x);
      PlanIsOk(b, keys[..n], x);
      assert keys[n] in keys;
      ExactStep(b, Liquidate(b, keys[..n], x), keys[n], x);
    }
  }

  lemma ExactStep(b: Broker, l: Liquidation, s: Symbol, x: real)
    requires LongOnly(b) && WholePrices(b) && s in b.holdings && l.left >= 0.0
    requires SaleValue(l.orders, b.quotes) + l.left == x
    ensures SaleValue(LiquidateOne(b, l, s).orders, b.quotes) + LiquidateOne(b, l, s).left == x
  {
    var bid, held, value := b.quotes[s].bid, b.holdings[s], PositionValue(b, s).value;
    if l.done {
    } else if value <= l.left {
      WorthOne(b, l.orders, s, held, value);
    } else {
      var shares := Quotient(l.left, Ceil(bid) as real);
      WholePriceDivides(bid, l.left, shares);
      WorthOne(b, l.orders, s, shares, l.left);
    }
  }

  lemma WorthOne(b: Broker, os: seq<Order>, s: Symbol, shares: real, value: real)
    requires s in b.quotes && value == b.quotes[s].bid * shares
    ensures SaleValue(os + [MarketSellOrder(s, shares)], b.quotes) == SaleValue(os, b.quotes) + value
  {
    SaleValueSnoc(os, MarketSellOrder(s, shares), b.quotes);
  }

  lemma WholePriceDivides(bid: real, left: real, shares: real)
    requires bid > 0.0 && bid == bid.Floor as real && left >= 0.0 && shares == Quotient(left, Ceil(bid) as real)
    ensures bid * shares == left
  {
    RoundedUp(bid);
    assert Ceil(bid) == bid.Floor;
    Undivided(left, bid, shares);
  }

  /** So a successful liquidation at whole bids queues sells worth exactly the request. */
  lemma WholePricesAreExact(j: Joint, x: real, keys: seq<Symbol>)
    requires LongOnly(j.brk) && WholePrices(j.brk) && IsEnumeration(keys, j.brk.holdings.Keys) && x > 0.0 && j.brk.state.Ready?
    requires WithdrawWithLiquidation(j, x, keys).1.WithdrawSuccess?
    ensures var before, after := j.bt.exchange.buffer, WithdrawWithLiquidation(j, x, keys).0.bt.exchange.buffer;
            before <= after && SaleValue(after[|before|..], j.brk.quotes) == x
  {
    var plan := Liquidate(j.brk, keys, x);
    WholePricesSellExactly(j.brk, keys, x);
    PlanIsOk(j.brk, keys, x);
    NonZeroSellsTheSame(plan.orders, j.brk.quotes);
    SendingSells(j, plan.orders);
    assert (j.bt.exchange.buffer + NonZero(plan.orders))[|j.bt.exchange.buffer|..] == NonZero(plan.orders);
  }
}
