/** Orders that move a portfolio towards target weights. */
module Rebalance {
  import opened Prelude
  import opened Penelope
  import opened Uist
  import opened Costs
  import opened BrokerModel

  function Floor(x: real): real {
    x.Floor as real
  }

  /** The net terms on which a difference of `diff` would be traded. */
  function NetTerms(costs: seq<Cost>, diff: real, q: Quote): Terms {
    if diff < 0.0 then ImpactTotal(costs, Terms(-diff, q.bid), false) else ImpactTotal(costs, Terms(diff, q.ask), true)
  }

  /** Whole shares, positive to buy and negative to sell. */
  function RequiredShares(costs: seq<Cost>, diff: real, q: Quote): real {
    var net := NetTerms(costs, diff, q);
    var shares := Floor(Quotient(net.budget, net.price));
    if diff < 0.0 then -shares else shares
  }

  datatype Plan = Plan(buys: seq<Order>, sells: seq<Order>, stopped: bool)

  function Difference(b: Broker, weights: map<Symbol, real>, total: real, s: Symbol): real
    requires s in weights
  {
    total * weights[s] - OrZero(PositionValue(b, s))
  }

  /** A symbol off target by `diff`. */
  function PlanTrade(b: Broker, diff: real, p: Plan, s: Symbol): Plan {
    if s !in b.quotes then p
    else
      var shares := RequiredShares(b.costs, diff, b.quotes[s]);
      if shares > 0.0 then p.(buys := p.buys + [MarketBuyOrder(s, shares)])
      else if shares < 0.0 then p.(sells := p.sells + [MarketSellOrder(s, -shares)])
      else p
  }

  /** One target symbol.  The first one already on target ends the whole pass. */
  function PlanOne(b: Broker, weights: map<Symbol, real>, total: real, p: Plan, s: Symbol): Plan
    requires s in weights
  {
    var diff := Difference(b, weights, total, s);
    if p.stopped then p
    else if diff == 0.0 then p.(stopped := true)
    else PlanTrade(b, diff, p, s)
  }

  function MakePlan(b: Broker, weights: map<Symbol, real>, total: real, keys: seq<Symbol>): (p: Plan)
    requires forall s :: s in keys ==> s in weights
    ensures forall o :: o in p.buys ==> o.orderType == MarketBuy && o.symbol in b.quotes && o.symbol in keys
    ensures forall o :: o in p.sells ==> o.orderType == MarketSell && o.symbol in b.quotes && o.symbol in keys
  {
    if keys == [] then Plan([], [], false)
    else PlanOne(b, weights, total, MakePlan(b, weights, total, keys[..|keys| - 1]), keys[|keys| - 1])
  }

  /** The orders of a rebalancing towards `weights`: sells, then buys. */
  function DiffOrders(b: Broker, weights: map<Symbol, real>, total: real, keys: seq<Symbol>): (os: seq<Order>)
    requires forall s :: s in keys ==> s in weights
    ensures forall o :: o in os ==> Sendable(b, o)
  {
    var p := MakePlan(b, weights, total, keys);
    p.sells + p.buys
  }

  /** No sale comes after a purchase, and nothing else is sent. */
  lemma SellsFirst(b: Broker, weights: map<Symbol, real>, total: real, keys: seq<Symbol>)
    requires forall s :: s in keys ==> s in weights
    ensures var os, p := DiffOrders(b, weights, total, keys), MakePlan(b, weights, total, keys);
            && multiset(os) == multiset(p.buys) + multiset(p.sells)
            && forall i, j :: 0 <= i < j < |os| && os[j].orderType == MarketSell ==> os[i].orderType == MarketSell
  {
    var p := MakePlan(b, weights, total, keys);
    assert forall k :: 0 <= k < |p.buys| ==> p.buys[k] in p.buys;
    assert forall k :: 0 <= k < |p.sells| ==> p.sells[k] in p.sells;
  }

  // ---------- sizing ----------

  lemma FloorFits(budget: real, price: real, shares: real)
    requires price > 0.0 && shares == Floor(Quotient(budget, price))
    ensures shares * price <= budget
    ensures shares >= 0.0 <==> budget >= 0.0
    ensures shares > 0.0 <==> budget >= price
  {
    var x := budget / price;
    WholeShares(x);
    MulLe(Floor(x), x, price);
    SignOfQuotient(budget, price, x);
    SignOfQuotient(budget - price, price, x - 1.0);
  }

  lemma SignOfQuotient(a: real, b: real, q: real)
    requires b > 0.0 && q * b == a
    ensures q >= 0.0 <==> a >= 0.0
  {
    if q < 0.0 { MulPositive(-q, b); } else { MulLe(0.0, q, b); }
  }

  lemma WholeShares(x: real)
    ensures Floor(x) <= x
    ensures Floor(x) >= 0.0 <==> x >= 0.0
    ensures Floor(x) > 0.0 <==> x >= 1.0
  {
    if x >= 1.0 { assert x.Floor >= 1; }
  }

  /** What buying `shares` at `ask` costs, charges included. */
  function PurchaseCost(costs: seq<Cost>, shares: real, ask: real): real {
    var value := shares * ask;
    value + Charges(costs, shares, value)
  }

  lemma PurchaseCostIs(costs: seq<Cost>, shares: real, ask: real, value: real)
    requires value == shares * ask
    ensures PurchaseCost(costs, shares, ask) == value + Charges(costs, shares, value)
  {
  }

  /** Sizing never spends more than the difference it is to close, every charge included. */
  lemma BuyFitsDifference(costs: seq<Cost>, diff: real, q: Quote, shares: real)
    requires Sensible(costs) && diff >= 0.0 && q.ask > 0.0
    requires shares == RequiredShares(costs, diff, q) && shares >= 0.0
    ensures PurchaseCost(costs, shares, q.ask) <= diff
  {
    var net := NetTerms(costs, diff, q);
    var spent := SizedToFit(costs, diff, q, net, shares);
    PurchaseFits(costs, diff, q.ask, shares, net, spent, shares * q.ask);
  }

  lemma SizedToFit(costs: seq<Cost>, diff: real, q: Quote, net: Terms, shares: real) returns (spent: real)
    requires Sensible(costs) && diff >= 0.0 && q.ask > 0.0
    requires net == NetTerms(costs, diff, q) && shares == Floor(Quotient(net.budget, net.price))
    ensures spent == shares * net.price && spent <= net.budget
  {
    NetPriceCoversGross(costs, diff, q.ask);
    FloorFits(net.budget, net.price, shares);
    spent := shares * net.price;
  }

  lemma PurchaseFits(costs: seq<Cost>, diff: real, ask: real, shares: real, net: Terms, spent: real, value: real)
    requires Sensible(costs) && ask >= 0.0 && shares >= 0.0 && net == ImpactTotal(costs, Terms(diff, ask), true)
    requires spent == shares * net.price && spent <= net.budget && value == shares * ask
    ensures PurchaseCost(costs, shares, ask) <= diff
  {
    BudgetSound(costs, diff, ask, net, shares, spent, value, 0.0);
    PurchaseCostIs(costs, shares, ask, value);
  }

  lemma NegateBoth(a: real, b: real)
    requires b != 0.0
    ensures Quotient(a, b) == Quotient(-a, -b)
  {
    var q := a / b;
    QuotientIs(-a, -b, q);
  }

  lemma QuotientIs(a: real, b: real, q: real)
    requires b != 0.0 && q * b == a
    ensures a / b == q
  {
  }

  /** The sign of a share count; a per-share cost above the bid makes the net price negative. */
  lemma FloorSign(budget: real, price: real, shares: real)
    requires price != 0.0 && shares == Floor(Quotient(budget, price))
    ensures shares >= 0.0 <==> if price > 0.0 then budget >= 0.0 else budget <= 0.0
    ensures shares > 0.0 <==> if price > 0.0 then budget >= price else budget <= price
  {
    if price > 0.0 {
      FloorFits(budget, price, shares);
    } else {
      NegateBoth(budget, price);
      FloorFits(-budget, -price, shares);
    }
  }

  /** The order trades in the direction of the difference exactly when the costs leave a budget of
      the right sign for the price they leave.  Otherwise the share count flips: a position that
      should be topped up is sold, and one that should be trimmed is bought. */
  lemma DirectionFollowsDifference(costs: seq<Cost>, diff: real, q: Quote, net: Terms, shares: real)
    requires diff != 0.0 && net == NetTerms(costs, diff, q) && net.price != 0.0
    requires shares == RequiredShares(costs, diff, q)
    ensures shares * diff >= 0.0 <==> if net.price > 0.0 then net.budget >= 0.0 else net.budget <= 0.0
    ensures shares * diff > 0.0 <==> if net.price > 0.0 then net.budget >= net.price else net.budget <= net.price
  {
    FloorSign(net.budget, net.price, Floor(Quotient(net.budget, net.price)));
    SameSign(shares, diff);
  }

  /** The size of an order: whole shares, as many as the net budget pays for at the net price and no
      more; with a negative price both bounds turn round. */
  lemma RequiredSharesAre(costs: seq<Cost>, diff: real, q: Quote, net: Terms, shares: real, spent: real, more: real)
    requires net == NetTerms(costs, diff, q) && net.price != 0.0
    requires shares == (if diff < 0.0 then -RequiredShares(costs, diff, q) else RequiredShares(costs, diff, q))
    requires spent == shares * net.price && more == (shares + 1.0) * net.price
    ensures shares == Floor(shares)
    ensures if net.price > 0.0 then spent <= net.budget < more else spent >= net.budget > more
  {
    var x := Quotient(net.budget, net.price);
    QuotientTimes(net.budget, net.price, x);
    assert shares == x.Floor as real && shares <= x < shares + 1.0;
    if net.price > 0.0 {
      QuotientBelow(x, net.budget, net.price, shares, spent);
      QuotientBelow(x, net.budget, net.price, shares + 1.0, more);
    } else {
      assert x * -net.price == -net.budget && shares * -net.price == -spent && (shares + 1.0) * -net.price == -more;
      QuotientBelow(x, -net.budget, -net.price, shares, -spent);
      QuotientBelow(x, -net.budget, -net.price, shares + 1.0, -more);
    }
  }

  /** What those are, for costs of every kind: the difference less percentages and flat costs, and
      the ask plus, or the bid minus, the costs per share. */
  lemma NetTermsOf(costs: seq<Cost>, diff: real, q: Quote)
    ensures var net := NetTerms(costs, diff, q);
            && net.budget == Less(if diff < 0.0 then -diff else diff, Kept(costs), Taken(costs))
            && net.price == if diff < 0.0 then q.bid - PerShareSum(costs) else q.ask + PerShareSum(costs)
  {
    NetTermsAre(costs, if diff < 0.0 then Terms(-diff, q.bid) else Terms(diff, q.ask), diff >= 0.0);
  }

  /** Without percentages nothing is held back: one more share would not fit the difference. */
  lemma NextShareDoesNotFit(costs: seq<Cost>, diff: real, q: Quote, shares: real)
    requires Sensible(costs) && (forall i :: 0 <= i < |costs| ==> !costs[i].PctOfValue?)
    requires diff >= 0.0 && q.ask > 0.0 && shares == RequiredShares(costs, diff, q)
    ensures PurchaseCost(costs, shares + 1.0, q.ask) > diff
  {
    NetPriceCoversGross(costs, diff, q.ask);
    var net := NetTerms(costs, diff, q);
    var spent, more := shares * net.price, (shares + 1.0) * net.price;
    RequiredSharesAre(costs, diff, q, net, shares, spent, more);
    OneTooMany(costs, diff, q.ask, net, shares + 1.0, more, (shares + 1.0) * q.ask);
  }

  lemma OneTooMany(costs: seq<Cost>, diff: real, ask: real, net: Terms, shares: real, spent: real, value: real)
    requires forall i :: 0 <= i < |costs| ==> !costs[i].PctOfValue?
    requires net == ImpactTotal(costs, Terms(diff, ask), true) && net.budget < spent
    requires spent == shares * net.price && value == shares * ask
    ensures PurchaseCost(costs, shares, ask) > diff
  {
    BudgetExactWithoutPercentages(costs, diff, ask, net, shares, spent, value);
    PurchaseCostIs(costs, shares, ask, value);
  }

  /** With 1% to pay, leaving a position of 10 at 100 asks for 9. */
  lemma PercentageTrimExample(q: Quote)
    requires q.bid == 100.0
    ensures RequiredShares([PctOfValue(0.01)], -1000.0, q) == -9.0
  {
    var costs := [PctOfValue(0.01)];
    assert costs[..0] == [] && Kept(costs) == 0.99 && Taken(costs) == 0.0 && PerShareSum(costs) == 0.0;
    NetTermsOf(costs, -1000.0, q);
    assert (990.0 / 100.0).Floor == 9;
  }

  lemma SameSign(a: real, b: real)
    requires b != 0.0
    ensures a * b > 0.0 <==> (a > 0.0 && b > 0.0) || (a < 0.0 && b < 0.0)
    ensures a * b >= 0.0 <==> a == 0.0 || (a > 0.0 && b > 0.0) || (a < 0.0 && b < 0.0)
  {
    if a > 0.0 && b > 0.0 { MulPositive(a, b); }
    if a < 0.0 && b < 0.0 { MulPositive(-a, -b); }
    if a > 0.0 && b < 0.0 { MulPositive(a, -b); }
    if a < 0.0 && b > 0.0 { MulPositive(-a, b); }
  }

  /** The flip is real: with a flat cost above a small shortfall, the "purchase" is a sale. */
  lemma FlippedExample()
    ensures var q := Quote(9.0, 10.0, "ABC", 100);
            RequiredShares([Flat(50.0)], 20.0, q) == -3.0 && RequiredShares([Flat(50.0)], -20.0, q) == 4.0
  {
    var q := Quote(9.0, 10.0, "ABC", 100);
    assert [Flat(50.0)][..0] == [];
    assert NetTerms([Flat(50.0)], 20.0, q) == Terms(-30.0, 10.0);
    assert NetTerms([Flat(50.0)], -20.0, q) == Terms(-30.0, 9.0);
    assert (-30.0 / 10.0).Floor == -3;
    assert (-30.0 / 9.0).Floor == -4;
  }

  /** So does a per-share cost above the bid, which leaves the budget alone but turns the net price
      negative: the trim becomes a purchase. */
  lemma FlippedByPriceExample()
    ensures var (q, net) := (Quote(9.0, 10.0, "ABC", 100), NetTerms([PerShare(20.0)], -50.0, Quote(9.0, 10.0, "ABC", 100)));
            net.budget == 50.0 && net.price == -11.0 && RequiredShares([PerShare(20.0)], -50.0, q) == 5.0
  {
    var q := Quote(9.0, 10.0, "ABC", 100);
    assert [PerShare(20.0)][..0] == [];
    assert NetTerms([PerShare(20.0)], -50.0, q) == Terms(50.0, -11.0);
    assert (50.0 / -11.0).Floor == -5;
  }

  // ---------- the whole plan ----------

  /** What a list of purchases costs at current asks, charges included. */
  function Outlay(b: Broker, os: seq<Order>): real {
    if os == [] then 0.0 else Outlay(b, os[..|os| - 1]) + Price(b, os[|os| - 1])
  }

  function WeightSum(weights: map<Symbol, real>, keys: seq<Symbol>): real
    requires forall s :: s in keys ==> s in weights
  {
    if keys == [] then 0.0
    else
      assert forall s :: s in keys[..|keys| - 1] ==> s in keys;
      WeightSum(weights, keys[..|keys| - 1]) + weights[keys[|keys| - 1]]
  }

  /** What keeps a trim a sale: costs leave a budget of the right sign for the price they leave. */
  predicate StaysSale(net: Terms) {
    (net.price > 0.0 ==> net.budget >= 0.0) && (net.price < 0.0 ==> net.budget <= 0.0)
  }

  /** A weight and a position that are not negative, a positive ask, and a trim, if it is one, that
      stays a sale.  Of a top-up nothing is asked. */
  ghost predicate AffordableOne(b: Broker, weights: map<Symbol, real>, total: real, s: Symbol) {
    && s in weights && weights[s] >= 0.0 && OrZero(PositionValue(b, s)) >= 0.0
    && (s in b.quotes ==>
          && b.quotes[s].ask > 0.0
          && var diff := Difference(b, weights, total, s);
             diff < 0.0 ==> StaysSale(NetTerms(b.costs, diff, b.quotes[s])))
  }

  ghost predicate Affordable(b: Broker, weights: map<Symbol, real>, total: real, keys: seq<Symbol>) {
    && Sensible(b.costs) && total >= 0.0
    && forall s :: s in keys ==> s in weights && AffordableOne(b, weights, total, s)
  }

  /** What one purchase costs at the current ask, charges included. */
  function Price(b: Broker, o: Order): real {
    if o.symbol in b.quotes then
      PurchaseCost(b.costs, o.shares, b.quotes[o.symbol].ask)
    else 0.0
  }

  lemma TrimBuysNothing(costs: seq<Cost>, diff: real, q: Quote)
    requires diff < 0.0 && StaysSale(NetTerms(costs, diff, q))
    ensures RequiredShares(costs, diff, q) <= 0.0
  {
    var net := NetTerms(costs, diff, q);
    if net.price != 0.0 {
      FloorSign(net.budget, net.price, Floor(Quotient(net.budget, net.price)));
    }
  }

  lemma OutlayOne(b: Broker, weights: map<Symbol, real>, total: real, s: Symbol, diff: real, shares: real)
    requires Sensible(b.costs) && AffordableOne(b, weights, total, s) && s in b.quotes
    requires diff == Difference(b, weights, total, s) != 0.0
    requires shares == RequiredShares(b.costs, diff, b.quotes[s]) && shares > 0.0
    ensures Price(b, MarketBuyOrder(s, shares)) <= total * weights[s]
  {
    if diff < 0.0 {
      TrimBuysNothing(b.costs, diff, b.quotes[s]);
    } else {
      BuyFitsDifference(b.costs, diff, b.quotes[s], shares);
    }
  }

  /** A later plan buys at most one more thing, for at most `budget`. */
  ghost predicate BuysWithin(b: Broker, before: seq<Order>, after: seq<Order>, budget: real) {
    Outlay(b, after) <= Outlay(b, before) + budget
  }

  lemma OutlayStep(b: Broker, weights: map<Symbol, real>, total: real, p: Plan, s: Symbol, next: Plan, budget: real)
    requires Sensible(b.costs) && total >= 0.0 && AffordableOne(b, weights, total, s)
    requires next == PlanOne(b, weights, total, p, s) && budget == total * weights[s]
    ensures BuysWithin(b, p.buys, next.buys, budget)
  {
    MulLe(0.0, weights[s], total);
    if next.buys != p.buys {
      var diff := Difference(b, weights, total, s);
      var shares := RequiredShares(b.costs, diff, b.quotes[s]);
      OutlayOne(b, weights, total, s, diff, shares);
      assert next.buys[..|p.buys|] == p.buys;
    }
  }

  /** The value the weights assign to one symbol ... */
  function Share(weights: map<Symbol, real>, total: real, s: Symbol): real
    requires s in weights
  {
    total * weights[s]
  }

  /** ... and to all the symbols visited. */
  function Targeted(weights: map<Symbol, real>, total: real, keys: seq<Symbol>): real
    requires forall s :: s in keys ==> s in weights
  {
    if keys == [] then 0.0
    else
      assert forall s :: s in keys[..|keys| - 1] ==> s in keys;
      Targeted(weights, total, keys[..|keys| - 1]) + Share(weights, total, keys[|keys| - 1])
  }

  lemma {:induction false} TargetedIsShare(weights: map<Symbol, real>, total: real, keys: seq<Symbol>)
    requires forall s :: s in keys ==> s in weights
    ensures Targeted(weights, total, keys) == total * WeightSum(weights, keys)
  {
    if keys != [] {
      var n := |keys| - 1;
      assert forall s :: s in keys[..n] ==> s in keys;
      TargetedIsShare(weights, total, keys[..n]);
      AddWeights(total, WeightSum(weights, keys[..n]), weights[keys[n]], WeightSum(weights, keys));
    }
  }

  lemma MakePlanStep(b: Broker, weights: map<Symbol, real>, total: real, keys: seq<Symbol>, i: nat)
    requires i < |keys| && forall s :: s in keys ==> s in weights
    ensures forall s :: s in keys[..i] ==> s in weights
    ensures forall s :: s in keys[..i + 1] ==> s in weights
    ensures MakePlan(b, weights, total, keys[..i + 1]) == PlanOne(b, weights, total, MakePlan(b, weights, total, keys[..i]), keys[i])
  {
    assert keys[..i + 1][..i] == keys[..i];
  }

  lemma {:induction false} Telescoped(b: Broker, weights: map<Symbol, real>, total: real, keys: seq<Symbol>, plans: seq<seq<Order>>)
    requires |plans| == |keys| + 1 && plans[0] == [] && forall s :: s in keys ==> s in weights
    requires forall i :: 0 <= i < |keys| ==> BuysWithin(b, plans[i], plans[i + 1], Share(weights, total, keys[i]))
    ensures Outlay(b, plans[|keys|]) <= Targeted(weights, total, keys)
  {
    if keys != [] {
      var n := |keys| - 1;
      assert forall s :: s in keys[..n] ==> s in keys;
      Telescoped(b, weights, total, keys[..n], plans[..n + 1]);
      assert BuysWithin(b, plans[n], plans[n + 1], Share(weights, total, keys[n]));
    }
  }

  lemma PurchasesAreTargeted(b: Broker, weights: map<Symbol, real>, total: real, keys: seq<Symbol>)
    requires Affordable(b, weights, total, keys)
    ensures Outlay(b, MakePlan(b, weights, total, keys).buys) <= Targeted(weights, total, keys)
  {
    assert forall i, s :: 0 <= i <= |keys| && s in keys[..i] ==> s in keys;
    var plans := seq(|keys| + 1, i requires 0 <= i <= |keys| => MakePlan(b, weights, total, keys[..i]).buys);
    forall i | 0 <= i < |keys| ensures BuysWithin(b, plans[i], plans[i + 1], Share(weights, total, keys[i])) {
      assert keys[i] in keys && AffordableOne(b, weights, total, keys[i]);
      MakePlanStep(b, weights, total, keys, i);
      OutlayStep(b, weights, total, MakePlan(b, weights, total, keys[..i]), keys[i], MakePlan(b, weights, total, keys[..i + 1]),
                 Share(weights, total, keys[i]));
    }
    Telescoped(b, weights, total, keys, plans);
    assert keys[..|keys|] == keys;
  }

  /** The purchases of a rebalancing, charges included, together cost no more than the targeted
      part of the portfolio: all of it at most when the weights add up to one. */
  lemma PurchasesAreCovered(b: Broker, weights: map<Symbol, real>, total: real, keys: seq<Symbol>)
    requires Affordable(b, weights, total, keys)
    ensures Outlay(b, MakePlan(b, weights, total, keys).buys) <= total * WeightSum(weights, keys)
  {
    PurchasesAreTargeted(b, weights, total, keys);
    TargetedIsShare(weights, total, keys);
  }

  lemma AddWeights(total: real, a: real, b: real, sum: real)
    requires sum == a + b
    ensures total * sum == total * a + total * b
  {
  }

  /** A trim that its costs turn into a purchase does break the bound: with 100 in cash, 10 "ABC" at
      9, a flat cost of 50 and a target of 70, the trim of 20 becomes a purchase for 90. */
  lemma TrimBreaksBound(b: Broker)
    requires b.cash == 100.0 && "ABC" in b.holdings && b.holdings["ABC"] == 10.0
    requires "ABC" in b.quotes && b.quotes["ABC"] == Quote(9.0, 10.0, "ABC", 100) && b.costs == [Flat(50.0)]
    ensures var weights := map["ABC" := 0.5];
            && Sensible(b.costs) && LiquidationValue(b, ["ABC"]) == 140.0
            && Outlay(b, MakePlan(b, weights, 140.0, ["ABC"]).buys) == 90.0
            && 140.0 * WeightSum(weights, ["ABC"]) == 70.0
  {
    var q, weights := b.quotes["ABC"], map["ABC" := 0.5];
    assert ["ABC"][..0] == [] && [Flat(50.0)][..0] == [];
    assert PositionValue(b, "ABC") == Some(90.0);
    assert ImpactTotal(b.costs, Terms(90.0, 9.0), false) == Terms(40.0, 9.0);
    FlippedExample();
    assert Difference(b, weights, 140.0, "ABC") == -20.0;
    var o := MarketBuyOrder("ABC", 4.0);
    assert MakePlan(b, weights, 140.0, ["ABC"]).buys == [o];
    assert [o][..0] == [];
    assert Charges(b.costs, 4.0, 40.0) == 50.0;
    PurchaseCostIs(b.costs, 4.0, 10.0, 40.0);
  }

  // ---------- sales ----------

  ghost predicate NoPerShare(costs: seq<Cost>) {
    forall i :: 0 <= i < |costs| ==> !costs[i].PerShare?
  }

  /** Without per-share costs a sale is sized at the bid, on a budget that costs can only lower. */
  lemma {:induction false} SaleTerms(costs: seq<Cost>, budget: real, price: real)
    requires Sensible(costs) && NoPerShare(costs) && budget >= 0.0
    ensures var net := ImpactTotal(costs, Terms(budget, price), false); net.price == price && net.budget <= budget
  {
    if costs != [] {
      var n := |costs| - 1;
      SaleTerms(costs[..n], budget, price);
      var mid := ImpactTotal(costs[..n], Terms(budget, price), false).budget;
      match costs[n] {
        case PctOfValue(pct) => ShareLeft(mid, budget, 1.0 - pct);
        case Flat(val) =>
      }
    }
  }

  lemma ShareLeft(mid: real, budget: real, k: real)
    requires mid <= budget && budget >= 0.0 && 0.0 < k <= 1.0
    ensures mid * k <= budget
  {
    if mid >= 0.0 {
      MulLe(k, 1.0, mid);
    } else {
      MulPositive(-mid, k);
    }
  }

  lemma NoMoreThanHeld(shares: real, held: real, bid: real, value: real)
    requires bid > 0.0 && value == bid * held && shares * bid <= value
    ensures shares <= held
  {
    if shares > held {
      MulLess(held, shares, bid);
    }
  }

  lemma TrimIs(costs: seq<Cost>, diff: real, q: Quote, budget: real, shares: real, held: real, value: real)
    requires q.bid > 0.0 && NetTerms(costs, diff, q) == Terms(budget, q.bid) && diff < 0.0
    requires value == q.bid * held && budget <= value && shares == -RequiredShares(costs, diff, q)
    ensures shares <= held
  {
    FloorFits(budget, q.bid, shares);
    NoMoreThanHeld(shares, held, q.bid, value);
  }

  /** Then trimming never asks for more than is held. */
  lemma TrimFitsHolding(costs: seq<Cost>, diff: real, q: Quote, held: real, value: real)
    requires Sensible(costs) && NoPerShare(costs) && q.bid > 0.0
    requires value == q.bid * held && -value <= diff < 0.0
    ensures -RequiredShares(costs, diff, q) <= held
  {
    SaleTerms(costs, -diff, q.bid);
    TrimIs(costs, diff, q, NetTerms(costs, diff, q).budget, -RequiredShares(costs, diff, q), held, value);
  }

  lemma FloorAtMost(x: real, held: real)
    ensures Floor(x) <= held <==> x < Floor(held) + 1.0
  {
    var f, h := x.Floor, held.Floor;
    assert f as real <= x < f as real + 1.0;
    assert h as real <= held < h as real + 1.0;
    if f <= h {
      assert f as real <= h as real;
    } else {
      assert f as real >= (h + 1) as real;
    }
  }

  lemma QuotientTimes(budget: real, price: real, x: real)
    requires price != 0.0 && x == Quotient(budget, price)
    ensures x * price == budget
  {
    DivideAndTimes(budget, price, x);
  }

  lemma DivideAndTimes(a: real, b: real, q: real)
    requires b != 0.0 && q == a / b
    ensures q * b == a
  {
    assert (a / b) * b == a;
  }

  lemma QuotientBelow(x: real, budget: real, price: real, bound: real, beyond: real)
    requires price > 0.0 && x * price == budget && beyond == bound * price
    ensures x < bound <==> budget < beyond
  {
    var gap := (bound - x) * price;
    assert gap == beyond - budget;
    if x < bound {
      MulPositive(bound - x, price);
    } else {
      MulLe(0.0, x - bound, price);
      assert (x - bound) * price == -gap;
    }
  }

  /** A trim asks for no more than is held exactly when the budget stays short of the price of one
      share beyond the whole shares held; with a negative net price, when it stays above it. */
  lemma TrimFitsWhen(costs: seq<Cost>, diff: real, q: Quote, held: real, net: Terms, beyond: real)
    requires diff < 0.0 && net == NetTerms(costs, diff, q) && net.price != 0.0
    requires beyond == (Floor(held) + 1.0) * net.price
    ensures -RequiredShares(costs, diff, q) <= held <==> if net.price > 0.0 then net.budget < beyond else net.budget > beyond
  {
    var x := Quotient(net.budget, net.price);
    QuotientTimes(net.budget, net.price, x);
    FloorAtMost(x, held);
    if net.price > 0.0 {
      QuotientBelow(x, net.budget, net.price, Floor(held) + 1.0, beyond);
    } else {
      assert x * -net.price == -net.budget;
      QuotientBelow(x, -net.budget, -net.price, Floor(held) + 1.0, -beyond);
    }
  }

  /** A weight that is not negative, positive prices, and a top-up, if it is one, that its costs do
      not turn into a sale. */
  ghost predicate SellableOne(b: Broker, weights: map<Symbol, real>, total: real, s: Symbol) {
    && s in weights && total * weights[s] >= 0.0
    && (s in b.quotes ==>
          && b.quotes[s].bid > 0.0 && b.quotes[s].ask > 0.0
          && var diff := Difference(b, weights, total, s);
             diff > 0.0 ==> NetTerms(b.costs, diff, b.quotes[s]).budget >= 0.0)
  }

  ghost predicate SaleFits(b: Broker, o: Order) {
    o.orderType == MarketSell && o.symbol in b.holdings && 0.0 < o.shares <= b.holdings[o.symbol]
  }

  lemma SaleOne(b: Broker, weights: map<Symbol, real>, total: real, s: Symbol, diff: real, shares: real)
    requires Sensible(b.costs) && NoPerShare(b.costs) && SellableOne(b, weights, total, s) && s in b.quotes
    requires diff == Difference(b, weights, total, s) != 0.0
    requires shares == RequiredShares(b.costs, diff, b.quotes[s]) && shares < 0.0
    ensures SaleFits(b, MarketSellOrder(s, -shares))
  {
    if diff > 0.0 {
      TopUpSellsNothing(b.costs, diff, b.quotes[s]);
    } else {
      TrimFitsHolding(b.costs, diff, b.quotes[s], b.holdings[s], OrZero(PositionValue(b, s)));
    }
  }

  lemma TopUpSellsNothing(costs: seq<Cost>, diff: real, q: Quote)
    requires Sensible(costs) && diff > 0.0 && q.ask > 0.0 && NetTerms(costs, diff, q).budget >= 0.0
    ensures RequiredShares(costs, diff, q) >= 0.0
  {
    NetPriceCoversGross(costs, diff, q.ask);
    var net := NetTerms(costs, diff, q);
    FloorFits(net.budget, net.price, Floor(Quotient(net.budget, net.price)));
  }

  /** Without per-share costs every planned sale is for something held, for no more of it than is
      held, and a broker that trades accepts it. */
  lemma {:induction false} PlannedSalesFit(b: Broker, weights: map<Symbol, real>, total: real, keys: seq<Symbol>)
    requires Sensible(b.costs) && NoPerShare(b.costs)
    requires forall s :: s in keys ==> SellableOne(b, weights, total, s)
    ensures forall s :: s in keys ==> s in weights
    ensures forall o :: o in MakePlan(b, weights, total, keys).sells ==> SaleFits(b, o)
    ensures b.state.Ready? ==> forall o :: o in MakePlan(b, weights, total, keys).sells ==> Accepts(b, o)
  {
    if keys != [] {
      var n := |keys| - 1;
      assert forall s :: s in keys[..n] ==> s in keys;
      assert keys[n] in keys && SellableOne(b, weights, total, keys[n]);
      PlannedSalesFit(b, weights, total, keys[..n]);
      PlanStepSells(b, weights, total, MakePlan(b, weights, total, keys[..n]), keys[n]);
    }
  }

  lemma PlanStepSells(b: Broker, weights: map<Symbol, real>, total: real, p: Plan, s: Symbol)
    requires Sensible(b.costs) && NoPerShare(b.costs) && SellableOne(b, weights, total, s)
    requires forall o :: o in p.sells ==> SaleFits(b, o)
    ensures forall o :: o in PlanOne(b, weights, total, p, s).sells ==> SaleFits(b, o)
  {
    var diff := Difference(b, weights, total, s);
    if PlanOne(b, weights, total, p, s).sells != p.sells {
      SaleOne(b, weights, total, s, diff, RequiredShares(b.costs, diff, b.quotes[s]));
    }
  }

  /** What leaving a position altogether comes to. */
  lemma ExitIs(b: Broker, total: real, value: real, q: Quote, net: Terms, asked: real)
    requires "ABC" in b.quotes && b.quotes["ABC"] == q && "ABC" in b.holdings
    requires PositionValue(b, "ABC") == Some(value) && value > 0.0 && net == NetTerms(b.costs, -value, q)
    requires asked == Floor(Quotient(net.budget, net.price)) && asked > b.holdings["ABC"] && asked > 0.0
    ensures var o := MarketSellOrder("ABC", asked);
            MakePlan(b, map["ABC" := 0.0], total, ["ABC"]) == Plan([], [o], false) && !Accepts(b, o)
  {
    var weights := map["ABC" := 0.0];
    assert ["ABC"][..0] == [];
    assert Difference(b, weights, total, "ABC") == -value;
    assert RequiredShares(b.costs, -value, q) == -asked;
  }

  /** With a cost per share the exit may never happen: to leave a position of 10, or of 10.5, the
      plan asks to sell 11, and that is refused. */
  lemma ExitRefused(b: Broker, total: real)
    requires "ABC" in b.quotes && b.quotes["ABC"] == Quote(10.0, 11.0, "ABC", 100) && b.costs == [PerShare(1.0)]
    requires "ABC" in b.holdings && (b.holdings["ABC"] == 10.0 || b.holdings["ABC"] == 10.5)
    ensures var o := MarketSellOrder("ABC", 11.0);
            MakePlan(b, map["ABC" := 0.0], total, ["ABC"]) == Plan([], [o], false) && !Accepts(b, o)
  {
    var q := b.quotes["ABC"];
    assert b.costs[..0] == [];
    if b.holdings["ABC"] == 10.0 {
      assert PositionValue(b, "ABC") == Some(100.0);
      assert ImpactTotal(b.costs, Terms(100.0, 10.0), false) == Terms(100.0, 9.0);
      assert (100.0 / 9.0).Floor == 11;
      ExitIs(b, total, 100.0, q, Terms(100.0, 9.0), 11.0);
    } else {
      assert PositionValue(b, "ABC") == Some(105.0);
      assert ImpactTotal(b.costs, Terms(105.0, 10.0), false) == Terms(105.0, 9.0);
      assert (105.0 / 9.0).Floor == 11;
      ExitIs(b, total, 105.0, q, Terms(105.0, 9.0), 11.0);
    }
  }

  /** So it is when costs turn both the budget and the price negative: 14 are asked for and 5 held. */
  lemma ExitRefusedBelowZero(b: Broker, total: real)
    requires "ABC" in b.quotes && b.quotes["ABC"] == Quote(9.0, 10.0, "ABC", 100) && b.costs == [Flat(200.0), PerShare(20.0)]
    requires "ABC" in b.holdings && b.holdings["ABC"] == 5.0
    ensures var o := MarketSellOrder("ABC", 14.0);
            MakePlan(b, map["ABC" := 0.0], total, ["ABC"]) == Plan([], [o], false) && !Accepts(b, o)
  {
    var q := b.quotes["ABC"];
    assert b.costs[..1] == [Flat(200.0)] && [Flat(200.0)][..0] == [];
    assert ImpactTotal([Flat(200.0)], Terms(45.0, 9.0), false) == Terms(-155.0, 9.0);
    assert NetTerms(b.costs, -45.0, q) == Terms(-155.0, -11.0);
    assert (-155.0 / -11.0).Floor == 14;
    assert PositionValue(b, "ABC") == Some(45.0);
    ExitIs(b, total, 45.0, q, Terms(-155.0, -11.0), 14.0);
  }

  // ---------- several plans ----------

  /** A plan takes no account of what is pending, and sending changes nothing else: until something
      fills, the next plan starts from the same cash and holdings. */
  lemma {:induction false} PlansIgnorePending(b: Broker, pending: map<Symbol, real>, weights: map<Symbol, real>, total: real, keys: seq<Symbol>)
    requires forall s :: s in keys ==> s in weights
    ensures MakePlan(b.(pending := pending), weights, total, keys) == MakePlan(b, weights, total, keys)
  {
    if keys != [] {
      var n := |keys| - 1;
      assert forall s :: s in keys[..n] ==> s in keys;
      PlansIgnorePending(b, pending, weights, total, keys[..n]);
      SamePosition(b, b.(pending := pending), keys[n]);
      SameStep(b, b.(pending := pending), weights, total, MakePlan(b, weights, total, keys[..n]), keys[n]);
    }
  }

  lemma SameStep(b: Broker, b': Broker, weights: map<Symbol, real>, total: real, p: Plan, s: Symbol)
    requires s in weights && b'.quotes == b.quotes && b'.costs == b.costs && PositionValue(b', s) == PositionValue(b, s)
    ensures PlanOne(b', weights, total, p, s) == PlanOne(b, weights, total, p, s)
  {
    assert Difference(b', weights, total, s) == Difference(b, weights, total, s);
  }

  lemma SamePosition(b: Broker, b': Broker, s: Symbol)
    requires b'.quotes == b.quotes && b'.holdings == b.holdings
    ensures PositionValue(b', s) == PositionValue(b, s)
  {
    if s in b.quotes && s in b.holdings {
      var bid, held := b.quotes[s].bid, b.holdings[s];
      assert PositionValue(b, s).value == bid * held && PositionValue(b', s).value == bid * held;
    }
  }

  /** One plan of several: the broker it was made for, its total value, and the order of the keys. */
  datatype Planned = Planned(b: Broker, total: real, keys: seq<Symbol>)

  ghost predicate AllAffordable(ps: seq<Planned>, weights: map<Symbol, real>) {
    forall i :: 0 <= i < |ps| ==> Affordable(ps[i].b, weights, ps[i].total, ps[i].keys)
  }

  ghost function Committed(ps: seq<Planned>, weights: map<Symbol, real>): real
    requires AllAffordable(ps, weights)
  {
    if ps == [] then 0.0
    else
      var p := ps[|ps| - 1];
      Committed(ps[..|ps| - 1], weights) + Outlay(p.b, MakePlan(p.b, weights, p.total, p.keys).buys)
  }

  ghost function Allotted(ps: seq<Planned>, weights: map<Symbol, real>): real
    requires AllAffordable(ps, weights)
  {
    if ps == [] then 0.0
    else
      var p := ps[|ps| - 1];
      Allotted(ps[..|ps| - 1], weights) + Targeted(weights, p.total, p.keys)
  }

  /** What several plans commit together is at most the sum of their targets: one portfolio value
      for each plan, not one in all. */
  lemma {:induction false} PlansAddUp(ps: seq<Planned>, weights: map<Symbol, real>)
    requires AllAffordable(ps, weights)
    ensures Committed(ps, weights) <= Allotted(ps, weights)
  {
    if ps != [] {
      var p := ps[|ps| - 1];
      PlansAddUp(ps[..|ps| - 1], weights);
      PurchasesAreTargeted(p.b, weights, p.total, p.keys);
    }
  }

  /** That much is committed: with 100 in cash two plans in a row each buy for 90, and both orders
      are accepted. */
  lemma CommittedTwice(j: Joint)
    requires j.brk.cash == 100.0 && j.brk.holdings == map[] && j.brk.quotes == map["ABC" := Quote(9.0, 10.0, "ABC", 100)]
    requires j.brk.costs == [] && j.brk.state.Ready?
    ensures var o := MarketBuyOrder("ABC", 9.0);
            && DiffOrders(j.brk, map["ABC" := 0.9], 100.0, ["ABC"]) == [o]
            && var (once, first) := SendOrder(j, o);
               && first.OrderSentToExchange?
               && LiquidationValue(once.brk, []) == 100.0
               && DiffOrders(once.brk, map["ABC" := 0.9], 100.0, ["ABC"]) == [o]
               && SendOrder(once, o).1.OrderSentToExchange?
               && Outlay(j.brk, [o, o]) == 180.0
  {
    var weights := map["ABC" := 0.9];
    var q, o := Quote(9.0, 10.0, "ABC", 100), MarketBuyOrder("ABC", 9.0);
    assert j.brk.quotes["ABC"] == q;
    assert ["ABC"][..0] == [];
    assert Difference(j.brk, weights, 100.0, "ABC") == 90.0;
    assert NetTerms([], 90.0, q) == Terms(90.0, 10.0);
    assert (90.0 / 10.0).Floor == 9;
    assert MakePlan(j.brk, weights, 100.0, ["ABC"]) == Plan([o], [], false);
    var once := SendOrder(j, o).0;
    PlansIgnorePending(j.brk, once.brk.pending, weights, 100.0, ["ABC"]);
    PurchaseCostIs([], 9.0, 10.0, 90.0);
    assert Price(j.brk, o) == 90.0;
    assert [o, o][..1] == [o] && [o][..0] == [];
    assert Outlay(j.brk, [o]) == 90.0;
  }

  // ---------- where a plan stops ----------

  /** The pass ends at the first symbol already on target: the plan is that of the symbols before
      it, so later symbols are never rebalanced. */
  lemma {:induction false} StopsAtFirstBalanced(b: Broker, weights: map<Symbol, real>, total: real, keys: seq<Symbol>, k: nat)
    requires k < |keys| && forall s :: s in keys ==> s in weights
    requires Difference(b, weights, total, keys[k]) == 0.0
    requires forall i :: 0 <= i < k ==> Difference(b, weights, total, keys[i]) != 0.0
    ensures forall s :: s in keys[..k] ==> s in weights
    ensures DiffOrders(b, weights, total, keys) == DiffOrders(b, weights, total, keys[..k])
    ensures MakePlan(b, weights, total, keys).stopped
  {
    var n := |keys| - 1;
    assert forall s :: s in keys[..n] ==> s in keys;
    assert forall s :: s in keys[..k] ==> s in keys;
    if k == n {
      StopsWhenBalanced(b, weights, total, keys[..n]);
    } else {
      StopsAtFirstBalanced(b, weights, total, keys[..n], k);
      assert keys[..n][..k] == keys[..k];
    }
  }

  ghost predicate Balanced(b: Broker, weights: map<Symbol, real>, total: real, keys: seq<Symbol>, k: nat)
    requires k < |keys| && forall s :: s in keys ==> s in weights
  {
    Difference(b, weights, total, keys[k]) == 0.0
  }

  /** The flag is set exactly when some symbol is on target already. */
  lemma {:induction false} StopsWhenBalanced(b: Broker, weights: map<Symbol, real>, total: real, keys: seq<Symbol>)
    requires forall s :: s in keys ==> s in weights
    ensures MakePlan(b, weights, total, keys).stopped <==> exists k :: 0 <= k < |keys| && Balanced(b, weights, total, keys, k)
  {
    if keys != [] {
      var n := |keys| - 1;
      var init := keys[..n];
      assert forall s :: s in init ==> s in keys;
      StopsWhenBalanced(b, weights, total, init);
      forall k | 0 <= k < |init| ensures Balanced(b, weights, total, init, k) <==> Balanced(b, weights, total, keys, k) {
        assert init[k] == keys[k];
      }
      assert Balanced(b, weights, total, keys, n) <==> Difference(b, weights, total, keys[n]) == 0.0;
    }
  }

  /** The pass without the early end. */
  function FullPlan(b: Broker, weights: map<Symbol, real>, total: real, keys: seq<Symbol>): Plan
    requires forall s :: s in keys ==> s in weights
  {
    if keys == [] then Plan([], [], false)
    else
      var n := |keys| - 1;
      assert forall s :: s in keys[..n] ==> s in keys;
      var p, diff := FullPlan(b, weights, total, keys[..n]), Difference(b, weights, total, keys[n]);
      if diff == 0.0 then p else PlanTrade(b, diff, p, keys[n])
  }

  /** The k-th symbol has a trade to make, and the i-th, before it, is on target. */
  ghost predicate Skips(b: Broker, weights: map<Symbol, real>, total: real, keys: seq<Symbol>, i: nat, k: nat)
    requires i < |keys| && k < |keys| && forall s :: s in keys ==> s in weights
  {
    && i < k && Balanced(b, weights, total, keys, i) && !Balanced(b, weights, total, keys, k)
    && keys[k] in b.quotes && RequiredShares(b.costs, Difference(b, weights, total, keys[k]), b.quotes[keys[k]]) != 0.0
  }

  ghost predicate SkipsAny(b: Broker, weights: map<Symbol, real>, total: real, keys: seq<Symbol>)
    requires forall s :: s in keys ==> s in weights
  {
    exists i, k :: 0 <= i < |keys| && 0 <= k < |keys| && Skips(b, weights, total, keys, i, k)
  }

  predicate SameOrders(p: Plan, q: Plan) {
    p.buys == q.buys && p.sells == q.sells
  }

  /** Skipping in a list is skipping in the list without its last symbol, or skipping the last. */
  lemma SkipsOneMore(b: Broker, weights: map<Symbol, real>, total: real, keys: seq<Symbol>, init: seq<Symbol>)
    requires keys != [] && init == keys[..|keys| - 1] && forall s :: s in keys ==> s in weights
    ensures forall s :: s in init ==> s in weights
    ensures SkipsAny(b, weights, total, keys) <==>
              SkipsAny(b, weights, total, init) || exists i :: 0 <= i < |init| && Skips(b, weights, total, keys, i, |init|)
  {
    var n := |init|;
    assert forall s :: s in init ==> s in keys;
    forall i, k | 0 <= i < n && 0 <= k < n ensures Skips(b, weights, total, init, i, k) <==> Skips(b, weights, total, keys, i, k) {
      assert init[i] == keys[i] && init[k] == keys[k];
    }
    if SkipsAny(b, weights, total, keys) {
      var i, k :| 0 <= i < |keys| && 0 <= k < |keys| && Skips(b, weights, total, keys, i, k);
      assert k < n ==> Skips(b, weights, total, init, i, k);
    }
  }

  /** What stopping early loses: the plan is the full one exactly when no symbol that has a trade to
      make comes after one that is on target. */
  lemma {:induction false} PlanIsFullWhen(b: Broker, weights: map<Symbol, real>, total: real, keys: seq<Symbol>)
    requires forall s :: s in keys ==> s in weights
    ensures SameOrders(MakePlan(b, weights, total, keys), FullPlan(b, weights, total, keys)) <==> !SkipsAny(b, weights, total, keys)
    ensures |MakePlan(b, weights, total, keys).buys| <= |FullPlan(b, weights, total, keys).buys|
    ensures |MakePlan(b, weights, total, keys).sells| <= |FullPlan(b, weights, total, keys).sells|
  {
    if keys != [] {
      var n := |keys| - 1;
      var init := keys[..n];
      SkipsOneMore(b, weights, total, keys, init);
      PlanIsFullWhen(b, weights, total, init);
      StopsWhenBalanced(b, weights, total, init);
      forall k | 0 <= k < n ensures Balanced(b, weights, total, init, k) <==> Balanced(b, weights, total, keys, k) {
        assert init[k] == keys[k];
      }
      if !MakePlan(b, weights, total, init).stopped {
        assert !SkipsAny(b, weights, total, init);
      } else {
        var i :| 0 <= i < n && Balanced(b, weights, total, init, i);
        assert Balanced(b, weights, total, keys, i);
        assert Skips(b, weights, total, keys, i, n)
               <==> !Balanced(b, weights, total, keys, n) && keys[n] in b.quotes
                    && RequiredShares(b.costs, Difference(b, weights, total, keys[n]), b.quotes[keys[n]]) != 0.0;
      }
    }
  }

  /** Whether a symbol is rebalanced then depends on the order in which the hash map is visited: "B"
      is skipped after "A", which is on target, and bought before it. */
  lemma SkippedExample()
    ensures var b := Broker(100.0, map[], map[], 0, map["B" := Quote(9.0, 10.0, "B", 100)], [], [], Ready);
            var weights := map["A" := 0.0, "B" := 0.5];
            && Difference(b, weights, 100.0, "B") == 50.0
            && DiffOrders(b, weights, 100.0, ["A", "B"]) == []
            && DiffOrders(b, weights, 100.0, ["B", "A"]) == [MarketBuyOrder("B", 5.0)]
  {
    var q := Quote(9.0, 10.0, "B", 100);
    var b := Broker(100.0, map[], map[], 0, map["B" := q], [], [], Ready);
    var weights := map["A" := 0.0, "B" := 0.5];
    assert ["A", "B"][..1] == ["A"] && ["B", "A"][..1] == ["B"] && ["A"][..0] == [] && ["B"][..0] == [];
    assert Difference(b, weights, 100.0, "A") == 0.0;
    assert NetTerms([], 50.0, q) == Terms(50.0, 10.0);
    assert (50.0 / 10.0).Floor == 5;
    assert MakePlan(b, weights, 100.0, ["A"]) == Plan([], [], true);
    assert MakePlan(b, weights, 100.0, ["B"]) == Plan([MarketBuyOrder("B", 5.0)], [], false);
  }
}
