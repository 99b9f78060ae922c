/** Trading costs: what a trade is charged, and how a gross budget and price are adjusted so that
    an order can be sized with the charges in mind. */
module Costs {
  datatype Cost = PerShare(amount: real) | PctOfValue(amount: real) | Flat(amount: real)

  /** What one cost charges a trade. */
  function Charge(c: Cost, quantity: real, value: real): real {
    match c
    case PerShare(cost) => cost * quantity
    case PctOfValue(pct) => value * pct
    case Flat(val) => val
  }

  function Charges(costs: seq<Cost>, quantity: real, value: real): real {
    if costs == [] then 0.0
    else Charges(costs[..|costs| - 1], quantity, value) + Charge(costs[|costs| - 1], quantity, value)
  }

  datatype Terms = Terms(budget: real, price: real)

  function Impact(c: Cost, gross: Terms, isBuy: bool): Terms {
    match c
    case PerShare(val) => gross.(price := if isBuy then gross.price + val else gross.price - val)
    case PctOfValue(pct) => gross.(budget := gross.budget * (1.0 - pct))
    case Flat(val) => gross.(budget := gross.budget - val)
  }

  function ImpactTotal(costs: seq<Cost>, gross: Terms, isBuy: bool): Terms {
    if costs == [] then gross
    else Impact(costs[|costs| - 1], ImpactTotal(costs[..|costs| - 1], gross, isBuy), isBuy)
  }

  method TradeImpactTotal(costs: seq<Cost>, grossBudget: real, grossPrice: real, isBuy: bool)
    returns (netBudget: real, netPrice: real)
    ensures Terms(netBudget, netPrice) == ImpactTotal(costs, Terms(grossBudget, grossPrice), isBuy)
  {
    var res := Terms(grossBudget, grossPrice);
    var i := 0;
    while i < |costs|
      invariant i <= |costs| && res == ImpactTotal(costs[..i], Terms(grossBudget, grossPrice), isBuy)
    {
      assert costs[..i + 1][..i] == costs[..i];
      res := Impact(costs[i], res, isBuy);
      i := i + 1;
    }
    assert costs[..i] == costs;
    netBudget, netPrice := res.budget, res.price;
  }

  method CalculateTradeCosts(costs: seq<Cost>, quantity: real, value: real) returns (cost: real)
    ensures cost == Charges(costs, quantity, value)
  {
    cost := 0.0;
    var i := 0;
    while i < |costs|
      invariant i <= |costs| && cost == Charges(costs[..i], quantity, value)
    {
      assert costs[..i + 1][..i] == costs[..i];
      cost := cost + Charge(costs[i], quantity, value);
      i := i + 1;
    }
    assert costs[..i] == costs;
  }

  // ---------- the terms in closed form ----------

  function PerShareSum(costs: seq<Cost>): real {
    if costs == [] then 0.0
    else PerShareSum(costs[..|costs| - 1]) + match costs[|costs| - 1] case PerShare(val) => val case _ => 0.0
  }

  function PercentageSum(costs: seq<Cost>): real {
    if costs == [] then 0.0
    else PercentageSum(costs[..|costs| - 1]) + match costs[|costs| - 1] case PctOfValue(pct) => pct case _ => 0.0
  }

  function FlatSum(costs: seq<Cost>): real {
    if costs == [] then 0.0
    else FlatSum(costs[..|costs| - 1]) + match costs[|costs| - 1] case Flat(val) => val case _ => 0.0
  }

  /** What one cost makes of the fraction of a budget that is kept, and of the amount taken. */
  function KeptAfter(c: Cost, kept: real): real {
    match c case PctOfValue(pct) => kept * (1.0 - pct) case _ => kept
  }

  function TakenAfter(c: Cost, taken: real): real {
    match c
    case PctOfValue(pct) => taken * (1.0 - pct)
    case Flat(val) => taken + val
    case PerShare(_) => taken
  }

  /** The fraction of a budget that the percentages leave ... */
  function Kept(costs: seq<Cost>): real {
    if costs == [] then 1.0 else KeptAfter(costs[|costs| - 1], Kept(costs[..|costs| - 1]))
  }

  /** ... and what the flat costs take, less the percentages that come after them. */
  function Taken(costs: seq<Cost>): real {
    if costs == [] then 0.0 else TakenAfter(costs[|costs| - 1], Taken(costs[..|costs| - 1]))
  }

  function Less(budget: real, kept: real, taken: real): real {
    budget * kept - taken
  }

  lemma OneCost(c: Cost, mid: Terms, isBuy: bool, budget: real, kept: real, taken: real)
    requires mid.budget == Less(budget, kept, taken)
    ensures Impact(c, mid, isBuy).budget == Less(budget, KeptAfter(c, kept), TakenAfter(c, taken))
  {
    match c
    case PctOfValue(pct) => Regroup(budget, kept, taken, 1.0 - pct);
    case _ =>
  }

  lemma Regroup(budget: real, kept: real, taken: real, k: real)
    ensures Less(budget, kept, taken) * k == Less(budget, kept * k, taken * k)
  {
    assert budget * kept * k == budget * (kept * k);
  }

  /** For buys and sells alike the net budget is what the percentages leave of the gross one less
      what the flat costs take, and the net price is off by the sum of the costs per share. */
  lemma {:induction false} NetTermsAre(costs: seq<Cost>, gross: Terms, isBuy: bool)
    ensures var net := ImpactTotal(costs, gross, isBuy);
            && net.budget == Less(gross.budget, Kept(costs), Taken(costs))
            && net.price == if isBuy then gross.price + PerShareSum(costs) else gross.price - PerShareSum(costs)
  {
    if costs != [] {
      var init := costs[..|costs| - 1];
      NetTermsAre(init, gross, isBuy);
      OneCost(costs[|costs| - 1], ImpactTotal(init, gross, isBuy), isBuy, gross.budget, Kept(init), Taken(init));
    }
  }

  /** Without flat costs nothing but the percentages counts, and without percentages nothing but the
      sum of the flat costs. */
  lemma {:induction false} KeptAndTaken(costs: seq<Cost>)
    ensures (forall c :: c in costs ==> !c.Flat?) ==> Taken(costs) == 0.0
    ensures (forall c :: c in costs ==> !c.PctOfValue?) ==> Kept(costs) == 1.0 && Taken(costs) == FlatSum(costs)
  {
    if costs != [] {
      var n := |costs| - 1;
      assert costs[n] in costs && forall c :: c in costs[..n] ==> c in costs;
      KeptAndTaken(costs[..n]);
    }
  }

  /** The bill for a trade at given sums of the three kinds of cost. */
  function Bill(quantity: real, value: real, perShare: real, pct: real, flat: real): real {
    quantity * perShare + value * pct + flat
  }

  lemma MoreOf(factor: real, sum: real, more: real)
    ensures factor * (sum + more) == factor * sum + factor * more
  {
  }

  lemma OneMoreCharge(c: Cost, quantity: real, value: real, perShare: real, pct: real, flat: real)
    ensures Bill(quantity, value, perShare, pct, flat) + Charge(c, quantity, value)
            == match c
               case PerShare(cost) => Bill(quantity, value, perShare + cost, pct, flat)
               case PctOfValue(more) => Bill(quantity, value, perShare, pct + more, flat)
               case Flat(val) => Bill(quantity, value, perShare, pct, flat + val)
  {
    match c
    case PerShare(cost) => MoreOf(quantity, perShare, cost);
    case PctOfValue(more) => MoreOf(value, pct, more);
    case Flat(val) =>
  }

  /** A trade is charged per share, per value and once for each flat cost. */
  lemma {:induction false} ChargesAre(costs: seq<Cost>, quantity: real, value: real)
    ensures Charges(costs, quantity, value) == Bill(quantity, value, PerShareSum(costs), PercentageSum(costs), FlatSum(costs))
  {
    if costs == [] {
      assert Bill(quantity, value, 0.0, 0.0, 0.0) == 0.0;
    } else {
      var init, c := costs[..|costs| - 1], costs[|costs| - 1];
      ChargesAre(init, quantity, value);
      OneMoreCharge(c, quantity, value, PerShareSum(init), PercentageSum(init), FlatSum(init));
    }
  }

  ghost predicate Sensible(costs: seq<Cost>) {
    forall i :: 0 <= i < |costs| ==> costs[i].amount >= 0.0 && (costs[i].PctOfValue? ==> costs[i].amount < 1.0)
  }

  lemma MulLe(a: real, b: real, k: real)
    requires a <= b && k >= 0.0
    ensures a * k <= b * k
  {
    assert (b - a) * k >= 0.0;
  }

  lemma MulPositive(a: real, b: real)
    requires a > 0.0 && b > 0.0
    ensures a * b > 0.0
  {
  }

  /** A percentage taken from the budget leaves room for the same percentage of any trade the
      reduced budget can pay for. */
  lemma PercentageLeavesRoom(budget: real, pct: real, spent: real, value: real)
    requires 0.0 <= pct < 1.0 && 0.0 <= value <= spent
    requires spent <= budget - budget * pct
    ensures spent + value * pct <= budget
  {
    var kept := budget * (1.0 - pct);
    Expand(budget, pct, 1.0 - pct);
    SignOfFactor(budget, 1.0 - pct, kept);
    MulLe(0.0, budget, pct);
    MulLe(value, spent, pct);
    MulLe(spent, budget, pct);
  }

  lemma SignOfFactor(a: real, k: real, product: real)
    requires k > 0.0 && product == a * k && product >= 0.0
    ensures a >= 0.0
  {
    if a < 0.0 {
      MulPositive(-a, k);
    }
  }

  lemma Expand(a: real, pct: real, k: real)
    requires k == 1.0 - pct
    ensures a * k == a - a * pct
  {
  }

  lemma MulLess(a: real, b: real, k: real)
    requires a < b && k > 0.0
    ensures a * k < b * k
  {
    MulPositive(b - a, k);
  }

  /** Undoing one cost: what fits after it, fits before it together with its charge.  `spent` is
      what the quantity comes to at the net price, `before` at the price before the cost. */
  lemma ChargeFits(c: Cost, mid: Terms, net: Terms, price: real, q: real, spent: real, before: real, reserve: real, value: real)
    requires c.amount >= 0.0 && (c.PctOfValue? ==> c.amount < 1.0)
    requires q >= 0.0 && 0.0 <= price <= mid.price && reserve >= 0.0 && value == q * price
    requires net == Impact(c, mid, true) && spent == q * net.price && before == q * mid.price
    requires spent + reserve <= net.budget
    ensures Charge(c, q, value) >= 0.0
    ensures before + reserve + Charge(c, q, value) <= mid.budget
  {
    MulLe(price, mid.price, q);
    MulLe(0.0, price, q);
    match c
    case PerShare(val) =>
      PerShareSpread(q, mid.price, val);
      MulLe(0.0, val, q);
    case PctOfValue(pct) =>
      Expand(mid.budget, pct, 1.0 - pct);
      PercentageLeavesRoom(mid.budget, pct, before + reserve, value);
      MulLe(0.0, value, pct);
    case Flat(val) =>
  }

  lemma {:induction false} NetPriceCoversGross(costs: seq<Cost>, budget: real, price: real)
    requires Sensible(costs)
    ensures ImpactTotal(costs, Terms(budget, price), true).price >= price
  {
    if costs != [] {
      NetPriceCoversGross(costs[..|costs| - 1], budget, price);
    }
  }

  /** Budget soundness: whatever the mix and order of costs, a quantity that fits the net budget
      at the net price fits the gross budget at the gross price with every charge paid; and money
      held in reserve from the net budget is still there afterwards. */
  lemma {:induction false} BudgetSound(costs: seq<Cost>, budget: real, price: real, net: Terms, q: real, spent: real, value: real, reserve: real)
    requires Sensible(costs) && q >= 0.0 && price >= 0.0 && reserve >= 0.0
    requires net == ImpactTotal(costs, Terms(budget, price), true)
    requires value == q * price && spent == q * net.price && spent + reserve <= net.budget
    ensures value + Charges(costs, q, value) + reserve <= budget
  {
    if costs != [] {
      var n := |costs| - 1;
      var init, c := costs[..n], costs[n];
      var mid := ImpactTotal(init, Terms(budget, price), true);
      var charge, before := Charge(c, q, value), q * mid.price;
      NetPriceCoversGross(init, budget, price);
      ChargeFits(c, mid, net, price, q, spent, before, reserve, value);
      BudgetSound(init, budget, price, mid, q, before, value, reserve + charge);
    }
  }

  /** Without percentages the sizing is exact: nothing affordable is turned away. */
  lemma {:induction false} BudgetExactWithoutPercentages(costs: seq<Cost>, budget: real, price: real, net: Terms, q: real, spent: real, value: real)
    requires forall i :: 0 <= i < |costs| ==> !costs[i].PctOfValue?
    requires net == ImpactTotal(costs, Terms(budget, price), true)
    requires value == q * price && spent == q * net.price
    ensures net.budget - spent == budget - value - Charges(costs, q, value)
  {
    if costs != [] {
      var n := |costs| - 1;
      var mid := ImpactTotal(costs[..n], Terms(budget, price), true);
      var before := q * mid.price;
      BudgetExactWithoutPercentages(costs[..n], budget, price, mid, q, before, value);
      ChargeExact(costs[n], mid, net, q, spent, before, value);
    }
  }

  lemma ChargeExact(c: Cost, mid: Terms, net: Terms, q: real, spent: real, before: real, value: real)
    requires !c.PctOfValue? && net == Impact(c, mid, true) && spent == q * net.price && before == q * mid.price
    ensures net.budget - spent == mid.budget - before - Charge(c, q, value)
  {
    match c
    case PerShare(val) => PerShareSpread(q, mid.price, val);
    case Flat(val) =>
  }

  lemma PerShareSpread(q: real, price: real, val: real)
    ensures q * (price + val) == q * price + val * q
  {
  }
}
