/** The broker's trade log and the cost basis read off it. */
module CostBasis {
  import opened Prelude
  import opened Penelope
  import opened Uist
  import opened BrokerModel
  import opened BrokerLedger

  datatype Running = Running(qty: real, val: real)

  /** One pass over the log, the value starting again from zero whenever the position is flat. */
  function Pass(log: seq<Trade>, s: Symbol): Running {
    if log == [] then Running(0.0, 0.0)
    else
      var r, t := Pass(log[..|log| - 1], s), log[|log| - 1];
      if t.symbol != s then r
      else
        var qty := r.qty + SignedQuantity(t);
        Running(qty, if qty == 0.0 then 0.0 else r.val - CashEffect(t))
  }

  function Basis(r: Running): Option<real> {
    if r.qty == 0.0 then None else Some(r.val / r.qty)
  }

  /** Where the log last left the position in `s` flat. */
  function LastFlat(log: seq<Trade>, s: Symbol): (k: nat)
    ensures k <= |log|
  {
    if NetQuantity(log, s) == 0.0 then |log| else LastFlat(log[..|log| - 1], s)
  }

  lemma {:induction false} LastFlatIsLast(log: seq<Trade>, s: Symbol)
    ensures NetQuantity(log[..LastFlat(log, s)], s) == 0.0
    ensures forall i :: LastFlat(log, s) < i <= |log| ==> NetQuantity(log[..i], s) != 0.0
  {
    assert log[..|log|] == log;
    if NetQuantity(log, s) != 0.0 {
      var init := log[..|log| - 1];
      LastFlatIsLast(init, s);
      assert forall i :: 0 <= i < |log| ==> log[..i] == init[..i];
    }
  }

  /** What was paid for `s` net of what was received for it. */
  function NetCost(ts: seq<Trade>, s: Symbol): real {
    if ts == [] then 0.0
    else NetCost(ts[..|ts| - 1], s) + if ts[|ts| - 1].symbol == s then -CashEffect(ts[|ts| - 1]) else 0.0
  }

  lemma {:induction false} PassCountsQuantity(log: seq<Trade>, s: Symbol)
    ensures Pass(log, s).qty == NetQuantity(log, s)
  {
    if log != [] {
      PassCountsQuantity(log[..|log| - 1], s);
    }
  }

  lemma SinceFlat(log: seq<Trade>, s: Symbol)
    ensures NetQuantity(log[LastFlat(log, s)..], s) == NetQuantity(log, s)
  {
    var k := LastFlat(log, s);
    LastFlatIsLast(log, s);
    NetConcat(log[..k], log[k..], s);
    assert log == log[..k] + log[k..];
  }

  lemma NetCostSnoc(a: seq<Trade>, t: Trade, s: Symbol)
    ensures NetCost(a + [t], s) == NetCost(a, s) + if t.symbol == s then -CashEffect(t) else 0.0
  {
    assert (a + [t])[..|a|] == a;
  }

  lemma FlatHasNoCost(log: seq<Trade>, s: Symbol)
    requires NetQuantity(log, s) == 0.0
    ensures NetCost(log[LastFlat(log, s)..], s) == 0.0
  {
    assert log[|log|..] == [];
  }

  lemma {:induction false} PassSumsSinceFlat(log: seq<Trade>, s: Symbol)
    ensures Pass(log, s).val == NetCost(log[LastFlat(log, s)..], s)
  {
    if log != [] {
      var init, t := log[..|log| - 1], log[|log| - 1];
      assert log == init + [t];
      PassSumsSinceFlat(init, s);
      if NetQuantity(log, s) == 0.0 {
        FlatPass(init, t, s);
        FlatHasNoCost(log, s);
      } else {
        OpenPass(init, t, s);
      }
    }
  }

  lemma PassSnoc(init: seq<Trade>, t: Trade, s: Symbol)
    ensures Pass(init + [t], s)
            == if t.symbol != s then Pass(init, s)
               else
                 var qty := Pass(init, s).qty + SignedQuantity(t);
                 Running(qty, if qty == 0.0 then 0.0 else Pass(init, s).val - CashEffect(t))
  {
    assert (init + [t])[..|init|] == init;
  }

  lemma LastFlatSnoc(init: seq<Trade>, t: Trade, s: Symbol)
    requires NetQuantity(init + [t], s) != 0.0
    ensures LastFlat(init + [t], s) == LastFlat(init, s)
  {
    assert (init + [t])[..|init|] == init;
  }

  lemma FlatPass(init: seq<Trade>, t: Trade, s: Symbol)
    requires Pass(init, s).val == NetCost(init[LastFlat(init, s)..], s) && NetQuantity(init + [t], s) == 0.0
    ensures Pass(init + [t], s).val == 0.0
  {
    PassSnoc(init, t, s);
    PassCountsQuantity(init, s);
    NetSnoc(init, t, s);
    if t.symbol != s {
      FlatHasNoCost(init, s);
    }
  }

  lemma OpenPass(init: seq<Trade>, t: Trade, s: Symbol)
    requires Pass(init, s).val == NetCost(init[LastFlat(init, s)..], s) && NetQuantity(init + [t], s) != 0.0
    ensures Pass(init + [t], s).val == NetCost((init + [t])[LastFlat(init + [t], s)..], s)
  {
    var k := LastFlat(init, s);
    PassSnoc(init, t, s);
    LastFlatSnoc(init, t, s);
    PassCountsQuantity(init, s);
    NetSnoc(init, t, s);
    NetCostSnoc(init[k..], t, s);
    assert (init + [t])[k..] == init[k..] + [t];
  }

  /** The pass with resets gives net cost over net quantity since the position was last flat, and
      gives nothing exactly when it is flat now. */
  lemma CostBasisSinceFlat(log: seq<Trade>, s: Symbol)
    ensures NetQuantity(log[LastFlat(log, s)..], s) == NetQuantity(log, s)
    ensures Basis(Pass(log, s))
            == if NetQuantity(log, s) == 0.0 then None
               else Some(NetCost(log[LastFlat(log, s)..], s) / NetQuantity(log, s))
  {
    SinceFlat(log, s);
    PassCountsQuantity(log, s);
    PassSumsSinceFlat(log, s);
  }

  /** Profit as the code computes it, by way of prices per share. */
  function PositionProfit(b: Broker, s: Symbol): Option<real> {
    var cost := Basis(Pass(b.log, s));
    var value := PositionValue(b, s);
    if cost.None? || s !in b.holdings || value.None? then None
    else Some(Gain(b.holdings[s], Quotient(value.value, b.holdings[s]), cost.value))
  }

  function Gain(qty: real, price: real, cost: real): real {
    qty * (price - cost)
  }

  lemma GainIsDifference(qty: real, price: real, cost: real, value: real, spent: real)
    requires qty != 0.0 && price == Quotient(value, qty) && cost == spent / qty
    ensures Gain(qty, price, cost) == value - spent
  {
    assert qty * price == value;
    assert qty * cost == spent;
    assert qty * (price - cost) == qty * price - qty * cost;
  }

  lemma HeldIsNetQuantity(j: Joint, ds: Dataset, s: Symbol)
    requires JointOk(j, ds)
    ensures s in j.brk.holdings <==> NetQuantity(j.brk.log, s) != 0.0
    ensures s in j.brk.holdings ==> j.brk.holdings[s] == NetQuantity(j.brk.log, s) && s in j.brk.quotes
  {
    HeldIsPriced(j, ds);
    assert Lookup(j.brk.holdings, s, 0.0) == NetQuantity(j.brk.log, s);
  }

  lemma ProfitOfHeld(b: Broker, s: Symbol)
    requires s in b.holdings && s in b.quotes && b.holdings[s] == NetQuantity(b.log, s) != 0.0
    ensures PositionProfit(b, s) == Some(PositionValue(b, s).value - NetCost(b.log[LastFlat(b.log, s)..], s))
  {
    CostBasisSinceFlat(b.log, s);
    var value := PositionValue(b, s).value;
    GainIsDifference(b.holdings[s], Quotient(value, b.holdings[s]), Basis(Pass(b.log, s)).value, value,
                     NetCost(b.log[LastFlat(b.log, s)..], s));
  }

  /** In every reachable state a position has a cost basis, and a profit, exactly when it is held;
      the profit is its market value less what it has cost since it was last flat. */
  lemma ProfitSinceFlat(j: Joint, ds: Dataset, s: Symbol)
    requires JointOk(j, ds)
    ensures Basis(Pass(j.brk.log, s)).Some? <==> s in j.brk.holdings
    ensures s in j.brk.holdings ==> s in j.brk.quotes
    ensures PositionValue(j.brk, s).Some? <==> s in j.brk.holdings
    ensures PositionProfit(j.brk, s)
            == if s !in j.brk.holdings then None
               else Some(PositionValue(j.brk, s).value - NetCost(j.brk.log[LastFlat(j.brk.log, s)..], s))
  {
    HeldIsNetQuantity(j, ds, s);
    CostBasisSinceFlat(j.brk.log, s);
    if s in j.brk.holdings {
      ProfitOfHeld(j.brk, s);
    }
  }

  class UistBrokerLog {
    var log: seq<Trade>

    constructor ()
      ensures log == []
    {
      log := [];
    }

    method Record(event: Trade)
      modifies this
      ensures log == old(log) + [event]
    {
      log := log + [event];
    }

    method CostBasis(symbol: Symbol) returns (r: Option<real>)
      ensures r == Basis(Pass(log, symbol))
    {
      var cumQty, cumVal := 0.0, 0.0;
      var i := 0;
      while i < |log|
        invariant i <= |log| && Running(cumQty, cumVal) == Pass(log[..i], symbol)
      {
        assert log[..i + 1][..i] == log[..i];
        var trade := log[i];
        if trade.symbol == symbol {
          match trade.typ {
            case Buy =>
              cumQty := cumQty + trade.quantity;
              cumVal := cumVal + trade.value;
            case Sell =>
              cumQty := cumQty - trade.quantity;
              cumVal := cumVal - trade.value;
          }
          if cumQty == 0.0 {
            cumVal := 0.0;
          }
        }
        i := i + 1;
      }
      assert log[..i] == log;
      if cumQty == 0.0 {
        return None;
      }
      return Some(cumVal / cumQty);
    }
  }
}
