/** Maximum drawdown in one pass, and the returns it is computed from. */
module Drawdown {

  /** The fall from `b` to `a`, as a fraction of `b`. */
  function Fall(a: real, b: real): real {
    if b == 0.0 then 0.0 else a / b - 1.0
  }

  /** The variables of the scan: the deepest fall so far, the last peak and the lowest value since. */
  datatype State = State(depth: real, peak: real, peakPos: nat, trough: real, troughPos: nat)

  const START := State(0.0, 0.0, 0, 0.0, 0)

  function Visit(s: State, v: real, pos: nat): State {
    if v > s.peak then State(s.depth, v, pos, v, pos)
    else if v < s.trough then
      var fall := Fall(v, s.peak);
      State(if fall < s.depth then fall else s.depth, s.peak, s.peakPos, v, pos)
    else s
  }

  function Scan(values: seq<real>): State {
    if values == [] then START
    else
      var n := |values| - 1;
      Visit(Scan(values[..n]), values[n], n)
  }

  method MaxDd(values: seq<real>) returns (maxdd: real, peakPos: nat, troughPos: nat)
    ensures var s := Scan(values); (maxdd, peakPos, troughPos) == (s.depth, s.peakPos, s.troughPos)
  {
    var peak, trough := 0.0, 0.0;
    maxdd, peakPos, troughPos := 0.0, 0, 0;
    for pos := 0 to |values|
      invariant State(maxdd, peak, peakPos, trough, troughPos) == Scan(values[..pos])
    {
      assert values[..pos + 1][..pos] == values[..pos];
      var t1 := values[pos];
      if t1 > peak {
        peak, peakPos := t1, pos;
        trough, troughPos := peak, peakPos;
      } else if t1 < trough {
        trough, troughPos := t1, pos;
        var t2 := Fall(trough, peak);
        if t2 < maxdd {
          maxdd := t2;
        }
      }
    }
    assert values[..|values|] == values;
  }

  // ---------- what the scan finds ----------

  ghost predicate NonNegative(values: seq<real>) {
    forall i :: 0 <= i < |values| ==> values[i] >= 0.0
  }

  /** `d` is the minimum of zero and the falls from any positive value to any later one. */
  ghost predicate IsDeepestFall(d: real, values: seq<real>) {
    && d <= 0.0
    && (forall i, j :: 0 <= i <= j < |values| && values[i] > 0.0 ==> d <= Fall(values[j], values[i]))
    && (d == 0.0 || exists i, j :: 0 <= i <= j < |values| && values[i] > 0.0 && d == Fall(values[j], values[i]))
  }

  /** `p` is the first position of the overall maximum. */
  ghost predicate IsFirstMaximum(p: nat, values: seq<real>) {
    && p < |values|
    && (forall i :: 0 <= i < |values| ==> values[i] <= values[p])
    && (forall i :: 0 <= i < p ==> values[i] < values[p])
  }

  /** `q` is the first position of the minimum from `p` on. */
  ghost predicate IsFirstMinimumFrom(q: nat, p: nat, values: seq<real>) {
    && p <= q < |values|
    && (forall i :: p <= i < |values| ==> values[q] <= values[i])
    && (forall i :: p <= i < q ==> values[q] < values[i])
  }

  ghost predicate Found(s: State, values: seq<real>) {
    && IsDeepestFall(s.depth, values)
    && if s.peak == 0.0 then
         s == START && (forall i :: 0 <= i < |values| ==> values[i] == 0.0)
       else
         && s.peak > 0.0 && IsFirstMaximum(s.peakPos, values) && s.peak == values[s.peakPos]
         && IsFirstMinimumFrom(s.troughPos, s.peakPos, values) && s.trough == values[s.troughPos]
         && s.depth <= Fall(s.trough, s.peak)
  }

  lemma DivLe(a: real, a': real, b: real)
    requires a <= a' && b > 0.0
    ensures a / b <= a' / b
  {
  }

  lemma DivAntitone(a: real, b: real, b': real)
    requires a >= 0.0 && 0.0 < b <= b'
    ensures a / b' <= a / b
  {
  }

  lemma QuotientIs(a: real, b: real, q: real)
    requires b != 0.0 && q * b == a
    ensures a / b == q
  {
  }

  /** Falling further, or from higher up, is a deeper fall. */
  lemma FallMono(a: real, a': real, b: real, b': real)
    requires 0.0 <= a <= a' && 0.0 < b <= b'
    ensures Fall(a, b') <= Fall(a', b)
  {
    DivAntitone(a, b, b');
    DivLe(a, a', b);
  }

  lemma NoFall(a: real, b: real)
    requires 0.0 < b <= a
    ensures Fall(a, b) >= 0.0
  {
    DivLe(b, a, b);
  }

  /** One more value: the falls to it are no deeper than the new depth. */
  lemma VisitBounds(s: State, init: seq<real>, v: real, i: nat)
    requires Found(s, init) && NonNegative(init) && v >= 0.0
    requires i <= |init| && (init + [v])[i] > 0.0
    ensures Visit(s, v, |init|).depth <= Fall(v, (init + [v])[i])
  {
    var b := (init + [v])[i];
    if v > s.peak || i == |init| {
      NoFall(v, b);
    } else if v < s.trough {
      FallMono(v, v, b, s.peak);
    } else {
      FallMono(s.trough, v, b, s.peak);
    }
  }

  lemma VisitFinds(s: State, init: seq<real>, v: real)
    requires Found(s, init) && NonNegative(init) && v >= 0.0
    ensures IsDeepestFall(Visit(s, v, |init|).depth, init + [v])
  {
    var d, values := Visit(s, v, |init|).depth, init + [v];
    forall i, j | 0 <= i <= j < |values| && values[i] > 0.0 ensures d <= Fall(values[j], values[i]) {
      if j == |init| {
        VisitBounds(s, init, v, i);
      }
    }
    if d != s.depth {
      assert d == Fall(values[|init|], values[s.peakPos]);
    } else if d != 0.0 {
      var i, j :| 0 <= i <= j < |init| && init[i] > 0.0 && d == Fall(init[j], init[i]);
      assert d == Fall(values[j], values[i]);
    }
  }

  lemma VisitKeepsPositions(s: State, init: seq<real>, v: real)
    requires Found(s, init) && NonNegative(init) && v >= 0.0
    ensures var s', values := Visit(s, v, |init|), init + [v];
            if s'.peak == 0.0 then s' == START && (forall i :: 0 <= i < |values| ==> values[i] == 0.0)
            else s'.peak > 0.0 && IsFirstMaximum(s'.peakPos, values) && s'.peak == values[s'.peakPos]
                 && IsFirstMinimumFrom(s'.troughPos, s'.peakPos, values) && s'.trough == values[s'.troughPos]
  {
  }

  lemma VisitKeepsDepth(s: State, init: seq<real>, v: real)
    requires Found(s, init) && NonNegative(init) && v >= 0.0
    ensures var s' := Visit(s, v, |init|); s'.peak > 0.0 ==> s'.depth <= Fall(s'.trough, s'.peak)
  {
    if v > s.peak {
      NoFall(v, v);
    }
  }

  /** On non-negative values the scan finds the deepest fall, the first overall maximum, and the
      first minimum after it; values that are all zero leave it where it started. */
  lemma {:induction false} ScanFinds(values: seq<real>)
    requires NonNegative(values)
    ensures Found(Scan(values), values)
  {
    if values != [] {
      var n := |values| - 1;
      var init, v := values[..n], values[n];
      assert values == init + [v];
      ScanFinds(init);
      VisitFinds(Scan(init), init, v);
      VisitKeepsPositions(Scan(init), init, v);
      VisitKeepsDepth(Scan(init), init, v);
    }
  }

  /** No pair of values before `p` falls deeper than `d`. */
  ghost predicate NoneDeeperBefore(p: nat, d: real, values: seq<real>)
    requires p <= |values|
  {
    forall i, j :: 0 <= i <= j < p && values[i] > 0.0 ==> d <= Fall(values[j], values[i])
  }

  /** A fall from the first maximum on is no deeper than the one to the lowest value after it. */
  lemma DeepestAfterPeak(s: State, values: seq<real>, i: nat, j: nat)
    requires Found(s, values) && NonNegative(values) && s.peak > 0.0
    requires i <= j < |values| && s.peakPos <= j && values[i] > 0.0
    ensures Fall(s.trough, s.peak) <= Fall(values[j], values[i])
  {
    FallMono(s.trough, values[j], values[i], s.peak);
  }

  lemma RealisedBefore(d: real, p: nat, values: seq<real>)
    requires IsDeepestFall(d, values) && p <= |values|
    ensures NoneDeeperBefore(p, d, values)
  {
  }

  /** If nothing falls deeper than `fall` before the peak, nothing does at all. */
  lemma DepthIsAtLeast(s: State, values: seq<real>, fall: real)
    requires Found(s, values) && NonNegative(values) && s.peak > 0.0
    requires fall == Fall(s.trough, s.peak) && NoneDeeperBefore(s.peakPos, fall, values)
    ensures fall <= s.depth
  {
    if s.depth == 0.0 {
      DeepestAfterPeak(s, values, s.peakPos, s.peakPos);
      QuotientIs(s.peak, s.peak, 1.0);
    } else {
      var i, j :| 0 <= i <= j < |values| && values[i] > 0.0 && s.depth == Fall(values[j], values[i]);
      if s.peakPos <= j {
        DeepestAfterPeak(s, values, i, j);
      }
    }
  }

  /** The two positions reported with the depth are where it starts and ends exactly when nothing
      before the overall maximum falls deeper than anything after it does. */
  lemma PositionsRealiseDepth(values: seq<real>)
    requires NonNegative(values) && values != []
    ensures var s := Scan(values);
            && s.peakPos < |values| && s.troughPos < |values|
            && var fall := Fall(values[s.troughPos], values[s.peakPos]);
               s.depth == fall <==> NoneDeeperBefore(s.peakPos, fall, values)
  {
    ScanFinds(values);
    var s := Scan(values);
    if s.peak > 0.0 {
      var fall := Fall(s.trough, s.peak);
      if s.depth == fall {
        RealisedBefore(s.depth, s.peakPos, values);
      }
      if NoneDeeperBefore(s.peakPos, fall, values) {
        DepthIsAtLeast(s, values, fall);
      }
    }
  }

  /** They need not be: the half lost before the maximum is reported at a maximum nothing fell from. */
  lemma PositionsExample()
    ensures Scan([100.0, 50.0, 200.0]) == State(-0.5, 200.0, 2, 200.0, 2)
  {
    var values := [100.0, 50.0, 200.0];
    assert values[..2] == [100.0, 50.0] && values[..2][..1] == [100.0] && [100.0][..0] == [];
    assert Scan([100.0]) == State(0.0, 100.0, 0, 100.0, 0);
    assert Scan([100.0, 50.0]) == State(-0.5, 100.0, 0, 50.0, 1);
  }

  // ---------- returns and back ----------

  function Over(a: real, b: real): real
    requires b != 0.0
  {
    a / b
  }

  /** The return of one period, net of the cash that flowed in and of inflation. */
  function Return(start: real, end: real, cashFlow: real, inflation: real): real
    requires inflation != -1.0
  {
    var capital := start + cashFlow;
    var gain := end - (start + cashFlow);
    if capital == 0.0 then 0.0 else Over(1.0 + Over(gain, capital), 1.0 + inflation) - 1.0
  }

  ghost predicate Aligned(values: seq<real>, cashFlows: seq<real>, inflation: seq<real>) {
    && (|values| > 1 ==> |cashFlows| >= |values| && |inflation| >= |values|)
    && forall i :: 0 < i < |values| ==> inflation[i] != -1.0
  }

  function Returns(values: seq<real>, cashFlows: seq<real>, inflation: seq<real>): (rets: seq<real>)
    requires Aligned(values, cashFlows, inflation)
    ensures |rets| == if values == [] then 0 else |values| - 1
  {
    if |values| <= 1 then []
    else
      var n := |values| - 1;
      Returns(values[..n], cashFlows, inflation) + [Return(values[n - 1], values[n], cashFlows[n], inflation[n])]
  }

  /** A return takes what was invested, the flow included, to the value at the end, in money that has
      lost the inflation; on nothing invested there is none. */
  lemma ReturnIsGrowth(start: real, end: real, cashFlow: real, inflation: real)
    requires inflation != -1.0
    ensures start + cashFlow != 0.0 ==>
              Grown(Grown(start + cashFlow, 1.0 + Return(start, end, cashFlow, inflation)), 1.0 + inflation) == end
    ensures start + cashFlow == 0.0 ==> Return(start, end, cashFlow, inflation) == 0.0
  {
    var capital := start + cashFlow;
    if capital != 0.0 {
      var growth := Over(end - capital, capital);
      var ret := Over(1.0 + growth, 1.0 + inflation) - 1.0;
      OverTimes(end - capital, capital, growth);
      OverTimes(1.0 + growth, 1.0 + inflation, 1.0 + ret);
      RealGrowth(capital, end, growth, 1.0 + ret, 1.0 + inflation);
    }
  }

  lemma OverTimes(a: real, b: real, q: real)
    requires b != 0.0 && q == Over(a, b)
    ensures q * b == a
  {
    assert (a / b) * b == a;
  }

  lemma RealGrowth(capital: real, end: real, growth: real, ret: real, prices: real)
    requires growth * capital == end - capital && ret * prices == 1.0 + growth
    ensures Grown(Grown(capital, ret), prices) == end
  {
    assert capital * ret * prices == capital * (ret * prices);
    assert capital * (1.0 + growth) == capital + growth * capital;
  }

  /** Over a whole series: every value is the one before it and the flow of the period, grown by the
      return of the period and by its inflation. */
  lemma ReturnsAreGrowth(values: seq<real>, cashFlows: seq<real>, inflation: seq<real>, i: nat)
    requires Aligned(values, cashFlows, inflation) && i + 1 < |values|
    ensures var (ret, capital) := (Returns(values, cashFlows, inflation)[i], values[i] + cashFlows[i + 1]);
            if capital == 0.0 then ret == 0.0 else Grown(Grown(capital, 1.0 + ret), 1.0 + inflation[i + 1]) == values[i + 1]
  {
    ReturnAt(values, cashFlows, inflation, i);
    ReturnIsGrowth(values[i], values[i + 1], cashFlows[i + 1], inflation[i + 1]);
  }

  /** From 100, with 20 paid in and prices up by a quarter, 180 is a return of a fifth. */
  lemma ReturnExample()
    ensures Return(100.0, 180.0, 20.0, 0.25) == 0.2
  {
    assert Over(60.0, 120.0) == 0.5 && Over(1.5, 1.25) == 1.2;
  }

  /** The logarithmic form of a list of returns, for whatever logarithm is in use. */
  function Logged(rets: seq<real>, ln: real -> real): (r: seq<real>)
    ensures |r| == |rets|
  {
    if rets == [] then []
    else
      var n := |rets| - 1;
      Logged(rets[..n], ln) + [ln(1.0 + rets[n])]
  }

  lemma {:induction false} ReturnAt(values: seq<real>, cashFlows: seq<real>, inflation: seq<real>, i: nat)
    requires Aligned(values, cashFlows, inflation) && i + 1 < |values|
    ensures Returns(values, cashFlows, inflation)[i] == Return(values[i], values[i + 1], cashFlows[i + 1], inflation[i + 1])
  {
    if i + 2 < |values| {
      ReturnAt(values[..|values| - 1], cashFlows, inflation, i);
    }
  }

  /** The return of the period that ends at `i`. */
  method PeriodReturn(values: seq<real>, cashFlows: seq<real>, inflation: seq<real>, i: nat) returns (ret: real)
    requires Aligned(values, cashFlows, inflation) && 0 < i < |values|
    ensures ret == Returns(values, cashFlows, inflation)[i - 1]
  {
    var end, start, cashFlow := values[i], values[i - 1], cashFlows[i];
    var gain := end - (start + cashFlow);
    var capital := start + cashFlow;
    ret := if capital == 0.0 then 0.0 else Over(1.0 + Over(gain, capital), 1.0 + inflation[i]) - 1.0;
    ReturnAt(values, cashFlows, inflation, i - 1);
  }

  lemma LoggedSnoc(rets: seq<real>, ret: real, ln: real -> real)
    ensures Logged(rets + [ret], ln) == Logged(rets, ln) + [ln(1.0 + ret)]
  {
    assert (rets + [ret])[..|rets|] == rets;
  }

  /** Plain or logarithmic returns; the logarithm of the platform is a parameter. */
  method GetReturns(values: seq<real>, cashFlows: seq<real>, inflation: seq<real>, isLog: bool, ln: real -> real) returns (rets: seq<real>)
    requires Aligned(values, cashFlows, inflation)
    ensures rets == if isLog then Logged(Returns(values, cashFlows, inflation), ln) else Returns(values, cashFlows, inflation)
  {
    var count := |values|;
    rets := [];
    ghost var plain := Returns(values, cashFlows, inflation);
    if count != 0 {
      var i := 1;
      while i < count
        invariant 1 <= i <= count
        invariant rets == if isLog then Logged(plain[..i - 1], ln) else plain[..i - 1]
      {
        var ret := PeriodReturn(values, cashFlows, inflation, i);
        LoggedSnoc(plain[..i - 1], ret, ln);
        assert plain[..i] == plain[..i - 1] + [ret];
        rets := rets + [if isLog then ln(1.0 + ret) else ret];
        i := i + 1;
      }
      assert plain[..i - 1] == plain;
    }
  }

  function Sum(xs: seq<real>): real {
    if xs == [] then 0.0 else Sum(xs[..|xs| - 1]) + xs[|xs| - 1]
  }

  /** The return over all periods, from logarithmic returns. */
  function PortfolioReturn(logRets: seq<real>, exp: real -> real): real {
    exp(Sum(logRets)) - 1.0
  }

  const BASE := 100000.0

  function Grown(value: real, factor: real): real {
    value * factor
  }

  function Compound(rets: seq<real>): (r: seq<real>)
    ensures |r| == |rets| + 1
  {
    if rets == [] then [BASE]
    else
      var n := |rets| - 1;
      var r := Compound(rets[..n]);
      r + [Grown(r[n], 1.0 + rets[n])]
  }

  method GetMaxDd(rets: seq<real>) returns (maxdd: real, peakPos: nat, troughPos: nat)
    ensures var s := Scan(Compound(rets)); (maxdd, peakPos, troughPos) == (s.depth, s.peakPos, s.troughPos)
  {
    var valuesWithCashflows := [BASE];
    for i := 0 to |rets|
      invariant valuesWithCashflows == Compound(rets[..i])
    {
      assert rets[..i + 1][..i] == rets[..i];
      var lastValue := valuesWithCashflows[|valuesWithCashflows| - 1];
      var newValue := Grown(lastValue, 1.0 + rets[i]);
      valuesWithCashflows := valuesWithCashflows + [newValue];
    }
    assert rets[..|rets|] == rets;
    maxdd, peakPos, troughPos := MaxDd(valuesWithCashflows);
  }

  ghost predicate Positive(values: seq<real>) {
    forall i :: 0 <= i < |values| ==> values[i] > 0.0
  }

  ghost predicate AllZero(xs: seq<real>) {
    forall i :: 0 <= i < |xs| ==> xs[i] == 0.0
  }

  function Scaled(values: seq<real>, k: real): (r: seq<real>)
    ensures |r| == |values|
    ensures forall i :: 0 <= i < |values| ==> r[i] == Grown(values[i], k)
  {
    seq(|values|, i requires 0 <= i < |values| => Grown(values[i], k))
  }

  /** The returns take each value to the next. */
  ghost predicate Grows(values: seq<real>, rets: seq<real>) {
    && |values| == |rets| + 1
    && forall i :: 0 <= i < |rets| ==> 1.0 + rets[i] > 0.0 && Grown(values[i], 1.0 + rets[i]) == values[i + 1]
  }

  lemma RatioOf(a: real, b: real) returns (q: real)
    requires a > 0.0 && b > 0.0
    ensures q == a / b && q > 0.0 && Grown(b, q) == a
  {
    q := a / b;
    assert (a / b) * b == a;
  }

  lemma PlainReturn(start: real, end: real, cashFlow: real, inflation: real)
    requires start > 0.0 && end > 0.0 && cashFlow == 0.0 && inflation == 0.0
    ensures var ret := Return(start, end, cashFlow, inflation); 1.0 + ret > 0.0 && Grown(start, 1.0 + ret) == end
  {
    var ratio := RatioOf(end, start);
    assert (ratio - 1.0) * start == end - start;
    QuotientIs(end - start, start, ratio - 1.0);
    QuotientIs(ratio, 1.0, ratio);
  }

  /** Without cash flows and inflation that is what returns do. */
  lemma ReturnsGrow(values: seq<real>, cashFlows: seq<real>, inflation: seq<real>) returns (rets: seq<real>)
    requires Aligned(values, cashFlows, inflation) && Positive(values) && values != []
    requires AllZero(cashFlows) && AllZero(inflation)
    ensures rets == Returns(values, cashFlows, inflation) && Grows(values, rets)
  {
    rets := Returns(values, cashFlows, inflation);
    forall i | 0 <= i < |rets| ensures 1.0 + rets[i] > 0.0 && Grown(values[i], 1.0 + rets[i]) == values[i + 1] {
      ReturnAt(values, cashFlows, inflation, i);
      PlainReturn(values[i], values[i + 1], cashFlows[i + 1], inflation[i + 1]);
    }
  }

  lemma Regroup(start: real, end: real, k: real, factor: real)
    requires Grown(start, factor) == end
    ensures Grown(Grown(start, k), factor) == Grown(end, k)
  {
    assert start * k * factor == (start * factor) * k;
  }

  lemma {:induction false} CompoundGrows(values: seq<real>, rets: seq<real>, k: real)
    requires Grows(values, rets) && Grown(values[0], k) == BASE
    ensures Compound(rets) == Scaled(values, k)
  {
    if rets == [] {
      assert Scaled(values, k) == [BASE];
    } else {
      var n := |rets| - 1;
      CompoundGrows(values[..n + 1], rets[..n], k);
      ScaledPrefix(values, k, n + 1);
      Regroup(values[n], values[n + 1], k, 1.0 + rets[n]);
      assert Compound(rets[..n])[n] == Grown(values[n], k);
      assert Scaled(values, k) == Scaled(values[..n + 1], k) + [Grown(values[n + 1], k)];
    }
  }

  /** Without cash flows and inflation, taking returns and compounding them again gives back the
      values, scaled to start at 100000. */
  lemma CompoundedReturns(values: seq<real>, cashFlows: seq<real>, inflation: seq<real>, k: real)
    requires Aligned(values, cashFlows, inflation) && Positive(values) && values != []
    requires AllZero(cashFlows) && AllZero(inflation) && Grown(values[0], k) == 100000.0
    ensures Compound(Returns(values, cashFlows, inflation)) == Scaled(values, k)
  {
    var rets := ReturnsGrow(values, cashFlows, inflation);
    CompoundGrows(values, rets, k);
  }

  lemma FallScales(a: real, b: real, k: real)
    requires k > 0.0
    ensures Fall(Grown(a, k), Grown(b, k)) == Fall(a, b)
  {
    if b != 0.0 {
      var q := a / b;
      assert q * b == a;
      assert a * k == q * (b * k);
    }
  }

  lemma OrderScales(a: real, b: real, k: real)
    requires k > 0.0
    ensures Grown(a, k) < Grown(b, k) <==> a < b
  {
    assert (b - a) * k == b * k - a * k;
    if a < b { assert (b - a) * k > 0.0; } else { assert (a - b) * k >= 0.0; }
  }

  function Magnified(s: State, k: real): State {
    State(s.depth, Grown(s.peak, k), s.peakPos, Grown(s.trough, k), s.troughPos)
  }

  /** Scaling every value leaves depth and positions alone. */
  lemma {:induction false} ScanScales(values: seq<real>, k: real)
    requires k > 0.0
    ensures var s := Scan(values);
            Scan(Scaled(values, k)) == Magnified(s, k)
  {
    if values != [] {
      var n := |values| - 1;
      ScanScales(values[..n], k);
      ScaledPrefix(values, k, n);
      VisitScales(Scan(values[..n]), values[n], k, n);
    }
  }

  lemma ScaledPrefix(values: seq<real>, k: real, n: nat)
    requires n <= |values|
    ensures Scaled(values, k)[..n] == Scaled(values[..n], k)
  {
    forall i | 0 <= i < n ensures Scaled(values, k)[i] == Scaled(values[..n], k)[i] {
      assert values[..n][i] == values[i];
    }
  }

  lemma VisitScales(s: State, v: real, k: real, pos: nat)
    requires k > 0.0
    ensures var s' := Visit(s, v, pos);
            Visit(Magnified(s, k), Grown(v, k), pos)
            == Magnified(s', k)
  {
    OrderScales(s.peak, v, k);
    OrderScales(v, s.trough, k);
    FallScales(v, s.peak, k);
  }

  /** The drawdown computed from returns is the drawdown of the portfolio values themselves. */
  lemma ReturnsKeepDrawdown(values: seq<real>, cashFlows: seq<real>, inflation: seq<real>)
    requires Aligned(values, cashFlows, inflation) && Positive(values) && values != []
    requires AllZero(cashFlows) && AllZero(inflation)
    ensures var s, r := Scan(values), Scan(Compound(Returns(values, cashFlows, inflation)));
            r.depth == s.depth && r.peakPos == s.peakPos && r.troughPos == s.troughPos
  {
    var k := RatioOf(BASE, values[0]);
    CompoundedReturns(values, cashFlows, inflation, k);
    ScanScales(values, k);
  }

  // ---------- logarithmic returns ----------

  /** All that is asked of a logarithm: products become sums. */
  ghost predicate IsLogarithm(ln: real -> real) {
    forall x, y :: x > 0.0 && y > 0.0 ==> ln(Grown(x, y)) == ln(x) + ln(y)
  }

  lemma SumSnoc(xs: seq<real>, x: real)
    ensures Sum(xs + [x]) == Sum(xs) + x
  {
    assert (xs + [x])[..|xs|] == xs;
  }

  ghost predicate LogGrows(values: seq<real>, rets: seq<real>, ln: real -> real) {
    && |values| == |rets| + 1
    && forall i :: 0 <= i < |rets| ==> ln(values[i + 1]) == ln(values[i]) + ln(1.0 + rets[i])
  }

  lemma GrowthInLogs(values: seq<real>, rets: seq<real>, ln: real -> real)
    requires Grows(values, rets) && Positive(values) && IsLogarithm(ln)
    ensures LogGrows(values, rets, ln)
  {
    forall i | 0 <= i < |rets| ensures ln(values[i + 1]) == ln(values[i]) + ln(1.0 + rets[i]) {
      assert ln(Grown(values[i], 1.0 + rets[i])) == ln(values[i]) + ln(1.0 + rets[i]);
    }
  }

  lemma {:induction false} LogsAddUp(values: seq<real>, rets: seq<real>, ln: real -> real)
    requires LogGrows(values, rets, ln)
    ensures Sum(Logged(rets, ln)) == ln(values[|rets|]) - ln(values[0])
  {
    if rets != [] {
      var n := |rets| - 1;
      LogsAddUp(values[..n + 1], rets[..n], ln);
      SumSnoc(Logged(rets[..n], ln), ln(1.0 + rets[n]));
    }
  }

  /** Without flows and inflation the return computed from logarithmic returns is the growth from
      the first value to the last. */
  lemma PortfolioReturnIsGrowth(values: seq<real>, cashFlows: seq<real>, inflation: seq<real>, ln: real -> real, exp: real -> real)
    requires Aligned(values, cashFlows, inflation) && Positive(values) && values != []
    requires AllZero(cashFlows) && AllZero(inflation) && IsLogarithm(ln)
    requires forall x :: x > 0.0 ==> exp(ln(x)) == x
    ensures var r := PortfolioReturn(Logged(Returns(values, cashFlows, inflation), ln), exp);
            Grown(values[0], 1.0 + r) == values[|values| - 1]
  {
    var rets := ReturnsGrow(values, cashFlows, inflation);
    GrowthInLogs(values, rets, ln);
    LogsAddUp(values, rets, ln);
    var first, last := values[0], values[|values| - 1];
    var ratio := RatioOf(last, first);
    assert ln(Grown(first, ratio)) == ln(first) + ln(ratio);
    assert exp(ln(ratio)) == ratio;
  }
}
