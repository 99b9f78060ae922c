/** The net cash flow a strategy keeps on record, against the client money its broker moves. */
module CashFlow {
  import opened Prelude
  import opened Penelope
  import opened NoLookahead
  import opened BrokerModel
  import opened BrokerLedger
  import opened BrokerRuns
  import opened LiquidationBounds
  import opened Holdings
  import opened Samples
  import opened Costs

  /** The broker reports the money as paid out.  Of a liquidation that says only that its sells have
      been sent; cash does not move. */
  ghost predicate ReportsPaid(j: Joint, op: BrokerOp) {
    match op
    case WithdrawOp(x) => WithdrawCash(j.brk, x).1.WithdrawSuccess?
    case LiquidateOp(x, keys) =>
      Priced(j.brk) && IsEnumeration(keys, j.brk.holdings.Keys) && WithdrawWithLiquidation(j, x, keys).1.WithdrawSuccess?
    case _ => false
  }

  /** The recorded flow after one operation: what is reported paid is subtracted, and a deposit adds
      the flow to itself. */
  ghost function Record(j: Joint, flow: real, op: BrokerOp): real {
    match op
    case DepositOp(_) => flow + flow
    case WithdrawOp(x) => if ReportsPaid(j, op) then flow - x else flow
    case LiquidateOp(x, _) => if ReportsPaid(j, op) then flow - x else flow
    case _ => flow
  }

  // ---------- one operation ----------

  /** The liquidation is turned down: the request exceeds the value after costs, or something is
      left after every position has been considered. */
  predicate TurnedDown(b: Broker, x: real, keys: seq<Symbol>)
    requires forall s :: s in keys ==> s in b.quotes
  {
    x > LiquidationValue(b, keys) || Liquidate(b, keys, x).left != 0.0
  }

  /** What has to hold before an operation for the record to follow the money. */
  ghost predicate RecordsRightly(j: Joint, flow: real, op: BrokerOp)
    requires op.LiquidateOp? ==> Priced(j.brk) && IsEnumeration(op.keys, j.brk.holdings.Keys)
  {
    match op
    case DepositOp(x) => flow == if j.brk.state.Ready? then x else 0.0
    case LiquidateOp(x, keys) => x == 0.0 || (TurnedDown(j.brk, x, keys) && x > j.brk.cash)
    case _ => true
  }

  /** The record moves by the client money moved exactly then: for a deposit, when the flow already
      equals what is taken; for a withdrawal, always; for a liquidation, when it is turned down for
      more than the cash at hand, or is for nothing. */
  lemma RecordFollowsWhen(j: Joint, flow: real, op: BrokerOp)
    requires op.LiquidateOp? ==> Priced(j.brk) && IsEnumeration(op.keys, j.brk.holdings.Keys)
    ensures Record(j, flow, op) == flow + ClientFlow(j, op) <==> RecordsRightly(j, flow, op)
  {
  }

  /** With long positions the amounts alone decide: the record is right exactly when the request
      exceeds the cash, and either the value after costs or what the positions are worth. */
  lemma LiquidationRecordedWhen(j: Joint, flow: real, x: real, keys: seq<Symbol>)
    requires LongOnly(j.brk) && IsEnumeration(keys, j.brk.holdings.Keys) && x > 0.0
    ensures var b := j.brk;
            Record(j, flow, LiquidateOp(x, keys)) == flow + ClientFlow(j, LiquidateOp(x, keys))
            <==> x > b.cash && (x > LiquidationValue(b, keys) || x > TotalValue(b, keys) - b.cash)
  {
    LiquidationSucceedsWhen(j, x, keys);
  }

  // ---------- whole runs ----------

  ghost function Recorded(j: Joint, ds: Dataset, flow: real, ops: seq<BrokerOp>): real
    requires JointOk(j, ds) && Runnable(j, ds, ops)
    decreases |ops|
  {
    if ops == [] then flow
    else Recorded(BrokerStep(j, ds, ops[0]), ds, Record(j, flow, ops[0]), ops[1..])
  }

  /** What one operation leaves wrong on the record. */
  ghost function Miss(j: Joint, flow: real, op: BrokerOp): real {
    match op
    case DepositOp(x) => flow - if j.brk.state.Ready? then x else 0.0
    case LiquidateOp(x, keys) =>
      if ReportsPaid(j, op) then -x
      else if Priced(j.brk) && IsEnumeration(keys, j.brk.holdings.Keys) && x <= j.brk.cash then x
      else 0.0
    case _ => 0.0
  }

  ghost function Misses(j: Joint, ds: Dataset, flow: real, ops: seq<BrokerOp>): real
    requires JointOk(j, ds) && Runnable(j, ds, ops)
    decreases |ops|
  {
    if ops == [] then 0.0
    else Miss(j, flow, ops[0]) + Misses(BrokerStep(j, ds, ops[0]), ds, Record(j, flow, ops[0]), ops[1..])
  }

  lemma RecordMisses(j: Joint, ds: Dataset, flow: real, op: BrokerOp)
    requires JointOk(j, ds) && Enabled(j, ds, op)
    ensures Record(j, flow, op) == flow + ClientFlow(j, op) + Miss(j, flow, op)
  {
    HeldIsPriced(j, ds);
  }

  /** Over any run the record is the client's flows and what each operation leaves wrong: it is right
      at the end exactly when those come to nothing. */
  lemma {:induction false} RecordIsFlowsAndMisses(j: Joint, ds: Dataset, flow: real, ops: seq<BrokerOp>)
    requires JointOk(j, ds) && Runnable(j, ds, ops)
    ensures Recorded(j, ds, flow, ops) == flow + ClientFlows(j, ds, ops) + Misses(j, ds, flow, ops)
    ensures Recorded(j, ds, flow, ops) == flow + ClientFlows(j, ds, ops) <==> Misses(j, ds, flow, ops) == 0.0
    decreases |ops|
  {
    if ops != [] {
      RecordMisses(j, ds, flow, ops[0]);
      RecordIsFlowsAndMisses(BrokerStep(j, ds, ops[0]), ds, Record(j, flow, ops[0]), ops[1..]);
    }
  }

  ghost predicate AllRecordRightly(j: Joint, ds: Dataset, flow: real, ops: seq<BrokerOp>)
    requires JointOk(j, ds) && Runnable(j, ds, ops)
    decreases |ops|
  {
    ops == [] || (RightlyAt(j, ds, flow, ops[0]) && AllRecordRightly(BrokerStep(j, ds, ops[0]), ds, Record(j, flow, ops[0]), ops[1..]))
  }

  ghost predicate RightlyAt(j: Joint, ds: Dataset, flow: real, op: BrokerOp)
    requires JointOk(j, ds) && Enabled(j, ds, op)
  {
    HeldIsPriced(j, ds);
    RecordsRightly(j, flow, op)
  }

  lemma {:induction false} PrefixRunnable(j: Joint, ds: Dataset, ops: seq<BrokerOp>, n: nat)
    requires JointOk(j, ds) && Runnable(j, ds, ops) && n <= |ops|
    ensures Runnable(j, ds, ops[..n])
    decreases n
  {
    if n > 0 {
      var mid, head := BrokerStep(j, ds, ops[0]), ops[..n];
      PrefixRunnable(mid, ds, ops[1..], n - 1);
      assert head[0] == ops[0] && head[1..] == ops[1..][..n - 1];
      assert Runnable(mid, ds, head[1..]);
    }
  }

  /** After the first `n` operations the record is right. */
  ghost predicate RightAfter(j: Joint, ds: Dataset, flow: real, ops: seq<BrokerOp>, n: nat)
    requires JointOk(j, ds) && Runnable(j, ds, ops) && n <= |ops|
  {
    PrefixRunnable(j, ds, ops, n);
    Recorded(j, ds, flow, ops[..n]) == flow + ClientFlows(j, ds, ops[..n])
  }

  lemma RightAfterHead(j: Joint, ds: Dataset, flow: real, ops: seq<BrokerOp>, n: nat)
    requires JointOk(j, ds) && Runnable(j, ds, ops) && n < |ops|
    requires Record(j, flow, ops[0]) == flow + ClientFlow(j, ops[0])
    ensures RightAfter(j, ds, flow, ops, n + 1)
            <==> RightAfter(BrokerStep(j, ds, ops[0]), ds, Record(j, flow, ops[0]), ops[1..], n)
  {
    var head := ops[..n + 1];
    PrefixRunnable(j, ds, ops, n + 1);
    assert head[1..] == ops[1..][..n] && head[0] == ops[0];
  }

  lemma RightAfterOne(j: Joint, ds: Dataset, flow: real, ops: seq<BrokerOp>)
    requires JointOk(j, ds) && Runnable(j, ds, ops) && ops != []
    ensures RightAfter(j, ds, flow, ops, 0)
    ensures RightAfter(j, ds, flow, ops, 1) <==> Record(j, flow, ops[0]) == flow + ClientFlow(j, ops[0])
  {
    PrefixRunnable(j, ds, ops, 1);
    var one, mid := ops[..1], BrokerStep(j, ds, ops[0]);
    assert one[0] == ops[0] && one[1..] == [];
    assert Recorded(mid, ds, Record(j, flow, ops[0]), one[1..]) == Record(j, flow, ops[0]);
    assert ClientFlows(mid, ds, one[1..]) == 0.0;
  }

  /** The record follows the client's money all along a run exactly when every operation finds it as
      it has to be. */
  lemma {:induction false} RecordFollowsRun(j: Joint, ds: Dataset, flow: real, ops: seq<BrokerOp>)
    requires JointOk(j, ds) && Runnable(j, ds, ops)
    ensures (forall n :: 0 <= n <= |ops| ==> RightAfter(j, ds, flow, ops, n)) <==> AllRecordRightly(j, ds, flow, ops)
    decreases |ops|
  {
    if ops != [] {
      var mid, next := BrokerStep(j, ds, ops[0]), Record(j, flow, ops[0]);
      HeldIsPriced(j, ds);
      RecordFollowsWhen(j, flow, ops[0]);
      RightAfterOne(j, ds, flow, ops);
      RecordFollowsRun(mid, ds, next, ops[1..]);
      if next == flow + ClientFlow(j, ops[0]) {
        forall n | 0 <= n < |ops|
          ensures RightAfter(j, ds, flow, ops, n + 1) <==> RightAfter(mid, ds, next, ops[1..], n)
        {
          RightAfterHead(j, ds, flow, ops, n);
        }
        ShiftRight(j, ds, flow, ops, mid, next);
      }
    }
  }

  lemma ShiftRight(j: Joint, ds: Dataset, flow: real, ops: seq<BrokerOp>, mid: Joint, next: real)
    requires JointOk(j, ds) && Runnable(j, ds, ops) && ops != [] && mid == BrokerStep(j, ds, ops[0])
    requires RightAfter(j, ds, flow, ops, 0)
    requires forall n :: 0 <= n < |ops| ==> (RightAfter(j, ds, flow, ops, n + 1) <==> RightAfter(mid, ds, next, ops[1..], n))
    ensures (forall n :: 0 <= n <= |ops| ==> RightAfter(j, ds, flow, ops, n))
            <==> forall n :: 0 <= n <= |ops[1..]| ==> RightAfter(mid, ds, next, ops[1..], n)
  {
    if forall n :: 0 <= n <= |ops[1..]| ==> RightAfter(mid, ds, next, ops[1..], n) {
      forall n | 0 < n <= |ops| ensures RightAfter(j, ds, flow, ops, n) {
        assert RightAfter(mid, ds, next, ops[1..], n - 1);
        assert RightAfter(j, ds, flow, ops, (n - 1) + 1);
      }
    }
  }

  // ---------- how the record goes wrong ----------

  lemma TwoOps(j: Joint, ds: Dataset, flow: real, a: BrokerOp, mid: Joint, b: BrokerOp)
    requires JointOk(j, ds) && Enabled(j, ds, a) && mid == BrokerStep(j, ds, a) && Enabled(mid, ds, b)
    ensures Runnable(j, ds, [a, b])
    ensures Recorded(j, ds, flow, [a, b]) == Record(mid, Record(j, flow, a), b)
    ensures ClientFlows(j, ds, [a, b]) == ClientFlow(j, a) + ClientFlow(mid, b)
  {
    var r := BrokerStep(mid, ds, b);
    assert [a, b][1..] == [b] && [b][1..] == [];
    assert Runnable(r, ds, []) && Runnable(mid, ds, [b]);
    assert Recorded(r, ds, Record(mid, Record(j, flow, a), b), []) == Record(mid, Record(j, flow, a), b);
    assert ClientFlows(r, ds, []) == 0.0;
    assert Recorded(mid, ds, Record(j, flow, a), [b]) == Record(mid, Record(j, flow, a), b);
    assert ClientFlows(mid, ds, [b]) == ClientFlow(mid, b);
  }

  lemma PayoutThenDeposit(j: Joint, ds: Dataset, x: real, y: real)
    requires JointOk(j, ds) && j.brk.state.Ready? && x <= j.brk.cash
    ensures var ops := [WithdrawOp(x), DepositOp(y)];
            Runnable(j, ds, ops) && Recorded(j, ds, 0.0, ops) == -x - x && ClientFlows(j, ds, ops) == y - x
  {
    var mid := BrokerStep(j, ds, WithdrawOp(x));
    assert mid.brk.state.Ready? && ClientFlow(j, WithdrawOp(x)) == -x && ClientFlow(mid, DepositOp(y)) == y;
    TwoOps(j, ds, 0.0, WithdrawOp(x), mid, DepositOp(y));
  }

  /** A deposit after a payout doubles it: 10 paid out and 500 paid in are recorded as -20, not 490. */
  lemma DepositDoublesPayout() returns (j: Joint)
    ensures DatasetSound(SAMPLE_DATA) && JointOk(j, SAMPLE_DATA)
    ensures var start := Start(SAMPLE_DATA, 0, "SAMPLE", []);
            Runnable(start, SAMPLE_DATA, SAMPLE_OPS) && j == BrokerRun(start, SAMPLE_DATA, SAMPLE_OPS)
    ensures var ops := [WithdrawOp(10.0), DepositOp(500.0)];
            && Runnable(j, SAMPLE_DATA, ops)
            && Recorded(j, SAMPLE_DATA, 0.0, ops) == -20.0 && ClientFlows(j, SAMPLE_DATA, ops) == 490.0
  {
    j := SampleHolding([]);
    PayoutThenDeposit(j, SAMPLE_DATA, 10.0, 500.0);
  }

  /** A liquidation that is reported paid is not: with 950 in cash and 5 "ABC" at 9, asking for 9
      leaves the cash where it is and -9 on the record. */
  lemma LiquidationIsNotPaid() returns (j: Joint)
    ensures DatasetSound(SAMPLE_DATA) && JointOk(j, SAMPLE_DATA)
    ensures var start := Start(SAMPLE_DATA, 0, "SAMPLE", []);
            Runnable(start, SAMPLE_DATA, SAMPLE_OPS) && j == BrokerRun(start, SAMPLE_DATA, SAMPLE_OPS)
    ensures var op := LiquidateOp(9.0, ["ABC"]);
            && Enabled(j, SAMPLE_DATA, op) && ReportsPaid(j, op)
            && BrokerStep(j, SAMPLE_DATA, op).brk.cash == j.brk.cash && ClientFlow(j, op) == 0.0
            && Record(j, 0.0, op) == -9.0
  {
    j := SampleHolding([]);
    var op := LiquidateOp(9.0, ["ABC"]);
    SampleValue(j.brk);
    HeldIsPriced(j, SAMPLE_DATA);
    LiquidationSucceedsWhen(j, 9.0, ["ABC"]);
    SuccessfulLiquidation(j, 9.0, ["ABC"]);
  }

  lemma SampleValue(b: Broker)
    requires b.cash == 950.0 && b.holdings == map["ABC" := 5.0] && b.quotes == SAMPLE && b.costs == []
    ensures LongOnly(b) && IsEnumeration(["ABC"], b.holdings.Keys)
    ensures LiquidationValue(b, ["ABC"]) == 995.0 && TotalValue(b, ["ABC"]) == 995.0
  {
    assert ["ABC"][..0] == [];
    assert PositionValue(b, "ABC") == Some(45.0);
    assert ImpactTotal(b.costs, Terms(45.0, Quotient(45.0, 5.0)), false) == Terms(45.0, Quotient(45.0, 5.0));
  }

  /** A liquidation that is turned down may be paid all the same: with nothing but cash, whatever the
      cash covers is taken and nothing recorded. */
  lemma DebitIsNotRecorded(j: Joint, flow: real, x: real)
    requires j.brk.holdings == map[] && 0.0 < x <= j.brk.cash
    ensures var op := LiquidateOp(x, []);
            !ReportsPaid(j, op) && ClientFlow(j, op) == -x && Record(j, flow, op) == flow
  {
    CashOnlyLiquidationFails(j, x);
  }

  /** A failed broker refuses a deposit, which changes the record all the same: after a payout of 10
      it goes from -10 to -20. */
  lemma RefusedDepositIsRecorded() returns (j: Joint)
    ensures DatasetSound(SAMPLE_DATA) && JointOk(j, SAMPLE_DATA)
    ensures var start := Start(SAMPLE_DATA, 0, "SAMPLE", []);
            Runnable(start, SAMPLE_DATA, SPENDING_OPS) && j == BrokerRun(start, SAMPLE_DATA, SPENDING_OPS)
    ensures var op := DepositOp(500.0);
            BrokerStep(j, SAMPLE_DATA, op) == j && ClientFlow(j, op) == 0.0 && Record(j, -10.0, op) == -20.0
  {
    j := OverspentFails();
  }
}
