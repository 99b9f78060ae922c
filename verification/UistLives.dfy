/** What becomes of every Uist order.  An account follows each order by itself, from the tick it
    enters the book to the tick it leaves; exchange and account agree over every run, of the
    exchange alone and of any backtest on a server. */
module UistLives {
  import opened Prelude
  import opened Penelope
  import opened Uist
  import UistServer
  import Isolation

  /** Where an issued id is: still in the book, traded, or cancelled by the client. */
  datatype Fate = Resting | Filled(at: nat) | Cancelled(at: nat)

  /** `entered` is the first tick the order takes part in. */
  datatype Entry = Entry(order: Order, entered: nat, fate: Fate)

  datatype Fill = Fill(orderId: nat, at: nat, trade: Trade)

  /** Entry number i is the life of the order with id i; `rows` are the ticks so far. */
  datatype Ledger = Ledger(entries: seq<Entry>, fills: seq<Fill>, rows: seq<Row>, buffer: seq<Order>)

  datatype Op = SubmitOp(order: Order) | DeleteOp(orderId: nat) | TickOp(row: Row)

  // ---------- the account ----------

  predicate Wins(e: Entry, row: Row) {
    e.fate.Resting? && Decide(e.order, row).Some?
  }

  /** What tick number `t` makes of one entry ... */
  function Advance(e: Entry, row: Row, t: nat): Entry {
    if Wins(e, row) then e.(fate := Filled(t)) else e
  }

  /** ... of all of them ... */
  function Follow(es: seq<Entry>, row: Row, t: nat): (r: seq<Entry>)
    ensures |r| == |es|
    ensures forall i :: 0 <= i < |es| ==> r[i] == Advance(es[i], row, t)
  {
    seq(|es|, i requires 0 <= i < |es| => Advance(es[i], row, t))
  }

  /** ... and the fills it makes, by rising id. */
  function NewFills(es: seq<Entry>, row: Row, t: nat): seq<Fill> {
    if es == [] then []
    else
      var n := |es| - 1;
      NewFills(es[..n], row, t) + if Wins(es[n], row) then [Fill(n, t, Decide(es[n].order, row).value)] else []
  }

  function Arrivals(os: seq<Order>, t: nat): (r: seq<Entry>)
    ensures |r| == |os|
    ensures forall i :: 0 <= i < |os| ==> r[i] == Entry(os[i], t + 1, Resting)
  {
    seq(|os|, i requires 0 <= i < |os| => Entry(os[i], t + 1, Resting))
  }

  function LedgerTick(j: Ledger, row: Row): Ledger {
    var t := |j.rows|;
    Ledger(Follow(j.entries, row, t) + Arrivals(Stamp(SortBuffer(j.buffer), |j.entries|), t),
           j.fills + NewFills(j.entries, row, t), j.rows + [row], [])
  }

  function Strike(es: seq<Entry>, id: nat, t: nat): (r: seq<Entry>)
    ensures |r| == |es|
  {
    if id < |es| && es[id].fate.Resting? then es[id := es[id].(fate := Cancelled(t))] else es
  }

  function LedgerStep(j: Ledger, op: Op): Ledger {
    match op
    case SubmitOp(o) => j.(buffer := j.buffer + [o])
    case DeleteOp(id) => j.(entries := Strike(j.entries, id, |j.rows|))
    case TickOp(row) => LedgerTick(j, row)
  }

  function LedgerRun(ops: seq<Op>): Ledger {
    if ops == [] then Ledger([], [], [], []) else LedgerStep(LedgerRun(ops[..|ops| - 1]), ops[|ops| - 1])
  }

  function ExchangeStep(e: Exchange, op: Op): Exchange {
    match op
    case SubmitOp(o) => Insert(e, o)
    case DeleteOp(id) => Cancel(e, id)
    case TickOp(row) => TickSpec(e, row).exchange
  }

  function ExchangeRun(ops: seq<Op>): Exchange {
    if ops == [] then FRESH else ExchangeStep(ExchangeRun(ops[..|ops| - 1]), ops[|ops| - 1])
  }

  // ---------- exchange and account agree ----------

  function StillResting(es: seq<Entry>): seq<Order> {
    if es == [] then []
    else
      var n := |es| - 1;
      StillResting(es[..n]) + if es[n].fate.Resting? then [es[n].order] else []
  }

  function TradesOf(fs: seq<Fill>): (r: seq<Trade>)
    ensures |r| == |fs|
  {
    seq(|fs|, k requires 0 <= k < |fs| => fs[k].trade)
  }

  /** Entry number i is the order with id i. */
  ghost predicate Numbered(es: seq<Entry>) {
    forall i :: 0 <= i < |es| ==> es[i].order.orderId == Some(i)
  }

  ghost predicate Agrees(e: Exchange, j: Ledger) {
    && Numbered(j.entries)
    && e.book == Book(StillResting(j.entries), |j.entries|)
    && e.tradeLog == TradesOf(j.fills)
    && e.buffer == j.buffer
  }

  lemma {:induction false} RestingAreBelow(es: seq<Entry>)
    requires Numbered(es)
    ensures forall o :: o in StillResting(es) <==> exists i :: 0 <= i < |es| && es[i].fate.Resting? && es[i].order == o
    ensures forall o :: o in StillResting(es) ==> o.orderId.Some? && o.orderId.value < |es|
  {
    if es != [] {
      var n := |es| - 1;
      RestingAreBelow(es[..n]);
      forall o ensures o in StillResting(es) <==> exists i :: 0 <= i < |es| && es[i].fate.Resting? && es[i].order == o {
        if o in StillResting(es[..n]) {
          var i :| 0 <= i < n && es[..n][i].fate.Resting? && es[..n][i].order == o;
          assert es[i].fate.Resting? && es[i].order == o;
        }
        if i :| 0 <= i < n && es[i].fate.Resting? && es[i].order == o {
          assert es[..n][i].fate.Resting? && es[..n][i].order == o;
        }
      }
    }
  }

  lemma {:induction false} RestingConcat(a: seq<Entry>, b: seq<Entry>)
    ensures StillResting(a + b) == StillResting(a) + StillResting(b)
  {
    if b == [] {
      assert a + b == a;
    } else {
      var n := |b| - 1;
      assert (a + b)[..|a + b| - 1] == a + b[..n];
      RestingConcat(a, b[..n]);
    }
  }

  lemma {:induction false} ArrivalsRest(os: seq<Order>, t: nat)
    ensures StillResting(Arrivals(os, t)) == os
  {
    if os != [] {
      var n := |os| - 1;
      assert Arrivals(os, t)[..n] == Arrivals(os[..n], t);
      ArrivalsRest(os[..n], t);
    }
  }

  lemma TradesOfConcat(a: seq<Fill>, b: seq<Fill>)
    ensures TradesOf(a + b) == TradesOf(a) + TradesOf(b)
  {
  }

  lemma RestingSnoc(es: seq<Entry>, e: Entry)
    ensures StillResting(es + [e]) == StillResting(es) + if e.fate.Resting? then [e.order] else []
  {
    assert (es + [e])[..|es|] == es;
  }

  lemma FillsSnoc(es: seq<Entry>, e: Entry, row: Row, t: nat)
    ensures NewFills(es + [e], row, t) == NewFills(es, row, t) + if Wins(e, row) then [Fill(|es|, t, Decide(e.order, row).value)] else []
  {
    assert (es + [e])[..|es|] == es;
  }

  lemma FollowSnoc(es: seq<Entry>, e: Entry, row: Row, t: nat)
    ensures Follow(es + [e], row, t) == Follow(es, row, t) + [Advance(e, row, t)]
  {
  }

  lemma OneMoreOrder(inner: seq<Order>, o: Order, row: Row)
    ensures Trades(inner + [o], row) == Trades(inner, row) + if Decide(o, row).Some? then [Decide(o, row).value] else []
    ensures Rest(inner + [o], row) == Rest(inner, row) + if Decide(o, row).Some? then [] else [o]
  {
    assert (inner + [o])[..|inner|] == inner;
  }

  /** A pass over the book is the orders in it followed one by one. */
  lemma {:induction false} PassAgrees(es: seq<Entry>, row: Row, t: nat)
    ensures Trades(StillResting(es), row) == TradesOf(NewFills(es, row, t))
    ensures Rest(StillResting(es), row) == StillResting(Follow(es, row, t))
  {
    if es != [] {
      var n := |es| - 1;
      var init, e := es[..n], es[n];
      assert es == init + [e];
      PassAgrees(init, row, t);
      RestingSnoc(init, e);
      FillsSnoc(init, e, row, t);
      FollowSnoc(init, e, row, t);
      RestingSnoc(Follow(init, row, t), Advance(e, row, t));
      if !e.fate.Resting? {
        assert StillResting(es) == StillResting(init);
      } else {
        OneMoreOrder(StillResting(init), e.order, row);
        match Decide(e.order, row) {
          case Some(trade) => TradesOfConcat(NewFills(init, row, t), [Fill(n, t, trade)]);
          case None => assert NewFills(es, row, t) == NewFills(init, row, t);
        }
      }
    }
  }

  lemma StrikeLast(es: seq<Entry>, e: Entry, t: nat)
    ensures StillResting(Strike(es + [e], |es|, t)) == StillResting(es)
  {
    if e.fate.Resting? {
      assert (es + [e])[|es| := e.(fate := Cancelled(t))] == es + [e.(fate := Cancelled(t))];
      RestingSnoc(es, e.(fate := Cancelled(t)));
    } else {
      RestingSnoc(es, e);
    }
  }

  lemma StrikeEarlier(es: seq<Entry>, e: Entry, id: nat, t: nat)
    requires id != |es|
    ensures Strike(es + [e], id, t) == Strike(es, id, t) + [e]
  {
  }

  lemma DeleteLast(inner: seq<Order>, o: Order, id: nat)
    requires o.orderId == Some(id) && forall k :: k in inner ==> k.orderId != Some(id)
    ensures Delete(inner + [o], id) == inner
  {
    DeleteAt(inner + [o], id, |inner|);
    assert (inner + [o])[|inner| + 1..] == [];
  }

  /** A cancel ends the life of the order with that id, if it still rests. */
  lemma {:induction false} DeleteAgrees(es: seq<Entry>, id: nat, t: nat)
    requires Numbered(es)
    ensures Delete(StillResting(es), id) == StillResting(Strike(es, id, t))
  {
    if es != [] {
      var n := |es| - 1;
      var init, e := es[..n], es[n];
      assert es == init + [e];
      DeleteAgrees(init, id, t);
      RestingAreBelow(init);
      RestingSnoc(init, e);
      if id == n {
        StrikeLast(init, e, t);
        if e.fate.Resting? {
          DeleteLast(StillResting(init), e.order, id);
        } else {
          DeleteAbsent(StillResting(init), id);
        }
      } else {
        StrikeEarlier(init, e, id, t);
        RestingSnoc(Strike(init, id, t), e);
        if e.fate.Resting? {
          DeleteSpares(StillResting(init), e.order, id);
        } else {
          assert StillResting(es) == StillResting(init);
        }
      }
    }
  }

  lemma SortedLength(buffer: seq<Order>)
    ensures |SortBuffer(buffer)| == |buffer|
  {
    SortedBuffer(buffer);
  }

  lemma NumberingGoesOn(es: seq<Entry>, row: Row, os: seq<Order>, t: nat)
    requires Numbered(es)
    ensures Numbered(Follow(es, row, t) + Arrivals(Stamp(os, |es|), t))
  {
    var after := Follow(es, row, t) + Arrivals(Stamp(os, |es|), t);
    forall i | 0 <= i < |after| ensures after[i].order.orderId == Some(i) {
      if i < |es| {
        assert after[i] == Advance(es[i], row, t);
      } else {
        assert after[i] == Arrivals(Stamp(os, |es|), t)[i - |es|];
      }
    }
  }

  lemma TickAgrees(e: Exchange, j: Ledger, row: Row)
    requires Agrees(e, j)
    ensures Agrees(TickSpec(e, row).exchange, LedgerTick(j, row))
  {
    var t, sorted := |j.rows|, SortBuffer(j.buffer);
    var inserted := Stamp(sorted, |j.entries|);
    PassAgrees(j.entries, row, t);
    ArrivalsRest(inserted, t);
    RestingConcat(Follow(j.entries, row, t), Arrivals(inserted, t));
    TradesOfConcat(j.fills, NewFills(j.entries, row, t));
    SortedLength(j.buffer);
    NumberingGoesOn(j.entries, row, sorted, t);
  }

  /** The book is what still rests, the log is what traded, in order. */
  lemma {:induction false} RunAgrees(ops: seq<Op>)
    ensures Agrees(ExchangeRun(ops), LedgerRun(ops))
  {
    if ops != [] {
      var n := |ops| - 1;
      var e, j := ExchangeRun(ops[..n]), LedgerRun(ops[..n]);
      RunAgrees(ops[..n]);
      match ops[n]
      case SubmitOp(_) =>
      case DeleteOp(id) => DeleteAgrees(j.entries, id, |j.rows|);
      case TickOp(row) => TickAgrees(e, j, row);
    }
  }

  // ---------- every life ----------

  /** None of those ticks was one the order could have traded on. */
  ghost predicate Missed(o: Order, rows: seq<Row>, from: nat, to: nat)
    requires to <= |rows|
  {
    forall u :: from <= u < to ==> Decide(o, rows[u]).None?
  }

  ghost predicate LifeOk(e: Entry, rows: seq<Row>) {
    && e.entered <= |rows|
    && match e.fate
       case Resting => Missed(e.order, rows, e.entered, |rows|)
       case Filled(at) => e.entered <= at < |rows| && Missed(e.order, rows, e.entered, at) && Decide(e.order, rows[at]).Some?
       case Cancelled(at) => e.entered <= at <= |rows| && Missed(e.order, rows, e.entered, at)
  }

  /** The k-th fill is the trade of the order with its id at the tick that ended it. */
  ghost predicate FillOk(j: Ledger, k: nat)
    requires k < |j.fills|
  {
    var f := j.fills[k];
    && f.orderId < |j.entries| && f.at < |j.rows|
    && j.entries[f.orderId].fate == Filled(f.at)
    && Decide(j.entries[f.orderId].order, j.rows[f.at]) == Some(f.trade)
  }

  predicate Before(f: Fill, g: Fill) {
    f.at < g.at || (f.at == g.at && f.orderId < g.orderId)
  }

  /** Some fill of the list carries the id. */
  ghost predicate Carries(fs: seq<Fill>, id: nat) {
    exists k :: 0 <= k < |fs| && fs[k].orderId == id
  }

  ghost predicate LedgerOk(j: Ledger) {
    && (forall i :: 0 <= i < |j.entries| ==> LifeOk(j.entries[i], j.rows))
    && (forall k :: 0 <= k < |j.fills| ==> FillOk(j, k))
    && (forall k, l :: 0 <= k < l < |j.fills| ==> Before(j.fills[k], j.fills[l]))
    && (forall i :: 0 <= i < |j.entries| && j.entries[i].fate.Filled? ==> Carries(j.fills, i))
  }

  ghost predicate FillsAre(fs: seq<Fill>, es: seq<Entry>, row: Row, t: nat) {
    && (forall k :: 0 <= k < |fs| ==>
          && fs[k].at == t && fs[k].orderId < |es|
          && Wins(es[fs[k].orderId], row) && Decide(es[fs[k].orderId].order, row) == Some(fs[k].trade))
    && (forall k, l :: 0 <= k < l < |fs| ==> fs[k].orderId < fs[l].orderId)
  }

  lemma {:induction false} NewFillsAre(es: seq<Entry>, row: Row, t: nat)
    ensures FillsAre(NewFills(es, row, t), es, row, t)
  {
    if es != [] {
      NewFillsAre(es[..|es| - 1], row, t);
    }
  }

  lemma CarriesMore(a: seq<Fill>, b: seq<Fill>, id: nat)
    ensures Carries(a + b, id) <==> Carries(a, id) || Carries(b, id)
  {
    if Carries(a, id) {
      var k :| 0 <= k < |a| && a[k].orderId == id;
      assert (a + b)[k].orderId == id;
    }
    if Carries(b, id) {
      var k :| 0 <= k < |b| && b[k].orderId == id;
      assert (a + b)[|a| + k].orderId == id;
    }
    if Carries(a + b, id) {
      var k :| 0 <= k < |a + b| && (a + b)[k].orderId == id;
      assert if k < |a| then a[k].orderId == id else b[k - |a|].orderId == id;
    }
  }

  lemma {:induction false} WinnersAreCarried(es: seq<Entry>, row: Row, t: nat, i: nat)
    requires i < |es| && Wins(es[i], row)
    ensures Carries(NewFills(es, row, t), i)
  {
    var n := |es| - 1;
    if i < n {
      WinnersAreCarried(es[..n], row, t, i);
      CarriesMore(NewFills(es[..n], row, t), if Wins(es[n], row) then [Fill(n, t, Decide(es[n].order, row).value)] else [], i);
    } else {
      var last := [Fill(n, t, Decide(es[n].order, row).value)];
      assert last[0].orderId == i;
      CarriesMore(NewFills(es[..n], row, t), last, i);
    }
  }

  lemma LifeGoesOn(e: Entry, rows: seq<Row>, row: Row)
    requires LifeOk(e, rows)
    ensures LifeOk(Advance(e, row, |rows|), rows + [row])
  {
    assert forall u :: 0 <= u < |rows| ==> (rows + [row])[u] == rows[u];
  }

  lemma TickKeepsFill(j: Ledger, row: Row, k: nat)
    requires LedgerOk(j) && k < |LedgerTick(j, row).fills|
    ensures FillOk(LedgerTick(j, row), k)
  {
    var t := |j.rows|;
    NewFillsAre(j.entries, row, t);
    if k < |j.fills| {
      assert FillOk(j, k);
    }
  }

  lemma TickKeepsOrder(j: Ledger, row: Row, k: nat, l: nat)
    requires LedgerOk(j) && k < l < |LedgerTick(j, row).fills|
    ensures Before(LedgerTick(j, row).fills[k], LedgerTick(j, row).fills[l])
  {
    NewFillsAre(j.entries, row, |j.rows|);
    if k < |j.fills| {
      assert FillOk(j, k);
    }
  }

  lemma TickRecords(j: Ledger, row: Row, i: nat)
    requires LedgerOk(j) && i < |LedgerTick(j, row).entries| && LedgerTick(j, row).entries[i].fate.Filled?
    ensures Carries(LedgerTick(j, row).fills, i)
  {
    var t := |j.rows|;
    CarriesMore(j.fills, NewFills(j.entries, row, t), i);
    if i < |j.entries| && Wins(j.entries[i], row) {
      WinnersAreCarried(j.entries, row, t, i);
    } else {
      assert Carries(j.fills, i);
    }
  }

  lemma TickKeepsLedgerOk(j: Ledger, row: Row)
    requires LedgerOk(j)
    ensures LedgerOk(LedgerTick(j, row))
  {
    var j' := LedgerTick(j, row);
    forall i | 0 <= i < |j'.entries| ensures LifeOk(j'.entries[i], j'.rows) {
      if i < |j.entries| {
        LifeGoesOn(j.entries[i], j.rows, row);
      }
    }
    forall k | 0 <= k < |j'.fills| ensures FillOk(j', k) {
      TickKeepsFill(j, row, k);
    }
    forall k, l | 0 <= k < l < |j'.fills| ensures Before(j'.fills[k], j'.fills[l]) {
      TickKeepsOrder(j, row, k, l);
    }
    forall i | 0 <= i < |j'.entries| && j'.entries[i].fate.Filled? ensures Carries(j'.fills, i) {
      TickRecords(j, row, i);
    }
  }

  lemma StrikeKeepsLedgerOk(j: Ledger, id: nat)
    requires LedgerOk(j)
    ensures LedgerOk(j.(entries := Strike(j.entries, id, |j.rows|)))
  {
    var j' := j.(entries := Strike(j.entries, id, |j.rows|));
    forall k | 0 <= k < |j.fills| ensures FillOk(j', k) {
      assert FillOk(j, k);
    }
    forall i | 0 <= i < |j'.entries| && j'.entries[i].fate.Filled? ensures Carries(j'.fills, i) {
      assert Carries(j.fills, i);
    }
  }

  lemma {:induction false} RunIsOk(ops: seq<Op>)
    ensures LedgerOk(LedgerRun(ops))
  {
    if ops != [] {
      var n := |ops| - 1;
      var j := LedgerRun(ops[..n]);
      RunIsOk(ops[..n]);
      match ops[n]
      case SubmitOp(o) =>
        assert forall i :: 0 <= i < |j.entries| && j.entries[i].fate.Filled? ==> Carries(j.fills, i);
        assert forall k :: 0 <= k < |j.fills| ==> FillOk(j, k);
        SubmitKeepsLedgerOk(j, o);
      case DeleteOp(id) => StrikeKeepsLedgerOk(j, id);
      case TickOp(row) => TickKeepsLedgerOk(j, row);
    }
  }

  lemma SubmitKeepsLedgerOk(j: Ledger, o: Order)
    requires LedgerOk(j)
    ensures LedgerOk(j.(buffer := j.buffer + [o]))
  {
    var j' := j.(buffer := j.buffer + [o]);
    forall k | 0 <= k < |j.fills| ensures FillOk(j', k) {
      assert FillOk(j, k);
    }
    forall i | 0 <= i < |j'.entries| && j'.entries[i].fate.Filled? ensures Carries(j'.fills, i) {
      assert Carries(j.fills, i);
    }
  }

  // ---------- what follows for the exchange ----------

  /** Every id ever issued is in exactly one place: it rests in the book, or has a trade, or was
      cancelled and has neither. */
  lemma IdsArePartitioned(ops: seq<Op>, id: nat)
    requires id < ExchangeRun(ops).book.lastInserted
    ensures var e, j := ExchangeRun(ops), LedgerRun(ops);
            && |j.entries| == e.book.lastInserted
            && (j.entries[id].fate.Resting? <==> exists o :: o in e.book.inner && o.orderId == Some(id))
            && (j.entries[id].fate.Filled? <==> Carries(j.fills, id))
  {
    RunAgrees(ops);
    RunIsOk(ops);
    var j := LedgerRun(ops);
    RestingAreBelow(j.entries);
    if j.entries[id].fate.Resting? {
      assert j.entries[id].order in StillResting(j.entries);
    }
    if k :| 0 <= k < |j.fills| && j.fills[k].orderId == id {
      assert FillOk(j, k);
    }
  }

  /** No id trades twice. */
  lemma NoIdTwice(ops: seq<Op>)
    ensures var fs := LedgerRun(ops).fills;
            && ExchangeRun(ops).tradeLog == TradesOf(fs)
            && forall k, l :: 0 <= k < l < |fs| ==> fs[k].orderId != fs[l].orderId
  {
    RunAgrees(ops);
    RunIsOk(ops);
    var j := LedgerRun(ops);
    forall k, l | 0 <= k < l < |j.fills| ensures j.fills[k].orderId != j.fills[l].orderId {
      assert FillOk(j, k) && FillOk(j, l) && Before(j.fills[k], j.fills[l]);
    }
  }

  /** The fill is what the order issued its id makes of the quotes of its tick, the first tick since
      it entered on which it could trade. */
  ghost predicate Traces(j: Ledger, f: Fill) {
    && f.orderId < |j.entries|
    && var life := j.entries[f.orderId];
       && life.order.orderId == Some(f.orderId) && life.entered <= f.at < |j.rows|
       && Decide(life.order, j.rows[f.at]) == Some(f.trade)
       && Missed(life.order, j.rows, life.entered, f.at)
       && f.trade.symbol == life.order.symbol && f.trade.quantity == life.order.shares
       && (f.trade.typ.Sell? <==> IsSell(life.order))
  }

  lemma FillTraces(j: Ledger, k: nat)
    requires LedgerOk(j) && Numbered(j.entries) && k < |j.fills|
    ensures Traces(j, j.fills[k])
  {
    assert FillOk(j, k);
    assert LifeOk(j.entries[j.fills[k].orderId], j.rows);
  }

  /** So it is for every trade in the log; and the log runs tick by tick, by rising ids. */
  lemma FillsTrace(ops: seq<Op>, k: nat)
    requires k < |ExchangeRun(ops).tradeLog|
    ensures var e, j := ExchangeRun(ops), LedgerRun(ops);
            && |j.fills| == |e.tradeLog| && |j.entries| == e.book.lastInserted
            && j.fills[k].trade == e.tradeLog[k] && Traces(j, j.fills[k])
            && forall l :: k < l < |j.fills| ==> Before(j.fills[k], j.fills[l])
  {
    RunAgrees(ops);
    RunIsOk(ops);
    FillTraces(LedgerRun(ops), k);
  }

  /** An order still in the book is the one issued its id, and could not have traded on any tick
      since it entered. */
  lemma RestingMissedNothing(ops: seq<Op>, o: Order)
    requires o in ExchangeRun(ops).book.inner
    ensures var j := LedgerRun(ops);
            && o.orderId.Some? && o.orderId.value < |j.entries|
            && var life := j.entries[o.orderId.value];
               && life.order == o && life.entered <= |j.rows| && Missed(o, j.rows, life.entered, |j.rows|)
  {
    RunAgrees(ops);
    RunIsOk(ops);
    var j := LedgerRun(ops);
    RestingAreBelow(j.entries);
    var i :| 0 <= i < |j.entries| && j.entries[i].fate.Resting? && j.entries[i].order == o;
    assert LifeOk(j.entries[i], j.rows);
  }

  // ---------- nothing is lost ----------

  function Submitted(ops: seq<Op>): seq<Order> {
    if ops == [] then []
    else
      var n := |ops| - 1;
      Submitted(ops[..n]) + if ops[n].SubmitOp? then [ops[n].order] else []
  }

  function Orders(es: seq<Entry>): (r: seq<Order>)
    ensures |r| == |es|
  {
    seq(|es|, i requires 0 <= i < |es| => es[i].order)
  }

  lemma TickLosesNothing(j: Ledger, row: Row)
    ensures multiset(Bare(Orders(LedgerTick(j, row).entries))) == multiset(Bare(Orders(j.entries))) + multiset(Bare(j.buffer))
  {
    var t, stamped := |j.rows|, Stamp(SortBuffer(j.buffer), |j.entries|);
    assert Orders(LedgerTick(j, row).entries) == Orders(j.entries) + stamped;
    BareConcat(Orders(j.entries), stamped);
    assert Bare(stamped) == Bare(SortBuffer(j.buffer));
    SortingKeepsBare(j.buffer);
  }

  lemma StepLosesNothing(j: Ledger, op: Op, submitted: seq<Order>)
    requires multiset(Bare(submitted)) == multiset(Bare(Orders(j.entries))) + multiset(Bare(j.buffer))
    ensures multiset(Bare(submitted + if op.SubmitOp? then [op.order] else []))
            == multiset(Bare(Orders(LedgerStep(j, op).entries))) + multiset(Bare(LedgerStep(j, op).buffer))
  {
    match op
    case SubmitOp(o) =>
      BareSnoc(submitted, o);
      BareSnoc(j.buffer, o);
    case DeleteOp(id) =>
      assert submitted + [] == submitted;
      assert Orders(Strike(j.entries, id, |j.rows|)) == Orders(j.entries);
    case TickOp(row) =>
      assert submitted + [] == submitted;
      TickLosesNothing(j, row);
  }

  lemma {:induction false} LedgerLosesNothing(ops: seq<Op>)
    ensures multiset(Bare(Submitted(ops))) == multiset(Bare(Orders(LedgerRun(ops).entries))) + multiset(Bare(LedgerRun(ops).buffer))
  {
    if ops != [] {
      var n := |ops| - 1;
      LedgerLosesNothing(ops[..n]);
      StepLosesNothing(LedgerRun(ops[..n]), ops[n], Submitted(ops[..n]));
    }
  }

  /** Every order submitted still waits in the buffer or has been issued exactly one id, and no id
      stands for anything else. */
  lemma NothingIsLost(ops: seq<Op>)
    ensures multiset(Bare(Submitted(ops))) == multiset(Bare(Orders(LedgerRun(ops).entries))) + multiset(Bare(ExchangeRun(ops).buffer))
  {
    RunAgrees(ops);
    LedgerLosesNothing(ops);
  }

  // ---------- on a server ----------

  /** What a run of requests to a server asks of the exchange of backtest `b`. */
  function Asked(s: UistServer.Server, ops: seq<UistServer.Op>, b: nat): seq<Op>
    requires UistServer.AllCreatable(s.datasets, ops)
  {
    if ops == [] then []
    else
      var n := |ops| - 1;
      var before := UistServer.Run(s, ops[..n]);
      Asked(s, ops[..n], b)
      + if Isolation.Concerns(ops[n], b) && b in before.backtests then AskedBy(before.backtests[b], before.datasets, ops[n]) else []
  }

  /** A tick runs the exchange only when there are quotes for the date. */
  function AskedBy(bt: UistServer.Backtest, datasets: map<string, Dataset>, op: UistServer.Op): seq<Op> {
    match op
    case TickOp(_) =>
      if bt.datasetName in datasets && bt.date in datasets[bt.datasetName].inner then
        [TickOp(datasets[bt.datasetName].inner[bt.date])]
      else []
    case InsertOp(_, o) => [SubmitOp(o)]
    case DeleteOp(_, id) => [DeleteOp(id)]
    case _ => []
  }

  lemma OneRequest(bt: UistServer.Backtest, datasets: map<string, Dataset>, op: UistServer.Op, asked: seq<Op>)
    requires !op.NewOp? && !op.InitOp? && bt.exchange == ExchangeRun(asked)
    ensures UistServer.BacktestStep(bt, datasets, op).0.exchange == ExchangeRun(asked + AskedBy(bt, datasets, op))
  {
    var more := AskedBy(bt, datasets, op);
    if more != [] {
      assert (asked + more)[..|asked|] == asked;
    } else {
      assert asked + more == asked;
    }
  }

  /** Whatever the interleaving, the exchange of a backtest that starts fresh is a run of what its own
      requests ask of it: all of the above holds of every backtest of every server. */
  lemma {:induction false} ServedIsRun(s: UistServer.Server, ops: seq<UistServer.Op>, b: nat)
    requires UistServer.AllCreatable(s.datasets, ops)
    requires b in s.backtests && b <= s.last && s.backtests[b].exchange == FRESH
    ensures b in UistServer.Run(s, ops).backtests
    ensures UistServer.Run(s, ops).backtests[b].exchange == ExchangeRun(Asked(s, ops, b))
  {
    if ops != [] {
      var n := |ops| - 1;
      ServedIsRun(s, ops[..n], b);
      Isolation.LastNeverFalls(s, ops[..n]);
      var before := UistServer.Run(s, ops[..n]);
      if Isolation.Concerns(ops[n], b) {
        OneRequest(before.backtests[b], before.datasets, ops[n], Asked(s, ops[..n], b));
      } else {
        Isolation.OtherStep(before, ops[n], b);
        assert Asked(s, ops, b) == Asked(s, ops[..n], b);
      }
    }
  }
}
