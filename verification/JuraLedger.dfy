/** An independent account of the Jura exchange: every order ever issued an id is followed on its
    own, from the tick it enters to the tick it leaves, without looking at the book.  The exchange
    and the account agree over every run, so what holds of the lives of orders holds of the book
    and the trade log. */
module JuraLedger {
  import opened Jura

  datatype Origin = Client | TriggeredBy(parent: nat)

  /** Where an issued id is: still in the book, filled as entry `fill` of the trade log, deleted by
      the client, expired unfilled, or replaced by the order it triggered. */
  datatype Fate = Resting | Filled(fill: nat) | Deleted | Expired | Replaced(child: nat)

  /** `entered` is the first tick the order takes part in, `left` the tick in which it left (or, if
      deleted, before which), and `quoted` how many ticks have quoted its asset while it rested. */
  datatype Entry = Entry(order: Order, origin: Origin, entered: nat, quoted: nat, fate: Fate, left: nat)

  /** Entry number i is the life of the order with id i; `rows` are the ticks so far. */
  datatype Ledger = Ledger(entries: seq<Entry>, fills: seq<Fill>, rows: seq<Row>, buffer: seq<Order>)

  datatype Op = SubmitOp(order: Order) | DeleteOp(asset: Asset, orderId: nat) | TickOp(row: Row)

  // ---------- one life ----------

  predicate Succeeds(o: Order, q: Quote) {
    match o.orderType
    case Limit(Ioc) => Tolerated(o, q)
    case Limit(Gtc) => Crossed(o, q)
    case Limit(Alo) => false
    case Trigger(_, _, _) => Fires(o, q)
  }

  predicate Meets(e: Entry, row: Row) {
    e.fate.Resting? && e.order.asset in row
  }

  /** An immediate-or-cancel order has one chance; its second quote ends it. */
  predicate Spent(e: Entry) {
    e.order.orderType == Limit(Ioc) && e.quoted > 0
  }

  predicate Wins(e: Entry, row: Row) {
    Meets(e, row) && !Spent(e) && Succeeds(e.order, row[e.order.asset])
  }

  predicate Trades(e: Entry, row: Row) {
    Wins(e, row) && e.order.orderType.Limit?
  }

  predicate Spawns(e: Entry, row: Row) {
    Wins(e, row) && e.order.orderType.Trigger?
  }

  /** What tick number `t` makes of one entry, given the numbers the next fill and the next child
      would get. */
  function Advance(e: Entry, row: Row, t: nat, fill: nat, child: nat): Entry {
    if !Meets(e, row) then e
    else
      var seen := e.(quoted := e.quoted + 1);
      if Spent(e) then seen.(fate := Expired, left := t)
      else if Trades(e, row) then seen.(fate := Filled(fill), left := t)
      else if Spawns(e, row) then seen.(fate := Replaced(child), left := t)
      else seen
  }

  function Arrival(o: Order, origin: Origin, t: nat): Entry {
    Entry(o, origin, t + 1, 0, Resting, 0)
  }

  // ---------- all lives ----------

  datatype Pass = Pass(entries: seq<Entry>, fills: seq<Fill>, spawned: seq<Entry>)

  function Follow(es: seq<Entry>, row: Row, t: nat, nextFill: nat, nextId: nat): (p: Pass)
    ensures |p.entries| == |es|
  {
    if es == [] then Pass([], [], [])
    else
      var n := |es| - 1;
      var e := es[n];
      var p := Follow(es[..n], row, t, nextFill, nextId);
      Pass(p.entries + [Advance(e, row, t, nextFill + |p.fills|, nextId + |p.spawned|)],
           p.fills + if Trades(e, row) then [Execute(n, e.order, row[e.order.asset])] else [],
           p.spawned + if Spawns(e, row) then [Arrival(Child(e.order), TriggeredBy(n), t)] else [])
  }

  function Arrivals(os: seq<Order>, t: nat): (r: seq<Entry>)
    ensures |r| == |os|
    ensures forall i :: 0 <= i < |os| ==> r[i] == Arrival(os[i], Client, t)
  {
    seq(|os|, i requires 0 <= i < |os| => Arrival(os[i], Client, t))
  }

  function LedgerTick(j: Ledger, row: Row): Ledger {
    var p := Follow(j.entries, row, |j.rows|, |j.fills|, |j.entries|);
    Ledger(p.entries + p.spawned + Arrivals(SortBuffer(j.buffer), |j.rows|), j.fills + p.fills, j.rows + [row], [])
  }

  function Strike(es: seq<Entry>, k: Key, t: nat): (r: seq<Entry>)
    ensures |r| == |es|
  {
    if k.orderId < |es| && es[k.orderId].fate.Resting? && es[k.orderId].order.asset == k.asset then
      es[k.orderId := es[k.orderId].(fate := Deleted, left := t)]
    else es
  }

  function LedgerStep(j: Ledger, op: Op): Ledger {
    match op
    case SubmitOp(o) => j.(buffer := j.buffer + [o])
    case DeleteOp(asset, id) => j.(entries := Strike(j.entries, Key(asset, id), |j.rows|))
    case TickOp(row) => LedgerTick(j, row)
  }

  function ExchangeStep(e: Exchange, op: Op): Exchange {
    match op
    case SubmitOp(o) => Insert(e, o)
    case DeleteOp(asset, id) => Cancel(e, Key(asset, id))
    case TickOp(row) => TickSpec(e, row).exchange
  }

  /** The exchange after a run from the start, and the account of the same run. */
  function ExchangeRun(ops: seq<Op>): Exchange {
    if ops == [] then FRESH else ExchangeStep(ExchangeRun(ops[..|ops| - 1]), ops[|ops| - 1])
  }

  function LedgerRun(ops: seq<Op>): Ledger {
    if ops == [] then Ledger([], [], [], []) else LedgerStep(LedgerRun(ops[..|ops| - 1]), ops[|ops| - 1])
  }

  // ---------- the exchange agrees with the account ----------

  /** The resting entries, as the book would hold them. */
  function RestingOf(es: seq<Entry>): seq<InnerOrder> {
    if es == [] then []
    else
      var n := |es| - 1;
      RestingOf(es[..n]) + if es[n].fate.Resting? then [InnerOrder(n, es[n].order, Spent(es[n]))] else []
  }

  ghost predicate Agrees(e: Exchange, j: Ledger) {
    && e.book.lastInserted == |j.entries|
    && e.book.inner == RestingOf(j.entries)
    && e.tradeLog == j.fills && e.buffer == j.buffer
  }

  function Orders(es: seq<Entry>): (r: seq<Order>)
    ensures |r| == |es|
    ensures forall i :: 0 <= i < |es| ==> r[i] == es[i].order
  {
    seq(|es|, i requires 0 <= i < |es| => es[i].order)
  }

  lemma {:induction false} RestingBelow(es: seq<Entry>)
    ensures IdsIncrease(RestingOf(es))
    ensures forall o :: o in RestingOf(es) ==> o.orderId < |es|
  {
    if es != [] {
      RestingBelow(es[..|es| - 1]);
      var r := RestingOf(es[..|es| - 1]);
      assert forall k :: 0 <= k < |r| ==> r[k] in r;
    }
  }

  /** What rests is a resting entry ... */
  lemma {:induction false} RestingIsEntry(es: seq<Entry>, o: InnerOrder)
    requires o in RestingOf(es)
    ensures o.orderId < |es| && es[o.orderId].fate.Resting? && es[o.orderId].order == o.order && o.attempted == Spent(es[o.orderId])
  {
    var n := |es| - 1;
    if o in RestingOf(es[..n]) {
      RestingIsEntry(es[..n], o);
    }
  }

  /** ... and the other way round. */
  lemma {:induction false} EntryIsResting(es: seq<Entry>, i: nat)
    requires i < |es| && es[i].fate.Resting?
    ensures InnerOrder(i, es[i].order, Spent(es[i])) in RestingOf(es)
  {
    if i < |es| - 1 {
      EntryIsResting(es[..|es| - 1], i);
    }
  }

  /** One pass over the book does what following each order does. */
  lemma {:induction false} PassAgrees(es: seq<Entry>, row: Row, t: nat, nextFill: nat, nextId: nat)
    ensures var p := Follow(es, row, t, nextFill, nextId);
            && Remaining(RestingOf(es), row) == RestingOf(p.entries)
            && FillsOf(RestingOf(es), row) == p.fills
            && Children(RestingOf(es), row) == Orders(p.spawned)
  {
    if es != [] {
      var n := |es| - 1;
      PassAgrees(es[..n], row, t, nextFill, nextId);
      var p0, p := Follow(es[..n], row, t, nextFill, nextId), Follow(es, row, t, nextFill, nextId);
      var init := RestingOf(es[..n]);
      assert p.entries[..n] == p0.entries;
      if es[n].fate.Resting? {
        var x := InnerOrder(n, es[n].order, Spent(es[n]));
        assert RestingOf(es) == init + [x];
        OneMoreOrder(init, x, row);
        OneLife(es[n], n, row, t, nextFill + |p0.fills|, nextId + |p0.spawned|);
      } else {
        assert RestingOf(es) == init;
      }
    }
  }

  /** What the book decides of one order is what its own life makes of it. */
  lemma OneLife(e: Entry, id: nat, row: Row, t: nat, fill: nat, child: nat)
    requires e.fate.Resting?
    ensures var d := Decide(InnerOrder(id, e.order, Spent(e)), row);
            var e' := Advance(e, row, t, fill, child);
            && (d.Stays? <==> e'.fate.Resting?)
            && (d.Stays? ==> d.order == InnerOrder(id, e'.order, Spent(e')))
            && (d.Fills? <==> Trades(e, row))
            && (d.Fills? ==> d.fill == Execute(id, e.order, row[e.order.asset]))
            && (d.Triggers? <==> Spawns(e, row))
            && (d.Triggers? ==> d.child == Child(e.order))
  {
  }

  lemma OneMoreOrder(init: seq<InnerOrder>, x: InnerOrder, row: Row)
    ensures Remaining(init + [x], row) == Remaining(init, row) + match Decide(x, row) case Stays(o) => [o] case _ => []
    ensures FillsOf(init + [x], row) == FillsOf(init, row) + match Decide(x, row) case Fills(f) => [f] case _ => []
    ensures Children(init + [x], row) == Children(init, row) + match Decide(x, row) case Triggers(c) => [c] case _ => []
  {
    assert (init + [x])[..|init|] == init;
  }

  lemma {:induction false} ArrivalsRest(es: seq<Entry>, news: seq<Entry>)
    requires AllNew(news)
    ensures RestingOf(es + news) == RestingOf(es) + Enter(Orders(news), |es|)
  {
    if news == [] {
      assert es + news == es;
    } else {
      var n := |news| - 1;
      ArrivalsRest(es, news[..n]);
      assert (es + news)[..|es| + n] == es + news[..n];
      assert Enter(Orders(news), |es|) == Enter(Orders(news[..n]), |es|) + [InnerOrder(|es| + n, news[n].order, false)];
    }
  }

  ghost predicate AllNew(es: seq<Entry>) {
    forall i :: 0 <= i < |es| ==> es[i].fate.Resting? && es[i].quoted == 0
  }

  lemma {:induction false} SpawnedRest(es: seq<Entry>, row: Row, t: nat, nextFill: nat, nextId: nat)
    ensures AllNew(Follow(es, row, t, nextFill, nextId).spawned)
  {
    if es != [] {
      SpawnedRest(es[..|es| - 1], row, t, nextFill, nextId);
    }
  }

  lemma TickAgrees(e: Exchange, j: Ledger, row: Row)
    requires Agrees(e, j)
    ensures Agrees(TickSpec(e, row).exchange, LedgerTick(j, row))
  {
    var p := Follow(j.entries, row, |j.rows|, |j.fills|, |j.entries|);
    PassAgrees(j.entries, row, |j.rows|, |j.fills|, |j.entries|);
    SpawnedRest(j.entries, row, |j.rows|, |j.fills|, |j.entries|);
    EveryoneRests(p, SortBuffer(j.buffer), |j.rows|);
    BookAfter(e, row, Orders(p.spawned), RestingOf(p.entries));
  }

  lemma BookAfter(e: Exchange, row: Row, children: seq<Order>, rest: seq<InnerOrder>)
    requires children == Children(e.book.inner, row) && rest == Remaining(e.book.inner, row)
    ensures var (b, sorted, last) := (TickSpec(e, row).exchange.book, SortBuffer(e.buffer), e.book.lastInserted);
            && b.inner == rest + Enter(children, last) + Enter(sorted, last + |children|)
            && b.lastInserted == last + |children| + |sorted|
  {
  }

  lemma EveryoneRests(p: Pass, sorted: seq<Order>, t: nat)
    requires AllNew(p.spawned)
    ensures RestingOf(p.entries + p.spawned + Arrivals(sorted, t))
            == RestingOf(p.entries) + Enter(Orders(p.spawned), |p.entries|) + Enter(sorted, |p.entries| + |p.spawned|)
  {
    var arrivals := Arrivals(sorted, t);
    ArrivalsRest(p.entries, p.spawned);
    ArrivalsRest(p.entries + p.spawned, arrivals);
    assert Orders(arrivals) == sorted;
  }

  /** Cancelling by scan removes exactly the entry with that id, if it rests and the asset is its. */
  lemma {:induction false} DeleteAgrees(es: seq<Entry>, k: Key, t: nat)
    ensures Delete(RestingOf(es), k) == RestingOf(Strike(es, k, t))
  {
    if es != [] {
      var n := |es| - 1;
      var x := InnerOrder(n, es[n].order, Spent(es[n]));
      DeleteAgrees(es[..n], k, t);
      RestingBelow(es[..n]);
      var init := RestingOf(es[..n]);
      var es' := Strike(es, k, t);
      assert RestingOf(es) == if es[n].fate.Resting? then init + [x] else init;
      if k.orderId == n {
        assert es'[..n] == es[..n];
        DeleteAbsentId(init, k);
        if es[n].fate.Resting? && KeyOf(x) == k {
          DeleteOnlyLast(init, x);
        } else if es[n].fate.Resting? {
          DeleteSpares(init, x, k);
        }
      } else {
        assert es'[..n] == Strike(es[..n], k, t) && es'[n] == es[n];
        if es[n].fate.Resting? {
          DeleteSpares(init, x, k);
        }
      }
    }
  }

  lemma DeleteAbsentId(inner: seq<InnerOrder>, k: Key)
    requires forall o :: o in inner ==> o.orderId != k.orderId
    ensures Delete(inner, k) == inner
  {
    forall i | 0 <= i < |inner| ensures KeyOf(inner[i]) != k {
      assert inner[i] in inner;
    }
    DeleteAbsent(inner, k);
  }

  /** Over every run the exchange and the account agree: the book is exactly the resting entries in
      id order, and the trade log exactly the account's fills. */
  lemma {:induction false} RunAgrees(ops: seq<Op>)
    ensures Agrees(ExchangeRun(ops), LedgerRun(ops))
  {
    if ops != [] {
      var n := |ops| - 1;
      RunAgrees(ops[..n]);
      var e, j := ExchangeRun(ops[..n]), LedgerRun(ops[..n]);
      match ops[n]
      case SubmitOp(o) =>
      case DeleteOp(asset, id) => DeleteAgrees(j.entries, Key(asset, id), |j.rows|);
      case TickOp(row) => TickAgrees(e, j, row);
    }
  }
}
