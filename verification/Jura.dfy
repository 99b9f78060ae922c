/** The Jura exchange: immediate-or-cancel and good-till-cancelled limit orders, and stop-loss and
    take-profit triggers, specified on values.  Prices and sizes are the numbers the source parses out
    of its strings; assets are the numbers it prints into quote symbols. */
module Jura {
  import opened Prelude
  import opened Sorting

  type Asset = nat

  datatype Quote = Quote(bid: real, ask: real, date: int)

  type Row = map<Asset, Quote>

  datatype TimeInForce = Alo | Ioc | Gtc

  datatype TriggerType = Tp | Sl

  datatype OrderType = Limit(tif: TimeInForce) | Trigger(triggerPx: real, isMarket: bool, tpsl: TriggerType)

  datatype Order = Order(asset: Asset, isBuy: bool, limitPx: real, sz: real, reduceOnly: bool, cloid: Option<string>, orderType: OrderType)

  datatype InnerOrder = InnerOrder(orderId: nat, order: Order, attempted: bool)

  /** A buy is reported on side Ask and a sell on side Bid. */
  datatype Side = Ask | Bid

  datatype Fill = Fill(coin: Asset, oid: nat, px: real, side: Side, sz: real, time: int)

  /** Orders with the third time-in-force stop the program when they meet a quote. */
  predicate Supported(o: Order) {
    o.orderType != Limit(Alo)
  }

  // ---------- what one order does against one row of quotes ----------

  function Execute(id: nat, o: Order, q: Quote): Fill {
    if o.isBuy then Fill(o.asset, id, q.ask, Ask, o.sz, q.date) else Fill(o.asset, id, q.bid, Bid, o.sz, q.date)
  }

  /** Within the slippage an immediate-or-cancel order tolerates: always a tenth of its price. */
  predicate Tolerated(o: Order, q: Quote) {
    if o.isBuy then o.limitPx * 1.1 >= q.ask else o.limitPx * 0.9 <= q.bid
  }

  predicate Crossed(o: Order, q: Quote) {
    if o.isBuy then o.limitPx >= q.ask else o.limitPx <= q.bid
  }

  /** The comparisons as the code has them; for sells they run against what its comments say. */
  predicate Fires(o: Order, q: Quote)
    requires o.orderType.Trigger?
  {
    var price := if o.isBuy then q.ask else q.bid;
    match o.orderType.tpsl
    case Sl => price >= o.orderType.triggerPx
    case Tp => price <= o.orderType.triggerPx
  }

  /** The rule the comments describe: a stop-loss closes a short as the price goes up and a long as
      it goes down, a take-profit the other way round. */
  predicate FiresAsDescribed(o: Order, q: Quote)
    requires o.orderType.Trigger?
  {
    match o.orderType.tpsl
    case Sl => if o.isBuy then q.ask >= o.orderType.triggerPx else q.bid <= o.orderType.triggerPx
    case Tp => if o.isBuy then q.ask <= o.orderType.triggerPx else q.bid >= o.orderType.triggerPx
  }

  /** The limit order a trigger turns into. */
  function Child(o: Order): Order
    requires o.orderType.Trigger?
  {
    o.(orderType := Limit(if o.orderType.isMarket then Ioc else Gtc))
  }

  datatype Outcome = Stays(order: InnerOrder) | Fills(fill: Fill) | Expires | Triggers(child: Order)

  /** What becomes of an order that meets a quote. */
  function Verdict(o: InnerOrder, q: Quote): Outcome {
    match o.order.orderType
    case Limit(Ioc) =>
      if o.attempted then Expires
      else if Tolerated(o.order, q) then Fills(Execute(o.orderId, o.order, q))
      else Stays(o.(attempted := true))
    case Limit(Gtc) => if Crossed(o.order, q) then Fills(Execute(o.orderId, o.order, q)) else Stays(o)
    case Limit(Alo) => Stays(o)
    case Trigger(_, _, _) => if Fires(o.order, q) then Triggers(Child(o.order)) else Stays(o)
  }

  function Decide(o: InnerOrder, row: Row): Outcome {
    if o.order.asset in row then Verdict(o, row[o.order.asset]) else Stays(o)
  }

  // ---------- the book ----------

  datatype Book = Book(inner: seq<InnerOrder>, lastInserted: nat)

  datatype Exchange = Exchange(book: Book, tradeLog: seq<Fill>, buffer: seq<Order>)

  const FRESH := Exchange(Book([], 0), [], [])

  ghost predicate IdsIncrease(inner: seq<InnerOrder>) {
    forall i, j :: 0 <= i < j < |inner| ==> inner[i].orderId < inner[j].orderId
  }

  /** Ids rise from front to back and stay below the next id to be issued. */
  ghost predicate BookOk(b: Book) {
    IdsIncrease(b.inner) && forall i :: 0 <= i < |b.inner| ==> b.inner[i].orderId < b.lastInserted
  }

  ghost predicate AllSupported(inner: seq<InnerOrder>, row: Row) {
    forall i :: 0 <= i < |inner| && inner[i].order.asset in row ==> Supported(inner[i].order)
  }

  datatype Key = Key(asset: Asset, orderId: nat)

  function KeyOf(o: InnerOrder): Key {
    Key(o.order.asset, o.orderId)
  }

  /** The book with the first execution attempts of this pass recorded, before anything is removed. */
  function Marked(inner: seq<InnerOrder>, row: Row): (r: seq<InnerOrder>)
    ensures |r| == |inner|
  {
    if inner == [] then []
    else
      var n := |inner| - 1;
      Marked(inner[..n], row) + [Mark(inner[n], row)]
  }

  function Attempt(o: InnerOrder): InnerOrder {
    if o.order.orderType == Limit(Ioc) then o.(attempted := true) else o
  }

  function Mark(o: InnerOrder, row: Row): InnerOrder {
    if o.order.asset in row then Attempt(o) else o
  }

  /** The fills of one pass over the book, front to back ... */
  function FillsOf(inner: seq<InnerOrder>, row: Row): seq<Fill> {
    if inner == [] then []
    else
      var n := |inner| - 1;
      FillsOf(inner[..n], row) + match Decide(inner[n], row) case Fills(f) => [f] case _ => []
  }

  /** ... the orders it triggers ... */
  function Children(inner: seq<InnerOrder>, row: Row): seq<Order> {
    if inner == [] then []
    else
      var n := |inner| - 1;
      Children(inner[..n], row) + match Decide(inner[n], row) case Triggers(c) => [c] case _ => []
  }

  /** ... the orders it has to remove ... */
  function Gone(inner: seq<InnerOrder>, row: Row): seq<Key> {
    if inner == [] then []
    else
      var n := |inner| - 1;
      Gone(inner[..n], row) + if Decide(inner[n], row).Stays? then [] else [KeyOf(inner[n])]
  }

  /** ... and the orders that stay, in book order. */
  function Remaining(inner: seq<InnerOrder>, row: Row): seq<InnerOrder> {
    if inner == [] then []
    else
      var n := |inner| - 1;
      Remaining(inner[..n], row) + match Decide(inner[n], row) case Stays(o) => [o] case _ => []
  }

  /** The first order with this asset and id is removed; nothing happens when there is none. */
  function Delete(inner: seq<InnerOrder>, k: Key): seq<InnerOrder> {
    if inner == [] then []
    else if KeyOf(inner[0]) == k then inner[1..]
    else [inner[0]] + Delete(inner[1..], k)
  }

  function DeleteAll(inner: seq<InnerOrder>, keys: seq<Key>): seq<InnerOrder> {
    if keys == [] then inner
    else Delete(DeleteAll(inner, keys[..|keys| - 1]), keys[|keys| - 1])
  }

  /** Orders entering the book under consecutive fresh ids, starting at `first`. */
  function Enter(orders: seq<Order>, first: nat): (r: seq<InnerOrder>)
    ensures |r| == |orders|
    ensures forall i :: 0 <= i < |r| ==> r[i] == InnerOrder(first + i, orders[i], false)
  {
    seq(|orders|, i requires 0 <= i < |orders| => InnerOrder(first + i, orders[i], false))
  }

  function Ids(first: nat, count: nat): (r: seq<nat>)
    ensures |r| == count
    ensures forall i :: 0 <= i < count ==> r[i] == first + i
  {
    seq(count, i requires 0 <= i < count => first + i)
  }

  // ---------- the buffer ----------

  const SELLS_FIRST := (o: Order) => !o.isBuy

  function SortBuffer(buffer: seq<Order>): seq<Order> {
    FrontFirst(buffer, SELLS_FIRST)
  }

  // ---------- one tick ----------

  datatype ExchangeTick = ExchangeTick(exchange: Exchange, fills: seq<Fill>, inserted: seq<Order>, triggeredIds: seq<nat>)

  /** Existing orders execute, the orders they trigger join the back of the book, and then the
      sorted buffer does. */
  function TickSpec(e: Exchange, row: Row): ExchangeTick {
    var fills := FillsOf(e.book.inner, row);
    var children := Children(e.book.inner, row);
    var inserted := SortBuffer(e.buffer);
    var next := e.book.lastInserted + |children|;
    ExchangeTick(
      Exchange(Book(Remaining(e.book.inner, row) + Enter(children, e.book.lastInserted) + Enter(inserted, next), next + |inserted|),
               e.tradeLog + fills, []),
      fills, inserted, Ids(e.book.lastInserted, |children|))
  }

  function Insert(e: Exchange, o: Order): Exchange {
    e.(buffer := e.buffer + [o])
  }

  function Cancel(e: Exchange, k: Key): Exchange {
    e.(book := e.book.(inner := Delete(e.book.inner, k)))
  }

  // ---------- properties of the specification ----------

  /** The sorted buffer is a permutation of the buffer in which every sell precedes every buy. */
  lemma SortedBuffer(buffer: seq<Order>)
    ensures multiset(SortBuffer(buffer)) == multiset(buffer)
    ensures |SortBuffer(buffer)| == |buffer|
    ensures forall i, j :: 0 <= i < j < |buffer| && !SortBuffer(buffer)[j].isBuy ==> !SortBuffer(buffer)[i].isBuy
  {
    FrontFirstIsPartition(buffer, SELLS_FIRST);
    var r := SortBuffer(buffer);
    forall i, j | 0 <= i < j < |r| && !r[j].isBuy ensures !r[i].isBuy {
      assert SELLS_FIRST(r[j]);
      assert SELLS_FIRST(r[i]);
    }
  }

  /** The prices at which an order fills, or fires: up to a tenth beyond the limit for an
      immediate-or-cancel order, within it for a good-till-cancelled one, and for a trigger as the
      code has it. */
  ghost predicate InReach(o: Order, q: Quote) {
    match o.orderType
    case Limit(Ioc) => (o.isBuy ==> q.ask <= o.limitPx * 1.1) && (!o.isBuy ==> q.bid >= o.limitPx * 0.9)
    case Limit(Gtc) => (o.isBuy ==> q.ask <= o.limitPx) && (!o.isBuy ==> q.bid >= o.limitPx)
    case Limit(Alo) => false
    case Trigger(triggerPx, _, Sl) => (o.isBuy ==> triggerPx <= q.ask) && (!o.isBuy ==> triggerPx <= q.bid)
    case Trigger(triggerPx, _, Tp) => (o.isBuy ==> q.ask <= triggerPx) && (!o.isBuy ==> q.bid <= triggerPx)
  }

  /** The order a trigger leaves behind: the same in everything but its type, which is immediate or
      cancel for a market trigger and good till cancelled otherwise. */
  ghost predicate LeftBehind(o: Order, c: Order)
    requires o.orderType.Trigger?
  {
    && c.asset == o.asset && c.isBuy == o.isBuy && c.sz == o.sz && c.limitPx == o.limitPx
    && c.reduceOnly == o.reduceOnly && c.cloid == o.cloid
    && (c.orderType == Limit(Ioc) <==> o.orderType.isMarket)
    && (c.orderType == Limit(Gtc) <==> !o.orderType.isMarket)
  }

  lemma ChildIsLeftBehind(o: Order)
    requires o.orderType.Trigger?
    ensures LeftBehind(o, Child(o))
  {
  }

  /** What becomes of an order that meets a quote, in prices: a limit order that has not had its one
      chance fills exactly when the quote is in reach, with its own asset, side and size and at the
      price of the quote; a trigger fires exactly then, leaving its limit order behind; an
      immediate-or-cancel order that has had its chance expires whatever the price. */
  lemma VerdictInPrices(o: InnerOrder, q: Quote)
    requires Supported(o.order)
    ensures var (ord, verdict) := (o.order, Verdict(o, q));
            && (verdict.Expires? <==> ord.orderType == Limit(Ioc) && o.attempted)
            && (verdict.Fills? <==> ord.orderType.Limit? && !verdict.Expires? && InReach(ord, q))
            && (verdict.Triggers? <==> ord.orderType.Trigger? && InReach(ord, q))
            && (verdict.Fills? ==>
                  verdict.fill == Fill(ord.asset, o.orderId, if ord.isBuy then q.ask else q.bid, if ord.isBuy then Ask else Bid, ord.sz, q.date))
            && (verdict.Triggers? ==> LeftBehind(ord, verdict.child))
            && (verdict.Stays? ==> verdict.order == o.(attempted := o.attempted || ord.orderType == Limit(Ioc)))
  {
  }

  /** At its first quote an immediate-or-cancel purchase limited to 100 fills up to an ask of 110. */
  lemma IocExample(o: InnerOrder, ask: real)
    requires o.order.orderType == Limit(Ioc) && o.order.isBuy && o.order.limitPx == 100.0 && !o.attempted
    ensures Verdict(o, Quote(ask - 1.0, ask, 100)).Fills? <==> ask <= 110.0
  {
    VerdictInPrices(o, Quote(ask - 1.0, ask, 100));
  }

  /** What a tick answers is what it did: the fills are those that join the log, the inserted orders
      are the buffer and stand at the back of the book in the order given, and the triggered ids are
      those of the orders just before them. */
  lemma TickAnswers(e: Exchange, row: Row)
    ensures var t := TickSpec(e, row);
            var inner, i, k := t.exchange.book.inner, |t.inserted|, |t.triggeredIds|;
            && t.exchange.tradeLog == e.tradeLog + t.fills
            && multiset(t.inserted) == multiset(e.buffer) && t.exchange.buffer == []
            && i + k <= |inner|
            && (forall n :: 0 <= n < i ==> inner[|inner| - i..][n].order == t.inserted[n])
            && (forall n :: 0 <= n < k ==> inner[|inner| - i - k..][n].orderId == t.triggeredIds[n] == e.book.lastInserted + n)
            && t.exchange.book.lastInserted == e.book.lastInserted + k + i
  {
    SortedBuffer(e.buffer);
  }

  /** Code and description agree exactly for buys, and for sells when the bid is the trigger price. */
  lemma TriggersAsDescribed(o: Order, q: Quote)
    requires o.orderType.Trigger?
    ensures (Fires(o, q) <==> FiresAsDescribed(o, q)) <==> o.isBuy || q.bid == o.orderType.triggerPx
  {
  }

  const SELL_STOP := Order(1, false, 90.0, 5.0, false, None, Trigger(90.0, true, Sl))

  /** A sell stop-loss at 90 triggers with the price well above it, and not once it has fallen
      through. */
  lemma SellStopExample()
    ensures var (o, above, below) := (SELL_STOP, Quote(100.0, 101.0, 100), Quote(80.0, 81.0, 100));
            Fires(o, above) && !FiresAsDescribed(o, above) && !Fires(o, below) && FiresAsDescribed(o, below)
  {
  }

  lemma {:induction false} DeleteAbsent(inner: seq<InnerOrder>, k: Key)
    requires forall i :: 0 <= i < |inner| ==> KeyOf(inner[i]) != k
    ensures Delete(inner, k) == inner
  {
    if inner != [] {
      DeleteAbsent(inner[1..], k);
    }
  }

  /** Where the scan stops is where the order is removed. */
  lemma {:induction false} DeleteAt(inner: seq<InnerOrder>, k: Key, at: nat)
    requires at < |inner| && KeyOf(inner[at]) == k
    requires forall i :: 0 <= i < at ==> KeyOf(inner[i]) != k
    ensures Delete(inner, k) == inner[..at] + inner[at + 1..]
  {
    if at > 0 {
      DeleteAt(inner[1..], k, at - 1);
    }
  }

  lemma {:induction false} DeleteSpares(inner: seq<InnerOrder>, x: InnerOrder, k: Key)
    requires KeyOf(x) != k
    ensures Delete(inner + [x], k) == Delete(inner, k) + [x]
  {
    if inner != [] {
      assert (inner + [x])[1..] == inner[1..] + [x];
      DeleteSpares(inner[1..], x, k);
    }
  }

  lemma {:induction false} DeleteAllSpares(inner: seq<InnerOrder>, x: InnerOrder, keys: seq<Key>)
    requires KeyOf(x) !in keys
    ensures DeleteAll(inner + [x], keys) == DeleteAll(inner, keys) + [x]
  {
    if keys != [] {
      var n := |keys| - 1;
      DeleteAllSpares(inner, x, keys[..n]);
      DeleteSpares(DeleteAll(inner, keys[..n]), x, keys[n]);
    }
  }

  lemma DeleteAllThenOne(inner: seq<InnerOrder>, keys: seq<Key>, k: Key)
    ensures DeleteAll(inner, keys + [k]) == Delete(DeleteAll(inner, keys), k)
  {
    assert (keys + [k])[..|keys|] == keys;
  }

  /** What stays or goes carries the id of the order it was. */
  lemma {:induction false} SameIds(inner: seq<InnerOrder>, row: Row)
    ensures forall o :: o in Remaining(inner, row) ==> exists i :: 0 <= i < |inner| && inner[i].orderId == o.orderId && inner[i].order == o.order
    ensures forall k :: k in Gone(inner, row) ==> exists i :: 0 <= i < |inner| && KeyOf(inner[i]) == k
    ensures forall f :: f in FillsOf(inner, row) ==> exists i :: 0 <= i < |inner| && inner[i].orderId == f.oid
  {
    if inner != [] {
      var n := |inner| - 1;
      SameIds(inner[..n], row);
      forall o | o in Remaining(inner[..n], row)
        ensures exists i :: 0 <= i < |inner| && inner[i].orderId == o.orderId && inner[i].order == o.order
      {
        var i :| 0 <= i < n && inner[..n][i].orderId == o.orderId && inner[..n][i].order == o.order;
        assert inner[i].orderId == o.orderId;
      }
      forall k | k in Gone(inner[..n], row) ensures exists i :: 0 <= i < |inner| && KeyOf(inner[i]) == k {
        var i :| 0 <= i < n && KeyOf(inner[..n][i]) == k;
        assert KeyOf(inner[i]) == k;
      }
      forall f | f in FillsOf(inner[..n], row) ensures exists i :: 0 <= i < |inner| && inner[i].orderId == f.oid {
        var i :| 0 <= i < n && inner[..n][i].orderId == f.oid;
        assert inner[i].orderId == f.oid;
      }
    }
  }

  /** An id above all others is not mentioned by what precedes it. */
  lemma LastIsNew(init: seq<InnerOrder>, x: InnerOrder, row: Row)
    requires IdsIncrease(init + [x])
    ensures IdsIncrease(init) && KeyOf(x) !in Gone(init, row)
    ensures forall o :: o in Remaining(init, row) ==> o.orderId < x.orderId
  {
    var inner := init + [x];
    assert forall i :: 0 <= i < |init| ==> inner[i] == init[i];
    assert inner[|init|] == x;
    SameIds(init, row);
  }

  lemma DeleteOnlyLast(init: seq<InnerOrder>, x: InnerOrder)
    requires forall o :: o in init ==> o.orderId < x.orderId
    ensures Delete(init + [x], KeyOf(x)) == init
  {
    var inner := init + [x];
    forall i | 0 <= i < |init| ensures KeyOf(inner[i]) != KeyOf(x) {
      assert inner[i] in init;
    }
    DeleteAt(inner, KeyOf(x), |init|);
    assert inner[..|init|] == init && inner[|init| + 1..] == [];
  }

  /** One more order at the back, to be removed or not. */
  lemma ScanOneMore(marked: seq<InnerOrder>, keys: seq<Key>, rest: seq<InnerOrder>, y: InnerOrder, gone: bool)
    requires DeleteAll(marked, keys) == rest && KeyOf(y) !in keys
    requires forall o :: o in rest ==> o.orderId < y.orderId
    ensures DeleteAll(marked + [y], keys + if gone then [KeyOf(y)] else []) == rest + if gone then [] else [y]
  {
    DeleteAllSpares(marked, y, keys);
    if gone {
      DeleteAllThenOne(marked + [y], keys, KeyOf(y));
      DeleteOnlyLast(rest, y);
    } else {
      assert keys + [] == keys;
    }
  }

  lemma StaysMarked(x: InnerOrder, row: Row)
    ensures Decide(x, row).Stays? ==> Decide(x, row) == Stays(Mark(x, row))
  {
  }

  lemma PassOneMore(init: seq<InnerOrder>, x: InnerOrder, row: Row)
    ensures var (y, gone) := (Mark(x, row), !Decide(x, row).Stays?);
            && KeyOf(y) == KeyOf(x) && y.orderId == x.orderId
            && Marked(init + [x], row) == Marked(init, row) + [y]
            && Gone(init + [x], row) == Gone(init, row) + (if gone then [KeyOf(y)] else [])
            && Remaining(init + [x], row) == Remaining(init, row) + (if gone then [] else [y])
  {
    var inner := init + [x];
    assert inner[..|init|] == init && inner[|init|] == x;
    StaysMarked(x, row);
    if Decide(x, row).Stays? {
      assert Gone(inner, row) == Gone(init, row) + [];
    } else {
      assert Remaining(inner, row) == Remaining(init, row) + [];
    }
  }

  /** Deleting the finished orders one scan at a time is one order-preserving filter. */
  lemma {:induction false} DeleteScansAreOneFilter(inner: seq<InnerOrder>, row: Row)
    requires IdsIncrease(inner)
    ensures DeleteAll(Marked(inner, row), Gone(inner, row)) == Remaining(inner, row)
  {
    if inner != [] {
      var init, x := inner[..|inner| - 1], inner[|inner| - 1];
      assert inner == init + [x];
      LastIsNew(init, x, row);
      DeleteScansAreOneFilter(init, row);
      PassOneMore(init, x, row);
      ScanOneMore(Marked(init, row), Gone(init, row), Remaining(init, row), Mark(x, row), !Decide(x, row).Stays?);
    }
  }

  lemma {:induction false} RemainingIncreases(inner: seq<InnerOrder>, row: Row)
    requires IdsIncrease(inner)
    ensures IdsIncrease(Remaining(inner, row))
  {
    if inner != [] {
      var n := |inner| - 1;
      var init, x := inner[..n], inner[n];
      assert inner == init + [x];
      RemainingIncreases(init, row);
      LastIsNew(init, x, row);
      var r := Remaining(init, row);
      forall i | 0 <= i < |r| ensures r[i].orderId < x.orderId {
        assert r[i] in r;
      }
    }
  }

  lemma EnteringIsBookOk(b: Book, orders: seq<Order>)
    requires BookOk(b)
    ensures BookOk(Book(b.inner + Enter(orders, b.lastInserted), b.lastInserted + |orders|))
  {
  }

  /** A tick keeps the id discipline. */
  lemma TickKeepsBookOk(e: Exchange, row: Row)
    requires BookOk(e.book)
    ensures BookOk(TickSpec(e, row).exchange.book)
  {
    var r, next := Remaining(e.book.inner, row), e.book.lastInserted;
    RemainingIncreases(e.book.inner, row);
    SameIds(e.book.inner, row);
    forall i | 0 <= i < |r| ensures r[i].orderId < next {
      assert r[i] in r;
    }
    var children := Children(e.book.inner, row);
    EnteringIsBookOk(Book(r, next), children);
    EnteringIsBookOk(Book(r + Enter(children, next), next + |children|), SortBuffer(e.buffer));
  }

  /** An immediate-or-cancel order is said to be cancelled if it does not fill on the first tick.  It
      stays exactly when that is its first quote, or no quote, and the price is not tolerated. */
  lemma IocStaysWhen(o: InnerOrder, row: Row)
    requires o.order.orderType == Limit(Ioc)
    ensures Decide(o, row).Stays?
            <==> o.order.asset !in row || (!o.attempted && !Tolerated(o.order, row[o.order.asset]))
  {
  }

  /** Triggered orders are said to go to the front of the queue.  One is there, known by its new id,
      exactly when nothing else rests. */
  lemma TriggeredJoinBack(b: Book, row: Row)
    requires BookOk(b)
    ensures var rest := Remaining(b.inner, row);
            var inner := rest + Enter(Children(b.inner, row), b.lastInserted);
            inner != [] ==> (inner[0].orderId >= b.lastInserted <==> rest == [])
  {
    var rest := Remaining(b.inner, row);
    SameIds(b.inner, row);
    if rest != [] {
      assert rest[0] in rest;
    }
  }

  lemma {:induction false} DeleteIsFilter(inner: seq<InnerOrder>, k: Key)
    requires IdsIncrease(inner)
    ensures IdsIncrease(Delete(inner, k))
    ensures forall o :: o in Delete(inner, k) <==> o in inner && KeyOf(o) != k
  {
    if inner != [] {
      var rest := inner[1..];
      DeleteIsFilter(rest, k);
      if KeyOf(inner[0]) == k {
        assert forall o :: o in rest ==> o in inner && KeyOf(o) != k;
      } else {
        var d := Delete(rest, k);
        forall i | 0 <= i < |d| ensures inner[0].orderId < d[i].orderId {
          assert d[i] in rest;
        }
      }
    }
  }

  lemma CancelKeepsBookOk(e: Exchange, k: Key)
    requires BookOk(e.book)
    ensures BookOk(Cancel(e, k).book)
  {
    DeleteIsFilter(e.book.inner, k);
    var d := Delete(e.book.inner, k);
    forall i | 0 <= i < |d| ensures d[i].orderId < e.book.lastInserted {
      assert d[i] in e.book.inner;
    }
  }
}
