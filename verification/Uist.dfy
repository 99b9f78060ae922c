/** The Uist exchange: an order buffer in front of an order book.  The first half specifies the
    exchange on values; the second half is the exchange itself, proved against that. */
module Uist {
  import opened Prelude
  import opened Penelope
  import opened Sorting

  datatype TradeType = Buy | Sell

  datatype Trade = Trade(symbol: Symbol, value: real, quantity: real, date: int, typ: TradeType)

  datatype OrderType = MarketSell | MarketBuy | LimitSell | LimitBuy | StopSell | StopBuy

  datatype Order = Order(orderId: Option<nat>, orderType: OrderType, symbol: Symbol, shares: real, price: Option<real>)

  predicate IsSell(o: Order) {
    o.orderType.LimitSell? || o.orderType.StopSell? || o.orderType.MarketSell?
  }

  predicate IsMarket(o: Order) {
    o.orderType.MarketSell? || o.orderType.MarketBuy?
  }

  function MarketSellOrder(symbol: Symbol, shares: real): Order {
    Order(None, MarketSell, symbol, shares, None)
  }

  function MarketBuyOrder(symbol: Symbol, shares: real): Order {
    Order(None, MarketBuy, symbol, shares, None)
  }

  // ---------- what one order does against one row of quotes ----------

  function ExecuteBuy(q: Quote, o: Order): Trade {
    Trade(o.symbol, q.ask * o.shares, o.shares, q.date, Buy)
  }

  function ExecuteSell(q: Quote, o: Order): Trade {
    Trade(o.symbol, q.bid * o.shares, o.shares, q.date, Sell)
  }

  // The source compares `Option<f64>` values, for which a missing price is below every price.
  predicate AtMost(price: Option<real>, market: real) {
    price.None? || price.value <= market
  }

  predicate AtLeast(price: Option<real>, market: real) {
    price.Some? && price.value >= market
  }

  function Decide(o: Order, row: Row): Option<Trade> {
    if o.symbol !in row then None
    else
      var q := row[o.symbol];
      match o.orderType
      case MarketBuy => Some(ExecuteBuy(q, o))
      case MarketSell => Some(ExecuteSell(q, o))
      case LimitBuy => if AtLeast(o.price, q.ask) then Some(ExecuteBuy(q, o)) else None
      case LimitSell => if AtMost(o.price, q.bid) then Some(ExecuteSell(q, o)) else None
      case StopBuy => if AtMost(o.price, q.ask) then Some(ExecuteBuy(q, o)) else None
      case StopSell => if AtLeast(o.price, q.bid) then Some(ExecuteSell(q, o)) else None
  }

  // ---------- the book ----------

  datatype Book = Book(inner: seq<Order>, lastInserted: nat)

  datatype Exchange = Exchange(book: Book, tradeLog: seq<Trade>, buffer: seq<Order>)

  const FRESH := Exchange(Book([], 0), [], [])

  ghost predicate IdsIncrease(inner: seq<Order>) {
    && (forall i :: 0 <= i < |inner| ==> inner[i].orderId.Some?)
    && (forall i, j :: 0 <= i < j < |inner| ==> inner[i].orderId.value < inner[j].orderId.value)
  }

  /** Ids rise from front to back and stay below the next id to be issued. */
  ghost predicate BookOk(b: Book) {
    && IdsIncrease(b.inner)
    && (forall i :: 0 <= i < |b.inner| ==> b.inner[i].orderId.value < b.lastInserted)
  }

  /** The trades of one pass over the book, front to back. */
  function Trades(inner: seq<Order>, row: Row): seq<Trade> {
    if inner == [] then []
    else
      var n := |inner| - 1;
      var t := Decide(inner[n], row);
      Trades(inner[..n], row) + if t.Some? then [t.value] else []
  }

  /** The ids of the orders that traded, in the same order. */
  function CompletedIds(inner: seq<Order>, row: Row): seq<nat>
    requires forall i :: 0 <= i < |inner| ==> inner[i].orderId.Some?
  {
    if inner == [] then []
    else
      var n := |inner| - 1;
      CompletedIds(inner[..n], row) + if Decide(inner[n], row).Some? then [inner[n].orderId.value] else []
  }

  /** The orders that did not trade, in book order. */
  function Rest(inner: seq<Order>, row: Row): seq<Order> {
    if inner == [] then []
    else
      var n := |inner| - 1;
      Rest(inner[..n], row) + if Decide(inner[n], row).Some? then [] else [inner[n]]
  }

  /** The first order carrying `id` is removed; nothing happens when there is none. */
  function Delete(inner: seq<Order>, id: nat): seq<Order> {
    if inner == [] then []
    else if inner[0].orderId == Some(id) then inner[1..]
    else [inner[0]] + Delete(inner[1..], id)
  }

  function DeleteAll(inner: seq<Order>, ids: seq<nat>): seq<Order> {
    if ids == [] then inner
    else Delete(DeleteAll(inner, ids[..|ids| - 1]), ids[|ids| - 1])
  }

  // ---------- the buffer ----------

  const SELLS_FIRST := (o: Order) => IsSell(o)

  function SortBuffer(buffer: seq<Order>): seq<Order> {
    FrontFirst(buffer, SELLS_FIRST)
  }

  /** Consecutive fresh ids, starting at `first`. */
  function Stamp(orders: seq<Order>, first: nat): (r: seq<Order>)
    ensures |r| == |orders|
    ensures forall i :: 0 <= i < |r| ==> r[i] == orders[i].(orderId := Some(first + i))
  {
    seq(|orders|, i requires 0 <= i < |orders| => orders[i].(orderId := Some(first + i)))
  }

  // ---------- one tick ----------

  datatype ExchangeTick = ExchangeTick(exchange: Exchange, trades: seq<Trade>, inserted: seq<Order>)

  function TickSpec(e: Exchange, row: Row): ExchangeTick {
    var inserted := Stamp(SortBuffer(e.buffer), e.book.lastInserted);
    var trades := Trades(e.book.inner, row);
    ExchangeTick(
      Exchange(Book(Rest(e.book.inner, row) + inserted, e.book.lastInserted + |e.buffer|), e.tradeLog + trades, []),
      trades,
      inserted)
  }

  function Insert(e: Exchange, o: Order): Exchange {
    e.(buffer := e.buffer + [o])
  }

  function Cancel(e: Exchange, id: nat): Exchange {
    e.(book := e.book.(inner := Delete(e.book.inner, id)))
  }

  // ---------- properties of the specification ----------

  /** A fill honours its order: same symbol, size and side, dated and priced by the quote of that
      symbol, inside the limit for limit orders and beyond the stop for stop orders.  And a quoted
      order is passed over only for its price: a market order never, nor a limit sell or stop buy
      without one. */
  lemma FillHonoursOrder(o: Order, row: Row)
    requires forall s :: s in row ==> row[s].symbol == s
    ensures Decide(o, row).Some? ==>
              var t := Decide(o, row).value;
              && o.symbol in row && t.symbol == o.symbol && t.quantity == o.shares
              && t.date == row[o.symbol].date
              && (t.typ.Sell? <==> IsSell(o))
              && t.value == t.quantity * (if IsSell(o) then row[o.symbol].bid else row[o.symbol].ask)
              && (o.price.Some? && o.shares >= 0.0 ==>
                    match o.orderType
                    case LimitBuy => t.value <= o.price.value * o.shares
                    case LimitSell => t.value >= o.price.value * o.shares
                    case StopBuy => t.value >= o.price.value * o.shares
                    case StopSell => t.value <= o.price.value * o.shares
                    case _ => true)
    ensures Decide(o, row).None? ==>
              o.symbol !in row
              || (match o.orderType
                  case LimitBuy => o.price.None? || row[o.symbol].ask > o.price.value
                  case LimitSell => o.price.Some? && row[o.symbol].bid < o.price.value
                  case StopBuy => o.price.Some? && row[o.symbol].ask < o.price.value
                  case StopSell => o.price.None? || row[o.symbol].bid > o.price.value
                  case _ => false)
  {
    if Decide(o, row).Some? && o.price.Some? && o.shares >= 0.0 {
      var q, p := row[o.symbol], o.price.value;
      if p <= q.ask { MulMono(p, q.ask, o.shares); } else { MulMono(q.ask, p, o.shares); }
      if p <= q.bid { MulMono(p, q.bid, o.shares); } else { MulMono(q.bid, p, o.shares); }
    }
  }

  lemma MulMono(a: real, b: real, k: real)
    requires a <= b && k >= 0.0
    ensures a * k <= b * k
  {
    assert (b - a) * k >= 0.0;
  }

  lemma {:induction false} RestIsSubsequence(inner: seq<Order>, row: Row)
    ensures forall o :: o in Rest(inner, row) ==> o in inner
    ensures IdsIncrease(inner) ==> IdsIncrease(Rest(inner, row))
  {
    if inner != [] {
      var n := |inner| - 1;
      RestIsSubsequence(inner[..n], row);
      var r := Rest(inner[..n], row);
      if IdsIncrease(inner) && Decide(inner[n], row).None? {
        forall i | 0 <= i < |r| ensures r[i].orderId.value < inner[n].orderId.value {
          assert r[i] in inner[..n];
        }
      }
    }
  }

  lemma {:induction false} CompletedIdsAreBookIds(inner: seq<Order>, row: Row)
    requires IdsIncrease(inner)
    ensures |CompletedIds(inner, row)| == |Trades(inner, row)|
    ensures forall k :: 0 <= k < |CompletedIds(inner, row)| ==>
              exists i :: 0 <= i < |inner| && inner[i].orderId.value == CompletedIds(inner, row)[k]
                          && Decide(inner[i], row) == Some(Trades(inner, row)[k])
    ensures forall i, j :: 0 <= i < j < |CompletedIds(inner, row)| ==> CompletedIds(inner, row)[i] < CompletedIds(inner, row)[j]
  {
    if inner != [] {
      var n := |inner| - 1;
      var init := inner[..n];
      CompletedIdsAreBookIds(init, row);
      assert forall i :: 0 <= i < n ==> init[i] == inner[i];
      var ids0, ids := CompletedIds(init, row), CompletedIds(inner, row);
      forall k | 0 <= k < |ids|
        ensures exists i :: 0 <= i < |inner| && inner[i].orderId.value == ids[k] && Decide(inner[i], row) == Some(Trades(inner, row)[k])
      {
        if k < |ids0| {
          var i :| 0 <= i < n && init[i].orderId.value == ids0[k] && Decide(init[i], row) == Some(Trades(init, row)[k]);
          assert inner[i].orderId.value == ids[k];
        }
      }
    }
  }

  lemma {:induction false} DeleteAbsent(inner: seq<Order>, id: nat)
    requires forall o :: o in inner ==> o.orderId != Some(id)
    ensures Delete(inner, id) == inner
  {
    if inner != [] {
      DeleteAbsent(inner[1..], id);
    }
  }

  /** Where the scan stops is where the order is removed. */
  lemma {:induction false} DeleteAt(inner: seq<Order>, id: nat, k: nat)
    requires k < |inner| && inner[k].orderId == Some(id)
    requires forall i :: 0 <= i < k ==> inner[i].orderId != Some(id)
    ensures Delete(inner, id) == inner[..k] + inner[k + 1..]
  {
    if k > 0 {
      DeleteAt(inner[1..], id, k - 1);
    }
  }

  lemma {:induction false} DeleteSpares(inner: seq<Order>, x: Order, id: nat)
    requires x.orderId != Some(id)
    ensures Delete(inner + [x], id) == Delete(inner, id) + [x]
  {
    if inner != [] {
      assert (inner + [x])[1..] == inner[1..] + [x];
      DeleteSpares(inner[1..], x, id);
    }
  }

  lemma {:induction false} DeleteIsSubsequence(inner: seq<Order>, id: nat)
    requires IdsIncrease(inner)
    ensures forall o :: o in Delete(inner, id) <==> o in inner && o.orderId != Some(id)
    ensures IdsIncrease(Delete(inner, id))
  {
    if inner != [] {
      var rest := inner[1..];
      DeleteIsSubsequence(rest, id);
      if inner[0].orderId == Some(id) {
        assert forall o :: o in rest ==> o in inner && o.orderId != Some(id);
      } else {
        var d := Delete(rest, id);
        forall i | 0 <= i < |d| ensures inner[0].orderId.value < d[i].orderId.value {
          assert d[i] in rest;
        }
      }
    }
  }

  lemma {:induction false} DeleteAllSpares(inner: seq<Order>, x: Order, ids: seq<nat>)
    requires x.orderId.Some? && x.orderId.value !in ids
    ensures DeleteAll(inner + [x], ids) == DeleteAll(inner, ids) + [x]
  {
    if ids != [] {
      var n := |ids| - 1;
      DeleteAllSpares(inner, x, ids[..n]);
      DeleteSpares(DeleteAll(inner, ids[..n]), x, ids[n]);
    }
  }

  lemma DeleteAllThenOne(inner: seq<Order>, ids: seq<nat>, id: nat)
    ensures DeleteAll(inner, ids + [id]) == Delete(DeleteAll(inner, ids), id)
  {
    assert (ids + [id])[..|ids|] == ids;
  }

  lemma DeleteOnlyLast(init: seq<Order>, x: Order, id: nat, row: Row)
    requires IdsIncrease(init + [x]) && x.orderId == Some(id)
    ensures Delete(Rest(init, row) + [x], id) == Rest(init, row)
  {
    var rest := Rest(init, row);
    RestIsSubsequence(init, row);
    forall i | 0 <= i < |rest| ensures rest[i].orderId != x.orderId {
      assert rest[i] in init;
      var k :| 0 <= k < |init| && init[k] == rest[i];
      assert (init + [x])[k].orderId.value < (init + [x])[|init|].orderId.value;
    }
    DeleteAt(rest + [x], id, |rest|);
    assert (rest + [x])[|rest| + 1..] == [];
  }

  lemma CompletedIdsSpareLast(init: seq<Order>, x: Order, row: Row)
    requires IdsIncrease(init + [x])
    ensures IdsIncrease(init)
    ensures x.orderId.Some? && x.orderId.value !in CompletedIds(init, row)
  {
    var inner := init + [x];
    assert inner[|init|] == x;
    assert forall i :: 0 <= i < |init| ==> inner[i] == init[i];
    CompletedIdsAreBookIds(init, row);
  }

  /** Deleting the completed ids one scan at a time is one order-preserving filter. */
  lemma {:induction false} DeleteScansAreOneFilter(inner: seq<Order>, row: Row)
    requires IdsIncrease(inner)
    ensures DeleteAll(inner, CompletedIds(inner, row)) == Rest(inner, row)
  {
    if inner != [] {
      var n := |inner| - 1;
      var init, x := inner[..n], inner[n];
      assert inner == init + [x];
      CompletedIdsSpareLast(init, x, row);
      DeleteScansAreOneFilter(init, row);
      var ids := CompletedIds(init, row);
      calc {
        DeleteAll(inner, ids);
        { DeleteAllSpares(init, x, ids); }
        DeleteAll(init, ids) + [x];
        Rest(init, row) + [x];
      }
      if Decide(x, row).Some? {
        DeleteAllThenOne(inner, ids, x.orderId.value);
        DeleteOnlyLast(init, x, x.orderId.value, row);
      } else {
        assert CompletedIds(inner, row) == ids;
      }
    }
  }

  /** The sorted buffer is a permutation of the buffer in which every sell precedes every buy. */
  lemma SortedBuffer(buffer: seq<Order>)
    ensures multiset(SortBuffer(buffer)) == multiset(buffer)
    ensures |SortBuffer(buffer)| == |buffer|
    ensures forall i, j :: 0 <= i < j < |buffer| && IsSell(SortBuffer(buffer)[j]) ==> IsSell(SortBuffer(buffer)[i])
  {
    FrontFirstIsPartition(buffer, SELLS_FIRST);
    var r := SortBuffer(buffer);
    forall i, j | 0 <= i < j < |r| && IsSell(r[j]) ensures IsSell(r[i]) {
      assert SELLS_FIRST(r[j]);
      assert SELLS_FIRST(r[i]);
    }
  }

  /** An order as the client sent it, without the id the book gave it. */
  function Bare(os: seq<Order>): (r: seq<Order>)
    ensures |r| == |os|
  {
    seq(|os|, i requires 0 <= i < |os| => os[i].(orderId := None))
  }

  lemma BareConcat(a: seq<Order>, b: seq<Order>)
    ensures Bare(a + b) == Bare(a) + Bare(b)
  {
  }

  lemma BareSnoc(a: seq<Order>, o: Order)
    ensures multiset(Bare(a + [o])) == multiset(Bare(a)) + multiset{o.(orderId := None)}
  {
    assert Bare(a + [o]) == Bare(a) + [o.(orderId := None)];
  }

  lemma {:induction false} SortingKeepsBare(buffer: seq<Order>)
    ensures multiset(Bare(SortBuffer(buffer))) == multiset(Bare(buffer))
  {
    if buffer != [] {
      var n := |buffer| - 1;
      SortingKeepsBare(buffer[..n]);
      assert buffer == buffer[..n] + [buffer[n]];
      BareConcat(buffer[..n], [buffer[n]]);
      BareConcat([buffer[n]], SortBuffer(buffer[..n]));
      BareConcat(SortBuffer(buffer[..n]), [buffer[n]]);
    }
  }

  lemma RestIsBookOk(b: Book, row: Row)
    requires BookOk(b)
    ensures BookOk(b.(inner := Rest(b.inner, row)))
  {
    RestIsSubsequence(b.inner, row);
    var r := Rest(b.inner, row);
    forall i | 0 <= i < |r| ensures r[i].orderId.Some? && r[i].orderId.value < b.lastInserted {
      assert r[i] in b.inner;
    }
  }

  lemma StampedIsBookOk(b: Book, orders: seq<Order>)
    requires BookOk(b)
    ensures BookOk(Book(b.inner + Stamp(orders, b.lastInserted), b.lastInserted + |orders|))
  {
  }

  /** A tick keeps the id discipline. */
  lemma TickKeepsBookOk(e: Exchange, row: Row)
    requires BookOk(e.book)
    ensures BookOk(TickSpec(e, row).exchange.book)
  {
    RestIsBookOk(e.book, row);
    SortedBuffer(e.buffer);
    StampedIsBookOk(e.book.(inner := Rest(e.book.inner, row)), SortBuffer(e.buffer));
  }

  /** What a tick answers is what it did: the trades are those that join the log, and the inserted
      orders stand at the back of the book as given. */
  lemma TickAnswers(e: Exchange, row: Row)
    ensures var t := TickSpec(e, row);
            var inner, i := t.exchange.book.inner, |t.inserted|;
            && t.exchange.tradeLog == e.tradeLog + t.trades
            && i == |e.buffer| <= |inner| && inner[|inner| - i..] == t.inserted
            && multiset(Bare(t.inserted)) == multiset(Bare(e.buffer)) && t.exchange.buffer == []
  {
    SortedBuffer(e.buffer);
    SortingKeepsBare(e.buffer);
    assert Bare(TickSpec(e, row).inserted) == Bare(SortBuffer(e.buffer));
  }

  lemma CancelKeepsBookOk(e: Exchange, id: nat)
    requires BookOk(e.book)
    ensures BookOk(Cancel(e, id).book)
    ensures forall o :: o in Cancel(e, id).book.inner <==> o in e.book.inner && o.orderId != Some(id)
  {
    DeleteIsSubsequence(e.book.inner, id);
    var d := Delete(e.book.inner, id);
    forall i | 0 <= i < |d| ensures d[i].orderId.Some? && d[i].orderId.value < e.book.lastInserted {
      assert d[i] in e.book.inner;
    }
  }

  // ---------- the exchange ----------

  /** Books and exchanges know, for the proofs only, which backtest they belong to. */
  class OrderBook {
    var inner: seq<Order>
    var lastInserted: nat
    ghost const owner: nat

    ghost function View(): Book
      reads this
    {
      Book(inner, lastInserted)
    }

    constructor (ghost owner: nat)
      ensures View() == FRESH.book && this.owner == owner
    {
      inner, lastInserted := [], 0;
      this.owner := owner;
    }

    method DeleteOrder(deleteOrderId: nat)
      modifies this
      ensures View() == old(View()).(inner := Delete(old(inner), deleteOrderId))
    {
      var position := 0;
      while position < |inner|
        invariant position <= |inner|
        invariant inner == old(inner) && lastInserted == old(lastInserted)
        invariant forall i :: 0 <= i < position ==> inner[i].orderId != Some(deleteOrderId)
      {
        if inner[position].orderId == Some(deleteOrderId) {
          DeleteAt(inner, deleteOrderId, position);
          inner := inner[..position] + inner[position + 1..];
          return;
        }
        position := position + 1;
      }
      DeleteAbsent(inner, deleteOrderId);
    }

    method InsertOrder(order: Order) returns (stamped: Order)
      modifies this
      ensures stamped == order.(orderId := Some(old(lastInserted)))
      ensures View() == Book(old(inner) + [stamped], old(lastInserted) + 1)
    {
      stamped := order.(orderId := Some(lastInserted));
      inner := inner + [stamped];
      lastInserted := lastInserted + 1;
    }

    method ExecuteOrders(row: Row) returns (tradeResults: seq<Trade>)
      requires BookOk(View())
      modifies this
      ensures View() == old(View()).(inner := Rest(old(inner), row))
      ensures tradeResults == Trades(old(inner), row)
    {
      tradeResults := [];
      if |inner| == 0 {
        return;
      }
      var completedOrderIds;
      tradeResults, completedOrderIds := Pass(row);
      DeleteScansAreOneFilter(inner, row);
      DeleteOrders(completedOrderIds);
    }

    /** The loop over the book. */
    method Pass(row: Row) returns (tradeResults: seq<Trade>, completedOrderIds: seq<nat>)
      requires BookOk(View())
      ensures tradeResults == Trades(inner, row) && completedOrderIds == CompletedIds(inner, row)
    {
      tradeResults, completedOrderIds := [], [];
      for i := 0 to |inner|
        invariant tradeResults == Trades(inner[..i], row)
        invariant completedOrderIds == CompletedIds(inner[..i], row)
      {
        assert inner[..i + 1][..i] == inner[..i];
        var result := Decide(inner[i], row);
        if result.Some? {
          completedOrderIds := completedOrderIds + [inner[i].orderId.value];
          tradeResults := tradeResults + [result.value];
        }
      }
      assert inner[..|inner|] == inner;
    }

    method DeleteOrders(ids: seq<nat>)
      modifies this
      ensures View() == old(View()).(inner := DeleteAll(old(inner), ids))
    {
      for k := 0 to |ids|
        invariant lastInserted == old(lastInserted) && inner == DeleteAll(old(inner), ids[..k])
      {
        assert ids[..k + 1][..k] == ids[..k];
        DeleteOrder(ids[k]);
      }
      assert ids[..|ids|] == ids;
    }
  }

  class UistV1 {
    const orderbook: OrderBook
    var tradeLog: seq<Trade>
    var orderBuffer: seq<Order>
    ghost const owner: nat

    ghost function View(): Exchange
      reads this, orderbook
    {
      Exchange(orderbook.View(), tradeLog, orderBuffer)
    }

    constructor (ghost owner: nat)
      ensures View() == FRESH
      ensures fresh(orderbook) && this.owner == owner && orderbook.owner == owner
    {
      orderbook := new OrderBook(owner);
      tradeLog, orderBuffer := [], [];
      this.owner := owner;
    }

    method SortOrderBuffer()
      modifies this`orderBuffer
      ensures orderBuffer == SortBuffer(old(orderBuffer))
    {
      orderBuffer := SortBy(orderBuffer, SELLS_FIRST);
    }

    method InsertOrder(order: Order)
      modifies this`orderBuffer
      ensures View() == Insert(old(View()), order)
    {
      orderBuffer := orderBuffer + [order];
    }

    method DeleteOrder(orderId: nat)
      modifies orderbook
      ensures View() == Cancel(old(View()), orderId)
    {
      orderbook.DeleteOrder(orderId);
    }

    method RecordTrades(trades: seq<Trade>)
      modifies this`tradeLog
      ensures tradeLog == old(tradeLog) + trades
    {
      var k := 0;
      while k < |trades|
        invariant k <= |trades| && tradeLog == old(tradeLog) + trades[..k]
      {
        tradeLog := tradeLog + [trades[k]];
        k := k + 1;
      }
      assert trades[..k] == trades;
    }

    /** Moves the buffer into the book; the buffered orders receive their ids on the way. */
    method InsertBuffer()
      modifies this`orderBuffer, orderbook
      ensures orderBuffer == Stamp(old(orderBuffer), old(orderbook.lastInserted))
      ensures orderbook.View() == Book(old(orderbook.inner) + orderBuffer, old(orderbook.lastInserted) + |old(orderBuffer)|)
    {
      ghost var stamped := Stamp(orderBuffer, orderbook.lastInserted);
      var i := 0;
      while i < |orderBuffer|
        invariant i <= |orderBuffer| == |stamped|
        invariant forall k :: 0 <= k < i ==> orderBuffer[k] == stamped[k]
        invariant forall k :: i <= k < |stamped| ==> orderBuffer[k] == old(orderBuffer)[k]
        invariant orderbook.inner == old(orderbook.inner) + stamped[..i]
        invariant orderbook.lastInserted == old(orderbook.lastInserted) + i
      {
        var order := orderbook.InsertOrder(orderBuffer[i]);
        orderBuffer := orderBuffer[i := order];
        i := i + 1;
      }
      assert stamped[..i] == stamped;
    }

    method Tick(row: Row) returns (executedTrades: seq<Trade>, insertedOrders: seq<Order>)
      requires BookOk(View().book)
      modifies this, orderbook
      ensures ExchangeTick(View(), executedTrades, insertedOrders) == TickSpec(old(View()), row)
    {
      executedTrades := orderbook.ExecuteOrders(row);
      RecordTrades(executedTrades);
      SortedBuffer(orderBuffer);
      SortOrderBuffer();
      InsertBuffer();
      insertedOrders := orderBuffer;
      orderBuffer := [];
    }
  }
}
