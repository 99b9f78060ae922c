/** The Jura exchange itself, proved against its specification. */
module JuraExchange {
  import opened Prelude
  import opened Sorting
  import opened Jura

  class OrderBook {
    var inner: seq<InnerOrder>
    var lastInserted: nat

    ghost function View(): Book
      reads this
    {
      Book(inner, lastInserted)
    }

    constructor ()
      ensures View() == FRESH.book
    {
      inner, lastInserted := [], 0;
    }

    method DeleteOrder(asset: Asset, orderId: nat) returns (deleted: bool)
      modifies this
      ensures View() == old(View()).(inner := Delete(old(inner), Key(asset, orderId)))
      ensures deleted <==> exists i :: 0 <= i < |old(inner)| && KeyOf(old(inner)[i]) == Key(asset, orderId)
    {
      var position := 0;
      while position < |inner|
        invariant position <= |inner|
        invariant inner == old(inner) && lastInserted == old(lastInserted)
        invariant forall i :: 0 <= i < position ==> KeyOf(inner[i]) != Key(asset, orderId)
      {
        if orderId == inner[position].orderId && asset == inner[position].order.asset {
          DeleteAt(inner, Key(asset, orderId), position);
          inner := inner[..position] + inner[position + 1..];
          return true;
        }
        position := position + 1;
      }
      DeleteAbsent(inner, Key(asset, orderId));
      deleted := false;
    }

    method InsertOrder(order: Order) returns (orderId: nat)
      modifies this
      ensures orderId == old(lastInserted)
      ensures View() == Book(old(inner) + [InnerOrder(orderId, order, false)], old(lastInserted) + 1)
    {
      orderId := lastInserted;
      inner := inner + [InnerOrder(orderId, order, false)];
      lastInserted := lastInserted + 1;
    }

    /** One order meets its quote: a fill, a removal, a triggered order, or a note that an attempt
        has been made. */
    method Meet(order: InnerOrder, q: Quote)
      returns (after: InnerOrder, fill: Option<Fill>, delete: bool, child: Option<Order>)
      requires Supported(order.order)
      ensures after == Attempt(order)
      ensures fill == match Verdict(order, q) case Fills(f) => Some(f) case _ => None
      ensures child == match Verdict(order, q) case Triggers(c) => Some(c) case _ => None
      ensures delete <==> !Verdict(order, q).Stays?
    {
      after, fill, delete, child := order, None, false, None;
      match order.order.orderType {
        case Limit(tif) =>
          match tif {
            case Ioc =>
              if order.attempted {
                delete := true;
              } else {
                var price := order.order.limitPx;
                after := order.(attempted := true);
                if order.order.isBuy {
                  if price * 1.1 >= q.ask {
                    delete, fill := true, Some(Execute(order.orderId, order.order, q));
                  }
                } else if price * 0.9 <= q.bid {
                  delete, fill := true, Some(Execute(order.orderId, order.order, q));
                }
              }
            case Gtc =>
              var price := order.order.limitPx;
              if order.order.isBuy {
                if price >= q.ask {
                  delete, fill := true, Some(Execute(order.orderId, order.order, q));
                }
              } else if price <= q.bid {
                delete, fill := true, Some(Execute(order.orderId, order.order, q));
              }
            case Alo =>
              assert false;
          }
        case Trigger(triggerPx, isMarket, tpsl) =>
          var price := if order.order.isBuy then q.ask else q.bid;
          match tpsl {
            case Sl =>
              if price >= triggerPx {
                child, delete := Some(Child(order.order)), true;
              }
            case Tp =>
              if price <= triggerPx {
                child, delete := Some(Child(order.order)), true;
              }
          }
      }
    }

    method ExecuteOrders(row: Row) returns (fills: seq<Fill>, triggeredIds: seq<nat>)
      requires BookOk(View()) && AllSupported(inner, row)
      modifies this
      ensures fills == FillsOf(old(inner), row)
      ensures triggeredIds == Ids(old(lastInserted), |Children(old(inner), row)|)
      ensures View() == Book(Remaining(old(inner), row) + Enter(Children(old(inner), row), old(lastInserted)),
                             old(lastInserted) + |Children(old(inner), row)|)
    {
      var shouldDelete: seq<Key>, shouldInsert: seq<Order>;
      fills, shouldDelete, shouldInsert := Pass(row);
      DeleteScansAreOneFilter(old(inner), row);
      DeleteKeys(shouldDelete);
      triggeredIds := InsertOrders(shouldInsert);
    }

    /** The loop over the book. */
    method Pass(row: Row) returns (fills: seq<Fill>, shouldDelete: seq<Key>, shouldInsert: seq<Order>)
      requires AllSupported(inner, row)
      modifies this`inner
      ensures inner == Marked(old(inner), row)
      ensures fills == FillsOf(old(inner), row)
      ensures shouldDelete == Gone(old(inner), row)
      ensures shouldInsert == Children(old(inner), row)
    {
      ghost var book := inner;
      fills, shouldDelete, shouldInsert := [], [], [];
      var i := 0;
      while i < |inner|
        invariant i <= |inner| == |book|
        invariant forall k :: i <= k < |book| ==> inner[k] == book[k]
        invariant inner[..i] == Marked(book[..i], row)
        invariant fills == FillsOf(book[..i], row)
        invariant shouldDelete == Gone(book[..i], row)
        invariant shouldInsert == Children(book[..i], row)
      {
        assert book[..i + 1][..i] == book[..i];
        var order := inner[i];
        if order.order.asset in row {
          var after, fill, delete, child := Meet(order, row[order.order.asset]);
          inner := inner[i := after];
          if delete {
            shouldDelete := shouldDelete + [KeyOf(order)];
          }
          if child.Some? {
            shouldInsert := shouldInsert + [child.value];
          }
          if fill.Some? {
            fills := fills + [fill.value];
          }
        }
        assert inner[..i + 1] == inner[..i] + [Mark(order, row)];
        i := i + 1;
      }
      assert book[..i] == book && inner[..i] == inner;
    }

    method DeleteKeys(keys: seq<Key>)
      modifies this
      ensures View() == old(View()).(inner := DeleteAll(old(inner), keys))
    {
      var k := 0;
      while k < |keys|
        invariant k <= |keys| && lastInserted == old(lastInserted)
        invariant inner == DeleteAll(old(inner), keys[..k])
      {
        assert keys[..k + 1][..k] == keys[..k];
        var _ := DeleteOrder(keys[k].asset, keys[k].orderId);
        k := k + 1;
      }
      assert keys[..k] == keys;
    }

    method InsertOrders(orders: seq<Order>) returns (ids: seq<nat>)
      modifies this
      ensures ids == Ids(old(lastInserted), |orders|)
      ensures View() == Book(old(inner) + Enter(orders, old(lastInserted)), old(lastInserted) + |orders|)
    {
      ids := [];
      ghost var entered := Enter(orders, lastInserted);
      var k := 0;
      while k < |orders|
        invariant k <= |orders| == |entered|
        invariant ids == Ids(old(lastInserted), k)
        invariant inner == old(inner) + entered[..k] && lastInserted == old(lastInserted) + k
      {
        var id := InsertOrder(orders[k]);
        ids := ids + [id];
        k := k + 1;
      }
      assert entered[..k] == entered;
    }
  }

  class JuraV1 {
    const orderbook: OrderBook
    var tradeLog: seq<Fill>
    var orderBuffer: seq<Order>

    ghost function View(): Exchange
      reads this, orderbook
    {
      Exchange(orderbook.View(), tradeLog, orderBuffer)
    }

    constructor ()
      ensures View() == FRESH
      ensures fresh(orderbook)
    {
      orderbook := new OrderBook();
      tradeLog, orderBuffer := [], [];
    }

    method SortOrderBuffer()
      modifies this`orderBuffer
      ensures orderBuffer == SortBuffer(old(orderBuffer))
    {
      orderBuffer := SortBy(orderBuffer, SELLS_FIRST);
    }

    method InsertOrder(order: Order)
      modifies this`orderBuffer
      ensures View() == Insert(old(View()), order)
    {
      orderBuffer := orderBuffer + [order];
    }

    method DeleteOrder(asset: Asset, orderId: nat)
      modifies orderbook
      ensures View() == Cancel(old(View()), Key(asset, orderId))
    {
      var _ := orderbook.DeleteOrder(asset, orderId);
    }

    method RecordFills(fills: seq<Fill>)
      modifies this`tradeLog
      ensures tradeLog == old(tradeLog) + fills
    {
      var k := 0;
      while k < |fills|
        invariant k <= |fills| && tradeLog == old(tradeLog) + fills[..k]
      {
        tradeLog := tradeLog + [fills[k]];
        k := k + 1;
      }
      assert fills[..k] == fills;
    }

    method Tick(row: Row) returns (fills: seq<Fill>, insertedOrders: seq<Order>, triggeredIds: seq<nat>)
      requires BookOk(View().book) && AllSupported(orderbook.inner, row)
      modifies this, orderbook
      ensures ExchangeTick(View(), fills, insertedOrders, triggeredIds) == TickSpec(old(View()), row)
    {
      fills, triggeredIds := orderbook.ExecuteOrders(row);
      RecordFills(fills);
      SortOrderBuffer();
      var _ := orderbook.InsertOrders(orderBuffer);
      insertedOrders := orderBuffer;
      orderBuffer := [];
    }
  }
}
