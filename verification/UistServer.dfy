/** The backtest server: a map of independent backtests, each an exchange with a clock over its
    dataset.  One request is one atomic step.  Specification first, then the server object. */
module UistServer {
  import opened Prelude
  import opened Penelope
  import opened Uist

  datatype Backtest = Backtest(id: nat, date: int, pos: nat, exchange: Exchange, datasetName: string)

  datatype Server = Server(backtests: map<nat, Backtest>, last: nat, datasets: map<string, Dataset>)

  datatype TickResult = TickResult(hasNext: bool, executedTrades: seq<Trade>, insertedOrders: seq<Order>)

  datatype Clock = Clock(now: int, hasNext: bool)

  datatype Op =
    | TickOp(id: nat)
    | InsertOp(id: nat, order: Order)
    | DeleteOp(id: nat, orderId: nat)
    | FetchOp(id: nat)
    | NowOp(id: nat)
    | NewOp(name: string)
    | InitOp(name: string)

  datatype Response =
    | Ticked(tick: Option<TickResult>)
    | Done(ok: bool)
    | Quotes(row: Option<Row>)
    | Now(clock: Option<Clock>)
    | Created(newId: Option<nat>)

  function FreshBacktest(id: nat, ds: Dataset, name: string): Backtest
    requires ds.dates != []
  {
    Backtest(id, ds.dates[0], 0, FRESH, name)
  }

  function ExchangeStep(bt: Backtest, ds: Dataset): ExchangeTick {
    if bt.date in ds.inner then TickSpec(bt.exchange, ds.inner[bt.date]) else ExchangeTick(bt.exchange, [], [])
  }

  /** The exchange runs on the quotes of the current date, then the clock moves on; at the end of
      the data the position keeps counting and the date stands still. */
  function BacktestTick(bt: Backtest, ds: Dataset): (Backtest, TickResult) {
    var t := ExchangeStep(bt, ds);
    var hasNext := HasNext(ds, bt.pos + 1);
    (bt.(date := if hasNext then ds.dates[bt.pos + 1] else bt.date, pos := bt.pos + 1, exchange := t.exchange),
     TickResult(hasNext, t.trades, t.inserted))
  }

  /** A request addressed to one backtest, seen from that backtest alone. */
  function BacktestStep(bt: Backtest, datasets: map<string, Dataset>, op: Op): (Backtest, Response)
    requires !op.NewOp? && !op.InitOp?
  {
    var known := bt.datasetName in datasets;
    match op
    case TickOp(_) =>
      if known then
        var (bt', r) := BacktestTick(bt, datasets[bt.datasetName]);
        (bt', Ticked(Some(r)))
      else (bt, Ticked(None))
    case InsertOp(_, order) => (bt.(exchange := Insert(bt.exchange, order)), Done(true))
    case DeleteOp(_, orderId) => (bt.(exchange := Cancel(bt.exchange, orderId)), Done(true))
    case FetchOp(_) => (bt, Quotes(if known then GetQuotes(datasets[bt.datasetName], bt.date) else None))
    case NowOp(_) => (bt, Now(if known then Some(Clock(bt.date, HasNext(datasets[bt.datasetName], bt.pos))) else None))
  }

  function UnknownBacktest(op: Op): Response
    requires !op.NewOp? && !op.InitOp?
  {
    match op
    case TickOp(_) => Ticked(None)
    case InsertOp(_, _) => Done(false)
    case DeleteOp(_, _) => Done(false)
    case FetchOp(_) => Quotes(None)
    case NowOp(_) => Now(None)
  }

  /** Both ways of creating a backtest read the first date of the dataset without checking. */
  predicate Creatable(datasets: map<string, Dataset>, op: Op) {
    (op.NewOp? || op.InitOp?) && op.name in datasets ==> datasets[op.name].dates != []
  }

  predicate AllCreatable(datasets: map<string, Dataset>, ops: seq<Op>) {
    forall i :: 0 <= i < |ops| ==> Creatable(datasets, ops[i])
  }

  function BookOf(s: Server, id: nat): Book
    requires id in s.backtests
  {
    s.backtests[id].exchange.book
  }

  /** What every reachable server satisfies: well-kept books. */
  ghost predicate ServerOk(s: Server) {
    forall i {:trigger BookOf(s, i)} :: i in s.backtests ==> BookOk(BookOf(s, i))
  }

  function Step(s: Server, op: Op): (Server, Response)
    requires Creatable(s.datasets, op)
  {
    match op
    case NewOp(name) =>
      if name in s.datasets then
        (s.(backtests := s.backtests[s.last + 1 := FreshBacktest(s.last + 1, s.datasets[name], name)], last := s.last + 1),
         Created(Some(s.last + 1)))
      else (s, Created(None))
    case InitOp(name) =>
      if name in s.datasets then
        (s.(backtests := s.backtests[s.last + 1 := FreshBacktest(s.last + 1, s.datasets[name], name)]),
         Created(Some(s.last + 1)))
      else (s, Created(None))
    case _ =>
      if op.id in s.backtests then
        var (bt, r) := BacktestStep(s.backtests[op.id], s.datasets, op);
        (s.(backtests := s.backtests[op.id := bt]), r)
      else (s, UnknownBacktest(op))
  }

  lemma BacktestStepKeepsBookOk(bt: Backtest, datasets: map<string, Dataset>, op: Op)
    requires !op.NewOp? && !op.InitOp? && BookOk(bt.exchange.book)
    ensures BookOk(BacktestStep(bt, datasets, op).0.exchange.book)
  {
    if op.TickOp? && bt.datasetName in datasets && bt.date in datasets[bt.datasetName].inner {
      TickKeepsBookOk(bt.exchange, datasets[bt.datasetName].inner[bt.date]);
    } else if op.DeleteOp? {
      CancelKeepsBookOk(bt.exchange, op.orderId);
    }
  }

  lemma StepKeepsServerOk(s: Server, op: Op)
    requires ServerOk(s) && Creatable(s.datasets, op)
    ensures ServerOk(Step(s, op).0)
  {
    if !op.NewOp? && !op.InitOp? && op.id in s.backtests {
      assert BookOk(BookOf(s, op.id));
      BacktestStepKeepsBookOk(s.backtests[op.id], s.datasets, op);
    }
    var s' := Step(s, op).0;
    forall i | i in s'.backtests ensures BookOk(BookOf(s', i)) {
      assert i in s.backtests ==> BookOk(BookOf(s, i));
    }
  }

  /** The state after a whole run of interleaved requests. */
  function Run(s: Server, ops: seq<Op>): (r: Server)
    requires AllCreatable(s.datasets, ops)
    ensures r.datasets == s.datasets
  {
    if ops == [] then s else Step(Run(s, ops[..|ops| - 1]), ops[|ops| - 1]).0
  }

  function SingleServer(name: string, ds: Dataset): Server
    requires ds.dates != []
  {
    Server(map[0 := FreshBacktest(0, ds, name)], 1, map[name := ds])
  }

  function EmptyServer(datasets: map<string, Dataset>): Server {
    Server(map[], 0, datasets)
  }

  lemma SameServer(s: Server, t: Server)
    requires s.backtests.Keys == t.backtests.Keys && s.last == t.last && s.datasets == t.datasets
    requires forall i :: i in s.backtests ==> s.backtests[i] == t.backtests[i]
    ensures s == t
  {
    assert s.backtests == t.backtests;
  }

  /** Fresh books are in order. */
  lemma FreshServerOk(s: Server)
    requires forall i :: i in s.backtests ==> s.backtests[i].exchange == FRESH
    ensures ServerOk(s)
  {
  }

  // ---------- the server object ----------

  class BacktestState {
    const id: nat
    var date: int
    var pos: nat
    const exchange: UistV1
    const datasetName: string

    ghost function View(): Backtest
      reads this, exchange, exchange.orderbook
    {
      Backtest(id, date, pos, exchange.View(), datasetName)
    }

    constructor (id: nat, date: int, datasetName: string)
      ensures View() == Backtest(id, date, 0, FRESH, datasetName)
      ensures fresh(exchange) && fresh(exchange.orderbook) && exchange.owner == exchange.orderbook.owner == id
    {
      this.id, this.date, this.pos, this.datasetName := id, date, 0, datasetName;
      exchange := new UistV1(id);
    }

    /** The part of a server tick that concerns one backtest. */
    method Advance(dataset: Dataset) returns (r: TickResult)
      requires BookOk(exchange.View().book)
      modifies this, exchange, exchange.orderbook
      ensures (View(), r) == BacktestTick(old(View()), dataset)
    {
      var hasNext := false;
      var executedTrades, insertedOrders := [], [];
      var quotes := GetQuotes(dataset, date);
      if quotes.Some? {
        executedTrades, insertedOrders := exchange.Tick(quotes.value);
      }
      var newPos := pos + 1;
      if HasNext(dataset, newPos) {
        hasNext := true;
        date := GetDate(dataset, newPos).value;
      }
      pos := newPos;
      r := TickResult(hasNext, executedTrades, insertedOrders);
    }
  }

  class AppState {
    var backtests: map<nat, BacktestState>
    var last: nat
    const datasets: map<string, Dataset>
    ghost var Repr: set<object>

    /** The server owns the objects of its backtests, and each belongs to the backtest it is filed
        under: so no two backtests share one. */
    ghost predicate Owned()
      reads this
    {
      && this in Repr
      && forall i :: i in backtests ==>
           && backtests[i] in Repr && backtests[i].exchange in Repr && backtests[i].exchange.orderbook in Repr
           && backtests[i].id == backtests[i].exchange.owner == backtests[i].exchange.orderbook.owner == i
    }

    ghost predicate Valid()
      reads this, Repr
    {
      Owned() && ServerOk(View())
    }

    ghost function View(): (v: Server)
      requires Owned()
      reads this, Repr
      ensures v.backtests.Keys == backtests.Keys && v.last == last && v.datasets == datasets
      ensures forall i :: i in backtests ==> v.backtests[i] == backtests[i].View()
    {
      Server(map i | i in backtests :: backtests[i].View(), last, datasets)
    }

    /** What a change to the objects of one backtest amounts to, seen from outside. */
    twostate lemma OneChanged(id: nat)
      requires old(Owned()) && id in backtests
      requires backtests == old(backtests) && last == old(last) && Repr == old(Repr)
      requires forall i :: i in backtests && i != id ==> backtests[i].View() == old(backtests[i].View())
      ensures Owned()
      ensures View() == old(View()).(backtests := old(View()).backtests[id := backtests[id].View()])
    {
      assert View().backtests == old(View()).backtests[id := backtests[id].View()];
    }

    lemma NothingChanged(id: nat)
      requires Owned() && id in backtests
      ensures View().(backtests := View().backtests[id := backtests[id].View()]) == View()
    {
    }

    constructor Create(datasets: map<string, Dataset>)
      ensures Valid() && fresh(Repr) && View() == EmptyServer(datasets)
    {
      backtests, last, Repr := map[], 0, {this};
      this.datasets := datasets;
    }

    constructor Single(name: string, data: Dataset)
      requires data.dates != []
      ensures Valid() && fresh(Repr) && View() == SingleServer(name, data)
    {
      backtests, last, Repr := map[], 1, {this};
      datasets := map[name := data];
      new;
      var backtest := new BacktestState(0, data.dates[0], name);
      Place(0, backtest, 1);
      assert View() == SingleServer(name, data);
      FreshServerOk(View());
    }

    method Tick(backtestId: nat) returns (r: Option<TickResult>)
      requires Valid()
      modifies Repr
      ensures Valid() && Repr == old(Repr)
      ensures (View(), Ticked(r)) == Step(old(View()), TickOp(backtestId))
    {
      if backtestId in backtests {
        var backtest := backtests[backtestId];
        if backtest.datasetName in datasets {
          assert BookOk(BookOf(View(), backtestId));
          StepKeepsServerOk(View(), TickOp(backtestId));
          var tick := backtest.Advance(datasets[backtest.datasetName]);
          OneChanged(backtestId);
          return Some(tick);
        }
        NothingChanged(backtestId);
      }
      return None;
    }

    method FetchQuotes(backtestId: nat) returns (r: Option<Row>)
      requires Valid()
      ensures (View(), Quotes(r)) == Step(View(), FetchOp(backtestId))
    {
      if backtestId in backtests {
        NothingChanged(backtestId);
        var backtest := backtests[backtestId];
        if backtest.datasetName in datasets {
          return GetQuotes(datasets[backtest.datasetName], backtest.date);
        }
      }
      return None;
    }

    method CurrentTime(backtestId: nat) returns (r: Option<Clock>)
      requires Valid()
      ensures (View(), Now(r)) == Step(View(), NowOp(backtestId))
    {
      if backtestId in backtests {
        NothingChanged(backtestId);
        var backtest := backtests[backtestId];
        if backtest.datasetName in datasets {
          return Some(Clock(backtest.date, HasNext(datasets[backtest.datasetName], backtest.pos)));
        }
      }
      return None;
    }

    method InsertOrder(order: Order, backtestId: nat) returns (ok: bool)
      requires Valid()
      modifies Repr
      ensures Valid() && Repr == old(Repr)
      ensures (View(), Done(ok)) == Step(old(View()), InsertOp(backtestId, order))
    {
      if backtestId in backtests {
        StepKeepsServerOk(View(), InsertOp(backtestId, order));
        backtests[backtestId].exchange.InsertOrder(order);
        OneChanged(backtestId);
        return true;
      }
      return false;
    }

    method DeleteOrder(orderId: nat, backtestId: nat) returns (ok: bool)
      requires Valid()
      modifies Repr
      ensures Valid() && Repr == old(Repr)
      ensures (View(), Done(ok)) == Step(old(View()), DeleteOp(backtestId, orderId))
    {
      if backtestId in backtests {
        StepKeepsServerOk(View(), DeleteOp(backtestId, orderId));
        backtests[backtestId].exchange.DeleteOrder(orderId);
        OneChanged(backtestId);
        return true;
      }
      return false;
    }

    /** Files a backtest under an id, replacing whatever was there. */
    method Place(id: nat, backtest: BacktestState, newLast: nat)
      requires Owned()
      requires backtest.id == backtest.exchange.owner == backtest.exchange.orderbook.owner == id
      modifies this
      ensures Owned() && Repr == old(Repr) + {backtest, backtest.exchange, backtest.exchange.orderbook}
      ensures View() == Server(old(View()).backtests[id := backtest.View()], newLast, datasets)
    {
      ghost var before, others, placed := View(), backtests, backtest.View();
      backtests, last, Repr := backtests[id := backtest], newLast, Repr + {backtest, backtest.exchange, backtest.exchange.orderbook};
      assert Owned() && backtest.View() == placed;
      forall i | i in backtests && i != id ensures backtests[i].View() == before.backtests[i] {
        assert backtests[i] == others[i];
      }
      SameServer(View(), Server(before.backtests[id := placed], newLast, datasets));
    }

    method Init(datasetName: string) returns (r: Option<nat>)
      requires Valid() && Creatable(datasets, InitOp(datasetName))
      modifies this
      ensures Valid() && fresh(Repr - old(Repr))
      ensures (View(), Created(r)) == Step(old(View()), InitOp(datasetName))
    {
      if datasetName in datasets {
        var newId := last + 1;
        var backtest := new BacktestState(newId, datasets[datasetName].dates[0], datasetName);
        ghost var before := View();
        StepKeepsServerOk(before, InitOp(datasetName));
        Place(newId, backtest, last);
        assert View() == Step(before, InitOp(datasetName)).0;
        return Some(newId);
      }
      return None;
    }

    method NewBacktest(datasetName: string) returns (r: Option<nat>)
      requires Valid() && Creatable(datasets, NewOp(datasetName))
      modifies this
      ensures Valid() && fresh(Repr - old(Repr))
      ensures (View(), Created(r)) == Step(old(View()), NewOp(datasetName))
    {
      var newId := last + 1;
      if datasetName in datasets {
        var backtest := new BacktestState(newId, datasets[datasetName].dates[0], datasetName);
        ghost var before := View();
        StepKeepsServerOk(before, NewOp(datasetName));
        Place(newId, backtest, newId);
        assert View() == Step(before, NewOp(datasetName)).0;
        return Some(newId);
      }
      return None;
    }
  }
}
