/** No order trades on prices its client had already been shown.

    The server keeps no record of when an order was submitted, so an observer notes it: the clock
    position of every request that submits an order, and of every tick that trades one. */
module NoLookahead {
  import opened Prelude
  import opened Penelope
  import opened Uist
  import opened UistServer

  datatype Fill = Fill(orderId: nat, at: nat, trade: Trade)

  /** `waiting[k]` is the clock position at which the k-th buffered order was submitted,
      `submitted[id]` the one at which the order now known as `id` was, and `fills` lists the
      trades with the position of the clock when they were made. */
  datatype History = History(waiting: seq<nat>, submitted: seq<nat>, fills: seq<Fill>)

  type Histories = map<nat, History>

  const NOTHING := History([], [], [])

  function ObserveTick(bt: Backtest, ds: Dataset, h: History): History
    requires BookOk(bt.exchange.book)
  {
    if bt.date !in ds.inner then h
    else
      var row := ds.inner[bt.date];
      var ids := CompletedIds(bt.exchange.book.inner, row);
      var trades := Trades(bt.exchange.book.inner, row);
      CompletedIdsAreBookIds(bt.exchange.book.inner, row);
      History([], h.submitted + h.waiting,
              h.fills + seq(|trades|, k requires 0 <= k < |trades| => Fill(ids[k], bt.pos, trades[k])))
  }

  function ObserveBacktest(bt: Backtest, datasets: map<string, Dataset>, h: History, op: Op): History
    requires BookOk(bt.exchange.book)
  {
    match op
    case TickOp(_) => if bt.datasetName in datasets then ObserveTick(bt, datasets[bt.datasetName], h) else h
    case InsertOp(_, _) => h.(waiting := h.waiting + [bt.pos])
    case _ => h
  }

  function Observe(s: Server, hs: Histories, op: Op): Histories
    requires ServerOk(s) && hs.Keys == s.backtests.Keys
  {
    if op.NewOp? || op.InitOp? then
      if op.name in s.datasets then hs[s.last + 1 := NOTHING] else hs
    else if op.id in s.backtests then
      assert BookOk(BookOf(s, op.id));
      hs[op.id := ObserveBacktest(s.backtests[op.id], s.datasets, hs[op.id], op)]
    else hs
  }

  /** The date a clock position stands for: the last date once the data has run out. */
  function DateAt(ds: Dataset, pos: nat): int
    requires ds.dates != []
  {
    ds.dates[Min(pos, |ds.dates| - 1)]
  }

  /** The trade was made from a quote of the given date. */
  ghost predicate PricedOn(ds: Dataset, date: int, t: Trade) {
    && t.date == date
    && date in ds.inner && t.symbol in ds.inner[date]
    && t.value == t.quantity * (if t.typ.Sell? then ds.inner[date][t.symbol].bid else ds.inner[date][t.symbol].ask)
  }

  ghost predicate BacktestOk(bt: Backtest, ds: Dataset, h: History)
    requires ds.dates != []
  {
    && bt.date == DateAt(ds, bt.pos)
    && BookOk(bt.exchange.book)
    && h.waiting == seq(|bt.exchange.buffer|, _ => bt.pos)
    && |h.submitted| == bt.exchange.book.lastInserted
    && (forall i :: 0 <= i < |h.submitted| ==> h.submitted[i] < bt.pos)
    && |h.fills| == |bt.exchange.tradeLog|
    && (forall k :: 0 <= k < |h.fills| ==> h.fills[k].trade == bt.exchange.tradeLog[k])
    && (forall k :: 0 <= k < |h.fills| ==> h.fills[k].at < bt.pos && FillOk(ds, h, h.fills[k]))
  }

  ghost predicate FillOk(ds: Dataset, h: History, f: Fill)
    requires ds.dates != []
  {
    && f.orderId < |h.submitted|
    && h.submitted[f.orderId] < f.at
    && PricedOn(ds, DateAt(ds, f.at), f.trade)
  }

  ghost predicate DatasetSound(ds: Dataset) {
    ds.dates != [] && Coherent(ds)
  }

  ghost predicate Sound(s: Server, hs: Histories) {
    && hs.Keys == s.backtests.Keys
    && (forall n :: n in s.datasets ==> Coherent(s.datasets[n]))
    && forall b :: b in s.backtests ==>
         && s.backtests[b].datasetName in s.datasets
         && s.datasets[s.backtests[b].datasetName].dates != []
         && BacktestOk(s.backtests[b], s.datasets[s.backtests[b].datasetName], hs[b])
  }

  lemma TradesArePriced(inner: seq<Order>, ds: Dataset, date: int, k: nat)
    requires Coherent(ds) && date in ds.inner && IdsIncrease(inner)
    requires k < |Trades(inner, ds.inner[date])|
    ensures PricedOn(ds, date, Trades(inner, ds.inner[date])[k])
  {
    var row := ds.inner[date];
    CompletedIdsAreBookIds(inner, row);
    var i :| 0 <= i < |inner| && inner[i].orderId.value == CompletedIds(inner, row)[k]
             && Decide(inner[i], row) == Some(Trades(inner, row)[k]);
    FillHonoursOrder(inner[i], row);
  }

  /** The part of a tick that concerns past trades and the trades being made. */
  lemma TickKeepsFills(bt: Backtest, ds: Dataset, h: History, k: nat)
    requires DatasetSound(ds) && BacktestOk(bt, ds, h) && bt.date in ds.inner
    requires k < |ObserveTick(bt, ds, h).fills|
    ensures var h' := ObserveTick(bt, ds, h);
            && h'.fills[k].at < bt.pos + 1 && FillOk(ds, h', h'.fills[k])
            && |h'.fills| == |bt.exchange.tradeLog| + |Trades(bt.exchange.book.inner, ds.inner[bt.date])|
            && h'.fills[k].trade == (bt.exchange.tradeLog + Trades(bt.exchange.book.inner, ds.inner[bt.date]))[k]
  {
    var row, inner := ds.inner[bt.date], bt.exchange.book.inner;
    var h' := ObserveTick(bt, ds, h);
    CompletedIdsAreBookIds(inner, row);
    if k < |h.fills| {
      assert FillOk(ds, h, h.fills[k]);
      assert h'.fills[k] == h.fills[k];
    } else {
      var j := k - |h.fills|;
      TradesArePriced(inner, ds, bt.date, j);
      var i :| 0 <= i < |inner| && inner[i].orderId.value == CompletedIds(inner, row)[j];
      assert h'.fills[k].orderId == inner[i].orderId.value < bt.exchange.book.lastInserted;
    }
  }

  lemma TickKeepsBacktestOk(bt: Backtest, ds: Dataset, h: History)
    requires DatasetSound(ds) && BacktestOk(bt, ds, h)
    ensures bt.date in ds.inner
    ensures BacktestOk(BacktestTick(bt, ds).0, ds, ObserveTick(bt, ds, h))
  {
    assert bt.date in ds.dates;
    var row := ds.inner[bt.date];
    var h', bt' := ObserveTick(bt, ds, h), BacktestTick(bt, ds).0;
    TickKeepsBookOk(bt.exchange, row);
    CompletedIdsAreBookIds(bt.exchange.book.inner, row);
    forall k | 0 <= k < |h'.fills|
      ensures h'.fills[k].trade == bt'.exchange.tradeLog[k] && h'.fills[k].at < bt'.pos && FillOk(ds, h', h'.fills[k])
    {
      TickKeepsFills(bt, ds, h, k);
    }
  }

  lemma BacktestStepKeepsOk(bt: Backtest, datasets: map<string, Dataset>, h: History, op: Op)
    requires !op.NewOp? && !op.InitOp?
    requires bt.datasetName in datasets && DatasetSound(datasets[bt.datasetName])
    requires BacktestOk(bt, datasets[bt.datasetName], h)
    ensures BacktestOk(BacktestStep(bt, datasets, op).0, datasets[bt.datasetName], ObserveBacktest(bt, datasets, h, op))
  {
    if op.TickOp? {
      TickKeepsBacktestOk(bt, datasets[bt.datasetName], h);
    } else if op.DeleteOp? {
      CancelKeepsBookOk(bt.exchange, op.orderId);
    }
  }

  lemma ReplaceKeepsSound(s: Server, hs: Histories, b: nat, bt: Backtest, h: History, last: nat)
    requires Sound(s, hs) && bt.datasetName in s.datasets && s.datasets[bt.datasetName].dates != []
    requires BacktestOk(bt, s.datasets[bt.datasetName], h)
    ensures Sound(Server(s.backtests[b := bt], last, s.datasets), hs[b := h])
  {
  }

  lemma FreshIsOk(id: nat, ds: Dataset, name: string)
    requires DatasetSound(ds)
    ensures BacktestOk(FreshBacktest(id, ds, name), ds, NOTHING)
  {
  }

  lemma Creates(s: Server, hs: Histories, op: Op, id: nat, ds: Dataset)
    requires ServerOk(s) && hs.Keys == s.backtests.Keys && (op.NewOp? || op.InitOp?)
    requires op.name in s.datasets && ds == s.datasets[op.name] && ds.dates != [] && id == s.last + 1
    ensures Step(s, op).0 == Server(s.backtests[id := FreshBacktest(id, ds, op.name)], if op.NewOp? then id else s.last, s.datasets)
    ensures Observe(s, hs, op) == hs[id := NOTHING]
  {
  }

  lemma CreateKeepsSound(s: Server, hs: Histories, op: Op)
    requires ServerOk(s) && Sound(s, hs) && (op.NewOp? || op.InitOp?) && op.name in s.datasets && Creatable(s.datasets, op)
    ensures Sound(Step(s, op).0, Observe(s, hs, op))
  {
    var id, ds := s.last + 1, s.datasets[op.name];
    Creates(s, hs, op, id, ds);
    FreshIsOk(id, ds, op.name);
    ReplaceKeepsSound(s, hs, id, FreshBacktest(id, ds, op.name), NOTHING, if op.NewOp? then id else s.last);
  }

  lemma AddressedKeepsSound(s: Server, hs: Histories, op: Op)
    requires ServerOk(s) && Sound(s, hs) && !op.NewOp? && !op.InitOp? && op.id in s.backtests
    ensures Sound(Step(s, op).0, Observe(s, hs, op))
  {
    var bt, h := s.backtests[op.id], hs[op.id];
    BacktestStepKeepsOk(bt, s.datasets, h, op);
    ReplaceKeepsSound(s, hs, op.id, BacktestStep(bt, s.datasets, op).0, ObserveBacktest(bt, s.datasets, h, op), s.last);
  }

  lemma StepKeepsSound(s: Server, hs: Histories, op: Op)
    requires ServerOk(s) && Sound(s, hs) && Creatable(s.datasets, op)
    ensures ServerOk(Step(s, op).0) && Sound(Step(s, op).0, Observe(s, hs, op))
  {
    StepKeepsServerOk(s, op);
    if op.NewOp? || op.InitOp? {
      if op.name in s.datasets { CreateKeepsSound(s, hs, op); }
    } else if op.id in s.backtests {
      AddressedKeepsSound(s, hs, op);
    }
  }

  function ObserveRun(s: Server, hs: Histories, ops: seq<Op>): (r: Histories)
    requires ServerOk(s) && Sound(s, hs) && AllCreatable(s.datasets, ops)
    ensures ServerOk(Run(s, ops)) && Sound(Run(s, ops), r)
  {
    if ops == [] then hs
    else
      var n := |ops| - 1;
      var before := ObserveRun(s, hs, ops[..n]);
      StepKeepsSound(Run(s, ops[..n]), before, ops[n]);
      Observe(Run(s, ops[..n]), before, ops[n])
  }

  lemma LaterPositionLaterDate(ds: Dataset, p: nat, q: nat)
    requires ds.dates != [] && Chronological(ds) && p < q
    ensures p + 1 < |ds.dates| ==> DateAt(ds, q) >= ds.dates[p + 1] > ds.dates[p]
    ensures DateAt(ds, q) > DateAt(ds, p) <==> p + 1 < |ds.dates|
  {
    var i, n := Min(q, |ds.dates| - 1), |ds.dates|;
    if p + 1 < n {
      assert ds.dates[p] < ds.dates[p + 1];
      assert p + 1 < i ==> ds.dates[p + 1] < ds.dates[i];
    }
  }

  /** The order behind a trade was submitted at clock position p and traded at a later position,
      on the prices of that position.  So with sorted dates the trade is dated at index p + 1 or
      later, and strictly later than the submission exactly when p was not already the end of the
      data. */
  ghost predicate TradedLater(bt: Backtest, ds: Dataset, h: History, f: Fill)
    requires ds.dates != []
  {
    && f.trade in bt.exchange.tradeLog
    && f.orderId < |h.submitted|
    && var p := h.submitted[f.orderId];
       && p < f.at < bt.pos
       && PricedOn(ds, DateAt(ds, f.at), f.trade)
       && (Chronological(ds) ==>
             && (p + 1 < |ds.dates| ==> f.trade.date >= ds.dates[p + 1] > ds.dates[p])
             && (f.trade.date > DateAt(ds, p) <==> p + 1 < |ds.dates|))
  }

  lemma FillsTradedLater(bt: Backtest, ds: Dataset, h: History, f: Fill)
    requires DatasetSound(ds) && BacktestOk(bt, ds, h) && f in h.fills
    ensures TradedLater(bt, ds, h, f)
  {
    assert FillOk(ds, h, f);
    if Chronological(ds) {
      LaterPositionLaterDate(ds, h.submitted[f.orderId], f.at);
    }
  }

  /** In no backtest of the server is there a trade made on prices its order could have known. */
  ghost predicate NeverAhead(s: Server, hs: Histories) {
    && hs.Keys == s.backtests.Keys
    && forall b :: b in s.backtests ==>
         && s.backtests[b].datasetName in s.datasets
         && s.datasets[s.backtests[b].datasetName].dates != []
         && |hs[b].fills| == |s.backtests[b].exchange.tradeLog|
         && forall f :: f in hs[b].fills ==> TradedLater(s.backtests[b], s.datasets[s.backtests[b].datasetName], hs[b], f)
  }

  /** No lookahead, whatever the interleaving of requests. */
  lemma NoLookahead(s: Server, hs: Histories, ops: seq<Op>)
    requires ServerOk(s) && Sound(s, hs) && AllCreatable(s.datasets, ops)
    ensures NeverAhead(Run(s, ops), ObserveRun(s, hs, ops))
  {
    SoundIsNeverAhead(Run(s, ops), ObserveRun(s, hs, ops));
  }

  lemma SoundIsNeverAhead(s: Server, hs: Histories)
    requires Sound(s, hs)
    ensures NeverAhead(s, hs)
  {
    forall b, f | b in s.backtests && f in hs[b].fills
      ensures TradedLater(s.backtests[b], s.datasets[s.backtests[b].datasetName], hs[b], f)
    {
      FillsTradedLater(s.backtests[b], s.datasets[s.backtests[b].datasetName], hs[b], f);
    }
  }

  /** The observation is accurate: everything submitted since the last tick was submitted at the
      current position, and a tick gives each of those orders an id that is recorded there. */
  lemma SubmissionsAreRecorded(bt: Backtest, ds: Dataset, h: History)
    requires DatasetSound(ds) && BacktestOk(bt, ds, h)
    ensures var inserted, h' := BacktestTick(bt, ds).1.insertedOrders, ObserveTick(bt, ds, h);
            var sorted, next := SortBuffer(bt.exchange.buffer), bt.exchange.book.lastInserted;
            && |inserted| == |sorted| && multiset(sorted) == multiset(bt.exchange.buffer)
            && |h'.submitted| == next + |inserted|
            && forall k :: 0 <= k < |inserted| ==>
                 inserted[k] == sorted[k].(orderId := Some(next + k)) && h'.submitted[next + k] == bt.pos
  {
    TickKeepsBacktestOk(bt, ds, h);
    SortedBuffer(bt.exchange.buffer);
  }

  /** Both ways of starting a server start it soundly. */
  lemma StartsSound(name: string, ds: Dataset, datasets: map<string, Dataset>)
    requires DatasetSound(ds) && forall n :: n in datasets ==> Coherent(datasets[n])
    ensures ServerOk(SingleServer(name, ds)) && Sound(SingleServer(name, ds), map[0 := NOTHING])
    ensures ServerOk(EmptyServer(datasets)) && Sound(EmptyServer(datasets), map[])
  {
  }

  /** Quotes added in whatever order make a sound dataset ... */
  lemma LoadedIsSound(qs: seq<Quote>)
    requires qs != []
    ensures DatasetSound(Load(qs))
  {
    LoadIsCoherent(qs);
  }

  function Loaded(name: string, qs: seq<Quote>): (s: Server)
    requires qs != []
    ensures ServerOk(s) && Sound(s, map[0 := NOTHING])
  {
    LoadedIsSound(qs);
    StartsSound(name, Load(qs), map[]);
    SingleServer(name, Load(qs))
  }

  /** ... so a server over them never looks ahead, in any backtest that any run creates; and quotes
      added in date order also make the dates tell. */
  lemma NoLookaheadFromQuotes(name: string, qs: seq<Quote>, ops: seq<Op>)
    requires qs != []
    ensures AllCreatable(Loaded(name, qs).datasets, ops)
    ensures NeverAhead(Run(Loaded(name, qs), ops), ObserveRun(Loaded(name, qs), map[0 := NOTHING], ops))
    ensures InDateOrder(qs) ==> Chronological(Load(qs))
  {
    LoadedIsSound(qs);
    NoLookahead(Loaded(name, qs), map[0 := NOTHING], ops);
    if InDateOrder(qs) {
      LoadInOrderIsChronological(qs);
    }
  }
}
