/** What the answers of the backtest server tell its clients. */
module UistAnswers {
  import opened Prelude
  import opened Penelope
  import opened Uist
  import opened UistServer
  import Isolation

  // ---------- single requests ----------

  /** Requests to a backtest that does not exist change nothing and are answered as failures. */
  lemma UnknownAnswer(s: Server, op: Op)
    requires !op.NewOp? && !op.InitOp? && op.id !in s.backtests
    ensures Step(s, op).0 == s
    ensures match Step(s, op).1
            case Ticked(tick) => op.TickOp? && tick.None?
            case Done(ok) => (op.InsertOp? || op.DeleteOp?) && !ok
            case Quotes(row) => op.FetchOp? && row.None?
            case Now(clock) => op.NowOp? && clock.None?
            case Created(_) => false
  {
  }

  /** Requests to one that exists, on a known dataset, succeed: orders are buffered at the back or
      leave the book, quotes are those of the date, and the clock is the date together with whether
      the position is still inside the data. */
  lemma KnownAnswer(s: Server, op: Op)
    requires !op.NewOp? && !op.InitOp? && op.id in s.backtests && s.backtests[op.id].datasetName in s.datasets
    ensures var (bt, ds) := (s.backtests[op.id], s.datasets[s.backtests[op.id].datasetName]);
            var (s', answer) := Step(s, op);
            && s' == s.(backtests := s.backtests[op.id := s'.backtests[op.id]])
            && var bt' := s'.backtests[op.id];
               match op
               case InsertOp(_, o) => answer == Done(true) && bt' == bt.(exchange := bt'.exchange) && bt'.exchange.buffer == bt.exchange.buffer + [o]
               case DeleteOp(_, id) => answer == Done(true) && bt' == bt.(exchange := Cancel(bt.exchange, id))
               case FetchOp(_) => bt' == bt && answer == Quotes(if bt.date in ds.inner then Some(ds.inner[bt.date]) else None)
               case NowOp(_) => bt' == bt && answer == Now(Some(Clock(bt.date, bt.pos < |ds.dates|)))
               case TickOp(_) => answer.Ticked? && answer.tick.Some? && bt'.pos == bt.pos + 1
               case _ => true
  {
  }

  /** With its dataset unknown a backtest still takes orders, and has no prices, no clock and no ticks. */
  lemma UnknownDatasetAnswer(s: Server, op: Op)
    requires !op.NewOp? && !op.InitOp? && op.id in s.backtests && s.backtests[op.id].datasetName !in s.datasets
    ensures var (s', answer) := Step(s, op);
            match op
            case InsertOp(_, _) => answer == Done(true)
            case DeleteOp(_, _) => answer == Done(true)
            case FetchOp(_) => s' == s && answer == Quotes(None)
            case NowOp(_) => s' == s && answer == Now(None)
            case TickOp(_) => s' == s && answer == Ticked(None)
            case _ => true
  {
    assert s.backtests[op.id := s.backtests[op.id]] == s.backtests;
  }

  /** What a tick tells of the exchange: the trades it made and the orders it took up. */
  lemma TickTellsTrades(s: Server, b: nat)
    requires b in s.backtests && s.backtests[b].datasetName in s.datasets
    ensures var (s', answer) := Step(s, TickOp(b));
            && b in s'.backtests && answer.Ticked? && answer.tick.Some?
            && var (e, e', r) := (s.backtests[b].exchange, s'.backtests[b].exchange, answer.tick.value);
               && e'.tradeLog == e.tradeLog + r.executedTrades
               && |e'.book.inner| >= |r.insertedOrders| && e'.book.inner[|e'.book.inner| - |r.insertedOrders|..] == r.insertedOrders
  {
    var bt, ds := s.backtests[b], s.datasets[s.backtests[b].datasetName];
    if bt.date in ds.inner {
      TickAnswers(bt.exchange, ds.inner[bt.date]);
    } else {
      assert bt.exchange.tradeLog + [] == bt.exchange.tradeLog;
      assert bt.exchange.book.inner[|bt.exchange.book.inner|..] == [];
    }
  }

  /** A creation answers with the next id exactly when the dataset is known, and what then carries
      the id is a backtest at the first date with nothing in it. */
  lemma CreationAnswer(s: Server, op: Op)
    requires (op.NewOp? || op.InitOp?) && Creatable(s.datasets, op)
    ensures var (s', answer) := Step(s, op);
            && answer == Created(if op.name in s.datasets then Some(s.last + 1) else None)
            && (op.name !in s.datasets ==> s' == s)
            && (op.name in s.datasets ==>
                  && s'.last == (if op.NewOp? then s.last + 1 else s.last)
                  && s'.backtests == s.backtests[s.last + 1 := Backtest(s.last + 1, s.datasets[op.name].dates[0], 0, Exchange(Book([], 0), [], []), op.name)])
  {
  }

  /** The first backtest created on an empty server is number 1, and on a server that starts with one,
      which is number 0, it is number 2. */
  lemma FirstCreated(name: string, ds: Dataset, datasets: map<string, Dataset>)
    requires ds.dates != [] && name in datasets && Creatable(datasets, NewOp(name))
    ensures Step(SingleServer(name, ds), NewOp(name)).1 == Created(Some(2)) && SingleServer(name, ds).backtests.Keys == {0}
    ensures Step(EmptyServer(datasets), NewOp(name)).1 == Created(Some(1)) && EmptyServer(datasets).backtests == map[]
  {
  }

  // ---------- how far the data goes ----------

  /** The flag that a tick of `b` would be answered. */
  function NextFlag(s: Server, b: nat): bool
    requires b in s.backtests && s.backtests[b].datasetName in s.datasets
  {
    Step(s, TickOp(b)).1.tick.value.hasNext
  }

  /** A tick answers whether there is a date after it, and a look at the clock right afterwards says
      the same. */
  lemma FlagIsNextDate(s: Server, b: nat)
    requires b in s.backtests && s.backtests[b].datasetName in s.datasets
    ensures var bt, ds := s.backtests[b], s.datasets[s.backtests[b].datasetName];
            var s' := Step(s, TickOp(b)).0;
            && (NextFlag(s, b) <==> bt.pos + 1 < |ds.dates|)
            && Step(s', NowOp(b)).1.clock.Some?
            && Step(s', NowOp(b)).1.clock.value == Clock(s'.backtests[b].date, NextFlag(s, b))
            && (NextFlag(s, b) ==> s'.backtests[b].date == ds.dates[bt.pos + 1])
            && (!NextFlag(s, b) ==> s'.backtests[b].date == bt.date)
  {
  }

  /** How many of the requests are ticks of `b`. */
  function Ticks(ops: seq<Op>, b: nat): nat {
    if ops == [] then 0 else Ticks(ops[..|ops| - 1], b) + if ops[|ops| - 1] == TickOp(b) then 1 else 0
  }

  /** Whatever else is asked, of this backtest or of others, the position counts its ticks. */
  lemma {:induction false} PositionCountsTicks(s: Server, ops: seq<Op>, b: nat)
    requires AllCreatable(s.datasets, ops) && b in s.backtests && b <= s.last && s.backtests[b].datasetName in s.datasets
    ensures b in Run(s, ops).backtests
    ensures var bt := Run(s, ops).backtests[b];
            bt.datasetName == s.backtests[b].datasetName && bt.pos == s.backtests[b].pos + Ticks(ops, b)
  {
    if ops != [] {
      var n := |ops| - 1;
      PositionCountsTicks(s, ops[..n], b);
      Isolation.LastNeverFalls(s, ops[..n]);
      if !Isolation.Concerns(ops[n], b) {
        Isolation.OtherStep(Run(s, ops[..n]), ops[n], b);
      }
    }
  }

  /** So from a fresh backtest over n dates exactly the first n - 1 ticks are answered that there is
      more, in every interleaving: the next one is so answered when fewer than n - 1 have been made. */
  lemma FirstTicksHaveNext(s: Server, ops: seq<Op>, b: nat)
    requires AllCreatable(s.datasets, ops) && b in s.backtests && b <= s.last && s.backtests[b].datasetName in s.datasets
    requires s.backtests[b].pos == 0
    ensures var r, ds := Run(s, ops), s.datasets[s.backtests[b].datasetName];
            && b in r.backtests && r.backtests[b].datasetName in r.datasets
            && (NextFlag(r, b) <==> Ticks(ops, b) < |ds.dates| - 1)
  {
    PositionCountsTicks(s, ops, b);
    FlagIsNextDate(Run(s, ops), b);
  }
}
