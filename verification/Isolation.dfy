/** Backtests served by one server do not disturb each other. */
module Isolation {
  import opened Prelude
  import opened UistServer

  predicate Concerns(op: Op, b: nat) {
    !op.NewOp? && !op.InitOp? && op.id == b
  }

  /** The requests of a run addressed to backtest `b`, in order. */
  function Own(ops: seq<Op>, b: nat): seq<Op> {
    if ops == [] then []
    else
      var n := |ops| - 1;
      Own(ops[..n], b) + if Concerns(ops[n], b) then [ops[n]] else []
  }

  /** What the client of backtest `b` was answered during the run, in order. */
  function Answers(s: Server, ops: seq<Op>, b: nat): seq<Response>
    requires AllCreatable(s.datasets, ops)
  {
    if ops == [] then []
    else
      var n := |ops| - 1;
      Answers(s, ops[..n], b) + if Concerns(ops[n], b) then [Step(Run(s, ops[..n]), ops[n]).1] else []
  }

  lemma {:induction false} LastNeverFalls(s: Server, ops: seq<Op>)
    requires AllCreatable(s.datasets, ops)
    ensures Run(s, ops).last >= s.last
  {
    if ops != [] {
      LastNeverFalls(s, ops[..|ops| - 1]);
    }
  }

  lemma OwnStep(s: Server, t: Server, op: Op, b: nat)
    requires s.datasets == t.datasets && Creatable(s.datasets, op)
    requires b in s.backtests && b in t.backtests && s.backtests[b] == t.backtests[b]
    requires Concerns(op, b)
    ensures b in Step(s, op).0.backtests && b in Step(t, op).0.backtests
    ensures Step(s, op).0.backtests[b] == Step(t, op).0.backtests[b] && Step(s, op).1 == Step(t, op).1
  {
  }

  lemma OtherStep(s: Server, op: Op, b: nat)
    requires Creatable(s.datasets, op) && b in s.backtests && b <= s.last && !Concerns(op, b)
    ensures b in Step(s, op).0.backtests && Step(s, op).0.backtests[b] == s.backtests[b]
  {
  }

  lemma RunOneMore(s: Server, ops: seq<Op>, op: Op)
    requires AllCreatable(s.datasets, ops) && Creatable(s.datasets, op)
    ensures Run(s, ops + [op]) == Step(Run(s, ops), op).0
    ensures forall b :: Answers(s, ops + [op], b)
                        == Answers(s, ops, b) + if Concerns(op, b) then [Step(Run(s, ops), op).1] else []
  {
    assert (ops + [op])[..|ops|] == ops;
  }

  /** For every interleaving of requests, including the creation of other backtests, the state
      and the answers of an allocated backtest are those of a run of its own requests alone. */
  lemma {:induction false} Isolated(s: Server, ops: seq<Op>, b: nat)
    requires AllCreatable(s.datasets, ops)
    requires b in s.backtests && b <= s.last
    ensures AllCreatable(s.datasets, Own(ops, b))
    ensures b in Run(s, ops).backtests && b in Run(s, Own(ops, b)).backtests
    ensures Run(s, ops).backtests[b] == Run(s, Own(ops, b)).backtests[b]
    ensures Answers(s, ops, b) == Answers(s, Own(ops, b), b)
  {
    if ops != [] {
      var n := |ops| - 1;
      var init, op := ops[..n], ops[n];
      assert ops == init + [op];
      Isolated(s, init, b);
      LastNeverFalls(s, init);
      RunOneMore(s, init, op);
      if Concerns(op, b) {
        RunOneMore(s, Own(init, b), op);
        OwnStep(Run(s, init), Run(s, Own(init, b)), op, b);
      } else {
        OtherStep(Run(s, init), op, b);
        assert Own(ops, b) == Own(init, b);
      }
    }
  }

  // ---------- fresh ids ----------

  /** No backtest carries an id that has not been allocated yet. */
  ghost predicate IdsAllocated(s: Server) {
    forall i :: i in s.backtests ==> i <= s.last
  }

  lemma {:induction false} RunKeepsIdsAllocated(s: Server, ops: seq<Op>)
    requires AllCreatable(s.datasets, ops) && IdsAllocated(s)
    requires forall k :: 0 <= k < |ops| ==> !ops[k].InitOp?
    ensures IdsAllocated(Run(s, ops))
  {
    if ops != [] {
      RunKeepsIdsAllocated(s, ops[..|ops| - 1]);
    }
  }

  /** As long as only `new_backtest` creates backtests, no id is ever handed out while in use. */
  lemma NewBacktestIsFresh(s: Server, ops: seq<Op>, name: string)
    requires AllCreatable(s.datasets, ops) && IdsAllocated(s)
    requires forall k :: 0 <= k < |ops| ==> !ops[k].InitOp?
    requires Creatable(s.datasets, NewOp(name))
    ensures var r := Step(Run(s, ops), NewOp(name)).1.newId;
            r.Some? ==> r.value !in Run(s, ops).backtests && r.value !in s.backtests
    ensures Step(Run(s, ops), NewOp(name)).1.newId.Some? <==> name in s.datasets
  {
    RunKeepsIdsAllocated(s, ops);
    LastNeverFalls(s, ops);
  }

  /** `init` hands out the next id without allocating it: whatever is created next gets the same
      id and replaces the backtest, whatever had been done with it in between. */
  lemma InitIsReplaced(s: Server, first: string, ops: seq<Op>, second: Op)
    requires first in s.datasets && Creatable(s.datasets, InitOp(first)) && Creatable(s.datasets, second)
    requires forall k :: 0 <= k < |ops| ==> !ops[k].InitOp? && !ops[k].NewOp?
    requires (second.NewOp? || second.InitOp?) && second.name in s.datasets
    ensures var s1 := Step(s, InitOp(first)).0;
            var id := Step(s, InitOp(first)).1.newId.value;
            var s2 := Run(s1, ops);
            && Step(s2, second).1 == Created(Some(id))
            && Step(s2, second).0.backtests[id] == FreshBacktest(id, s.datasets[second.name], second.name)
  {
    RunWithoutCreation(Step(s, InitOp(first)).0, ops);
  }

  lemma {:induction false} RunWithoutCreation(s: Server, ops: seq<Op>)
    requires forall k :: 0 <= k < |ops| ==> !ops[k].InitOp? && !ops[k].NewOp?
    ensures Run(s, ops).last == s.last && Run(s, ops).backtests.Keys == s.backtests.Keys
  {
    if ops != [] {
      RunWithoutCreation(s, ops[..|ops| - 1]);
    }
  }

  /** Exactly when creating a backtest destroys none: the next id is not taken. */
  lemma CreationKeepsOthers(s: Server, op: Op)
    requires Creatable(s.datasets, op) && (op.NewOp? || op.InitOp?) && op.name in s.datasets
    ensures (forall i :: i in s.backtests ==> Step(s, op).0.backtests[i] == s.backtests[i])
            <==> s.last + 1 !in s.backtests || s.backtests[s.last + 1] == FreshBacktest(s.last + 1, s.datasets[op.name], op.name)
  {
    var s' := Step(s, op).0;
    if s.last + 1 in s.backtests {
      assert s'.backtests[s.last + 1] == FreshBacktest(s.last + 1, s.datasets[op.name], op.name);
    }
  }
}
