/** What the life of every Jura order looks like in every reachable state. */
module JuraLives {
  import opened Jura
  import opened JuraLedger

  // ---------- one life ----------

  /** How many of the ticks in `rows[from..to]` quote the asset. */
  function Count(rows: seq<Row>, asset: Asset, from: nat, to: nat): nat
    requires to <= |rows|
  {
    if to <= from then 0 else Count(rows, asset, from, to - 1) + if asset in rows[to - 1] then 1 else 0
  }

  /** None of those quotes was one the order could have traded, or been triggered, on. */
  ghost predicate Missed(o: Order, rows: seq<Row>, from: nat, to: nat)
    requires to <= |rows|
  {
    forall u :: from <= u < to && o.asset in rows[u] ==> !Succeeds(o, rows[u][o.asset])
  }

  ghost predicate LeftInTick(e: Entry, rows: seq<Row>) {
    e.entered <= e.left < |rows| && e.order.asset in rows[e.left] && Missed(e.order, rows, e.entered, e.left)
  }

  predicate IsIoc(e: Entry) {
    e.order.orderType == Limit(Ioc)
  }

  ghost predicate LifeOk(e: Entry, id: nat, rows: seq<Row>, fills: seq<Fill>) {
    && e.entered <= |rows|
    && match e.fate
       case Resting =>
         && e.quoted == Count(rows, e.order.asset, e.entered, |rows|)
         && Missed(e.order, rows, e.entered, |rows|)
         && (IsIoc(e) ==> e.quoted <= 1)
       case Filled(k) =>
         && e.order.orderType.Limit? && LeftInTick(e, rows)
         && Succeeds(e.order, rows[e.left][e.order.asset])
         && k < |fills| && fills[k] == Execute(id, e.order, rows[e.left][e.order.asset])
         && (IsIoc(e) ==> Count(rows, e.order.asset, e.entered, e.left) == 0)
       case Expired =>
         IsIoc(e) && LeftInTick(e, rows) && Count(rows, e.order.asset, e.entered, e.left) == 1
       case Replaced(_) =>
         e.order.orderType.Trigger? && LeftInTick(e, rows) && Succeeds(e.order, rows[e.left][e.order.asset])
       case Deleted =>
         && e.entered <= e.left <= |rows| && Missed(e.order, rows, e.entered, e.left)
         && (IsIoc(e) ==> Count(rows, e.order.asset, e.entered, e.left) <= 1)
  }

  lemma {:induction false} CountIsLocal(rows: seq<Row>, row: Row, asset: Asset, from: nat, to: nat)
    requires to <= |rows|
    ensures Count(rows + [row], asset, from, to) == Count(rows, asset, from, to)
  {
    if to > from {
      CountIsLocal(rows, row, asset, from, to - 1);
    }
  }

  lemma MissedIsLocal(o: Order, rows: seq<Row>, row: Row, from: nat, to: nat)
    requires to <= |rows|
    ensures Missed(o, rows + [row], from, to) <==> Missed(o, rows, from, to)
  {
    assert forall u :: from <= u < to ==> (rows + [row])[u] == rows[u];
  }

  /** A life that is over stays as it was. */
  lemma OverStaysOk(e: Entry, id: nat, rows: seq<Row>, row: Row, fills: seq<Fill>, fills': seq<Fill>)
    requires LifeOk(e, id, rows, fills) && !e.fate.Resting? && fills <= fills'
    ensures LifeOk(e, id, rows + [row], fills')
  {
    CountIsLocal(rows, row, e.order.asset, e.entered, e.left);
    MissedIsLocal(e.order, rows, row, e.entered, e.left);
  }

  /** One tick in the life of a resting order. */
  lemma RestingStaysOk(e: Entry, id: nat, rows: seq<Row>, row: Row, fills: seq<Fill>, fills': seq<Fill>, fill: nat, child: nat)
    requires LifeOk(e, id, rows, fills) && e.fate.Resting? && fills <= fills'
    requires Trades(e, row) ==> fill < |fills'| && fills'[fill] == Execute(id, e.order, row[e.order.asset])
    ensures LifeOk(Advance(e, row, |rows|, fill, child), id, rows + [row], fills')
  {
    var t, rows' := |rows|, rows + [row];
    CountIsLocal(rows, row, e.order.asset, e.entered, t);
    MissedIsLocal(e.order, rows, row, e.entered, t);
    assert rows'[t] == row;
    assert Count(rows', e.order.asset, e.entered, t + 1)
           == Count(rows', e.order.asset, e.entered, t) + if e.order.asset in row then 1 else 0;
  }

  // ---------- how lives are connected ----------

  /** A replaced order has its child, which takes part from the next tick; a triggered order has its
      parent. */
  ghost predicate LinkOk(es: seq<Entry>, i: nat)
    requires i < |es|
  {
    && (es[i].fate.Replaced? ==>
          var c := es[i].fate.child;
          && i < c < |es| && es[i].order.orderType.Trigger? && es[c].origin == TriggeredBy(i)
          && es[c].order == Child(es[i].order) && es[c].entered == es[i].left + 1)
    && (es[i].origin.TriggeredBy? ==>
          var p := es[i].origin.parent;
          p < i && es[p].fate == Replaced(i))
  }

  /** Every fill belongs to the one entry that says so. */
  ghost predicate FillOk(es: seq<Entry>, fills: seq<Fill>, k: nat)
    requires k < |fills|
  {
    fills[k].oid < |es| && es[fills[k].oid].fate == Filled(k)
  }

  ghost predicate LedgerOk(j: Ledger) {
    && (forall i :: 0 <= i < |j.entries| ==> LifeOk(j.entries[i], i, j.rows, j.fills))
    && (forall i :: 0 <= i < |j.entries| ==> LinkOk(j.entries, i))
    && (forall k :: 0 <= k < |j.fills| ==> FillOk(j.entries, j.fills, k))
  }

  /** What a pass gives to entry `i`, `q` being the pass over the entries before it. */
  ghost predicate Given(p: Pass, q: Pass, e: Entry, i: nat, row: Row, t: nat, nextFill: nat, nextId: nat) {
    && i < |p.entries|
    && p.entries[i] == Advance(e, row, t, nextFill + |q.fills|, nextId + |q.spawned|)
    && (Trades(e, row) ==> |q.fills| < |p.fills| && p.fills[|q.fills|] == Execute(i, e.order, row[e.order.asset]))
    && (Spawns(e, row) ==> |q.spawned| < |p.spawned| && p.spawned[|q.spawned|] == Arrival(Child(e.order), TriggeredBy(i), t))
  }

  lemma GivenStays(p: Pass, p': Pass, q: Pass, e: Entry, i: nat, row: Row, t: nat, nextFill: nat, nextId: nat)
    requires Given(p, q, e, i, row, t, nextFill, nextId)
    requires p.entries <= p'.entries && p.fills <= p'.fills && p.spawned <= p'.spawned
    ensures Given(p', q, e, i, row, t, nextFill, nextId)
  {
  }

  /** Which fill and which child a pass gives to entry `i`. */
  lemma {:induction false} EntryAt(es: seq<Entry>, row: Row, t: nat, nextFill: nat, nextId: nat, i: nat)
    requires i < |es|
    ensures Given(Follow(es, row, t, nextFill, nextId), Follow(es[..i], row, t, nextFill, nextId), es[i], i, row, t, nextFill, nextId)
  {
    var n := |es| - 1;
    if i < n {
      assert es[..n][..i] == es[..i];
      EntryAt(es[..n], row, t, nextFill, nextId, i);
      GivenStays(Follow(es[..n], row, t, nextFill, nextId), Follow(es, row, t, nextFill, nextId),
                 Follow(es[..i], row, t, nextFill, nextId), es[i], i, row, t, nextFill, nextId);
    }
  }

  /** The other way round: whose fill the k-th is ... */
  lemma {:induction false} FillFrom(es: seq<Entry>, row: Row, t: nat, nextFill: nat, nextId: nat, k: nat) returns (i: nat)
    requires k < |Follow(es, row, t, nextFill, nextId).fills|
    ensures i < |es| && Trades(es[i], row) && |Follow(es[..i], row, t, nextFill, nextId).fills| == k
    ensures Follow(es, row, t, nextFill, nextId).fills[k].oid == i
  {
    var n := |es| - 1;
    if k < |Follow(es[..n], row, t, nextFill, nextId).fills| {
      i := FillFrom(es[..n], row, t, nextFill, nextId, k);
      assert es[..n][..i] == es[..i];
    } else {
      i := n;
    }
  }

  /** ... and whose child. */
  lemma {:induction false} SpawnFrom(es: seq<Entry>, row: Row, t: nat, nextFill: nat, nextId: nat, k: nat) returns (i: nat)
    requires k < |Follow(es, row, t, nextFill, nextId).spawned|
    ensures i < |es| && Spawns(es[i], row) && |Follow(es[..i], row, t, nextFill, nextId).spawned| == k
    ensures Follow(es, row, t, nextFill, nextId).spawned[k] == Arrival(Child(es[i].order), TriggeredBy(i), t)
  {
    var n := |es| - 1;
    if k < |Follow(es[..n], row, t, nextFill, nextId).spawned| {
      i := SpawnFrom(es[..n], row, t, nextFill, nextId, k);
      assert es[..n][..i] == es[..i];
    } else {
      i := n;
    }
  }

  // ---------- every operation keeps it ----------

  lemma OldLife(j: Ledger, row: Row, i: nat)
    requires LedgerOk(j) && i < |j.entries|
    ensures LifeOk(LedgerTick(j, row).entries[i], i, j.rows + [row], LedgerTick(j, row).fills)
  {
    var t, nf, ni := |j.rows|, |j.fills|, |j.entries|;
    EntryAt(j.entries, row, t, nf, ni, i);
    var q, e, fills' := Follow(j.entries[..i], row, t, nf, ni), j.entries[i], LedgerTick(j, row).fills;
    assert LifeOk(e, i, j.rows, j.fills);
    if e.fate.Resting? {
      RestingStaysOk(e, i, j.rows, row, j.fills, fills', nf + |q.fills|, ni + |q.spawned|);
    } else {
      OverStaysOk(e, i, j.rows, row, j.fills, fills');
    }
  }

  lemma NewLife(j: Ledger, row: Row, i: nat)
    requires |j.entries| <= i < |LedgerTick(j, row).entries|
    ensures LifeOk(LedgerTick(j, row).entries[i], i, j.rows + [row], LedgerTick(j, row).fills)
  {
    var t, nf, ni := |j.rows|, |j.fills|, |j.entries|;
    if i < ni + |Follow(j.entries, row, t, nf, ni).spawned| {
      var parent := SpawnFrom(j.entries, row, t, nf, ni, i - ni);
    }
  }

  /** A tick never changes whose an entry is, nor a life that is over. */
  lemma TickLeaves(j: Ledger, row: Row, i: nat)
    requires i < |j.entries|
    ensures var es' := LedgerTick(j, row).entries;
            && i < |es'|
            && es'[i].order == j.entries[i].order && es'[i].origin == j.entries[i].origin && es'[i].entered == j.entries[i].entered
            && (!j.entries[i].fate.Resting? ==> es'[i] == j.entries[i])
  {
    EntryAt(j.entries, row, |j.rows|, |j.fills|, |j.entries|, i);
  }

  lemma NewChild(j: Ledger, row: Row, i: nat)
    requires i < |j.entries| && j.entries[i].fate.Resting? && LedgerTick(j, row).entries[i].fate.Replaced?
    ensures j.entries[i].order.orderType.Trigger?
    ensures var es' := LedgerTick(j, row).entries;
            var c := es'[i].fate.child;
            i < c < |es'| && es'[c] == Arrival(Child(j.entries[i].order), TriggeredBy(i), |j.rows|) && es'[i].left == |j.rows|
  {
    EntryAt(j.entries, row, |j.rows|, |j.fills|, |j.entries|, i);
  }

  lemma OldLink(j: Ledger, row: Row, i: nat)
    requires LedgerOk(j) && i < |j.entries|
    ensures LinkOk(LedgerTick(j, row).entries, i)
  {
    var e := j.entries[i];
    assert LinkOk(j.entries, i);
    TickLeaves(j, row, i);
    if e.fate.Replaced? {
      TickLeaves(j, row, e.fate.child);
    } else if e.fate.Resting? && LedgerTick(j, row).entries[i].fate.Replaced? {
      NewChild(j, row, i);
    }
    if e.origin.TriggeredBy? {
      TickLeaves(j, row, e.origin.parent);
    }
  }

  lemma NewLink(j: Ledger, row: Row, i: nat)
    requires |j.entries| <= i < |LedgerTick(j, row).entries|
    ensures LinkOk(LedgerTick(j, row).entries, i)
  {
    var t, nf, ni := |j.rows|, |j.fills|, |j.entries|;
    if i < ni + |Follow(j.entries, row, t, nf, ni).spawned| {
      var parent := SpawnFrom(j.entries, row, t, nf, ni, i - ni);
      EntryAt(j.entries, row, t, nf, ni, parent);
      SpawnedRest(j.entries, row, t, nf, ni);
    }
  }

  lemma OldFill(j: Ledger, row: Row, k: nat)
    requires LedgerOk(j) && k < |j.fills|
    ensures FillOk(LedgerTick(j, row).entries, LedgerTick(j, row).fills, k)
  {
    assert FillOk(j.entries, j.fills, k);
    TickLeaves(j, row, j.fills[k].oid);
  }

  lemma NewFill(j: Ledger, row: Row, k: nat)
    requires |j.fills| <= k < |LedgerTick(j, row).fills|
    ensures FillOk(LedgerTick(j, row).entries, LedgerTick(j, row).fills, k)
  {
    var t, nf, ni := |j.rows|, |j.fills|, |j.entries|;
    var i := FillFrom(j.entries, row, t, nf, ni, k - nf);
    EntryAt(j.entries, row, t, nf, ni, i);
  }

  lemma TickKeepsLedgerOk(j: Ledger, row: Row)
    requires LedgerOk(j)
    ensures LedgerOk(LedgerTick(j, row))
  {
    var j' := LedgerTick(j, row);
    forall i | 0 <= i < |j'.entries| ensures LifeOk(j'.entries[i], i, j'.rows, j'.fills) && LinkOk(j'.entries, i) {
      if i < |j.entries| {
        OldLife(j, row, i);
        OldLink(j, row, i);
      } else {
        NewLife(j, row, i);
        NewLink(j, row, i);
      }
    }
    forall k | 0 <= k < |j'.fills| ensures FillOk(j'.entries, j'.fills, k) {
      if k < |j.fills| {
        OldFill(j, row, k);
      } else {
        NewFill(j, row, k);
      }
    }
  }

  lemma StrikeKeepsLedgerOk(j: Ledger, k: Key)
    requires LedgerOk(j)
    ensures LedgerOk(j.(entries := Strike(j.entries, k, |j.rows|)))
  {
    var es' := Strike(j.entries, k, |j.rows|);
    forall i | 0 <= i < |es'| ensures LifeOk(es'[i], i, j.rows, j.fills) && LinkOk(es', i) {
      assert LifeOk(j.entries[i], i, j.rows, j.fills) && LinkOk(j.entries, i);
    }
    forall f | 0 <= f < |j.fills| ensures FillOk(es', j.fills, f) {
      assert FillOk(j.entries, j.fills, f);
    }
  }

  lemma {:induction false} RunIsOk(ops: seq<Op>)
    ensures LedgerOk(LedgerRun(ops))
  {
    if ops != [] {
      var n := |ops| - 1;
      var j := LedgerRun(ops[..n]);
      RunIsOk(ops[..n]);
      match ops[n]
      case SubmitOp(o) =>
      case DeleteOp(asset, id) => StrikeKeepsLedgerOk(j, Key(asset, id));
      case TickOp(row) => TickKeepsLedgerOk(j, row);
    }
  }

  // ---------- what follows for the exchange ----------

  /** Every id ever issued is in exactly one place: it rests in the book, or is in the trade log, or
      was replaced by the one order it triggered, or was deleted or expired and is in none. */
  lemma IdsArePartitioned(ops: seq<Op>, id: nat)
    requires id < ExchangeRun(ops).book.lastInserted
    ensures var e, es := ExchangeRun(ops), LedgerRun(ops).entries;
            && |es| == e.book.lastInserted
            && (es[id].fate.Resting? <==> exists o :: o in e.book.inner && o.orderId == id)
            && (es[id].fate.Filled? <==> exists k :: 0 <= k < |e.tradeLog| && e.tradeLog[k].oid == id)
            && (es[id].fate.Replaced? <==> exists c :: 0 <= c < |es| && es[c].origin == TriggeredBy(id))
  {
    RunAgrees(ops);
    RunIsOk(ops);
    var e, j := ExchangeRun(ops), LedgerRun(ops);
    var es := j.entries;
    assert LifeOk(es[id], id, j.rows, j.fills) && LinkOk(es, id);
    if es[id].fate.Resting? {
      EntryIsResting(es, id);
    }
    forall o | o in e.book.inner && o.orderId == id ensures es[id].fate.Resting? {
      RestingIsEntry(es, o);
    }
    if es[id].fate.Filled? {
      assert e.tradeLog[es[id].fate.fill].oid == id;
    }
    forall k | 0 <= k < |e.tradeLog| && e.tradeLog[k].oid == id ensures es[id].fate.Filled? {
      assert FillOk(es, j.fills, k);
    }
    if es[id].fate.Replaced? {
      assert es[es[id].fate.child].origin == TriggeredBy(id);
    }
    forall c | 0 <= c < |es| && es[c].origin == TriggeredBy(id) ensures es[id].fate == Replaced(c) {
      assert LinkOk(es, c);
    }
  }

  /** No order id appears twice in the trade log, and ids in the book rise from front to back. */
  lemma NoIdTwice(ops: seq<Op>)
    ensures var e := ExchangeRun(ops);
            && BookOk(e.book)
            && forall k, l :: 0 <= k < l < |e.tradeLog| ==> e.tradeLog[k].oid != e.tradeLog[l].oid
  {
    RunAgrees(ops);
    RunIsOk(ops);
    var e, j := ExchangeRun(ops), LedgerRun(ops);
    RestingBelow(j.entries);
    forall i | 0 <= i < |e.book.inner| ensures e.book.inner[i].orderId < e.book.lastInserted {
      assert e.book.inner[i] in e.book.inner;
    }
    forall k, l | 0 <= k < l < |e.tradeLog| ensures e.tradeLog[k].oid != e.tradeLog[l].oid {
      assert FillOk(j.entries, j.fills, k) && FillOk(j.entries, j.fills, l);
    }
  }

  /** Side, size, price and time of a fill are those of its order and of the quote it met; the price
      is inside the limit of a good-till-cancelled order, and within a tenth of it for an
      immediate-or-cancel one. */
  ghost predicate Honours(f: Fill, o: Order, q: Quote) {
    && f.coin == o.asset && f.sz == o.sz && f.side == (if o.isBuy then Ask else Bid)
    && f.px == (if o.isBuy then q.ask else q.bid) && f.time == q.date
    && (o.orderType == Limit(Gtc) ==> if o.isBuy then f.px <= o.limitPx else f.px >= o.limitPx)
    && (o.orderType == Limit(Ioc) ==> if o.isBuy then f.px <= o.limitPx * 1.1 else f.px >= o.limitPx * 0.9)
  }

  /** No quote of the asset in `rows[from..to]` was at a price the order fills or fires at. */
  ghost predicate OutOfReach(o: Order, rows: seq<Row>, from: nat, to: nat)
    requires to <= |rows|
  {
    forall u :: from <= u < to && o.asset in rows[u] ==> !InReach(o, rows[u][o.asset])
  }

  lemma SucceedsInReach(o: Order, q: Quote)
    ensures Succeeds(o, q) <==> InReach(o, q)
  {
  }

  lemma MissedIsOutOfReach(o: Order, rows: seq<Row>, from: nat, to: nat)
    requires to <= |rows|
    ensures Missed(o, rows, from, to) <==> OutOfReach(o, rows, from, to)
  {
    forall u | from <= u < to && o.asset in rows[u] ensures Succeeds(o, rows[u][o.asset]) <==> InReach(o, rows[u][o.asset]) {
      SucceedsInReach(o, rows[u][o.asset]);
    }
  }

  /** Every fill traces to one order that a client submitted, directly or through one trigger, and
      fills on the first quote in reach of that order since it entered.  Either way the fill has the
      asset, side and size that the client asked for. */
  lemma FillsTrace(ops: seq<Op>, k: nat)
    requires k < |ExchangeRun(ops).tradeLog|
    ensures var f, j := ExchangeRun(ops).tradeLog[k], LedgerRun(ops);
            && f.oid < |j.entries|
            && var e := j.entries[f.oid];
            && e.order.orderType.Limit? && LeftInTick(e, j.rows)
            && Honours(f, e.order, j.rows[e.left][e.order.asset])
            && OutOfReach(e.order, j.rows, e.entered, e.left) && InReach(e.order, j.rows[e.left][e.order.asset])
            && (e.origin.TriggeredBy? ==>
                  var p := e.origin.parent;
                  && p < f.oid && j.entries[p].origin == Client && j.entries[p].fate == Replaced(f.oid)
                  && FromTrigger(j.entries[p], e, f, j.rows))
  {
    RunAgrees(ops);
    RunIsOk(ops);
    var j := LedgerRun(ops);
    assert FillOk(j.entries, j.fills, k);
    var id := j.fills[k].oid;
    var e := j.entries[id];
    assert LifeOk(e, id, j.rows, j.fills) && LinkOk(j.entries, id);
    SucceedsHonours(j.fills[k], id, e.order, j.rows[e.left][e.order.asset]);
    MissedIsOutOfReach(e.order, j.rows, e.entered, e.left);
    SucceedsInReach(e.order, j.rows[e.left][e.order.asset]);
    if e.origin.TriggeredBy? {
      TriggerIsClients(j, id);
      FiredInReach(j, id);
    }
  }

  /** The trigger fired on the first quote in reach since it entered, and the order it left behind
      filled later, with its asset, side and size. */
  ghost predicate FromTrigger(parent: Entry, e: Entry, f: Fill, rows: seq<Row>) {
    && parent.order.orderType.Trigger? && LeftBehind(parent.order, e.order)
    && f.coin == parent.order.asset && f.sz == parent.order.sz && (f.side == Ask <==> parent.order.isBuy)
    && parent.left < e.entered && parent.entered <= parent.left < |rows| && parent.order.asset in rows[parent.left]
    && OutOfReach(parent.order, rows, parent.entered, parent.left)
    && InReach(parent.order, rows[parent.left][parent.order.asset])
  }

  /** What a triggered order has from its parent, and when. */
  lemma FiredInReach(j: Ledger, id: nat)
    requires LedgerOk(j) && id < |j.entries| && j.entries[id].origin.TriggeredBy?
    ensures var e := j.entries[id];
            && e.origin.parent < |j.entries|
            && var parent := j.entries[e.origin.parent];
               && parent.order.orderType.Trigger? && LeftBehind(parent.order, e.order)
               && parent.left < e.entered && LeftInTick(parent, j.rows)
               && OutOfReach(parent.order, j.rows, parent.entered, parent.left)
               && InReach(parent.order, j.rows[parent.left][parent.order.asset])
  {
    TriggerIsClients(j, id);
    var parent := j.entries[j.entries[id].origin.parent];
    assert LifeOk(parent, j.entries[id].origin.parent, j.rows, j.fills);
    ChildIsLeftBehind(parent.order);
    MissedIsOutOfReach(parent.order, j.rows, parent.entered, parent.left);
    SucceedsInReach(parent.order, j.rows[parent.left][parent.order.asset]);
  }

  lemma SucceedsHonours(f: Fill, id: nat, o: Order, q: Quote)
    requires f == Execute(id, o, q) && Succeeds(o, q) && o.orderType.Limit?
    ensures Honours(f, o, q)
  {
  }

  /** Only limit orders are triggered, so the parent of a triggered order was itself submitted. */
  lemma TriggerIsClients(j: Ledger, id: nat)
    requires LedgerOk(j) && id < |j.entries| && j.entries[id].origin.TriggeredBy?
    ensures var p := j.entries[id].origin.parent;
            && p < id && j.entries[p].order.orderType.Trigger? && j.entries[p].origin == Client
            && j.entries[p].fate == Replaced(id) && j.entries[id].order == Child(j.entries[p].order)
            && j.entries[id].entered == j.entries[p].left + 1
  {
    assert LinkOk(j.entries, id);
    var p := j.entries[id].origin.parent;
    assert LinkOk(j.entries, p);
    if j.entries[p].origin.TriggeredBy? {
      ChildIsLimit(j, p);
    }
  }

  lemma ChildIsLimit(j: Ledger, id: nat)
    requires LedgerOk(j) && id < |j.entries| && j.entries[id].origin.TriggeredBy?
    ensures j.entries[id].order.orderType.Limit?
  {
    assert LinkOk(j.entries, id);
    assert LinkOk(j.entries, j.entries[id].origin.parent);
  }

  /** A trigger order is never filled itself; it yields at most one fill, on a later tick than the
      one that triggered it. */
  lemma TriggersFillOnce(ops: seq<Op>, p: nat, k: nat, l: nat)
    requires k < |ExchangeRun(ops).tradeLog| && l < |ExchangeRun(ops).tradeLog|
    requires var j := LedgerRun(ops);
             && p < |j.entries| && j.entries[p].order.orderType.Trigger?
             && ExchangeRun(ops).tradeLog[k].oid < |j.entries| && ExchangeRun(ops).tradeLog[l].oid < |j.entries|
             && j.entries[ExchangeRun(ops).tradeLog[k].oid].origin == TriggeredBy(p)
             && j.entries[ExchangeRun(ops).tradeLog[l].oid].origin == TriggeredBy(p)
    ensures k == l && ExchangeRun(ops).tradeLog[k].oid != p
    ensures LedgerRun(ops).entries[p].left < LedgerRun(ops).entries[ExchangeRun(ops).tradeLog[k].oid].left
  {
    RunAgrees(ops);
    RunIsOk(ops);
    var j := LedgerRun(ops);
    assert FillOk(j.entries, j.fills, k) && FillOk(j.entries, j.fills, l);
    TriggerIsClients(j, j.fills[k].oid);
    TriggerIsClients(j, j.fills[l].oid);
    FillsTrace(ops, k);
  }

  /** An immediate-or-cancel order fills only on the first tick after its entry that quotes its
      asset, and it has left the book by the end of the second: while it rests there has been at
      most one such tick, and it missed it. */
  lemma IocLeavesInTime(ops: seq<Op>, id: nat)
    requires id < |LedgerRun(ops).entries| && LedgerRun(ops).entries[id].order.orderType == Limit(Ioc)
    ensures var j := LedgerRun(ops);
            var e := j.entries[id];
            var asset := e.order.asset;
            && e.entered <= |j.rows|
            && (e.fate.Filled? ==> LeftInTick(e, j.rows) && Count(j.rows, asset, e.entered, e.left) == 0)
            && (e.fate.Expired? ==> LeftInTick(e, j.rows) && Count(j.rows, asset, e.entered, e.left) == 1)
            && (Count(j.rows, asset, e.entered, |j.rows|) >= 2 ==>
                  forall o :: o in ExchangeRun(ops).book.inner ==> o.orderId != id)
  {
    RunAgrees(ops);
    RunIsOk(ops);
    var j := LedgerRun(ops);
    assert LifeOk(j.entries[id], id, j.rows, j.fills);
    forall o | o in ExchangeRun(ops).book.inner && o.orderId == id
      ensures Count(j.rows, j.entries[id].order.asset, j.entries[id].entered, |j.rows|) <= 1
    {
      RestingIsEntry(j.entries, o);
    }
  }

  /** What still rests has not missed a chance: no quote since its entry was at a price that fills
      it, or triggers it. */
  lemma RestingMissedNothing(ops: seq<Op>, o: InnerOrder)
    requires o in ExchangeRun(ops).book.inner
    ensures var j := LedgerRun(ops);
            && o.orderId < |j.entries| && j.entries[o.orderId].order == o.order
            && j.entries[o.orderId].entered <= |j.rows|
            && OutOfReach(o.order, j.rows, j.entries[o.orderId].entered, |j.rows|)
  {
    RunAgrees(ops);
    RunIsOk(ops);
    var j := LedgerRun(ops);
    RestingIsEntry(j.entries, o);
    MissedIsOutOfReach(o.order, j.rows, j.entries[o.orderId].entered, |j.rows|);
    assert LifeOk(j.entries[o.orderId], o.orderId, j.rows, j.fills);
  }

  // ---------- every submitted order arrives ----------

  /** The orders clients have submitted, in order of submission. */
  function Submitted(ops: seq<Op>): seq<Order> {
    if ops == [] then []
    else
      var n := |ops| - 1;
      Submitted(ops[..n]) + match ops[n] case SubmitOp(o) => [o] case _ => []
  }

  /** The orders that were issued ids and did not come from a trigger, in order of their ids. */
  function ClientOrders(es: seq<Entry>): seq<Order> {
    if es == [] then []
    else
      var n := |es| - 1;
      ClientOrders(es[..n]) + if es[n].origin.Client? then [es[n].order] else []
  }

  lemma {:induction false} SameClients(es: seq<Entry>, es': seq<Entry>)
    requires |es| == |es'|
    requires forall i :: 0 <= i < |es| ==> es'[i].order == es[i].order && es'[i].origin == es[i].origin
    ensures ClientOrders(es') == ClientOrders(es)
  {
    if es != [] {
      SameClients(es[..|es| - 1], es'[..|es| - 1]);
    }
  }

  lemma {:induction false} ClientsConcat(a: seq<Entry>, b: seq<Entry>)
    ensures ClientOrders(a + b) == ClientOrders(a) + ClientOrders(b)
  {
    if b == [] {
      assert a + b == a;
    } else {
      var n := |b| - 1;
      ClientsConcat(a, b[..n]);
      assert (a + b)[..|a| + n] == a + b[..n];
    }
  }

  lemma {:induction false} SpawnedAreNoClients(es: seq<Entry>, row: Row, t: nat, nextFill: nat, nextId: nat)
    ensures ClientOrders(Follow(es, row, t, nextFill, nextId).spawned) == []
  {
    if es != [] {
      var n := |es| - 1;
      SpawnedAreNoClients(es[..n], row, t, nextFill, nextId);
      var init, all := Follow(es[..n], row, t, nextFill, nextId).spawned, Follow(es, row, t, nextFill, nextId).spawned;
      if Spawns(es[n], row) {
        var child := Arrival(Child(es[n].order), TriggeredBy(n), t);
        assert all == init + [child];
        assert all[..|init|] == init;
      } else {
        assert all == init;
      }
    }
  }

  lemma {:induction false} ArrivalsAreClients(os: seq<Order>, t: nat)
    ensures ClientOrders(Arrivals(os, t)) == os
  {
    if os != [] {
      var n := |os| - 1;
      ArrivalsAreClients(os[..n], t);
      assert Arrivals(os, t)[..n] == Arrivals(os[..n], t);
    }
  }

  lemma PassClients(es: seq<Entry>, row: Row, t: nat, nextFill: nat, nextId: nat)
    ensures ClientOrders(Follow(es, row, t, nextFill, nextId).entries) == ClientOrders(es)
  {
    var p := Follow(es, row, t, nextFill, nextId);
    forall i | 0 <= i < |es| ensures p.entries[i].order == es[i].order && p.entries[i].origin == es[i].origin {
      EntryAt(es, row, t, nextFill, nextId, i);
    }
    SameClients(es, p.entries);
  }

  lemma TickClients(j: Ledger, row: Row)
    ensures ClientOrders(LedgerTick(j, row).entries) == ClientOrders(j.entries) + SortBuffer(j.buffer)
  {
    var t, nf, ni := |j.rows|, |j.fills|, |j.entries|;
    var p, arrivals := Follow(j.entries, row, t, nf, ni), Arrivals(SortBuffer(j.buffer), t);
    PassClients(j.entries, row, t, nf, ni);
    SpawnedAreNoClients(j.entries, row, t, nf, ni);
    ArrivalsAreClients(SortBuffer(j.buffer), t);
    ClientsConcat(p.entries, p.spawned);
    ClientsConcat(p.entries + p.spawned, arrivals);
  }

  /** Everything a client ever submitted that is on record. */
  function OnRecord(j: Ledger): multiset<Order> {
    multiset(ClientOrders(j.entries)) + multiset(j.buffer)
  }

  lemma TickLosesNothing(j: Ledger, row: Row)
    ensures OnRecord(LedgerTick(j, row)) == OnRecord(j)
  {
    TickClients(j, row);
    SortedBuffer(j.buffer);
    var sorted, known := SortBuffer(j.buffer), ClientOrders(j.entries);
    assert multiset(known + sorted) == multiset(known) + multiset(sorted);
  }

  lemma StrikeLosesNothing(j: Ledger, k: Key)
    ensures OnRecord(j.(entries := Strike(j.entries, k, |j.rows|))) == OnRecord(j)
  {
    SameClients(j.entries, Strike(j.entries, k, |j.rows|));
  }

  lemma {:induction false} LedgerLosesNothing(ops: seq<Op>)
    ensures OnRecord(LedgerRun(ops)) == multiset(Submitted(ops))
  {
    if ops != [] {
      var n := |ops| - 1;
      LedgerLosesNothing(ops[..n]);
      var j := LedgerRun(ops[..n]);
      match ops[n]
      case SubmitOp(o) => assert multiset(j.buffer + [o]) == multiset(j.buffer) + multiset{o};
      case DeleteOp(asset, id) => StrikeLosesNothing(j, Key(asset, id));
      case TickOp(row) => TickLosesNothing(j, row);
    }
  }

  /** No submitted order is lost or doubled: each waits in the buffer or has been issued one id. */
  lemma NothingIsLost(ops: seq<Op>)
    ensures multiset(ClientOrders(LedgerRun(ops).entries)) + multiset(ExchangeRun(ops).buffer) == multiset(Submitted(ops))
  {
    RunAgrees(ops);
    LedgerLosesNothing(ops);
  }

  // ---------- the unsupported kind of order ----------

  /** As long as clients submit no order of the unsupported kind, no tick ever meets one. */
  lemma NoneUnsupported(ops: seq<Op>, row: Row)
    requires forall o :: o in Submitted(ops) ==> Supported(o)
    ensures AllSupported(ExchangeRun(ops).book.inner, row)
  {
    RunAgrees(ops);
    RunIsOk(ops);
    var j, inner := LedgerRun(ops), ExchangeRun(ops).book.inner;
    forall i | 0 <= i < |inner| ensures Supported(inner[i].order) {
      RestingIsEntry(j.entries, inner[i]);
      var id := inner[i].orderId;
      if j.entries[id].origin.Client? {
        ClientOrderAt(j.entries, id);
        NothingIsLost(ops);
        assert j.entries[id].order in multiset(Submitted(ops));
      } else {
        TriggerIsClients(j, id);
      }
    }
  }

  lemma {:induction false} ClientOrderAt(es: seq<Entry>, i: nat)
    requires i < |es| && es[i].origin.Client?
    ensures es[i].order in ClientOrders(es)
  {
    if i < |es| - 1 {
      ClientOrderAt(es[..|es| - 1], i);
    }
  }
}
