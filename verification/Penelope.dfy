/** The price dataset: a list of dates, and for every date one row of quotes. */
module Penelope {
  import opened Prelude

  type Symbol = string

  datatype Quote = Quote(bid: real, ask: real, symbol: Symbol, date: int)

  type Row = map<Symbol, Quote>

  datatype Dataset = Dataset(dates: seq<int>, inner: map<int, Row>)

  const EMPTY := Dataset([], map[])

  function GetQuotes(ds: Dataset, date: int): Option<Row> {
    if date in ds.inner then Some(ds.inner[date]) else None
  }

  function GetDate(ds: Dataset, pos: nat): Option<int> {
    if pos < |ds.dates| then Some(ds.dates[pos]) else None
  }

  predicate HasNext(ds: Dataset, pos: nat) {
    |ds.dates| > pos
  }

  function WithQuote(ds: Dataset, q: Quote): Dataset {
    if q.date in ds.inner then
      ds.(inner := ds.inner[q.date := ds.inner[q.date][q.symbol := q]])
    else
      Dataset(ds.dates + [q.date], ds.inner[q.date := map[q.symbol := q]])
  }

  /** The dataset after adding `qs` one by one. */
  function Load(qs: seq<Quote>): Dataset {
    if qs == [] then EMPTY else WithQuote(Load(qs[..|qs| - 1]), qs[|qs| - 1])
  }

  /** The two indexes agree: each listed date has exactly one non-empty row, filed under the
      date and symbol its quotes carry. */
  ghost predicate Coherent(ds: Dataset) {
    && (forall i, j :: 0 <= i < j < |ds.dates| ==> ds.dates[i] != ds.dates[j])
    && (forall t :: t in ds.dates <==> t in ds.inner)
    && (forall t :: t in ds.inner ==> ds.inner[t] != map[])
    && (forall t, s :: t in ds.inner && s in ds.inner[t] ==>
          ds.inner[t][s].date == t && ds.inner[t][s].symbol == s)
  }

  ghost predicate Chronological(ds: Dataset) {
    forall i, j :: 0 <= i < j < |ds.dates| ==> ds.dates[i] < ds.dates[j]
  }

  ghost predicate InDateOrder(qs: seq<Quote>) {
    forall i, j :: 0 <= i < j < |qs| ==> qs[i].date <= qs[j].date
  }

  lemma NewDateIsDistinct(dates: seq<int>, date: int)
    requires date !in dates && forall i, j :: 0 <= i < j < |dates| ==> dates[i] != dates[j]
    ensures forall i, j :: 0 <= i < j < |dates + [date]| ==> (dates + [date])[i] != (dates + [date])[j]
    ensures forall t :: t in dates + [date] <==> t in dates || t == date
  {
    assert forall i :: 0 <= i < |dates| ==> dates[i] in dates;
  }

  lemma WithQuoteCoherent(ds: Dataset, q: Quote)
    requires Coherent(ds)
    ensures Coherent(WithQuote(ds, q))
  {
    var ds' := WithQuote(ds, q);
    assert q.symbol in ds'.inner[q.date];
    if q.date !in ds.inner {
      NewDateIsDistinct(ds.dates, q.date);
    }
  }

  /** The two indexes never drift apart, whatever is added in whatever order. */
  lemma {:induction false} LoadIsCoherent(qs: seq<Quote>)
    ensures Coherent(Load(qs))
    ensures qs != [] ==> Load(qs).dates != []
  {
    if qs != [] {
      var n := |qs| - 1;
      LoadIsCoherent(qs[..n]);
      WithQuoteCoherent(Load(qs[..n]), qs[n]);
    }
  }

  lemma {:induction false} LoadedDate(qs: seq<Quote>, t: int) returns (i: nat)
    requires t in Load(qs).inner
    ensures i < |qs| && qs[i].date == t
  {
    var n := |qs| - 1;
    if qs[n].date == t {
      i := n;
    } else {
      i := LoadedDate(qs[..n], t);
    }
  }

  /** Adding one quote keeps the dates sorted exactly when its date is already listed or is
      later than every listed date. */
  lemma AddQuoteChronological(ds: Dataset, q: Quote)
    requires Coherent(ds) && Chronological(ds)
    ensures Chronological(WithQuote(ds, q))
            <==> q.date in ds.inner || (forall t :: t in ds.dates ==> t < q.date)
  {
    var ds' := WithQuote(ds, q);
    if q.date !in ds.inner {
      var n := |ds.dates|;
      assert ds'.dates[n] == q.date;
      if Chronological(ds') {
        forall t | t in ds.dates ensures t < q.date {
          var i :| 0 <= i < n && ds.dates[i] == t;
          assert ds'.dates[i] < ds'.dates[n];
        }
      }
      assert forall i :: 0 <= i < n ==> ds'.dates[i] == ds.dates[i] && ds.dates[i] in ds.dates;
    }
  }

  /** Quotes added in date order give a sorted date index. */
  lemma {:induction false} LoadInOrderIsChronological(qs: seq<Quote>)
    requires InDateOrder(qs)
    ensures Chronological(Load(qs))
  {
    if qs != [] {
      var init, q := qs[..|qs| - 1], qs[|qs| - 1];
      LoadInOrderIsChronological(init);
      LoadIsCoherent(init);
      var ds := Load(init);
      if q.date !in ds.inner {
        forall t | t in ds.dates ensures t < q.date {
          assert t in ds.inner;
          var i := LoadedDate(init, t);
          assert qs[i].date <= qs[|qs| - 1].date;
          assert t != q.date;
        }
      }
      AddQuoteChronological(ds, q);
    }
  }

  function QuoteOf(ds: Dataset, date: int, symbol: Symbol): Option<Quote> {
    if date in ds.inner && symbol in ds.inner[date] then Some(ds.inner[date][symbol]) else None
  }

  predicate Concerns(q: Quote, date: int, symbol: Symbol) {
    q.date == date && q.symbol == symbol
  }

  lemma WithQuoteReads(ds: Dataset, q: Quote, date: int, symbol: Symbol)
    ensures QuoteOf(WithQuote(ds, q), date, symbol) == if Concerns(q, date, symbol) then Some(q) else QuoteOf(ds, date, symbol)
  {
  }

  /** The quote at `i` is the last one added for the date and symbol. */
  predicate IsLastFor(qs: seq<Quote>, i: nat, date: int, symbol: Symbol)
    requires i < |qs|
  {
    Concerns(qs[i], date, symbol) && forall k :: i < k < |qs| ==> !Concerns(qs[k], date, symbol)
  }

  /** A row holds, per symbol, the quote added last for that date and symbol; and nothing else. */
  lemma {:induction false} LoadKeepsLastQuote(qs: seq<Quote>, date: int, symbol: Symbol)
    ensures QuoteOf(Load(qs), date, symbol).Some? <==> exists i :: 0 <= i < |qs| && Concerns(qs[i], date, symbol)
    ensures forall i :: 0 <= i < |qs| && IsLastFor(qs, i, date, symbol) ==> QuoteOf(Load(qs), date, symbol) == Some(qs[i])
  {
    if qs != [] {
      var n := |qs| - 1;
      var init, q := qs[..n], qs[n];
      LoadKeepsLastQuote(init, date, symbol);
      WithQuoteReads(Load(init), q, date, symbol);
      if !Concerns(q, date, symbol) {
        assert forall i :: 0 <= i < n ==> init[i] == qs[i];
        forall i | 0 <= i < |qs| && IsLastFor(qs, i, date, symbol) ensures QuoteOf(Load(qs), date, symbol) == Some(qs[i]) {
          assert IsLastFor(init, i, date, symbol);
        }
      }
    }
  }

  class Penelope {
    var dates: seq<int>
    var inner: map<int, Row>

    ghost function View(): Dataset
      reads this
    {
      Dataset(dates, inner)
    }

    constructor ()
      ensures View() == EMPTY
    {
      dates, inner := [], map[];
    }

    method AddQuote(bid: real, ask: real, date: int, symbol: Symbol)
      modifies this
      ensures View() == WithQuote(old(View()), Quote(bid, ask, symbol, date))
    {
      var quote := Quote(bid, ask, symbol, date);
      if date in inner {
        var dateRow := inner[date];
        dateRow := dateRow[quote.symbol := quote];
        inner := inner[date := dateRow];
      } else {
        var dateRow := map[];
        dateRow := dateRow[quote.symbol := quote];
        inner := inner[date := dateRow];
        dates := dates + [date];
      }
    }
  }
}
