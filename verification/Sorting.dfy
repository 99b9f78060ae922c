/** The sort both exchanges apply to their order buffer: an insertion sort whose comparator looks
    at its first argument only.  What the comparator calls less moves all the way to the front,
    everything else stays where it is. */
module Sorting {

  function FrontFirst<T>(buffer: seq<T>, less: T -> bool): seq<T> {
    if buffer == [] then []
    else
      var n := |buffer| - 1;
      if less(buffer[n]) then [buffer[n]] + FrontFirst(buffer[..n], less) else FrontFirst(buffer[..n], less) + [buffer[n]]
  }

  /** The result is a permutation in which everything the comparator calls less comes first. */
  lemma {:induction false} FrontFirstIsPartition<T>(buffer: seq<T>, less: T -> bool)
    ensures var r := FrontFirst(buffer, less);
            && multiset(r) == multiset(buffer) && |r| == |buffer|
            && forall i, j :: 0 <= i < j < |r| && less(r[j]) ==> less(r[i])
  {
    if buffer != [] {
      var n := |buffer| - 1;
      FrontFirstIsPartition(buffer[..n], less);
      assert buffer == buffer[..n] + [buffer[n]];
    }
  }

  function Where<T>(buffer: seq<T>, p: T -> bool): seq<T> {
    if buffer == [] then []
    else Where(buffer[..|buffer| - 1], p) + if p(buffer[|buffer| - 1]) then [buffer[|buffer| - 1]] else []
  }

  function Reversed<T>(xs: seq<T>): (r: seq<T>)
    ensures |r| == |xs|
    ensures forall i :: 0 <= i < |xs| ==> r[i] == xs[|xs| - 1 - i]
  {
    seq(|xs|, i requires 0 <= i < |xs| => xs[|xs| - 1 - i])
  }

  lemma ReversedSnoc<T>(xs: seq<T>, x: T)
    ensures Reversed(xs + [x]) == [x] + Reversed(xs)
  {
  }

  /** In which order: what is less comes last in first out, the rest first in first out. */
  lemma {:induction false} FrontFirstOrder<T>(buffer: seq<T>, less: T -> bool)
    ensures FrontFirst(buffer, less) == Reversed(Where(buffer, less)) + Where(buffer, (x: T) => !less(x))
  {
    var rest := (x: T) => !less(x);
    if buffer != [] {
      var init, x := buffer[..|buffer| - 1], buffer[|buffer| - 1];
      FrontFirstOrder(init, less);
      if less(x) {
        ReversedSnoc(Where(init, less), x);
        assert Where(buffer, rest) == Where(init, rest);
      } else {
        assert Where(buffer, less) == Where(init, less);
      }
    }
  }

  /** `sorted ++ tail` with `x` slid in at position `j`. */
  ghost function Slid<T>(sorted: seq<T>, j: nat, x: T, tail: seq<T>): seq<T>
    requires j <= |sorted|
  {
    sorted[..j] + [x] + sorted[j..] + tail
  }

  lemma SlideLeft<T>(sorted: seq<T>, j: nat, x: T, tail: seq<T>)
    requires 0 < j <= |sorted|
    ensures var b := Slid(sorted, j, x, tail); b[j := b[j - 1]][j - 1 := x] == Slid(sorted, j - 1, x, tail)
  {
    assert sorted[j - 1..] == [sorted[j - 1]] + sorted[j..];
    assert sorted[..j] == sorted[..j - 1] + [sorted[j - 1]];
  }

  lemma SortOneMore<T>(input: seq<T>, i: nat, less: T -> bool)
    requires i < |input| && |FrontFirst(input[..i], less)| == i
    ensures FrontFirst(input[..i], less) + input[i..] == Slid(FrontFirst(input[..i], less), i, input[i], input[i + 1..])
    ensures Slid(FrontFirst(input[..i], less), if less(input[i]) then 0 else i, input[i], input[i + 1..])
            == FrontFirst(input[..i + 1], less) + input[i + 1..]
    ensures |FrontFirst(input[..i + 1], less)| == i + 1
  {
    var sorted := FrontFirst(input[..i], less);
    assert input[..i + 1][..i] == input[..i];
    assert input[i..] == [input[i]] + input[i + 1..];
    assert sorted[..i] == sorted && sorted[i..] == [];
    assert sorted[..0] == [] && sorted[0..] == sorted;
  }

  /** One insertion: the element at `i` moves left while the comparator calls it less than its left
      neighbour, which the comparator decides from the element alone. */
  method ShiftIntoPlace<T>(buffer: seq<T>, i: nat, less: T -> bool, ghost sorted: seq<T>, x: T, ghost tail: seq<T>)
    returns (r: seq<T>)
    requires i == |sorted| && buffer == Slid(sorted, i, x, tail)
    ensures r == Slid(sorted, if less(x) then 0 else i, x, tail)
  {
    r := buffer;
    var j := i;
    while j > 0 && less(x)
      invariant 0 <= j <= i == |sorted|
      invariant !less(x) ==> j == i
      invariant r == Slid(sorted, j, x, tail)
    {
      SlideLeft(sorted, j, x, tail);
      r := r[j := r[j - 1]][j - 1 := x];
      j := j - 1;
    }
  }

  method SortBy<T>(buffer: seq<T>, less: T -> bool) returns (r: seq<T>)
    ensures r == FrontFirst(buffer, less)
  {
    r := buffer;
    var i := 0;
    while i < |r|
      invariant i <= |r| == |buffer|
      invariant |FrontFirst(buffer[..i], less)| == i
      invariant r == FrontFirst(buffer[..i], less) + buffer[i..]
    {
      SortOneMore(buffer, i, less);
      r := ShiftIntoPlace(r, i, less, FrontFirst(buffer[..i], less), r[i], buffer[i + 1..]);
      i := i + 1;
    }
    assert buffer[..i] == buffer;
  }
}
