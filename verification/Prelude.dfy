/** Small helpers shared by every component. */
module Prelude {

  datatype Option<+T> = None | Some(value: T)

  /** The value at `k`, or `default` when the map has no such key (`unwrap_or`). */
  function Lookup<K, V>(m: map<K, V>, k: K, default: V): V {
    if k in m then m[k] else default
  }

  /** `ks` lists every element of `keys` exactly once: one possible iteration order of a hash map. */
  ghost predicate IsEnumeration<K(!new)>(ks: seq<K>, keys: set<K>) {
    && (forall k :: k in ks <==> k in keys)
    && (forall i, j :: 0 <= i < j < |ks| ==> ks[i] != ks[j])
  }

  function Min(a: int, b: int): int {
    if a <= b then a else b
  }

  function Abs(x: real): real {
    if x < 0.0 then -x else x
  }

  /** Some iteration order of a finite key set; which one is left open, as with a hash map. */
  method Enumerate<K(==,!new)>(keys: set<K>) returns (ks: seq<K>)
    ensures IsEnumeration(ks, keys)
  {
    ks := [];
    var left := keys;
    while left != {}
      invariant left <= keys
      invariant forall k :: k in ks <==> k in keys && k !in left
      invariant forall i, j :: 0 <= i < j < |ks| ==> ks[i] != ks[j]
      decreases |left|
    {
      var k :| k in left;
      ks := ks + [k];
      left := left - {k};
    }
  }
}
