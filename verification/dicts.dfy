/** Python dictionaries as association lists: a sequence of (key, value)
    pairs in insertion order, which is the order a dict iterates in. */
module Dicts {
  import opened Wrappers

  type Dict<K, V> = seq<(K, V)>

  /** The keys, in iteration order. */
  function Keys<K, V>(d: Dict<K, V>): (ks: seq<K>)
    ensures |ks| == |d|
    ensures forall i :: 0 <= i < |d| ==> ks[i] == d[i].0
  {
    if d == [] then [] else [d[0].0] + Keys(d[1..])
  }

  /** A dictionary never holds a key twice. */
  predicate UniqueKeys<K(==), V>(d: Dict<K, V>) {
    forall i, j :: 0 <= i < j < |d| ==> d[i].0 != d[j].0
  }

  /** `d[k]` when `k in d`, and `None` where Python raises `KeyError`. */
  function Lookup<K(==), V>(d: Dict<K, V>, k: K): (r: Option<V>)
    ensures r.None? <==> k !in Keys(d)
  {
    if d == [] then None
    else if d[0].0 == k then Some(d[0].1)
    else Lookup(d[1..], k)
  }

  /** In a dictionary with unique keys, looking up the key stored at a
      position finds the value stored there. */
  lemma {:induction false} LookupAt<K, V>(d: Dict<K, V>, i: int)
    requires UniqueKeys(d)
    requires 0 <= i < |d|
    ensures Lookup(d, d[i].0) == Some(d[i].1)
  {
    if i > 0 {
      assert d[0].0 != d[i].0;
      assert d[1..][i - 1] == d[i];
      LookupAt(d[1..], i - 1);
    }
  }

  /** A key that is present is found at some position, and the lookup gives
      the value stored there. */
  lemma {:induction false} LookupFound<K, V>(d: Dict<K, V>, k: K)
    requires k in Keys(d)
    ensures exists i :: 0 <= i < |d| && d[i].0 == k && Lookup(d, k) == Some(d[i].1)
  {
    if d[0].0 != k {
      assert k in Keys(d[1..]) by {
        var n :| 0 <= n < |d| && Keys(d)[n] == k;
        assert n > 0 && Keys(d[1..])[n - 1] == k;
      }
      LookupFound(d[1..], k);
      var i :| 0 <= i < |d[1..]| && d[1..][i].0 == k && Lookup(d[1..], k) == Some(d[1..][i].1);
      assert d[i + 1] == d[1..][i];
    }
  }
}
