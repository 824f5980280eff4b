/**
 * Python `dict` as an association list in insertion order: assigning to an
 * existing key keeps its position, a new key goes to the end.
 */
module OrderedDict {
  import opened Wrappers

  predicate DistinctKeys<K(==), V>(d: seq<(K, V)>)
  {
    forall i, j :: 0 <= i < j < |d| ==> d[i].0 != d[j].0
  }

  /** `d.get(k)`. */
  function Find<K(==), V>(d: seq<(K, V)>, k: K): (r: Option<V>)
    ensures r.None? <==> forall i :: 0 <= i < |d| ==> d[i].0 != k
  {
    if d == [] then None
    else if d[0].0 == k then Some(d[0].1)
    else Find(d[1..], k)
  }

  /** `d[k] = v`. */
  function Put<K(==), V>(d: seq<(K, V)>, k: K, v: V): (r: seq<(K, V)>)
    ensures Find(d, k).None? ==> r == d + [(k, v)]
  {
    if d == [] then [(k, v)]
    else if d[0].0 == k then [(k, v)] + d[1..]
    else [d[0]] + Put(d[1..], k, v)
  }

  /** After `d[k] = v`, `k` holds `v` and every other key holds what it held. */
  lemma {:induction false} FindPut<K, V>(d: seq<(K, V)>, k: K, v: V, k': K)
    ensures Find(Put(d, k, v), k') == if k' == k then Some(v) else Find(d, k')
  {
    if d != [] && d[0].0 != k {
      FindPut(d[1..], k, v, k');
    }
  }

  /** With distinct keys, every entry is what its key finds. */
  lemma {:induction false} FindAt<K, V>(d: seq<(K, V)>, i: nat)
    requires DistinctKeys(d) && i < |d|
    ensures Find(d, d[i].0) == Some(d[i].1)
  {
    if i > 0 {
      FindAt(d[1..], i - 1);
    }
  }

  /** Assignment keeps the keys distinct. */
  lemma {:induction false} PutDistinct<K, V>(d: seq<(K, V)>, k: K, v: V)
    requires DistinctKeys(d)
    ensures DistinctKeys(Put(d, k, v))
  {
    if d != [] && d[0].0 != k {
      PutDistinct(d[1..], k, v);
      var r := Put(d, k, v);
      forall i, j | 0 <= i < j < |r| ensures r[i].0 != r[j].0 {
        if i == 0 {
          FindPut(d[1..], k, v, d[0].0);
          assert Find(r[1..], d[0].0).None?;
          assert r[1..][j - 1] == r[j];
        }
      }
    }
  }

  /** `del d[k]`, total: every entry under `k` is dropped. */
  function Remove<K(==), V>(d: seq<(K, V)>, k: K): (r: seq<(K, V)>)
    ensures |r| <= |d|
    ensures forall x :: x in r ==> x in d && x.0 != k
  {
    if d == [] then []
    else if d[0].0 == k then Remove(d[1..], k)
    else [d[0]] + Remove(d[1..], k)
  }

  /** After `del d[k]`, `k` is gone and every other key holds what it held. */
  lemma {:induction false} FindRemove<K, V>(d: seq<(K, V)>, k: K, k': K)
    ensures Find(Remove(d, k), k') == if k' == k then None else Find(d, k')
  {
    if d != [] {
      FindRemove(d[1..], k, k');
    }
  }

  /** Deleting a present key shortens a dictionary by one; deleting an absent key changes nothing. */
  lemma {:induction false} RemoveLength<K, V>(d: seq<(K, V)>, k: K)
    requires DistinctKeys(d)
    ensures Find(d, k).Some? ==> |Remove(d, k)| == |d| - 1
    ensures Find(d, k).None? ==> Remove(d, k) == d
  {
    if d != [] {
      RemoveLength(d[1..], k);
      if d[0].0 == k {
        assert Find(d[1..], k).None?;
      }
    }
  }

  /** Deleting keeps the keys distinct. */
  lemma {:induction false} RemoveDistinct<K, V>(d: seq<(K, V)>, k: K)
    requires DistinctKeys(d)
    ensures DistinctKeys(Remove(d, k))
  {
    if d != [] {
      RemoveDistinct(d[1..], k);
      if d[0].0 != k {
        var r := Remove(d, k);
        forall i, j | 0 <= i < j < |r| ensures r[i].0 != r[j].0 {
          if i == 0 {
            assert r[j] in Remove(d[1..], k);
            assert r[j] in d[1..];
          }
        }
      }
    }
  }

  /** Every entry after `d[k] = v` was already there or is the new one. */
  lemma {:induction false} PutEntries<K, V>(d: seq<(K, V)>, k: K, v: V)
    ensures forall x :: x in Put(d, k, v) ==> x in d || x == (k, v)
    ensures Find(d, k).Some? ==> |Put(d, k, v)| == |d|
  {
    if d != [] && d[0].0 != k {
      PutEntries(d[1..], k, v);
    }
  }
}
