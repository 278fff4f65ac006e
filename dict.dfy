/**
 * Python dictionaries as the importers use them: an insertion-ordered list of
 * key/value entries in which assigning to a present key replaces its value in
 * place and assigning to a new key appends it.
 */
module Dict {
  import opened Wrappers

  type Dict<K, V> = seq<(K, V)>

  /** list(d.keys()). */
  function Keys<K, V>(d: Dict<K, V>): (ks: seq<K>)
    ensures |ks| == |d|
    ensures forall i :: 0 <= i < |d| ==> ks[i] == d[i].0
  {
    seq(|d|, i requires 0 <= i < |d| => d[i].0)
  }

  /** No key occurs twice. */
  predicate DistinctKeys<K(==), V>(d: Dict<K, V>) {
    forall i, j :: 0 <= i < j < |d| ==> Keys(d)[i] != Keys(d)[j]
  }

  /** d.get(k). */
  function Get<K(==), V>(d: Dict<K, V>, k: K): (r: Option<V>)
    ensures r.None? <==> k !in Keys(d)
    decreases |d|
  {
    if |d| == 0 then None
    else if d[0].0 == k then Some(d[0].1)
    else
      assert Keys(d) == [d[0].0] + Keys(d[1..]);
      Get(d[1..], k)
  }

  lemma KeysCons<K, V>(x: (K, V), d: Dict<K, V>)
    ensures Keys([x] + d) == [x.0] + Keys(d)
  {
  }

  lemma GetCons<K, V>(x: (K, V), d: Dict<K, V>, k: K)
    ensures Get([x] + d, k) == if x.0 == k then Some(x.1) else Get(d, k)
  {
    assert ([x] + d)[1..] == d;
  }

  /** d[k] = v: a present key keeps its place and takes the new value, a new key goes last. */
  function Put<K(==,!new), V>(d: Dict<K, V>, k: K, v: V): (r: Dict<K, V>)
    ensures Get(r, k) == Some(v)
    ensures forall k' :: k' != k ==> Get(r, k') == Get(d, k')
    ensures Keys(r) == if k in Keys(d) then Keys(d) else Keys(d) + [k]
    decreases |d|
  {
    if |d| == 0 then [(k, v)]
    else
      var x, tail := d[0], d[1..];
      assert Keys(d) == [x.0] + Keys(tail);
      assert forall k' :: Get(d, k') == if x.0 == k' then Some(x.1) else Get(tail, k');
      if x.0 == k then
        KeysCons((k, v), tail);
        assert forall k' :: Get([(k, v)] + tail, k') == if k == k' then Some(v) else Get(tail, k') by {
          forall k' { GetCons((k, v), tail, k'); }
        }
        [(k, v)] + tail
      else
        var rest := Put(tail, k, v);
        KeysCons(x, rest);
        assert forall k' :: Get([x] + rest, k') == if x.0 == k' then Some(x.1) else Get(rest, k') by {
          forall k' { GetCons(x, rest, k'); }
        }
        [x] + rest
  }

  /** Put keeps the keys distinct. */
  lemma PutDistinct<K(!new), V>(d: Dict<K, V>, k: K, v: V)
    requires DistinctKeys(d)
    ensures DistinctKeys(Put(d, k, v))
  {
  }

  /** The dictionary built by assigning the entries one after another. */
  function FromPairs<K(==,!new), V>(ps: seq<(K, V)>): (d: Dict<K, V>)
    ensures DistinctKeys(d)
    decreases |ps|
  {
    if |ps| == 0 then []
    else
      var d := FromPairs(ps[..|ps| - 1]);
      PutDistinct(d, ps[|ps| - 1].0, ps[|ps| - 1].1);
      Put(d, ps[|ps| - 1].0, ps[|ps| - 1].1)
  }

  /** Building from one more entry is one more assignment. */
  lemma FromPairsSnoc<K(!new), V>(ps: seq<(K, V)>, k: K, v: V)
    ensures FromPairs(ps + [(k, v)]) == Put(FromPairs(ps), k, v)
  {
    assert (ps + [(k, v)])[..|ps|] == ps;
  }

  /** The value of the last entry with key k, if any. */
  function LastValue<K(==), V>(ps: seq<(K, V)>, k: K): Option<V>
    decreases |ps|
  {
    if |ps| == 0 then None
    else if ps[|ps| - 1].0 == k then Some(ps[|ps| - 1].1)
    else LastValue(ps[..|ps| - 1], k)
  }

  /** Later assignments win: a key maps to the value of its last entry. */
  lemma {:induction false} FromPairsGet<K(!new), V>(ps: seq<(K, V)>, k: K)
    ensures Get(FromPairs(ps), k) == LastValue(ps, k)
    decreases |ps|
  {
    if |ps| > 0 {
      FromPairsGet(ps[..|ps| - 1], k);
    }
  }

  /** A key is present exactly when some entry carries it. */
  lemma {:induction false} FromPairsKeys<K(!new), V>(ps: seq<(K, V)>, k: K)
    ensures k in Keys(FromPairs(ps)) <==> exists i :: 0 <= i < |ps| && ps[i].0 == k
    decreases |ps|
  {
    if |ps| > 0 {
      var init := ps[..|ps| - 1];
      FromPairsKeys(init, k);
      if exists i :: 0 <= i < |init| && init[i].0 == k {
        var i :| 0 <= i < |init| && init[i].0 == k;
        assert ps[i].0 == k;
      }
      if exists i :: 0 <= i < |ps| && ps[i].0 == k {
        var i :| 0 <= i < |ps| && ps[i].0 == k;
        if i < |init| {
          assert init[i].0 == k;
        }
      }
    }
  }

  /** The last entry with key k gives its value. */
  lemma {:induction false} LastValueAt<K, V>(ps: seq<(K, V)>, k: K, j: int)
    requires 0 <= j < |ps| && ps[j].0 == k
    requires forall m :: j < m < |ps| ==> ps[m].0 != k
    ensures LastValue(ps, k) == Some(ps[j].1)
    decreases |ps|
  {
    if j < |ps| - 1 {
      LastValueAt(ps[..|ps| - 1], k, j);
    }
  }

  /** Two entries with the same key make one: the dictionary is shorter than the entries. */
  lemma {:induction false} FromPairsMerges<K(!new), V>(ps: seq<(K, V)>, i: int, j: int)
    requires 0 <= i < j < |ps| && ps[i].0 == ps[j].0
    ensures |FromPairs(ps)| < |ps|
    decreases |ps|
  {
    var init := ps[..|ps| - 1];
    var d := FromPairs(init);
    if j < |ps| - 1 {
      FromPairsMerges(init, i, j);
    } else {
      FromPairsKeys(init, ps[j].0);
      assert init[i].0 == ps[j].0;
    }
    FromPairsAtMost(init);
    assert |Keys(d)| == |d|;
  }

  /** Each entry adds at most one key. */
  lemma {:induction false} FromPairsAtMost<K(!new), V>(ps: seq<(K, V)>)
    ensures |FromPairs(ps)| <= |ps|
    decreases |ps|
  {
    if |ps| > 0 {
      FromPairsAtMost(ps[..|ps| - 1]);
      assert |Keys(FromPairs(ps[..|ps| - 1]))| == |FromPairs(ps[..|ps| - 1])|;
    }
  }
}
