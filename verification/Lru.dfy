/** The bounded recency list behind the anonymous statement cache: most recently used entry first. */
module Lru {
  import opened Wire

  datatype Lru<V> = Lru(cap: nat, entries: seq<(nat, V)>)

  function Lookup<V>(es: seq<(nat, V)>, k: nat): Option<V> {
    if es == [] then None
    else if es[0].0 == k then Some(es[0].1)
    else Lookup(es[1..], k)
  }

  function Without<V>(es: seq<(nat, V)>, k: nat): seq<(nat, V)> {
    if es == [] then []
    else if es[0].0 == k then es[1..]
    else [es[0]] + Without(es[1..], k)
  }

  ghost predicate DistinctKeys<V>(es: seq<(nat, V)>) {
    forall i, j :: 0 <= i < j < |es| ==> es[i].0 != es[j].0
  }

  ghost predicate ValidLru<V>(l: Lru<V>) {
    l.cap > 0 && |l.entries| <= l.cap && DistinctKeys(l.entries)
  }

  /** A successful read moves the entry to the front. */
  function LruGet<V>(l: Lru<V>, k: nat): (Lru<V>, Option<V>) {
    match Lookup(l.entries, k)
    case None => (l, None)
    case Some(v) => (l.(entries := [(k, v)] + Without(l.entries, k)), Some(v))
  }

  /** Insert at the front; the displaced pair is the old value of the key, or the last entry of a full list. */
  function LruPush<V>(l: Lru<V>, k: nat, v: V): (Lru<V>, Option<(nat, V)>) {
    match Lookup(l.entries, k)
    case Some(prev) => (l.(entries := [(k, v)] + Without(l.entries, k)), Some((k, prev)))
    case None =>
      if l.entries != [] && |l.entries| >= l.cap then
        var n := |l.entries| - 1;
        (l.(entries := [(k, v)] + l.entries[..n]), Some(l.entries[n]))
      else (l.(entries := [(k, v)] + l.entries), None)
  }

  function LruPop<V>(l: Lru<V>, k: nat): (Lru<V>, Option<V>) {
    (l.(entries := Without(l.entries, k)), Lookup(l.entries, k))
  }

  lemma {:induction false} LookupHas<V>(es: seq<(nat, V)>, k: nat)
    ensures Lookup(es, k).Some? <==> exists i :: 0 <= i < |es| && es[i].0 == k
    ensures DistinctKeys(es) ==> forall i :: 0 <= i < |es| && es[i].0 == k ==> Lookup(es, k) == Some(es[i].1)
  {
    if es != [] {
      LookupHas(es[1..], k);
      if es[0].0 != k {
        forall i | 0 <= i < |es| && es[i].0 == k ensures es[1..][i - 1] == es[i] {}
        if Lookup(es, k).Some? {
          var i :| 0 <= i < |es[1..]| && es[1..][i].0 == k;
          assert es[i + 1].0 == k;
        }
      }
    }
  }

  lemma {:induction false} WithoutKeeps<V>(es: seq<(nat, V)>, k: nat)
    requires DistinctKeys(es)
    ensures DistinctKeys(Without(es, k))
    ensures |Without(es, k)| == |es| - (if Lookup(es, k).Some? then 1 else 0)
    ensures forall i :: 0 <= i < |Without(es, k)| ==> Without(es, k)[i] in es && Without(es, k)[i].0 != k
    ensures forall j :: Lookup(Without(es, k), j) == if j == k then None else Lookup(es, j)
  {
    if es != [] {
      var t := es[1..];
      WithoutKeeps(t, k);
      if es[0].0 == k {
        LookupHas(t, k);
      } else {
        var w := Without(es, k);
        assert w[1..] == Without(t, k);
        forall i | 0 <= i < |Without(t, k)| ensures Without(t, k)[i].0 != es[0].0 {
          assert Without(t, k)[i] in t;
        }
      }
    }
  }

  lemma {:induction false} WithoutCuts<V>(es: seq<(nat, V)>, k: nat) returns (i: nat)
    ensures i <= |es|
    ensures Without(es, k) == es[..i] + if i < |es| then es[i + 1..] else []
  {
    if es == [] {
      i := 0;
    } else if es[0].0 == k {
      i := 0;
      assert es[..0] == [];
    } else {
      var j := WithoutCuts(es[1..], k);
      i := j + 1;
      assert es[..i] == [es[0]] + es[1..][..j];
    }
  }
}
