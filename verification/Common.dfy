/** Identifiers and small containers shared by the models. */
module Common {

  /** A node, a subnet or chain, and the digest a claimed address is gossiped under. */
  type NodeID = int
  type ID = int
  type GossipID = int

  /** The primary network is the empty identifier. */
  const PRIMARY_NETWORK: ID := 0

  datatype Option<+T> = None | Some(value: T)

  /** Any member: stands for the unspecified order in which a map or set is ranged over. */
  method Pick<T(==)>(s: set<T>) returns (x: T)
    requires s != {}
    ensures x in s
  {
    x :| x in s;
  }

  /** Maps that agree on every key are equal. */
  lemma {:induction false} SameMap<V>(a: map<ID, V>, b: map<ID, V>)
    requires forall k :: k in a ==> k in b && a[k] == b[k]
    requires forall k :: k in b ==> k in a
    ensures a == b
    decreases |a.Keys|
  {
    if a != map[] {
      var k := AnyKey(a);
      PutBack(a, k);
      PutBack(b, k);
      SameMap(a - {k}, b - {k});
    } else if b != map[] {
      var k := AnyKey(b);
    }
  }

  lemma SameSet(a: set<ID>, b: set<ID>)
    requires forall x :: x in a <==> x in b
    ensures a == b
  {
    if a - b != {} {
      var x := Any(a - b);
    } else if b - a != {} {
      var x := Any(b - a);
    } else {
      NoDifference(a, b);
    }
  }

  lemma Any<T>(s: set<T>) returns (x: T)
    requires s != {}
    ensures x in s
  {
    x :| x in s;
  }

  lemma NoDifference<T>(a: set<T>, b: set<T>)
    requires a - b == {} && b - a == {}
    ensures a == b
  {
    forall x ensures x in a <==> x in b {
      assert x !in a - b && x !in b - a;
    }
  }

  lemma AnyKey<K, V>(a: map<K, V>) returns (k: K)
    requires a != map[]
    ensures k in a
  {
    k :| k in a;
  }

  lemma PutBack<K, V>(a: map<K, V>, k: K)
    requires k in a
    ensures (a - {k})[k := a[k]] == a
    ensures |(a - {k}).Keys| < |a.Keys|
  {
    assert (a - {k}).Keys == a.Keys - {k};
  }
}

/** Sums of natural numbers held in a finite map. */
module Sums {

  ghost function Sum<K>(m: map<K, nat>): nat
    decreases |m|
  {
    if m == map[] then 0
    else
      var k :| k in m;
      SmallerWithout(m, k);
      m[k] + Sum(m - {k})
  }

  lemma CardUpdate<K, V>(m: map<K, V>, k: K, v: V)
    ensures |m[k := v]| == |m| + if k in m then 0 else 1
  {
    assert m[k := v].Keys == m.Keys + {k};
    assert |m| == |m.Keys| && |m[k := v]| == |m[k := v].Keys|;
  }

  lemma SmallerWithout<K, V>(m: map<K, V>, k: K)
    requires k in m
    ensures |m - {k}| == |m| - 1
  {
    assert (m - {k}).Keys == m.Keys - {k};
    assert |m| == |m.Keys| && |m - {k}| == |(m - {k}).Keys|;
  }

  /** The sum does not depend on the order in which keys are taken out. */
  lemma {:induction false} SumWithout<K>(m: map<K, nat>, k: K)
    requires k in m
    ensures Sum(m) == m[k] + Sum(m - {k})
    decreases |m|
  {
    var c :| c in m && Sum(m) == m[c] + Sum(m - {c});
    if c != k {
      SmallerWithout(m, c);
      SmallerWithout(m, k);
      SumWithout(m - {c}, k);
      SumWithout(m - {k}, c);
      assert m - {c} - {k} == m - {k} - {c};
    }
  }

  lemma SumUpdate<K>(m: map<K, nat>, k: K, v: nat)
    ensures Sum(m[k := v]) == Sum(m - {k}) + v
    ensures k in m ==> Sum(m[k := v]) == Sum(m) - m[k] + v
    ensures k !in m ==> Sum(m[k := v]) == Sum(m) + v
  {
    SumWithout(m[k := v], k);
    assert m[k := v] - {k} == m - {k};
    if k in m {
      SumWithout(m, k);
    } else {
      assert m - {k} == m;
    }
  }
}
