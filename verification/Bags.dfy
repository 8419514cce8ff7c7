/** Multisets and sums collected from the values of finite maps. */
module Bags {

  /** The multiset union of f(v) over every entry of m. */
  ghost function Bag<K, V, E>(m: map<K, V>, f: V -> multiset<E>): multiset<E> {
    if m == map[] then multiset{}
    else
      var k :| k in m;
      f(m[k]) + Bag(m - {k}, f)
  }

  /** The entry taken out first does not matter. */
  lemma {:induction false} BagRemove<K, V, E>(m: map<K, V>, f: V -> multiset<E>, k: K)
    requires k in m
    ensures Bag(m, f) == f(m[k]) + Bag(m - {k}, f)
    decreases |m|
  {
    var j :| j in m && Bag(m, f) == f(m[j]) + Bag(m - {j}, f);
    if j != k {
      BagRemove(m - {j}, f, k);
      BagRemove(m - {k}, f, j);
      assert m - {j} - {k} == m - {k} - {j};
    }
  }

  lemma BagInsert<K, V, E>(m: map<K, V>, f: V -> multiset<E>, k: K, v: V)
    requires k !in m
    ensures Bag(m[k := v], f) == Bag(m, f) + f(v)
  {
    BagRemove(m[k := v], f, k);
    assert m[k := v] - {k} == m;
  }

  lemma BagUpdate<K, V, E>(m: map<K, V>, f: V -> multiset<E>, k: K, v: V)
    requires k in m
    ensures Bag(m[k := v], f) + f(m[k]) == Bag(m, f) + f(v)
  {
    BagRemove(m, f, k);
    BagRemove(m[k := v], f, k);
    assert m[k := v] - {k} == m - {k};
  }

  /** An element of the bag comes from some entry. */
  lemma {:induction false} BagWitness<K, V, E>(m: map<K, V>, f: V -> multiset<E>, e: E) returns (k: K)
    requires e in Bag(m, f)
    ensures k in m && e in f(m[k])
    decreases |m|
  {
    var j :| j in m && Bag(m, f) == f(m[j]) + Bag(m - {j}, f);
    if e in f(m[j]) {
      k := j;
    } else {
      k := BagWitness(m - {j}, f, e);
    }
  }

  /** The sum of w over the keys in s. */
  ghost function Sum<K>(s: set<K>, w: K -> nat): nat {
    if s == {} then 0
    else
      var k :| k in s;
      w(k) + Sum(s - {k}, w)
  }

  /** If w' drops by at least one on every key of b and never rises, the sum drops by |b|. */
  lemma {:induction false} SumDrops<K>(s: set<K>, b: set<K>, w: K -> nat, w': K -> nat)
    requires b <= s
    requires forall k :: k in s ==> w'(k) + (if k in b then 1 else 0) <= w(k)
    ensures Sum(s, w') + |b| <= Sum(s, w)
    decreases |s|
  {
    if s != {} {
      var k :| k in s && Sum(s, w) == w(k) + Sum(s - {k}, w) && Sum(s, w') == w'(k) + Sum(s - {k}, w');
      SumDrops(s - {k}, b - {k}, w, w');
      assert |b| == |b - {k}| + (if k in b then 1 else 0);
    }
  }

  lemma {:induction false} SumBounded<K>(s: set<K>, w: K -> nat, most: nat)
    requires forall k :: k in s ==> w(k) <= most
    ensures Sum(s, w) <= most * |s|
    decreases |s|
  {
    if s != {} {
      var k :| k in s && Sum(s, w) == w(k) + Sum(s - {k}, w);
      SumBounded(s - {k}, w, most);
      assert |s - {k}| == |s| - 1;
      assert most * (|s| - 1) == most * |s| - most;
    }
  }
}
