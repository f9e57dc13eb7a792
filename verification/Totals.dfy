/** Counters kept per worker or per job and their sums, and sizes of sets. */
module Totals {

  function CountOf<K>(m: map<K, int>, k: K): int {
    if k in m then m[k] else 0
  }

  function Bumped<K>(m: map<K, int>, k: K): map<K, int> {
    m[k := CountOf(m, k) + 1]
  }

  ghost function Sum<K>(m: map<K, int>, keys: set<K>): int {
    if keys == {} then 0 else
      var k :| k in keys;
      CountOf(m, k) + Sum(m, keys - {k})
  }

  ghost function Total<K>(m: map<K, int>): int {
    Sum(m, m.Keys)
  }

  /** The order in which the entries are added up does not matter. */
  lemma {:induction false} SumPick<K>(m: map<K, int>, keys: set<K>, k: K)
    requires k in keys
    ensures Sum(m, keys) == CountOf(m, k) + Sum(m, keys - {k})
  {
    var k0 :| k0 in keys && Sum(m, keys) == CountOf(m, k0) + Sum(m, keys - {k0});
    if k != k0 {
      var a, b := keys - {k0}, keys - {k};
      SumPick(m, a, k);
      SumPick(m, b, k0);
      assert a - {k} == b - {k0};
    }
  }

  lemma {:induction false} SumFrame<K>(m: map<K, int>, m': map<K, int>, keys: set<K>)
    requires forall k :: k in keys ==> CountOf(m, k) == CountOf(m', k)
    ensures Sum(m, keys) == Sum(m', keys)
  {
    if keys != {} {
      var k :| k in keys;
      SumPick(m, keys, k);
      SumPick(m', keys, k);
      SumFrame(m, m', keys - {k});
    }
  }

  /** Counting one more in one entry adds one to the sum. */
  lemma TotalBumped<K>(m: map<K, int>, k: K)
    ensures Total(Bumped(m, k)) == Total(m) + 1
  {
    var m' := Bumped(m, k);
    var rest := m.Keys - {k};
    assert m'.Keys - {k} == rest;
    SumPick(m', m'.Keys, k);
    SumFrame(m, m', rest);
    if k in m {
      SumPick(m, m.Keys, k);
    } else {
      assert rest == m.Keys;
    }
  }

  lemma SubsetSize<T>(a: set<T>, b: set<T>)
    requires a <= b
    ensures |a| <= |b|
    decreases |a|
  {
    if a != {} {
      var x :| x in a;
      SubsetSize(a - {x}, b - {x});
    }
  }
}
