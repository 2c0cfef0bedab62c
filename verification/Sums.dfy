/** Sums of the values of a finite map, the meaning of a Go loop that adds up a
    map's values in whatever order the runtime yields them. */
module Sums {

  /** The value of a key, or zero when the map has none: Go's map indexing. */
  function Get<K>(m: map<K, real>, k: K): real {
    if k in m then m[k] else 0.0
  }

  /** Go's `m[k] += x`. */
  function Add<K>(m: map<K, real>, k: K, x: real): map<K, real> {
    m[k := Get(m, k) + x]
  }

  ghost function Sum<K(!new)>(m: map<K, real>): real
    decreases |m|
  {
    if m == map[] then 0.0
    else
      var k :| k in m;
      assert |m - {k}| < |m| by { Smaller(m, k); }
      m[k] + Sum(m - {k})
  }

  lemma Smaller<K, V>(m: map<K, V>, k: K)
    requires k in m
    ensures |m - {k}| == |m| - 1
  {
    assert (m - {k}).Keys == m.Keys - {k};
    assert |m| == |m.Keys| && |m - {k}| == |(m - {k}).Keys|;
  }

  /** The order in which a map is summed does not matter. */
  lemma {:induction false} SumRemove<K(!new)>(m: map<K, real>, k: K)
    requires k in m
    ensures Sum(m) == m[k] + Sum(m - {k})
    decreases |m|
  {
    var j :| j in m && Sum(m) == m[j] + Sum(m - {j});
    if j != k {
      Smaller(m, j);
      Smaller(m, k);
      SumRemove(m - {j}, k);
      SumRemove(m - {k}, j);
      assert m - {j} - {k} == m - {k} - {j};
    }
  }

  lemma SumAdd<K(!new)>(m: map<K, real>, k: K, x: real)
    ensures Sum(Add(m, k, x)) == Sum(m) + x
  {
    var m' := Add(m, k, x);
    SumRemove(m', k);
    if k in m {
      SumRemove(m, k);
      assert m' - {k} == m - {k};
    } else {
      assert m' - {k} == m;
    }
  }

  lemma NoMember<T(!new)>(s: set<T>)
    requires forall x :: x !in s
    ensures s == {}
  {
  }

  lemma Member<T(!new)>(s: set<T>) returns (x: T)
    requires s != {}
    ensures x in s
  {
    if !exists x :: x in s {
      NoMember(s);
    }
    x :| x in s;
  }

  ghost predicate NonNegative<K(!new)>(m: map<K, real>) {
    forall k :: k in m ==> m[k] >= 0.0
  }

  lemma {:induction false} SumNonNegative<K(!new)>(m: map<K, real>)
    requires NonNegative(m)
    ensures Sum(m) >= 0.0
    decreases |m|
  {
    if m != map[] {
      var k :| k in m;
      SumRemove(m, k);
      Smaller(m, k);
      SumNonNegative(m - {k});
    }
  }

  /** The sum over a map splits over any set of its keys. */
  lemma {:induction false} SumSplit<K(!new)>(m: map<K, real>, s: set<K>)
    requires s <= m.Keys
    ensures Sum(m) == Sum(map k | k in s :: m[k]) + Sum(m - s)
    decreases |s|
  {
    var inside := map k | k in s :: m[k];
    if s == {} {
      assert inside == map[] && m - s == m;
    } else {
      var k :| k in s;
      SumRemove(m, k);
      SumRemove(inside, k);
      assert s - {k} <= (m - {k}).Keys;
      SumSplit(m - {k}, s - {k});
      assert inside - {k} == map j | j in s - {k} :: (m - {k})[j];
      assert m - {k} - (s - {k}) == m - s;
    }
  }
}
