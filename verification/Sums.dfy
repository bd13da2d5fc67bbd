/** The sum of the values of a finite map, and how it moves when the map does. */
module Sums {

  ghost function Sum<K>(m: map<K, int>): int {
    if m == map[] then 0
    else
      var k :| k in m;
      m[k] + Sum(m - {k})
  }

  /** The sum does not depend on the order in which keys are taken. */
  lemma {:induction false} SumRemove<K>(m: map<K, int>, k: K)
    requires k in m
    ensures Sum(m) == m[k] + Sum(m - {k})
    decreases |m|
  {
    var j :| j in m && Sum(m) == m[j] + Sum(m - {j});
    if j != k {
      SumRemove(m - {j}, k);
      SumRemove(m - {k}, j);
      assert m - {j} - {k} == m - {k} - {j};
    }
  }

  lemma SumUpdate<K>(m: map<K, int>, k: K, v: int)
    ensures Sum(m[k := v]) == Sum(m) + v - (if k in m then m[k] else 0)
  {
    SumRemove(m[k := v], k);
    assert m[k := v] - {k} == m - {k};
    if k in m {
      SumRemove(m, k);
    } else {
      assert m - {k} == m;
    }
  }

  lemma {:induction false} SumMonotone<K>(a: map<K, int>, b: map<K, int>)
    requires a.Keys == b.Keys
    requires forall k :: k in a ==> a[k] <= b[k]
    ensures Sum(a) <= Sum(b)
    decreases |a|
  {
    if a != map[] {
      var k :| k in a;
      SumRemove(a, k);
      SumRemove(b, k);
      SumMonotone(a - {k}, b - {k});
    }
  }

  lemma {:induction false} SumNonNegative<K>(m: map<K, int>)
    requires forall k :: k in m ==> m[k] >= 0
    ensures Sum(m) >= 0
    decreases |m|
  {
    if m != map[] {
      var k :| k in m;
      SumRemove(m, k);
      SumNonNegative(m - {k});
    }
  }

  /** Adding `d` at every key of `s` adds `d` once per key. */
  lemma {:induction false} SumShift<K>(a: map<K, int>, b: map<K, int>, s: set<K>, d: int)
    requires a.Keys == b.Keys && s <= a.Keys
    requires forall k :: k in a ==> b[k] == a[k] + if k in s then d else 0
    ensures Sum(b) == Sum(a) + |s| * d
    decreases |s|
  {
    if s == {} {
      assert a == b;
    } else {
      var k :| k in s;
      var a' := a[k := a[k] + d];
      SumUpdate(a, k, a[k] + d);
      SumShift(a', b, s - {k}, d);
      assert |s - {k}| == |s| - 1;
      assert |s| * d == (|s| - 1) * d + d;
    }
  }

  /** Keys of value zero add nothing. */
  lemma {:induction false} SumExtend<K>(a: map<K, int>, b: map<K, int>)
    requires a.Keys <= b.Keys
    requires forall k :: k in b ==> b[k] == if k in a then a[k] else 0
    ensures Sum(b) == Sum(a)
    decreases |b|
  {
    if a.Keys == b.Keys {
      assert a == b;
    } else {
      var k :| k in b && k !in a;
      SumRemove(b, k);
      SumExtend(a, b - {k});
    }
  }


  /** Sums add up key by key. */
  lemma {:induction false} SumAdd<K>(a: map<K, int>, b: map<K, int>, c: map<K, int>)
    requires a.Keys == b.Keys == c.Keys
    requires forall k :: k in c ==> c[k] == a[k] + b[k]
    ensures Sum(c) == Sum(a) + Sum(b)
    decreases |c|
  {
    if c != map[] {
      var k :| k in c;
      SumRemove(a, k);
      SumRemove(b, k);
      SumRemove(c, k);
      SumAdd(a - {k}, b - {k}, c - {k});
    } else {
      assert a == map[] && b == map[];
    }
  }
}
