/** Counting the entries of a map that satisfy a predicate, and adding up the values of a map. */
module Counting {

  ghost function Matching<K, V>(m: map<K, V>, p: V -> bool): set<K> {
    set k | k in m && p(m[k])
  }

  ghost function Count<K, V>(m: map<K, V>, p: V -> bool): nat {
    |Matching(m, p)|
  }

  lemma DifferAtOne<K>(a: set<K>, b: set<K>, r: K)
    requires forall k :: k in a && k != r ==> k in b
    requires forall k :: k in b && k != r ==> k in a
    ensures |b| == |a| - (if r in a then 1 else 0) + (if r in b then 1 else 0)
  {
    assert a - {r} == b - {r};
    assert |a - {r}| == |a| - if r in a then 1 else 0;
    assert |b - {r}| == |b| - if r in b then 1 else 0;
  }

  lemma CountUpdate<K, V>(m: map<K, V>, r: K, v: V, p: V -> bool)
    ensures Count(m[r := v], p)
         == Count(m, p) - (if r in m && p(m[r]) then 1 else 0) + (if p(v) then 1 else 0)
  {
    DifferAtOne(Matching(m, p), Matching(m[r := v], p), r);
  }

  lemma CountZero<K, V>(m: map<K, V>, p: V -> bool, r: K)
    requires Count(m, p) == 0 && r in m
    ensures !p(m[r])
  {
    assert r !in Matching(m, p);
  }

  lemma CountNone<K, V>(m: map<K, V>, p: V -> bool)
    requires forall r :: r in m ==> !p(m[r])
    ensures Count(m, p) == 0
  {
    assert Matching(m, p) == {};
  }

  lemma {:induction false} SubsetSize<K>(a: set<K>, b: set<K>)
    requires a <= b
    ensures |a| <= |b|
  {
    if a != {} {
      var k :| k in a;
      SubsetSize(a - {k}, b - {k});
    }
  }

  /** A stronger predicate matches no more entries. */
  lemma CountImplies<K, V>(m: map<K, V>, p: V -> bool, q: V -> bool)
    requires forall k :: k in m && p(m[k]) ==> q(m[k])
    ensures Count(m, p) <= Count(m, q)
  {
    SubsetSize(Matching(m, p), Matching(m, q));
  }

  /** Predicates that exclude each other match disjoint entries. */
  lemma CountDisjoint<K, V>(m: map<K, V>, p: V -> bool, q: V -> bool, r: V -> bool)
    requires forall k :: k in m && p(m[k]) ==> !q(m[k])
    requires forall k :: k in m && (p(m[k]) || q(m[k])) ==> r(m[k])
    ensures Count(m, p) + Count(m, q) <= Count(m, r)
  {
    var a, b := Matching(m, p), Matching(m, q);
    assert a !! b;
    assert |a + b| == |a| + |b|;
    SubsetSize(a + b, Matching(m, r));
  }

  // ---------------------------------------------------------------- sums

  ghost function Sum<K>(m: map<K, int>): int {
    if m == map[] then 0
    else
      var k :| k in m;
      m[k] + Sum(m - {k})
  }

  lemma {:induction false} SumRemove<K>(m: map<K, int>, k: K)
    requires k in m
    ensures Sum(m) == m[k] + Sum(m - {k})
    decreases |m|
  {
    var j :| j in m && Sum(m) == m[j] + Sum(m - {j});
    if j != k {
      assert k in m - {j} && j in m - {k};
      SumRemove(m - {j}, k);
      SumRemove(m - {k}, j);
      assert (m - {j}) - {k} == (m - {k}) - {j};
    }
  }

  lemma SumUpdate<K>(m: map<K, int>, k: K, v: int)
    ensures Sum(m[k := v]) == Sum(m) - (if k in m then m[k] else 0) + v
  {
    SumRemove(m[k := v], k);
    assert m[k := v] - {k} == m - {k};
    if k in m {
      SumRemove(m, k);
    } else {
      assert m - {k} == m;
    }
  }
}
