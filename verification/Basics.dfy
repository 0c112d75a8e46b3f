/** Shared vocabulary: optional values, sums over finite maps, and a fact about products. */
module Basics {

  datatype Option<+T> = None | Some(value: T)

  lemma EmptyOrInhabited(s: set<int>)
    ensures s == {} || exists k :: k in s
  {
    if forall k :: k !in s {
      assert s == {};
    }
  }

  ghost function Pick(s: set<int>): (k: int)
    requires s != {}
    ensures k in s
  {
    EmptyOrInhabited(s);
    var k :| k in s;
    k
  }

  /** The sum of all values of a finite map, in whatever order they are taken. */
  ghost function Sum(m: map<int, int>): int
    decreases |m|
  {
    if m.Keys == {} then 0
    else
      var k := Pick(m.Keys);
      m[k] + Sum(m - {k})
  }

  /** Any key may be taken out of the sum first. */
  lemma {:induction false} SumWithout(m: map<int, int>, k: int)
    requires k in m
    ensures Sum(m) == m[k] + Sum(m - {k})
    decreases |m|
  {
    var j := Pick(m.Keys);
    assert Sum(m) == m[j] + Sum(m - {j});
    if j != k {
      SumWithout(m - {j}, k);
      SumWithout(m - {k}, j);
      assert m - {j} - {k} == m - {k} - {j};
    }
  }

  /** Setting one key changes the sum by exactly the change at that key. */
  lemma SumUpdate(m: map<int, int>, k: int, v: int)
    ensures Sum(m[k := v]) == Sum(m) - (if k in m then m[k] else 0) + v
  {
    SumWithout(m[k := v], k);
    assert m[k := v] - {k} == m - {k};
    if k in m {
      SumWithout(m, k);
    } else {
      assert m - {k} == m;
    }
  }

  lemma ProductMonotone(a: int, b: int, p: nat)
    ensures a <= b ==> a * p <= b * p
  {}
}
