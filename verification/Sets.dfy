/** Sizes of finite sets. */
module Sets {
  lemma SubsetSize<T>(a: set<T>, b: set<T>)
    requires a <= b
    ensures |a| <= |b|
  {
    assert b == a + (b - a);
  }

  function Below(n: nat): (b: set<nat>)
    ensures |b| == n
    ensures forall k: nat :: k in b <==> k < n
  {
    if n == 0 then {} else Below(n - 1) + {n - 1}
  }

  /** Two sets that differ at most in `i`. */
  lemma OneChanged<T>(a: set<T>, b: set<T>, i: T)
    requires a - {i} == b - {i}
    ensures |b| == |a| + (if i in b then 1 else 0) - (if i in a then 1 else 0)
  {
    RemoveOne(a, i);
    RemoveOne(b, i);
  }

  lemma RemoveOne<T>(a: set<T>, i: T)
    ensures |a| == |a - {i}| + if i in a then 1 else 0
  {
    if i in a {
      assert a == (a - {i}) + {i};
    } else {
      assert a == a - {i};
    }
  }
}
