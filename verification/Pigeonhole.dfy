/** Counting: sequences without repetitions, and subsets. */
module Pigeonhole {
  ghost predicate NoRepeats(cs: seq<nat>) {
    forall a, b :: 0 <= a < b < |cs| ==> cs[a] != cs[b]
  }

  lemma {:induction false} DistinctLength(cs: seq<nat>, n: nat)
    requires NoRepeats(cs) && forall k :: 0 <= k < |cs| ==> cs[k] < n
    ensures |cs| <= n
    decreases n
  {
    assert |cs| > 0 ==> cs[0] < n;
    assert forall k :: 0 <= k < |cs| ==> cs[k] in cs;
    if n > 0 && n - 1 in cs {
      var k :| 0 <= k < |cs| && cs[k] == n - 1;
      var ds := cs[..k] + cs[k + 1..];
      assert forall a :: 0 <= a < |ds| ==> ds[a] == cs[if a < k then a else a + 1];
      DistinctLength(ds, n - 1);
    } else if n > 0 {
      DistinctLength(cs, n - 1);
    }
  }

  /** A subset is no larger, and only the whole set is as large. */
  lemma {:induction false} SubsetSize<T>(a: set<T>, b: set<T>)
    requires a <= b
    ensures |a| <= |b| && (|a| == |b| ==> a == b)
  {
    if x :| x in a {
      SubsetSize(a - {x}, b - {x});
      if |a| == |b| { assert a == (a - {x}) + {x} && b == (b - {x}) + {x}; }
    } else {
      assert a == {};
    }
  }
}
