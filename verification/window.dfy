/**
 * The sliding window both conversation threads keep: the newest `n` of
 * the turns added so far, oldest first.
 */
module Window {

  /** The last `n` elements of `s` (all of `s` when it is shorter). */
  function Last<T>(s: seq<T>, n: nat): (r: seq<T>)
    ensures |r| == if |s| < n then |s| else n
    ensures s == s[..|s| - |r|] + r
  {
    if |s| <= n then s else s[|s| - n..]
  }

  /**
   * Adding one element to the input of the window: while the window is
   * not yet full it grows at the end; once full, its oldest element is
   * evicted and the new one is placed last (FIFO, one for one).
   */
  lemma LastSnoc<T>(s: seq<T>, x: T, n: nat)
    requires n > 0
    ensures |Last(s, n)| < n ==> Last(s + [x], n) == Last(s, n) + [x]
    ensures |Last(s, n)| == n ==> Last(s + [x], n) == Last(s, n)[1..] + [x]
  {
    var t := s + [x];
    if |s| < n {
      assert Last(t, n) == t;
    } else {
      assert Last(s, n) == s[|s| - n..];
      assert Last(t, n) == t[|t| - n..];
      assert t[|t| - n..] == s[|s| - n + 1..] + [x];
    }
  }

  /**
   * What an in-place eviction leaves behind: the slots before `lo` are
   * kept, each later slot holds its right neighbour's old value, and the
   * last slot holds `x`. Then element `lo` is gone and `x` is last.
   */
  lemma DropAt<T>(before: seq<T>, after: seq<T>, lo: nat, x: T)
    requires lo < |before| == |after|
    requires forall k :: 0 <= k < lo ==> after[k] == before[k]
    requires forall k :: lo <= k < |before| - 1 ==> after[k] == before[k + 1]
    requires after[|before| - 1] == x
    ensures after == before[..lo] + before[lo + 1..] + [x]
    ensures after[lo..] == before[lo + 1..] + [x]
  {
    var want := before[..lo] + before[lo + 1..] + [x];
    assert |want| == |after|;
    forall k | 0 <= k < |after|
      ensures after[k] == want[k]
    {
      if k < lo {
      } else if k < |before| - 1 {
        assert want[k] == before[lo + 1..][k - lo];
      }
    }
  }
}
