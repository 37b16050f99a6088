/**
 * Ordering and searching as the scripts use them: Python's `<` on strings,
 * sortedness under a strict total order, the lower bound that
 * `bisect.bisect_left` computes, `bisect.insort_left`, and the maximal run
 * of entries that satisfy a predicate (the `while ... is_match(...)` loops).
 */
module Order {

  /** Python's `<` on `str`: code point by code point, a proper prefix first. */
  predicate StrLt(a: string, b: string)
  {
    if |a| == 0 then |b| > 0
    else if |b| == 0 then false
    else if a[0] != b[0] then a[0] < b[0]
    else StrLt(a[1..], b[1..])
  }

  lemma {:induction false} StrLtIrreflexive(a: string)
    ensures !StrLt(a, a)
  {
    if |a| > 0 { StrLtIrreflexive(a[1..]); }
  }

  lemma {:induction false} StrLtTransitive(a: string, b: string, c: string)
    requires StrLt(a, b) && StrLt(b, c)
    ensures StrLt(a, c)
  {
    if |a| > 0 && |b| > 0 && |c| > 0 && a[0] == b[0] == c[0] {
      StrLtTransitive(a[1..], b[1..], c[1..]);
    }
  }

  lemma {:induction false} StrLtTotal(a: string, b: string)
    requires a != b
    ensures StrLt(a, b) || StrLt(b, a)
  {
    if |a| > 0 && |b| > 0 && a[0] == b[0] {
      assert a == [a[0]] + a[1..] && b == [b[0]] + b[1..];
      StrLtTotal(a[1..], b[1..]);
    }
  }

  /** Irreflexive, transitive and total: the order Python's tuples and strings have. */
  ghost predicate StrictTotalOrder<T(!new)>(lt: (T, T) -> bool)
  {
    && (forall x :: !lt(x, x))
    && (forall x, y, z :: lt(x, y) && lt(y, z) ==> lt(x, z))
    && (forall x, y :: x != y ==> lt(x, y) || lt(y, x))
  }

  lemma StrLtIsStrictTotalOrder()
    ensures StrictTotalOrder(StrLt)
  {
    forall x: string ensures !StrLt(x, x) { StrLtIrreflexive(x); }
    forall x: string, y: string, z: string | StrLt(x, y) && StrLt(y, z)
      ensures StrLt(x, z)
    {
      StrLtTransitive(x, y, z);
    }
    forall x: string, y: string | x != y ensures StrLt(x, y) || StrLt(y, x) {
      StrLtTotal(x, y);
    }
  }

  /** Non-decreasing: no entry is smaller than one before it. */
  ghost predicate Sorted<T>(a: seq<T>, lt: (T, T) -> bool)
  {
    forall i, j :: 0 <= i < j < |a| ==> !lt(a[j], a[i])
  }

  /** The entries smaller than `x` form a prefix: what `bisect_left` needs. */
  ghost predicate Partitioned<T>(a: seq<T>, x: T, lt: (T, T) -> bool)
  {
    forall i, j :: 0 <= i <= j < |a| && lt(a[j], x) ==> lt(a[i], x)
  }

  lemma SortedIsPartitioned<T(!new)>(a: seq<T>, x: T, lt: (T, T) -> bool)
    requires StrictTotalOrder(lt) && Sorted(a, lt)
    ensures Partitioned(a, x, lt)
  {
    forall i, j | 0 <= i <= j < |a| && lt(a[j], x) ensures lt(a[i], x) {
      if i < j && a[i] != a[j] {
        assert lt(a[i], a[j]);
      }
    }
  }

  /** The first position whose entry is not smaller than `x` (or the length). */
  function LowerBound<T>(a: seq<T>, x: T, lt: (T, T) -> bool): (k: nat)
    ensures k <= |a|
  {
    if a == [] || !lt(a[0], x) then 0 else 1 + LowerBound(a[1..], x, lt)
  }

  /** Every entry before the lower bound is smaller than `x`; the one at it is not. */
  lemma {:induction false} LowerBoundBounds<T>(a: seq<T>, x: T, lt: (T, T) -> bool)
    ensures forall i :: 0 <= i < LowerBound(a, x, lt) ==> lt(a[i], x)
    ensures LowerBound(a, x, lt) < |a| ==> !lt(a[LowerBound(a, x, lt)], x)
  {
    if a != [] && lt(a[0], x) {
      LowerBoundBounds(a[1..], x, lt);
    }
  }

  /** On a partitioned sequence every entry from the lower bound on is at least `x`. */
  lemma LowerBoundSplits<T>(a: seq<T>, x: T, lt: (T, T) -> bool)
    requires Partitioned(a, x, lt)
    ensures forall i :: LowerBound(a, x, lt) <= i < |a| ==> !lt(a[i], x)
  {
    LowerBoundBounds(a, x, lt);
  }

  /** A position with only smaller entries before it and none after it is the lower bound. */
  lemma {:induction false} LowerBoundUnique<T>(a: seq<T>, x: T, lt: (T, T) -> bool, k: nat)
    requires k <= |a|
    requires forall i :: 0 <= i < k ==> lt(a[i], x)
    requires forall i :: k <= i < |a| ==> !lt(a[i], x)
    ensures k == LowerBound(a, x, lt)
  {
    if k > 0 {
      LowerBoundUnique(a[1..], x, lt, k - 1);
    }
  }

  /**
   * Python's `bisect.bisect_left(a, x, lo, hi)`: the binary search itself,
   * halving `[lo, hi)` exactly as the library does, whatever order `a` is in.
   */
  function Bisect<T>(a: seq<T>, x: T, lt: (T, T) -> bool, lo: nat, hi: nat): (k: nat)
    requires lo <= hi <= |a|
    ensures lo <= k <= hi
    decreases hi - lo
  {
    if lo < hi then
      var mid := (lo + hi) / 2;
      if lt(a[mid], x) then Bisect(a, x, lt, mid + 1, hi) else Bisect(a, x, lt, lo, mid)
    else lo
  }

  /** On a partitioned sequence the binary search finds the lower bound. */
  lemma BisectIsLowerBound<T>(a: seq<T>, x: T, lt: (T, T) -> bool)
    requires Partitioned(a, x, lt)
    ensures Bisect(a, x, lt, 0, |a|) == LowerBound(a, x, lt)
  {
    BisectBetween(a, x, lt, 0, |a|);
  }

  lemma {:induction false} BisectBetween<T>(a: seq<T>, x: T, lt: (T, T) -> bool, lo: nat, hi: nat)
    requires lo <= hi <= |a| && Partitioned(a, x, lt)
    requires forall i :: 0 <= i < lo ==> lt(a[i], x)
    requires forall i :: hi <= i < |a| ==> !lt(a[i], x)
    ensures Bisect(a, x, lt, lo, hi) == LowerBound(a, x, lt)
    decreases hi - lo
  {
    if lo < hi {
      var mid := (lo + hi) / 2;
      if lt(a[mid], x) {
        BisectBetween(a, x, lt, mid + 1, hi);
      } else {
        BisectBetween(a, x, lt, lo, mid);
      }
    } else {
      LowerBoundUnique(a, x, lt, lo);
    }
  }

  /** On a sorted sequence the search splits it: smaller entries before the result, none from it on. */
  lemma SortedBisectSplits<T(!new)>(a: seq<T>, x: T, lt: (T, T) -> bool)
    requires StrictTotalOrder(lt) && Sorted(a, lt)
    ensures var k := Bisect(a, x, lt, 0, |a|);
      && k == LowerBound(a, x, lt)
      && (forall i :: 0 <= i < k ==> lt(a[i], x))
      && (forall i :: k <= i < |a| ==> !lt(a[i], x))
  {
    SortedIsPartitioned(a, x, lt);
    BisectIsLowerBound(a, x, lt);
    LowerBoundBounds(a, x, lt);
    LowerBoundSplits(a, x, lt);
  }

  /** `bisect.bisect_left(a, x)` as the library's loop. */
  method BisectLeft<T>(a: seq<T>, x: T, lt: (T, T) -> bool) returns (lo: nat)
    ensures lo == Bisect(a, x, lt, 0, |a|)
  {
    lo := 0;
    var hi := |a|;
    while lo < hi
      invariant 0 <= lo <= hi <= |a|
      invariant Bisect(a, x, lt, lo, hi) == Bisect(a, x, lt, 0, |a|)
      decreases hi - lo
    {
      var mid := (lo + hi) / 2;
      if lt(a[mid], x) {
        lo := mid + 1;
      } else {
        hi := mid;
      }
    }
  }

  /** In a sorted sequence that holds `x`, the lower bound is its leftmost occurrence. */
  lemma LowerBoundFindsLeftmost<T(!new)>(a: seq<T>, x: T, lt: (T, T) -> bool)
    requires StrictTotalOrder(lt) && Sorted(a, lt)
    ensures var k := LowerBound(a, x, lt);
      (x in a <==> k < |a| && a[k] == x) && (x in a ==> x !in a[..k])
  {
    var k := LowerBound(a, x, lt);
    SortedIsPartitioned(a, x, lt);
    LowerBoundBounds(a, x, lt);
    if x in a {
      var j :| 0 <= j < |a| && a[j] == x;
      assert k <= j;
      assert !lt(a[k], x) && (k < j ==> !lt(a[j], a[k]));
    }
  }

  /** `insort_left` keeps a sorted sequence sorted. */
  lemma InsertAtLowerBoundSorted<T(!new)>(a: seq<T>, x: T, lt: (T, T) -> bool)
    requires StrictTotalOrder(lt) && Sorted(a, lt)
    ensures var k := LowerBound(a, x, lt); Sorted(a[..k] + [x] + a[k..], lt)
  {
    var k := LowerBound(a, x, lt);
    var b := a[..k] + [x] + a[k..];
    SortedIsPartitioned(a, x, lt);
    LowerBoundBounds(a, x, lt);
    forall i, j | 0 <= i < j < |b| ensures !lt(b[j], b[i]) {
      if j < k {
        assert b[i] == a[i] && b[j] == a[j];
      } else if j == k {
        assert b[i] == a[i] && b[j] == x;
      } else if i < k {
        assert b[i] == a[i] && b[j] == a[j - 1];
        assert !lt(a[j - 1], x);
      } else if i == k {
        assert b[i] == x && b[j] == a[j - 1];
      } else {
        assert b[i] == a[i - 1] && b[j] == a[j - 1];
      }
    }
  }

  /** Cutting a slice out of a sorted sequence leaves it sorted. */
  lemma RemoveSliceSorted<T>(a: seq<T>, i: nat, j: nat, lt: (T, T) -> bool)
    requires i <= j <= |a| && Sorted(a, lt)
    ensures Sorted(a[..i] + a[j..], lt)
  {
    var b := a[..i] + a[j..];
    forall p, q | 0 <= p < q < |b| ensures !lt(b[q], b[p]) {
      var p' := if p < i then p else p + (j - i);
      var q' := if q < i then q else q + (j - i);
      assert b[p] == a[p'] && b[q] == a[q'];
    }
  }

  /** Length of the longest prefix of `s` whose entries all satisfy `p`. */
  function MatchingRun<T>(s: seq<T>, p: T -> bool): (n: nat)
    ensures n <= |s|
    ensures forall i :: 0 <= i < n ==> p(s[i])
    ensures n < |s| ==> !p(s[n])
  {
    if s == [] || !p(s[0]) then 0 else 1 + MatchingRun(s[1..], p)
  }

  /** The run read off a suffix `a[start..]`, in positions of `a` itself. */
  lemma MatchingRunFrom<T>(a: seq<T>, start: nat, p: T -> bool)
    requires start <= |a|
    ensures var n := MatchingRun(a[start..], p);
      && start + n <= |a|
      && (forall i :: start <= i < start + n ==> p(a[i]))
      && (start + n < |a| ==> !p(a[start + n]))
  {
    var n := MatchingRun(a[start..], p);
    assert forall i :: start <= i < start + n ==> a[start..][i - start] == a[i];
    if start + n < |a| {
      assert a[start..][n] == a[start + n];
    }
  }

  /** A run that holds throughout and stops at a failure or the end is the matching run. */
  lemma {:induction false} MatchingRunUnique<T>(s: seq<T>, p: T -> bool, n: nat)
    requires n <= |s|
    requires forall i :: 0 <= i < n ==> p(s[i])
    requires n < |s| ==> !p(s[n])
    ensures n == MatchingRun(s, p)
  {
    if n > 0 {
      MatchingRunUnique(s[1..], p, n - 1);
    }
  }
}
