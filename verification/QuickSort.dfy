/** The non-recursive quicksort of src/agent/qsort.cc: median of three, an explicit
    stack of pending ranges, and a final unguarded insertion sort. Addresses become
    indices and an element is moved as a whole instead of byte by byte. */
module QuickSort {
  import opened Common

  const MAX_THRESH := 4
  const STACK_SIZE := 64 // CHAR_BIT * sizeof(size_t)
  const SIZE_T_RANGE := 0x1_0000_0000_0000_0000

  /** `lt(x, y)` stands for `cmp(x, y) < 0`. */
  ghost predicate StrictWeakOrder<T(!new)>(lt: (T, T) -> bool) {
    && (forall x, y {:trigger lt(x, y)} :: lt(x, y) ==> !lt(y, x))
    && (forall x, y, z {:trigger Via(lt, x, y, z)} :: Via(lt, x, y, z))
  }

  ghost predicate Via<T>(lt: (T, T) -> bool, x: T, y: T, z: T) {
    AtMost(lt, x, y) && AtMost(lt, y, z) ==> AtMost(lt, x, z)
  }

  lemma Transitive<T(!new)>(lt: (T, T) -> bool, x: T, y: T, z: T)
    requires StrictWeakOrder(lt) && AtMost(lt, x, y) && AtMost(lt, y, z)
    ensures AtMost(lt, x, z)
  {
    assert Via(lt, x, y, z);
  }

  predicate AtMost<T>(lt: (T, T) -> bool, x: T, y: T) {
    !lt(y, x)
  }

  ghost predicate Sorted<T>(s: seq<T>, lt: (T, T) -> bool) {
    forall i, j :: 0 <= i < j < |s| ==> AtMost(lt, s[i], s[j])
  }

  /** Elements more than four places apart are already in order. */
  ghost predicate NearlySorted<T>(s: seq<T>, lt: (T, T) -> bool) {
    forall i, j :: 0 <= i && i + 4 < j < |s| ==> AtMost(lt, s[i], s[j])
  }

  /** Everything before position c is at most everything from c on. */
  ghost predicate Split<T>(s: seq<T>, lt: (T, T) -> bool, c: int) {
    forall i, j :: 0 <= i < c <= j < |s| ==> AtMost(lt, s[i], s[j])
  }

  /** t rearranges s within [lo, hi] and leaves everything else alone. */
  ghost predicate Rearranged<T>(s: seq<T>, t: seq<T>, lo: int, hi: int)
    requires 0 <= lo <= hi < |s|
  {
    && |t| == |s|
    && t[..lo] == s[..lo]
    && t[hi + 1..] == s[hi + 1..]
    && multiset(t[lo..hi + 1]) == multiset(s[lo..hi + 1])
  }

  lemma RearrangedIsPermutation<T>(s: seq<T>, t: seq<T>, lo: int, hi: int)
    requires 0 <= lo <= hi < |s| && Rearranged(s, t, lo, hi)
    ensures multiset(t) == multiset(s)
  {
    assert s == s[..lo] + s[lo..hi + 1] + s[hi + 1..];
    assert t == t[..lo] + t[lo..hi + 1] + t[hi + 1..];
  }

  lemma RearrangedElement<T>(s: seq<T>, t: seq<T>, lo: int, hi: int, k: int) returns (k': int)
    requires 0 <= lo <= hi < |s| && Rearranged(s, t, lo, hi) && lo <= k <= hi
    ensures lo <= k' <= hi && s[k'] == t[k]
  {
    var x := t[k];
    assert t[lo..hi + 1][k - lo] == x;
    assert x in multiset(s[lo..hi + 1]);
    var m :| 0 <= m < |s[lo..hi + 1]| && s[lo..hi + 1][m] == x;
    k' := lo + m;
  }

  /** A split outside a rearranged range survives. */
  lemma SplitKept<T(!new)>(s: seq<T>, t: seq<T>, lt: (T, T) -> bool, lo: int, hi: int, c: int)
    requires 0 <= lo <= hi < |s| && Rearranged(s, t, lo, hi)
    requires Split(s, lt, c) && (c <= lo || hi < c)
    ensures Split(t, lt, c)
  {
    forall i, j | 0 <= i < c <= j < |t|
      ensures AtMost(lt, t[i], t[j])
    {
      var i', j' := i, j;
      if lo <= i <= hi {
        i' := RearrangedElement(s, t, lo, hi, i);
      } else {
        assert if i < lo then t[..lo][i] == s[..lo][i] else t[hi + 1..][i - hi - 1] == s[hi + 1..][i - hi - 1];
      }
      if lo <= j <= hi {
        j' := RearrangedElement(s, t, lo, hi, j);
      } else {
        assert if j < lo then t[..lo][j] == s[..lo][j] else t[hi + 1..][j - hi - 1] == s[hi + 1..][j - hi - 1];
      }
      assert AtMost(lt, s[i'], s[j']);
    }
  }

  lemma SwapRearranges<T>(s: seq<T>, t: seq<T>, u: seq<T>, lo: int, hi: int, i: int, j: int)
    requires 0 <= lo <= hi < |s| && Rearranged(s, t, lo, hi)
    requires lo <= i <= hi && lo <= j <= hi
    requires u == t[i := t[j]][j := t[i]]
    ensures Rearranged(s, u, lo, hi)
  {
    var w := t[lo..hi + 1];
    assert u[lo..hi + 1] == w[i - lo := w[j - lo]][j - lo := w[i - lo]];
    assert multiset(u[lo..hi + 1]) == multiset(w);
    assert u[..lo] == t[..lo];
    assert u[hi + 1..] == t[hi + 1..];
  }

  method Swap<T>(a: array<T>, i: int, j: int)
    requires 0 <= i < a.Length && 0 <= j < a.Length
    modifies a
    ensures a[..] == old(a[..])[i := old(a[j])][j := old(a[i])]
  {
    a[i], a[j] := a[j], a[i];
  }

  /** A swap inside a range whose elements have been rearranged already. */
  method SwapWithin<T>(a: array<T>, i: int, j: int, lo: int, hi: int, ghost s: seq<T>)
    requires 0 <= lo <= hi < a.Length == |s| && Rearranged(s, a[..], lo, hi)
    requires lo <= i <= hi && lo <= j <= hi
    modifies a
    ensures a[..] == old(a[..])[i := old(a[j])][j := old(a[i])]
    ensures Rearranged(s, a[..], lo, hi)
  {
    ghost var t := a[..];
    Swap(a, i, j);
    SwapRearranges(s, t, a[..], lo, hi, i, j);
  }

  /** Orders the elements at lo, mid and hi. */
  method MedianOfThree<T(!new)>(a: array<T>, lt: (T, T) -> bool, lo: int, hi: int) returns (mid: int)
    requires StrictWeakOrder(lt)
    requires 0 <= lo && lo + 2 <= hi < a.Length
    modifies a
    ensures lo < mid < hi
    ensures Rearranged(old(a[..]), a[..], lo, hi)
    ensures AtMost(lt, a[lo], a[mid]) && AtMost(lt, a[mid], a[hi])
  {
    ghost var s := a[..];
    mid := lo + (hi - lo) / 2;
    if lt(a[mid], a[lo]) {
      SwapWithin(a, mid, lo, lo, hi, s);
    }
    assert AtMost(lt, a[lo], a[mid]);
    if lt(a[hi], a[mid]) {
      LastTwo(a, lt, lo, mid, hi, s);
    }
  }

  /** The largest of the three goes to hi, and the other two are compared again. */
  method LastTwo<T(!new)>(a: array<T>, lt: (T, T) -> bool, lo: int, mid: int, hi: int, ghost s: seq<T>)
    requires StrictWeakOrder(lt) && 0 <= lo < mid < hi < a.Length == |s| && Rearranged(s, a[..], lo, hi)
    requires AtMost(lt, a[lo], a[mid]) && lt(a[hi], a[mid])
    modifies a
    ensures Rearranged(s, a[..], lo, hi)
    ensures AtMost(lt, a[lo], a[mid]) && AtMost(lt, a[mid], a[hi])
  {
    ghost var x, y, z := a[lo], a[mid], a[hi];
    SwapWithin(a, mid, hi, lo, hi, s);
    assert a[lo] == x && a[mid] == z && a[hi] == y;
    if lt(a[mid], a[lo]) {
      SwapWithin(a, mid, lo, lo, hi, s);
      assert a[lo] == z && a[mid] == x && a[hi] == y;
    }
  }

  /** First position from `from` on whose element is not below the pivot. */
  method ScanUp<T(!new)>(a: array<T>, lt: (T, T) -> bool, mid: int, from: int, stop: int) returns (left: int)
    requires 0 <= from <= stop < a.Length && 0 <= mid < a.Length && !lt(a[stop], a[mid])
    ensures from <= left <= stop && !lt(a[left], a[mid])
    ensures forall k :: from <= k < left ==> lt(a[k], a[mid])
  {
    left := from;
    while lt(a[left], a[mid])
      invariant from <= left <= stop
      invariant forall k :: from <= k < left ==> lt(a[k], a[mid])
      decreases stop - left
    {
      left := left + 1;
    }
  }

  /** Last position up to `from` whose element is not above the pivot. */
  method ScanDown<T(!new)>(a: array<T>, lt: (T, T) -> bool, mid: int, from: int, stop: int) returns (right: int)
    requires 0 <= stop <= from < a.Length && 0 <= mid < a.Length && !lt(a[mid], a[stop])
    ensures stop <= right <= from && !lt(a[mid], a[right])
    ensures forall k :: right < k <= from ==> lt(a[mid], a[k])
  {
    right := from;
    while lt(a[mid], a[right])
      invariant stop <= right <= from
      invariant forall k :: right < k <= from ==> lt(a[mid], a[k])
      decreases right
    {
      right := right - 1;
    }
  }

  ghost predicate Walls<T>(s: seq<T>, lt: (T, T) -> bool, p: T, lo: int, hi: int, left: int, right: int) {
    && 0 <= lo <= hi < |s|
    && (forall k :: lo <= k < left && k < |s| ==> AtMost(lt, s[k], p))
    && (forall k :: right < k <= hi && 0 <= k ==> AtMost(lt, p, s[k]))
  }

  /** The "collapse the walls" loop: splits [lo, hi] at both right + 1 and left. */
  method Partition<T(!new)>(a: array<T>, lt: (T, T) -> bool, lo: int, hi: int) returns (left: int, right: int)
    requires StrictWeakOrder(lt)
    requires 0 <= lo && lo + 2 <= hi < a.Length
    modifies a
    ensures lo <= right < left <= hi && left <= right + 2
    ensures Rearranged(old(a[..]), a[..], lo, hi)
    ensures exists p :: Walls(a[..], lt, p, lo, hi, left, right)
  {
    ghost var s := a[..];
    var mid := MedianOfThree(a, lt, lo, hi);
    ghost var p := a[mid];
    left, right := lo + 1, hi - 1;
    var walking := true;
    while walking // do ... while (left_ptr <= right_ptr)
      invariant lo < mid < hi && a[mid] == p
      invariant walking ==> lo < left <= right < hi
      invariant !walking ==> lo <= right < left <= hi && left <= right + 2
      invariant Walls(a[..], lt, p, lo, hi, left, right)
      invariant Rearranged(s, a[..], lo, hi)
      decreases walking, right - left
    {
      mid, left, right, walking := MoveWalls(a, lt, lo, hi, mid, left, right, p, s);
    }
  }

  /** One turn of the loop: the walls meet or two elements change sides. */
  method MoveWalls<T(!new)>(a: array<T>, lt: (T, T) -> bool, lo: int, hi: int, mid: int, left: int, right: int,
                            ghost p: T, ghost s: seq<T>)
    returns (mid': int, left': int, right': int, walking: bool)
    requires StrictWeakOrder(lt) && 0 <= lo < mid < hi < a.Length == |s| && a[mid] == p
    requires lo < left <= right < hi && Walls(a[..], lt, p, lo, hi, left, right) && Rearranged(s, a[..], lo, hi)
    modifies a
    ensures lo < mid' < hi && a[mid'] == p
    ensures walking ==> lo < left' <= right' < hi && right' - left' < right - left
    ensures !walking ==> lo <= right' < left' <= hi && left' <= right' + 2
    ensures Walls(a[..], lt, p, lo, hi, left', right') && Rearranged(s, a[..], lo, hi)
  {
    ghost var t := a[..];
    assert AtMost(lt, p, t[right + 1]) && AtMost(lt, t[left - 1], p);
    mid' := mid;
    left' := ScanUp(a, lt, mid, left, right + 1);
    right' := ScanDown(a, lt, mid, right, left - 1);
    WallsAdvance(t, lt, p, lo, hi, left, right, left', right');
    if left' < right' {
      SwapWithin(a, left', right', lo, hi, s);
      WallsSwap(t, a[..], lt, p, lo, hi, left', right');
      if mid == left' {
        mid' := right';
      } else if mid == right' {
        mid' := left';
      }
      left', right' := left' + 1, right' - 1;
      walking := left' <= right';
    } else if left' == right' {
      WallsSwap(t, t, lt, p, lo, hi, left', right');
      left', right' := left' + 1, right' - 1;
      walking := false;
    } else {
      walking := false;
    }
  }

  lemma WallsAdvance<T(!new)>(s: seq<T>, lt: (T, T) -> bool, p: T, lo: int, hi: int,
                       left: int, right: int, l: int, r: int)
    requires StrictWeakOrder(lt) && Walls(s, lt, p, lo, hi, left, right)
    requires lo < left <= right < hi && left <= l <= right + 1 && left - 1 <= r <= right
    requires !lt(s[l], p) && !lt(p, s[r])
    requires forall k :: left <= k < l ==> lt(s[k], p)
    requires forall k :: r < k <= right ==> lt(p, s[k])
    ensures Walls(s, lt, p, lo, hi, l, r)
    ensures l <= r + 1
    ensures l <= r ==> AtMost(lt, s[r], p) && AtMost(lt, p, s[l])
  {
    if r < right {
      assert lt(p, s[r + 1]);
    }
  }

  lemma WallsSwap<T(!new)>(s: seq<T>, t: seq<T>, lt: (T, T) -> bool, p: T, lo: int, hi: int, left: int, right: int)
    requires Walls(s, lt, p, lo, hi, left, right)
    requires lo < left <= right < hi && AtMost(lt, s[right], p) && AtMost(lt, p, s[left])
    requires t == s[left := s[right]][right := s[left]]
    ensures Walls(t, lt, p, lo, hi, left + 1, right - 1)
  {
  }

  // ---------------------------------------------------------------- pending ranges

  lemma {:induction false} Pow2Bound(k: nat, n: nat)
    requires Pow2(k) <= n < SIZE_T_RANGE
    ensures k < 64 == STACK_SIZE
  {
    Pow2Of64();
    if k >= 64 {
      Pow2Monotone(64, k);
    }
  }

  lemma Pow2Of64()
    ensures Pow2(64) == SIZE_T_RANGE
  {
    Pow2Adds(1, 1);
    Pow2Adds(2, 2);
    Pow2Adds(4, 4);
    Pow2Adds(8, 8);
    Pow2Adds(16, 16);
    Pow2Adds(32, 32);
    assert Pow2(1) == 2;
  }

  lemma Pow2Adds(j: nat, k: nat)
    ensures Pow2(j + k) == Pow2(j) * Pow2(k)
  {
    if k > 0 {
      Pow2Adds(j, k - 1);
      calc {
        Pow2(j + k);
        2 * Pow2(j + (k - 1));
        2 * (Pow2(j) * Pow2(k - 1));
        Pow2(j) * (2 * Pow2(k - 1));
      }
    }
  }

  datatype Range = Range(lo: int, hi: int)

  /** Work left: splitting a range in two, or dropping one, lowers it. */
  ghost function Work(pend: seq<Range>): int {
    if pend == [] then 0
    else Work(pend[..|pend| - 1]) + 2 * (pend[|pend| - 1].hi - pend[|pend| - 1].lo) + 1
  }

  lemma {:induction false} WorkNonNegative(pend: seq<Range>)
    requires forall k :: 0 <= k < |pend| ==> pend[k].lo <= pend[k].hi
    ensures Work(pend) >= 0
  {
    if pend != [] { WorkNonNegative(pend[..|pend| - 1]); }
  }

  lemma {:induction false} WorkSnoc(pend: seq<Range>, r: Range)
    ensures Work(pend + [r]) == Work(pend) + 2 * (r.hi - r.lo) + 1
  {
    assert (pend + [r])[..|pend|] == pend;
  }

  /** The pending ranges are disjoint, no known split lies inside one, and every pair of
      far-apart positions is either inside a pending range or separated by a known split. */
  ghost predicate Progress<T>(s: seq<T>, lt: (T, T) -> bool, pend: seq<Range>, cuts: set<int>) {
    RangesOk(pend, cuts, |s|) && Covered(pend, cuts, |s|) && forall c :: c in cuts ==> Split(s, lt, c)
  }

  ghost predicate RangesOk(pend: seq<Range>, cuts: set<int>, n: int) {
    && (forall k :: 0 <= k < |pend| ==> 0 <= pend[k].lo && pend[k].lo + MAX_THRESH <= pend[k].hi < n)
    && (forall k, m :: 0 <= k < m < |pend| ==> Apart(pend[k], pend[m]))
    && (forall c, k :: c in cuts && 0 <= k < |pend| ==> NotInside(c, pend[k]))
  }

  ghost predicate Apart(r: Range, q: Range) {
    r.hi < q.lo || q.hi < r.lo
  }

  ghost predicate NotInside(c: int, r: Range) {
    c <= r.lo || r.hi < c
  }

  ghost predicate Covered(pend: seq<Range>, cuts: set<int>, n: int) {
    forall i, j :: 0 <= i && i + MAX_THRESH < j < n ==> Separated(cuts, i, j) || Together(pend, i, j)
  }

  ghost predicate Separated(cuts: set<int>, i: int, j: int) {
    exists c :: c in cuts && i < c <= j
  }

  ghost predicate Together(pend: seq<Range>, i: int, j: int) {
    exists k :: 0 <= k < |pend| && pend[k].lo <= i && j <= pend[k].hi
  }

  /** A range with k entries below it on the stack has at most n / 2^k elements. */
  ghost predicate Fits(r: Range, k: nat, cuts: set<int>, n: int) {
    r.lo in cuts && r.hi + 1 in cuts && Pow2(k) * (r.hi - r.lo + 1) <= n
  }

  /** The ranges left to do, in stack order; the last one is being worked on. */
  ghost predicate Pending<T>(s: seq<T>, lt: (T, T) -> bool, pend: seq<Range>, cuts: set<int>) {
    Progress(s, lt, pend, cuts) && forall k :: 0 <= k < |pend| ==> Fits(pend[k], k, cuts, |s|)
  }

  /** The halves that are still too large, the larger one first. */
  function Remaining(lo: int, hi: int, left: int, right: int): (r: seq<Range>) {
    if right - lo <= MAX_THRESH then
      if hi - left <= MAX_THRESH then [] else [Range(left, hi)]
    else if hi - left <= MAX_THRESH then [Range(lo, right)]
    else if right - lo > hi - left then [Range(lo, right), Range(left, hi)]
    else [Range(left, hi), Range(lo, right)]
  }

  /** What one partition step does to the bookkeeping. */
  lemma {:induction false} Advance<T(!new)>(s: seq<T>, t: seq<T>, lt: (T, T) -> bool, rest: seq<Range>,
                         lo: int, hi: int, cuts: set<int>, left: int, right: int, p: T)
    requires StrictWeakOrder(lt)
    requires Pending(s, lt, rest + [Range(lo, hi)], cuts)
    requires 0 <= lo <= right < left <= hi < |s| && left <= right + 2 && Rearranged(s, t, lo, hi)
    requires Walls(t, lt, p, lo, hi, left, right)
    ensures Pending(t, lt, rest + Remaining(lo, hi, left, right), cuts + {left, right + 1})
    ensures 0 <= Work(rest + Remaining(lo, hi, left, right)) < Work(rest + [Range(lo, hi)])
    ensures |Remaining(lo, hi, left, right)| == 2 ==> Pow2(|rest| + 1) <= |s|
  {
    LastFits(rest, lo, hi, cuts, |s|);
    SplitsAfter(s, t, lt, rest, lo, hi, cuts, left, right, p);
    CoveredAfter(rest, lo, hi, cuts, left, right, |s|);
    RangesAfter(rest, lo, hi, cuts, left, right, |s|);
    RemainingFits(rest, lo, hi, cuts, left, right, |s|);
    RemainingWork(rest, lo, hi, left, right);
  }

  lemma LastFits(rest: seq<Range>, lo: int, hi: int, cuts: set<int>, n: int)
    requires RangesOk(rest + [Range(lo, hi)], cuts, n)
    requires forall k :: 0 <= k < |rest + [Range(lo, hi)]| ==> Fits((rest + [Range(lo, hi)])[k], k, cuts, n)
    ensures Fits(Range(lo, hi), |rest|, cuts, n)
    ensures forall k :: 0 <= k < |rest| ==> Fits(rest[k], k, cuts, n) && rest[k].lo <= rest[k].hi
  {
    var pend := rest + [Range(lo, hi)];
    assert pend[|rest|] == Range(lo, hi);
    assert forall k :: 0 <= k < |rest| ==> rest[k] == pend[k];
  }

  lemma RangesAfter(rest: seq<Range>, lo: int, hi: int, cuts: set<int>, left: int, right: int, n: int)
    requires RangesOk(rest + [Range(lo, hi)], cuts, n)
    requires lo <= right < left <= hi
    ensures RangesOk(rest + Remaining(lo, hi, left, right), cuts + {left, right + 1}, n)
  {
    var pend, pend', cuts' := rest + [Range(lo, hi)], rest + Remaining(lo, hi, left, right), cuts + {left, right + 1};
    assert pend[|rest|] == Range(lo, hi);
    forall k | 0 <= k < |rest| ensures pend'[k] == pend[k] && Apart(pend[k], Range(lo, hi)) {}
    forall k | |rest| <= k < |pend'| ensures lo <= pend'[k].lo && pend'[k].lo + MAX_THRESH <= pend'[k].hi <= hi {}
    forall k, m | 0 <= k < m < |pend'| ensures Apart(pend'[k], pend'[m]) {
      if m < |rest| { assert Apart(pend[k], pend[m]); }
    }
    forall c, k | c in cuts' && 0 <= k < |pend'| ensures NotInside(c, pend'[k]) {
      if c in cuts {
        assert NotInside(c, pend[if k < |rest| then k else |rest|]);
      }
    }
  }

  lemma SplitsAfter<T(!new)>(s: seq<T>, t: seq<T>, lt: (T, T) -> bool, rest: seq<Range>,
                      lo: int, hi: int, cuts: set<int>, left: int, right: int, p: T)
    requires StrictWeakOrder(lt)
    requires Progress(s, lt, rest + [Range(lo, hi)], cuts) && Fits(Range(lo, hi), |rest|, cuts, |s|)
    requires 0 <= lo <= right < left <= hi < |s| && Rearranged(s, t, lo, hi)
    requires Walls(t, lt, p, lo, hi, left, right)
    ensures forall c :: c in cuts + {left, right + 1} ==> Split(t, lt, c)
  {
    var pend := rest + [Range(lo, hi)];
    assert pend[|rest|] == Range(lo, hi);
    forall c | c in cuts ensures Split(t, lt, c) {
      assert NotInside(c, pend[|rest|]);
      SplitKept(s, t, lt, lo, hi, c);
    }
    SplitAcross(s, t, lt, lo, hi, left, right, left, p);
    SplitAcross(s, t, lt, lo, hi, left, right, right + 1, p);
  }

  lemma CoveredAfter(rest: seq<Range>, lo: int, hi: int, cuts: set<int>, left: int, right: int, n: int)
    requires lo <= right < left <= hi && left <= right + 2
    requires Covered(rest + [Range(lo, hi)], cuts, n)
    ensures Covered(rest + Remaining(lo, hi, left, right), cuts + {left, right + 1}, n)
  {
    var pend, added, cuts' := rest + [Range(lo, hi)], Remaining(lo, hi, left, right), cuts + {left, right + 1};
    var pend' := rest + added;
    forall i, j | 0 <= i && i + MAX_THRESH < j < n
      ensures Separated(cuts', i, j) || Together(pend', i, j)
    {
      if Separated(cuts, i, j) {
        var c :| c in cuts && i < c <= j;
        assert c in cuts';
      } else {
        var k :| 0 <= k < |pend| && pend[k].lo <= i && j <= pend[k].hi;
        if k < |rest| {
          assert pend'[k] == pend[k];
        } else if i < left <= j {
          assert left in cuts';
        } else if i < right + 1 <= j {
          assert right + 1 in cuts';
        } else if j < left {
          assert Range(lo, right) in added;
          var m :| 0 <= m < |added| && added[m] == Range(lo, right);
          assert pend'[|rest| + m] == Range(lo, right);
        } else {
          assert Range(left, hi) in added;
          var m :| 0 <= m < |added| && added[m] == Range(left, hi);
          assert pend'[|rest| + m] == Range(left, hi);
        }
      }
    }
  }

  lemma {:induction false} RemainingFits(rest: seq<Range>, lo: int, hi: int, cuts: set<int>, left: int, right: int,
                                         n: int)
    requires lo <= right < left <= hi
    requires Fits(Range(lo, hi), |rest|, cuts, n)
    requires forall k :: 0 <= k < |rest| ==> Fits(rest[k], k, cuts, n)
    ensures forall k :: 0 <= k < |rest + Remaining(lo, hi, left, right)| ==>
      Fits((rest + Remaining(lo, hi, left, right))[k], k, cuts + {left, right + 1}, n)
    ensures |Remaining(lo, hi, left, right)| == 2 ==> Pow2(|rest| + 1) <= n
  {
    var added, cuts' := Remaining(lo, hi, left, right), cuts + {left, right + 1};
    HalvesFit(Pow2(|rest|), hi - lo + 1, right - lo + 1, hi - left + 1, n);
    forall k | 0 <= k < |added| ensures Fits(added[k], |rest| + k, cuts', n) {
      assert k == 1 ==> Pow2(|rest| + k) == 2 * Pow2(|rest|);
    }
    forall k | 0 <= k < |rest + added| ensures Fits((rest + added)[k], k, cuts', n) {
      if k < |rest| {
        assert Fits(rest[k], k, cuts, n);
      } else {
        assert (rest + added)[k] == added[k - |rest|];
      }
    }
  }

  lemma {:induction false} RemainingWork(rest: seq<Range>, lo: int, hi: int, left: int, right: int)
    requires lo <= right < left <= hi
    requires forall k :: 0 <= k < |rest| ==> rest[k].lo <= rest[k].hi
    ensures 0 <= Work(rest + Remaining(lo, hi, left, right)) < Work(rest + [Range(lo, hi)])
  {
    WorkAppend(rest, Remaining(lo, hi, left, right));
    WorkNonNegative(rest);
    WorkSnoc(rest, Range(lo, hi));
    RemainingWeight(lo, hi, left, right);
  }

  lemma RemainingWeight(lo: int, hi: int, left: int, right: int)
    requires lo <= right < left <= hi
    ensures 0 <= Work(Remaining(lo, hi, left, right)) <= 2 * (hi - lo)
  {
    WorkOfOne(Range(lo, right));
    WorkOfOne(Range(left, hi));
    if right - lo > MAX_THRESH && hi - left > MAX_THRESH {
      WorkSnoc([Range(lo, right)], Range(left, hi));
      WorkSnoc([Range(left, hi)], Range(lo, right));
      assert [Range(lo, right)] + [Range(left, hi)] == [Range(lo, right), Range(left, hi)];
      assert [Range(left, hi)] + [Range(lo, right)] == [Range(left, hi), Range(lo, right)];
    }
  }

  lemma WorkOfOne(r: Range)
    ensures Work([r]) == 2 * (r.hi - r.lo) + 1
  {
    WorkSnoc([], r);
    assert [] + [r] == [r];
  }

  lemma {:induction false} WorkAppend(pend: seq<Range>, more: seq<Range>)
    ensures Work(pend + more) == Work(pend) + Work(more)
  {
    if more == [] {
      assert pend + more == pend;
    } else {
      var init, last := more[..|more| - 1], more[|more| - 1];
      WorkAppend(pend, init);
      WorkSnoc(pend + init, last);
      WorkSnoc(init, last);
      assert pend + more == (pend + init) + [last];
      assert more == init + [last];
    }
  }

  lemma SplitAcross<T(!new)>(s: seq<T>, t: seq<T>, lt: (T, T) -> bool, lo: int, hi: int,
                      left: int, right: int, c: int, p: T)
    requires StrictWeakOrder(lt)
    requires 0 <= lo <= hi < |s| && Rearranged(s, t, lo, hi)
    requires Split(s, lt, lo) && Split(s, lt, hi + 1)
    requires lo <= right < left <= hi && right < c <= left
    requires Walls(t, lt, p, lo, hi, left, right)
    ensures Split(t, lt, c)
  {
    SplitKept(s, t, lt, lo, hi, lo);
    SplitKept(s, t, lt, lo, hi, hi + 1);
    forall i, j | 0 <= i < c <= j < |t|
      ensures AtMost(lt, t[i], t[j])
    {
      if i < lo {
        assert i < lo <= j;
      } else if hi < j {
        assert i < hi + 1 <= j;
      } else {
        Transitive(lt, t[i], p, t[j]);
      }
    }
  }

  /** Chooses what to work on next: pushes the larger half or pops the last pending range. */
  method NextRange(stack: array<Range>, top: int, lo: int, hi: int, left: int, right: int)
    returns (top': int, lo': int, hi': int)
    requires stack.Length == STACK_SIZE && 0 < top <= STACK_SIZE
    requires lo <= right < left <= hi
    requires |Remaining(lo, hi, left, right)| == 2 ==> top < STACK_SIZE
    modifies stack
    ensures 0 <= top' <= STACK_SIZE
    ensures (if top' > 0 then stack[1..top'] + [Range(lo', hi')] else [])
         == old(stack[1..top]) + Remaining(lo, hi, left, right)
  {
    top', lo', hi' := top, lo, hi;
    if right - lo <= MAX_THRESH {
      if hi - left <= MAX_THRESH {
        top' := top - 1;
        lo', hi' := stack[top'].lo, stack[top'].hi;
      } else {
        lo' := left;
      }
    } else if hi - left <= MAX_THRESH {
      hi' := right;
    } else if right - lo > hi - left {
      stack[top] := Range(lo, right);
      top' := top + 1;
      lo' := left;
    } else {
      stack[top] := Range(left, hi);
      top' := top + 1;
      hi' := right;
    }
  }

  /** One round of the partitioning phase: partitions the current range and turns to the next. */
  method SortRange<T(!new)>(a: array<T>, lt: (T, T) -> bool, stack: array<Range>, top: int, lo: int, hi: int,
                            ghost pend: seq<Range>, ghost cuts: set<int>)
    returns (top': int, lo': int, hi': int, ghost pend': seq<Range>, ghost cuts': set<int>)
    requires StrictWeakOrder(lt) && a.Length < SIZE_T_RANGE
    requires stack.Length == STACK_SIZE && (a as object) != (stack as object) && 0 < top <= STACK_SIZE
    requires pend == stack[1..top] + [Range(lo, hi)] && Pending(a[..], lt, pend, cuts)
    modifies a, stack
    ensures 0 <= top' <= STACK_SIZE
    ensures pend' == if top' > 0 then stack[1..top'] + [Range(lo', hi')] else []
    ensures Pending(a[..], lt, pend', cuts') && 0 <= Work(pend') < Work(pend)
    ensures multiset(a[..]) == multiset(old(a[..]))
  {
    ghost var s, rest := a[..], stack[1..top];
    assert pend[|rest|] == Range(lo, hi);
    var left, right := Partition(a, lt, lo, hi);
    ghost var t := a[..];
    ghost var p :| Walls(t, lt, p, lo, hi, left, right);
    RearrangedIsPermutation(s, t, lo, hi);
    Advance(s, t, lt, rest, lo, hi, cuts, left, right, p);
    if |Remaining(lo, hi, left, right)| == 2 {
      Pow2Bound(top, a.Length);
    }
    pend', cuts' := rest + Remaining(lo, hi, left, right), cuts + {left, right + 1};
    WorkNonNegative(pend');
    top', lo', hi' := NextRange(stack, top, lo, hi, left, right);
    assert a[..] == t;
  }

  /** The partitioning phase. The 64-entry stack is never exceeded and the loop ends. */
  method CoarseSort<T(!new)>(a: array<T>, lt: (T, T) -> bool)
    requires StrictWeakOrder(lt)
    requires MAX_THRESH < a.Length < SIZE_T_RANGE
    modifies a
    ensures multiset(a[..]) == multiset(old(a[..]))
    ensures NearlySorted(a[..], lt)
  {
    var n := a.Length;
    var lo, hi := 0, n - 1;
    var stack := new Range[STACK_SIZE];
    var top := 1; // entry 0 is a dummy that the last POP reads
    ghost var pend, cuts := [Range(lo, hi)], {0, n};
    StartPending(a[..], lt);
    WorkNonNegative(pend);
    while top > 0
      invariant 0 <= top <= STACK_SIZE
      invariant pend == if top > 0 then stack[1..top] + [Range(lo, hi)] else []
      invariant Pending(a[..], lt, pend, cuts) && Work(pend) >= 0
      invariant multiset(a[..]) == multiset(old(a[..]))
      decreases Work(pend)
    {
      top, lo, hi, pend, cuts := SortRange(a, lt, stack, top, lo, hi, pend, cuts);
    }
    FullySeparated(a[..], lt, cuts);
  }

  lemma StartPending<T(!new)>(s: seq<T>, lt: (T, T) -> bool)
    requires |s| > MAX_THRESH
    ensures Pending(s, lt, [Range(0, |s| - 1)], {0, |s|})
  {
    var pend := [Range(0, |s| - 1)];
    forall i, j | 0 <= i && i + MAX_THRESH < j < |s| ensures Together(pend, i, j) {
      assert pend[0] == Range(0, |s| - 1);
    }
  }

  lemma FullySeparated<T(!new)>(s: seq<T>, lt: (T, T) -> bool, cuts: set<int>)
    requires Progress(s, lt, [], cuts)
    ensures NearlySorted(s, lt)
  {
    forall i, j | 0 <= i && i + MAX_THRESH < j < |s|
      ensures AtMost(lt, s[i], s[j])
    {
      assert Separated(cuts, i, j);
      var c :| c in cuts && i < c <= j;
      assert Split(s, lt, c);
    }
  }

  /** The pushed half is at most the whole, the kept half at most half of it. */
  lemma HalvesFit(p: nat, size: int, l: int, r: int, n: int)
    requires p >= 1 && p * size <= n && l >= 1 && r >= 1 && l + r <= size
    ensures p * l <= n && p * r <= n
    ensures l <= r ==> (2 * p) * l <= n
    ensures r <= l ==> (2 * p) * r <= n
    ensures 2 * p <= n
  {
    ProductMonotone(p, l + r, size);
    assert p * (l + r) == p * l + p * r;
    ProductMonotone(p, 1, l);
    ProductMonotone(p, 1, r);
    if l <= r { ProductMonotone(p, l, r); }
    if r <= l { ProductMonotone(p, r, l); }
    assert (2 * p) * l == 2 * (p * l);
    assert (2 * p) * r == 2 * (p * r);
  }

  lemma ProductMonotone(p: int, x: int, y: int)
    requires p >= 0 && x <= y
    ensures p * x <= p * y
  {
    assert p * y - p * x == p * (y - x);
  }

  // ---------------------------------------------------------------- insertion phase

  /** Finds the smallest of the first MAX_THRESH + 1 elements and moves it to the front. */
  method MinimumToFront<T(!new)>(a: array<T>, lt: (T, T) -> bool)
    requires StrictWeakOrder(lt)
    requires a.Length > 0 && NearlySorted(a[..], lt)
    modifies a
    ensures multiset(a[..]) == multiset(old(a[..]))
    ensures ReadyToInsert(a[..], lt)
  {
    var end := a.Length - 1;
    var thresh := if end < MAX_THRESH then end else MAX_THRESH;
    var tmp, run := 0, 1;
    while run <= thresh
      invariant 0 <= tmp < run <= thresh + 1
      invariant forall k :: 0 <= k < run ==> AtMost(lt, a[tmp], a[k])
    {
      if lt(a[run], a[tmp]) {
        forall k | 0 <= k < run ensures AtMost(lt, a[run], a[k]) {
          Transitive(lt, a[run], a[tmp], a[k]);
        }
        tmp := run;
      }
      run := run + 1;
    }
    forall k | 0 <= k < a.Length ensures AtMost(lt, a[tmp], a[k]) {
      if k > thresh {
        assert AtMost(lt, a[..][0], a[..][k]);
        Transitive(lt, a[tmp], a[0], a[k]);
      }
    }
    ghost var s := a[..];
    if tmp != 0 {
      Swap(a, tmp, 0);
      FrontKeeps(s, a[..], lt, tmp);
    }
  }

  lemma FrontKeeps<T(!new)>(s: seq<T>, t: seq<T>, lt: (T, T) -> bool, m: int)
    requires NearlySorted(s, lt) && 0 < m < |s| && m <= MAX_THRESH
    requires forall k :: 0 <= k < |s| ==> AtMost(lt, s[m], s[k])
    requires t == s[m := s[0]][0 := s[m]]
    ensures NearlySorted(t, lt) && multiset(t) == multiset(s)
    ensures forall k :: 0 <= k < |t| ==> AtMost(lt, t[0], t[k])
  {
    forall i, j | 0 <= i && i + MAX_THRESH < j < |t|
      ensures AtMost(lt, t[i], t[j])
    {
      assert t[j] == s[j];
      assert i == m ==> AtMost(lt, s[0], s[j]);
    }
  }

  /** Insertion sort without a bound check. The scan stops because the minimum is in front;
      no element is shifted more than MAX_THRESH places, so the phase is linear. */
  method InsertionFinish<T(!new)>(a: array<T>, lt: (T, T) -> bool) returns (ghost shifts: nat)
    requires StrictWeakOrder(lt)
    requires a.Length > 0 && ReadyToInsert(a[..], lt)
    modifies a
    ensures multiset(a[..]) == multiset(old(a[..]))
    ensures Sorted(a[..], lt)
    ensures shifts <= 4 * a.Length
  {
    shifts := 0;
    if a.Length == 1 {
      return;
    }
    var run := 2;
    while run < a.Length
      invariant 2 <= run <= a.Length
      invariant SortedUpTo(a[..], lt, run)
      invariant ReadyToInsert(a[..], lt)
      invariant multiset(a[..]) == multiset(old(a[..]))
      invariant shifts <= MAX_THRESH * run
    {
      ghost var more := InsertOne(a, lt, run);
      shifts := shifts + more;
      run := run + 1;
    }
  }

  method InsertOne<T(!new)>(a: array<T>, lt: (T, T) -> bool, run: int) returns (ghost shifts: nat)
    requires StrictWeakOrder(lt)
    requires 2 <= run < a.Length && SortedUpTo(a[..], lt, run) && ReadyToInsert(a[..], lt)
    modifies a
    ensures SortedUpTo(a[..], lt, run + 1) && ReadyToInsert(a[..], lt)
    ensures multiset(a[..]) == multiset(old(a[..])) && shifts <= MAX_THRESH
  {
    var tmp := InsertionPoint(a, lt, run);
    ghost var s := a[..];
    shifts := run - tmp;
    if tmp != run {
      MoveDown(a, tmp, run);
      InsertionKeeps(s, a[..], lt, tmp, run);
    } else {
      AppendKeeps(s, lt, run);
    }
  }

  /** Nearly sorted, with the minimum in front. */
  ghost predicate ReadyToInsert<T>(s: seq<T>, lt: (T, T) -> bool) {
    NearlySorted(s, lt) && forall k :: 0 <= k < |s| ==> AtMost(lt, s[0], s[k])
  }

  ghost predicate SortedUpTo<T>(s: seq<T>, lt: (T, T) -> bool, n: int) {
    forall i, j :: 0 <= i < j < n && j < |s| ==> AtMost(lt, s[i], s[j])
  }

  /** Where the element at run belongs among those before it; the scan has no lower bound. */
  method InsertionPoint<T(!new)>(a: array<T>, lt: (T, T) -> bool, run: int) returns (tmp: int)
    requires StrictWeakOrder(lt) && 2 <= run < a.Length && ReadyToInsert(a[..], lt)
    ensures 0 < tmp <= run && run - tmp <= MAX_THRESH
    ensures AtMost(lt, a[tmp - 1], a[run])
    ensures forall k :: tmp <= k < run ==> lt(a[run], a[k])
  {
    ghost var s := a[..];
    assert AtMost(lt, s[0], s[run]);
    assert forall k :: 0 <= k && k + MAX_THRESH < run ==> AtMost(lt, s[k], s[run]);
    tmp := run - 1;
    while lt(a[run], a[tmp])
      invariant 0 <= tmp < run && tmp >= run - MAX_THRESH - 1
      invariant forall k :: tmp < k < run ==> lt(a[run], a[k])
      decreases tmp
    {
      tmp := tmp - 1;
    }
    tmp := tmp + 1;
  }

  lemma AppendKeeps<T(!new)>(s: seq<T>, lt: (T, T) -> bool, run: int)
    requires StrictWeakOrder(lt) && 2 <= run < |s| && SortedUpTo(s, lt, run)
    requires AtMost(lt, s[run - 1], s[run])
    ensures SortedUpTo(s, lt, run + 1)
  {
    forall i | 0 <= i < run ensures AtMost(lt, s[i], s[run]) {
      if i < run - 1 { Transitive(lt, s[i], s[run - 1], s[run]); }
    }
  }

  ghost function Inserted<T>(s: seq<T>, tmp: int, run: int): seq<T>
    requires 0 <= tmp < run < |s|
  {
    s[..tmp] + [s[run]] + s[tmp..run] + s[run + 1..]
  }

  /** Takes the element at run out and puts it at tmp, shifting those in between up. */
  method MoveDown<T>(a: array<T>, tmp: int, run: int)
    requires 0 <= tmp < run < a.Length
    modifies a
    ensures a[..] == Inserted(old(a[..]), tmp, run)
    ensures multiset(a[..]) == multiset(old(a[..]))
  {
    ghost var s := a[..];
    var c := a[run];
    var k := run;
    while k > tmp
      invariant tmp <= k <= run
      invariant forall m :: k < m <= run ==> a[m] == s[m - 1]
      invariant forall m :: 0 <= m <= k ==> a[m] == s[m]
      invariant forall m :: run < m < a.Length ==> a[m] == s[m]
    {
      a[k] := a[k - 1];
      k := k - 1;
    }
    a[tmp] := c;
    assert a[..] == Inserted(s, tmp, run);
    InsertedIsPermutation(s, tmp, run);
  }

  lemma InsertedIsPermutation<T>(s: seq<T>, tmp: int, run: int)
    requires 0 <= tmp < run < |s|
    ensures multiset(Inserted(s, tmp, run)) == multiset(s)
  {
    assert s == s[..tmp] + s[tmp..run] + [s[run]] + s[run + 1..];
  }

  lemma InsertionKeeps<T(!new)>(s: seq<T>, t: seq<T>, lt: (T, T) -> bool, tmp: int, run: int)
    requires StrictWeakOrder(lt)
    requires 0 < tmp < run < |s| && t == Inserted(s, tmp, run)
    requires SortedUpTo(s, lt, run) && ReadyToInsert(s, lt)
    requires AtMost(lt, s[tmp - 1], s[run]) && forall k :: tmp <= k < run ==> lt(s[run], s[k])
    ensures SortedUpTo(t, lt, run + 1) && ReadyToInsert(t, lt)
  {
    forall k | 0 <= k < |t|
      ensures t[k] == s[if k < tmp || run < k then k else if k == tmp then run else k - 1]
    {
    }
    forall i, j | 0 <= i < j < |t| && (j <= run || i + MAX_THRESH < j)
      ensures AtMost(lt, t[i], t[j])
    {
      if j == tmp {
        if i < tmp - 1 { Transitive(lt, s[i], s[tmp - 1], s[run]); }
      } else if run < j && i == tmp {
        Transitive(lt, s[run], s[tmp], s[j]);
      }
    }
  }

  /** `gcclib_quicksort`: a sorted permutation of the input, for every strict weak order. */
  method GcclibQuicksort<T(!new)>(a: array<T>, lt: (T, T) -> bool)
    requires StrictWeakOrder(lt)
    requires a.Length < SIZE_T_RANGE
    modifies a
    ensures multiset(a[..]) == multiset(old(a[..]))
    ensures Sorted(a[..], lt)
  {
    if a.Length == 0 {
      return;
    }
    if a.Length > MAX_THRESH {
      CoarseSort(a, lt);
    }
    MinimumToFront(a, lt);
    ghost var shifts := InsertionFinish(a, lt);
  }
}
