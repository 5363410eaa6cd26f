/** Shrinking of a big integer within its canonical range. The candidates, in order:
    1. zero, when the range admits it and the value is not zero;
    2. the range bound nearest zero, when it is strictly smaller than the value and
       not already emitted;
    3. repeated bisection between the last candidate and the value, each midpoint
       rounded toward zero, until a midpoint is the value or an earlier candidate. */
module Shrinker {
  import opened Wrappers
  import opened Magnitude
  import opened Constraints

  /** `c` lies in the closed interval spanned by `a` and `b`, in either order. */
  predicate Between(a: int, b: int, c: int) {
    a <= c <= b || b <= c <= a
  }

  /** The midpoint of `a` and `b` rounded toward zero: within one half of the exact
      midpoint, never of greater magnitude than it, and inside the interval. */
  function MidTowardZero(a: int, b: int): (m: int)
    ensures Between(a, b, m)
    ensures -1 <= a + b - 2 * m <= 1
    ensures Abs(2 * m) <= Abs(a + b)
  {
    if a + b >= 0 then (a + b) / 2 else -((-(a + b)) / 2)
  }

  /** The bound of `r` nearest zero (the upper one on a tie); none when `r` has no bound. */
  function NearestBoundary(r: Range): (b: Option<int>)
    ensures b.None? <==> r.min.None? && r.max.None?
    ensures b.Some? ==> Some(b.value) == r.min || Some(b.value) == r.max
    ensures b.Some? && r.min.Some? ==> Abs(b.value) <= Abs(r.min.value)
    ensures b.Some? && r.max.Some? ==> Abs(b.value) <= Abs(r.max.value)
  {
    match (r.min, r.max)
    case (Some(lo), Some(hi)) => if Abs(lo) < Abs(hi) then Some(lo) else Some(hi)
    case (Some(lo), None) => Some(lo)
    case (None, Some(hi)) => Some(hi)
    case (None, None) => None
  }

  /** No value occurs twice in `s`. */
  predicate Distinct(s: seq<int>) {
    forall i, j :: 0 <= i < j < |s| ==> s[i] != s[j]
  }

  /** Step 3: the midpoints between `last` and `v`, each taken as the next `last`, until a
      midpoint is `v` itself or was emitted before. Every midpoint lies between `last`
      and `v`, differs from `v`, is new, and appears once. */
  function Bisect(last: int, v: int, emitted: seq<int>): (cs: seq<int>)
    requires last in emitted
    ensures forall c :: c in cs ==> Between(last, v, c) && c != v && c !in emitted
    ensures Distinct(cs)
    decreases Abs(v - last)
  {
    var m := MidTowardZero(last, v);
    if m == v || m in emitted then []
    else
      var tail := Bisect(m, v, emitted + [m]);
      assert forall c :: c in tail ==> c != m;
      [m] + tail
  }

  /** The shrink candidates of `v` in the range `r`, in the order they are tried. For a
      value of a well-formed range, every candidate lies in the range and is strictly
      smaller than the value. */
  function Shrink(v: int, r: Range): (cs: seq<int>)
    ensures r.WellFormed() && r.Contains(v) ==>
              forall c :: c in cs ==> r.Contains(c) && IsStrictlySmaller(c, v)
  {
    var zero := if r.Contains(0) && v != 0 then [0] else [];
    var boundary :=
      match NearestBoundary(r)
      case Some(b) => if IsStrictlySmaller(b, v) && b !in zero then [b] else []
      case None => [];
    var prefix := zero + boundary;
    if prefix == [] then [] else prefix + Bisect(prefix[|prefix| - 1], v, prefix)
  }

  /** In a well-formed range the nearest bound is in the range and no value of the range
      is nearer zero; when the range excludes zero it is the value nearest zero. */
  lemma NearestBoundaryIsNearest(r: Range, x: int)
    requires r.WellFormed() && NearestBoundary(r).Some?
    ensures r.Contains(NearestBoundary(r).value)
    ensures r.Contains(x) && !r.Contains(0) ==> Abs(NearestBoundary(r).value) <= Abs(x)
  {
  }

  /** No candidate is offered twice. */
  lemma ShrinkCandidatesDistinct(v: int, r: Range)
    ensures Distinct(Shrink(v, r))
  {
    var zero := if r.Contains(0) && v != 0 then [0] else [];
    var boundary :=
      match NearestBoundary(r)
      case Some(b) => if IsStrictlySmaller(b, v) && b !in zero then [b] else []
      case None => [];
    var prefix := zero + boundary;
    if prefix != [] {
      var tail := Bisect(prefix[|prefix| - 1], v, prefix);
      var cs := prefix + tail;
      forall i, j | 0 <= i < j < |cs|
        ensures cs[i] != cs[j]
      {
        if j >= |prefix| {
          assert cs[j] == tail[j - |prefix|];
          if i >= |prefix| {
            assert cs[i] == tail[i - |prefix|];
          } else {
            assert cs[i] in prefix;
          }
        }
      }
    }
  }

  /** Shrinking stops exactly at the values that have nothing strictly smaller in their
      range: the sequence is empty if and only if no value of the range is smaller. */
  lemma ShrinkEmptyIffMinimal(v: int, r: Range)
    requires r.WellFormed() && r.Contains(v)
    ensures Shrink(v, r) == [] <==> !exists c :: r.Contains(c) && IsStrictlySmaller(c, v)
  {
  }

  /** The first candidate is a value of the range nearest zero, so the first step of a
      shrink already reaches the smallest magnitude the range permits. */
  lemma FirstCandidateIsNearestZero(v: int, r: Range, x: int)
    requires r.WellFormed() && r.Contains(v) && Shrink(v, r) != []
    requires r.Contains(x)
    ensures r.Contains(Shrink(v, r)[0]) && Abs(Shrink(v, r)[0]) <= Abs(x)
  {
    if !r.Contains(0) {
      // Zero is out of reach, so the first candidate is the bound nearest zero.
      NearestBoundaryIsNearest(r, x);
    }
  }

  /** Each element of a shrink path (each element a candidate of the one before) lies in
      the range of the first. */
  lemma {:induction false} ShrinkPathInRange(path: seq<int>, r: Range, i: nat)
    requires r.WellFormed() && |path| > 0 && r.Contains(path[0])
    requires forall k :: 0 < k < |path| ==> path[k] in Shrink(path[k - 1], r)
    requires i < |path|
    ensures r.Contains(path[i])
    ensures i > 0 ==> IsStrictlySmaller(path[i], path[i - 1])
  {
    if i > 0 {
      ShrinkPathInRange(path, r, i - 1);
    }
  }

  /** A shrink path from `v` has at most `|v| + 1` elements: repeated shrinking always ends. */
  lemma ShrinkPathFinite(path: seq<int>, r: Range)
    requires r.WellFormed() && |path| > 0 && r.Contains(path[0])
    requires forall k :: 0 < k < |path| ==> path[k] in Shrink(path[k - 1], r)
    ensures |path| <= Abs(path[0]) + 1
  {
    forall i | 0 < i < |path|
      ensures IsStrictlySmaller(path[i], path[i - 1])
    {
      ShrinkPathInRange(path, r, i);
    }
    DescendingChainBound(path);
  }
}
