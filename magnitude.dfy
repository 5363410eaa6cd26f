/** The "smaller" relation that every shrink candidate of a big integer must
    satisfy: comparison of magnitudes (absolute values). */
module Magnitude {

  /** Absolute value, written as the test helper writes it: `v >= 0 ? v : -v`. */
  function Abs(v: int): (r: nat)
    ensures r == v || r == -v
    ensures v <= r && -v <= r
  {
    if v >= 0 then v else -v
  }

  /** `isStrictlySmallerBigInt(v1, v2)`: the magnitude of `v1` is below the magnitude of
      `v2`, that is, `v1` lies strictly between `-|v2|` and `|v2|`. */
  function IsStrictlySmaller(v1: int, v2: int): (b: bool)
    ensures b <==> -(Abs(v2) as int) < v1 < Abs(v2)
    ensures b ==> v2 != 0
  {
    Abs(v1) < Abs(v2)
  }

  /** No value is strictly smaller than itself. */
  lemma StrictlySmallerIrreflexive(v: int)
    ensures !IsStrictlySmaller(v, v)
  {
  }

  /** The relation is transitive. */
  lemma StrictlySmallerTransitive(a: int, b: int, c: int)
    requires IsStrictlySmaller(a, b) && IsStrictlySmaller(b, c)
    ensures IsStrictlySmaller(a, c)
  {
  }

  /** The relation is asymmetric. */
  lemma StrictlySmallerAsymmetric(a: int, b: int)
    requires IsStrictlySmaller(a, b)
    ensures !IsStrictlySmaller(b, a)
  {
  }

  /** Zero is the bottom of the order: nothing is smaller than zero, and zero is smaller
      than every other integer. */
  lemma ZeroIsLeast(v: int)
    ensures !IsStrictlySmaller(v, 0)
    ensures v != 0 <==> IsStrictlySmaller(0, v)
  {
  }

  /** `chain` is a strictly decreasing chain: each element is strictly smaller than the one before. */
  predicate IsDescendingChain(chain: seq<int>) {
    forall i :: 0 < i < |chain| ==> IsStrictlySmaller(chain[i], chain[i - 1])
  }

  /** Every strictly decreasing chain that starts at `v` has at most `|v| + 1` elements, so
      no chain of shrinks is infinite; the magnitude of the last element is at most the
      magnitude of the first minus the number of steps. */
  lemma {:induction false} DescendingChainBound(chain: seq<int>)
    requires |chain| > 0 && IsDescendingChain(chain)
    ensures Abs(chain[|chain| - 1]) + |chain| - 1 <= Abs(chain[0])
    ensures |chain| <= Abs(chain[0]) + 1
  {
    if |chain| > 1 {
      var prefix := chain[..|chain| - 1];
      assert IsDescendingChain(prefix) by {
        forall i | 0 < i < |prefix|
          ensures IsStrictlySmaller(prefix[i], prefix[i - 1])
        {
          assert prefix[i] == chain[i] && prefix[i - 1] == chain[i - 1];
        }
      }
      DescendingChainBound(prefix);
      assert IsStrictlySmaller(chain[|chain| - 1], chain[|chain| - 2]);
    }
  }
}
