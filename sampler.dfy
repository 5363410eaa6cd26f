/** Uniform sampling over an inclusive range by rejection: draw just enough random bits
    to cover the span, read them as an unsigned integer, and draw again whenever that
    integer exceeds the span (no modulo reduction, hence no bias). The random source is
    an explicit stream of bits threaded through the call: the stream goes in and what
    is left of it comes out. */
module Sampler {
  import opened Wrappers
  import opened Bits

  /** Draws one value of `[lo, hi]` from `bits`. Every draw reads `BitLength(hi - lo)`
      bits. The result is the value and the rest of the stream; `None` when the stream
      ends before a draw is accepted (a real random source never ends). */
  function Sample(lo: int, hi: int, bits: seq<bool>): (res: Option<(int, seq<bool>)>)
    requires lo <= hi
    ensures res.Some? ==> lo <= res.value.0 <= hi
    ensures res.Some? ==> |res.value.1| + BitLength(hi - lo) <= |bits|
    ensures res.Some? ==> res.value.1 == bits[|bits| - |res.value.1|..]
    decreases |bits|
  {
    var k := BitLength(hi - lo);
    if |bits| < k then None
    else
      var d := FromBits(bits[..k]);
      if d <= hi - lo then Some((lo + d, bits[k..]))
      else
        assert bits[..k] != [];
        Sample(lo, hi, bits[k..])
  }

  /** A draw whose value is within the span is accepted: the result is the lower bound
      plus the value of the draw, and the stream moves past the draw. */
  lemma SampleAccepts(lo: int, hi: int, word: seq<bool>, rest: seq<bool>)
    requires lo <= hi && |word| == BitLength(hi - lo) && FromBits(word) <= hi - lo
    ensures Sample(lo, hi, word + rest) == Some((lo + FromBits(word), rest))
  {
  }

  /** A draw whose value exceeds the span is thrown away and sampling starts again on
      the rest of the stream. */
  lemma SampleRejects(lo: int, hi: int, word: seq<bool>, rest: seq<bool>)
    requires lo <= hi && |word| == BitLength(hi - lo) && FromBits(word) > hi - lo
    ensures Sample(lo, hi, word + rest) == Sample(lo, hi, rest)
  {
  }

  /** A rejected draw never ends a sample exactly at the rest of the stream behind it:
      sampling starts again on that rest and reads at least one more draw from it. */
  lemma RejectedDrawConsumesMore(lo: int, hi: int, v: int, word: seq<bool>, rest: seq<bool>)
    requires lo <= hi && |word| == BitLength(hi - lo) && FromBits(word) > hi - lo
    ensures Sample(lo, hi, word + rest) != Some((v, rest))
  {
    SampleRejects(lo, hi, word, rest);
    assert |word| >= 1;
    var res := Sample(lo, hi, rest);
    assert res.Some? ==> |res.value.1| < |rest|;
  }

  /** Uniformity: each value `v` of `[lo, hi]` is produced by exactly one draw, the
      word that encodes `v - lo`. So all values are reachable, and every value has the
      same chance as every other. */
  lemma {:induction false} ExactlyOneDrawPerValue(lo: int, hi: int, v: int, word: seq<bool>, rest: seq<bool>)
    requires lo <= v <= hi && |word| == BitLength(hi - lo)
    ensures Sample(lo, hi, word + rest) == Some((v, rest)) <==> word == ToBits(v - lo, |word|)
  {
    var d := FromBits(word);
    FromToBits(v - lo, |word|);
    ToFromBits(word);
    assert word == ToBits(v - lo, |word|) <==> d == v - lo;
    if d <= hi - lo {
      SampleAccepts(lo, hi, word, rest);
      assert Sample(lo, hi, word + rest) == Some((lo + d, rest));
    } else {
      RejectedDrawConsumesMore(lo, hi, v, word, rest);
      assert d != v - lo;
    }
  }

  /** More than half of all draws are accepted, so the expected number of draws per
      sample is below two. */
  lemma AcceptedDrawsOutnumberRejected(lo: int, hi: int)
    requires lo <= hi
    ensures 2 * (hi - lo + 1) > Pow2(BitLength(hi - lo))
  {
  }
}
