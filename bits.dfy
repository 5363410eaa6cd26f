/** Exact power-of-two arithmetic on unbounded integers: powers of two, the left shift
    of JavaScript's BigInt, the number of bits needed for a span, and words of random
    bits read as unsigned integers. */
module Bits {

  /** 2 to the power `k`. */
  function Pow2(k: nat): (r: nat)
    ensures r >= 1
  {
    if k == 0 then 1 else 2 * Pow2(k - 1)
  }

  /** `x << k` on a BigInt: doubles `x`, `k` times (an arithmetic shift, so a negative
      operand stays negative). The result is `x * 2^k`, so `-1 << k` is `-2^k` and
      `1 << k` is `2^k`. */
  function ShiftLeft(x: int, k: nat): (r: int)
    ensures r == x * Pow2(k)
  {
    if k == 0 then x
    else
      assert x * Pow2(k) == 2 * (x * Pow2(k - 1));
      2 * ShiftLeft(x, k - 1)
  }

  /** The minimal number of bits that covers `[0, span]`: the least `k` with `span < 2^k`. */
  function BitLength(span: nat): (k: nat)
    ensures span < Pow2(k)
    ensures k == 0 || Pow2(k - 1) <= span
  {
    if span == 0 then 0 else 1 + BitLength(span / 2)
  }

  /** A word of `k` random bits, least significant first, read as an unsigned integer. */
  function FromBits(word: seq<bool>): (r: nat)
    ensures r < Pow2(|word|)
  {
    if word == [] then 0 else (if word[0] then 1 else 0) + 2 * FromBits(word[1..])
  }

  /** The `k`-bit word whose value is `x`. */
  function ToBits(x: nat, k: nat): (word: seq<bool>)
    requires x < Pow2(k)
    ensures |word| == k
  {
    if k == 0 then [] else [x % 2 == 1] + ToBits(x / 2, k - 1)
  }

  /** Reading back the word written for `x` gives `x`. */
  lemma {:induction false} FromToBits(x: nat, k: nat)
    requires x < Pow2(k)
    ensures FromBits(ToBits(x, k)) == x
  {
    if k > 0 {
      FromToBits(x / 2, k - 1);
      var w := ToBits(x, k);
      assert w[1..] == ToBits(x / 2, k - 1);
    }
  }

  /** Writing back the value of a word gives the word: together with FromToBits, the
      `k`-bit words and the integers of `[0, 2^k)` are in one-to-one correspondence. */
  lemma {:induction false} ToFromBits(word: seq<bool>)
    ensures ToBits(FromBits(word), |word|) == word
  {
    if word != [] {
      ToFromBits(word[1..]);
      var x := FromBits(word);
      assert x / 2 == FromBits(word[1..]);
      assert (x % 2 == 1) == word[0];
    }
  }
}
