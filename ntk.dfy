// The NTK scaling helpers of the custom kernels: the integer-valued alpha of
// dynamic NTK and the inverse-frequency table of mixed NTK.
module Ntk {
  import opened CInt
  import opened Floats

  function Pow2(e: nat): (p: nat)
    ensures p >= 1
  {
    if e == 0 then 1 else 2 * Pow2(e - 1)
  }

  /** The least e with q <= 2^e, i.e. ceil(log2 q). */
  function CeilLog2(q: nat): nat
    requires q >= 1
    decreases q
  {
    if q == 1 then 0 else 1 + CeilLog2((q + 1) / 2)
  }

  lemma {:induction false} CeilLog2Bounds(q: nat)
    requires q >= 1
    ensures q <= Pow2(CeilLog2(q))
    ensures CeilLog2(q) > 0 ==> Pow2(CeilLog2(q) - 1) < q
  {
    if q > 1 {
      CeilLog2Bounds((q + 1) / 2);
    }
  }

  lemma {:induction false} Pow2Monotone(e: nat, e': nat)
    requires e <= e'
    ensures Pow2(e) <= Pow2(e')
  {
    if e < e' {
      Pow2Monotone(e, e' - 1);
    }
  }

  /** Any e whose power of two brackets q is ceil(log2 q). */
  lemma CeilLog2Unique(q: nat, e: nat)
    requires q >= 1 && q <= Pow2(e) && (e > 0 ==> Pow2(e - 1) < q)
    ensures CeilLog2(q) == e
  {
    CeilLog2Bounds(q);
    var c := CeilLog2(q);
    if c < e {
      Pow2Monotone(c, e - 1);
    } else if c > e {
      Pow2Monotone(e, c - 1);
    }
  }

  /**
   * qwen_get_ntk_alpha with q = true_seq_len / seq_length (C division):
   * max(1, 2^(ceil(log2 q) + 1) - 1). When q <= 0 the logarithm is -inf or
   * NaN and the final max yields 1.
   */
  function NtkAlpha(trueSeqLen: int, seqLength: int): (alpha: nat)
    requires seqLength != 0
    ensures alpha >= 1
  {
    var q := CDiv(trueSeqLen, seqLength);
    if q <= 0 then 1 else Pow2(CeilLog2(q) + 1) - 1
  }

  /** alpha + 1 is the power of two just above twice the quotient. */
  lemma NtkAlphaBracket(trueSeqLen: int, seqLength: int)
    requires seqLength != 0
    requires CDiv(trueSeqLen, seqLength) >= 1
    ensures var q := CDiv(trueSeqLen, seqLength);
            var a := NtkAlpha(trueSeqLen, seqLength);
            2 * q <= a + 1 && (q >= 2 ==> a + 1 < 4 * q)
  {
    var q := CDiv(trueSeqLen, seqLength);
    CeilLog2Bounds(q);
  }

  /** The small cases: q <= 1 gives 1, q = 2 gives 3, q in {3, 4} gives 7. */
  lemma NtkAlphaSmall(trueSeqLen: int, seqLength: int)
    requires seqLength != 0
    ensures var q := CDiv(trueSeqLen, seqLength);
            var a := NtkAlpha(trueSeqLen, seqLength);
            (q <= 1 ==> a == 1) && (q == 2 ==> a == 3) && (3 <= q <= 4 ==> a == 7)
  {
    var q := CDiv(trueSeqLen, seqLength);
    if q == 2 {
      CeilLog2Unique(2, 1);
    } else if q == 3 || q == 4 {
      CeilLog2Unique(q, 2);
    }
  }

  lemma {:induction false} CeilLog2Monotone(q: nat, q': nat)
    requires 1 <= q <= q'
    ensures CeilLog2(q) <= CeilLog2(q')
  {
    if q > 1 {
      CeilLog2Monotone((q + 1) / 2, (q' + 1) / 2);
    }
  }

  /** A longer true sequence never gives a smaller alpha. */
  lemma NtkAlphaMonotone(t: int, t': int, seqLength: int)
    requires seqLength != 0
    requires CDiv(t, seqLength) <= CDiv(t', seqLength)
    ensures NtkAlpha(t, seqLength) <= NtkAlpha(t', seqLength)
  {
    var q, q' := CDiv(t, seqLength), CDiv(t', seqLength);
    if q >= 1 {
      CeilLog2Monotone(q, q');
      Pow2Monotone(CeilLog2(q) + 1, CeilLog2(q') + 1);
    }
  }

  // Default arguments of build_ntk_mixed_inv_freq.
  const DEFAULT_MAX_POSITION_EMBEDDINGS: int := 2048
  const DEFAULT_BASE: real := 10000.0
  const DEFAULT_K: real := 16.0
  const DEFAULT_B: real := 0.3

  /** The exponent scale a = log(k) / (dim/2)^b, with C integer division. */
  function MixedScale(fl: FloatLib, dim: int, k: real, b: real): real
  {
    fl.div(fl.log(k), fl.pow(CDiv(dim, 2) as real, b))
  }

  /** Entry for the even index i: 1 / base^(i/dim) / exp(a * (i/2 + 1)^b). */
  function MixedInvFreqEntry(fl: FloatLib, dim: int, base: real, a: real, b: real, i: nat): real
  {
    fl.div(fl.div(1.0, fl.pow(base, fl.div(i as real, dim as real))),
           fl.exp(a * fl.pow((i / 2 + 1) as real, b)))
  }

  /** Number of even indices below dim (none when dim <= 0). */
  function MixedTableLength(dim: int): nat
  {
    if dim <= 0 then 0 else (dim + 1) / 2
  }

  /**
   * build_ntk_mixed_inv_freq: the output vector is cleared, then one entry is
   * pushed per even i < dim. The maximum position argument is unused.
   */
  method BuildNtkMixedInvFreq(fl: FloatLib, dim: int, maxPositionEmbeddings: int, base: real, k: real, b: real)
    returns (invFreq: seq<real>)
    ensures |invFreq| == MixedTableLength(dim)
    ensures forall m :: 0 <= m < |invFreq| ==> 2 * m < dim && invFreq[m] == MixedInvFreqEntry(fl, dim, base, MixedScale(fl, dim, k, b), b, 2 * m)
  {
    invFreq := [];
    var a := MixedScale(fl, dim, k, b);
    var i := 0;
    while i < dim
      invariant 0 <= i && i % 2 == 0
      invariant i <= dim + 1 || i == 0
      invariant |invFreq| == i / 2
      invariant forall m :: 0 <= m < |invFreq| ==> 2 * m < dim && invFreq[m] == MixedInvFreqEntry(fl, dim, base, MixedScale(fl, dim, k, b), b, 2 * m)
    {
      var v := MixedInvFreqEntry(fl, dim, base, a, b, i);
      assert 2 * |invFreq| == i;
      invFreq := invFreq + [v];
      i := i + 2;
    }
    assert dim > 0 ==> i == dim || i == dim + 1;
  }
}
