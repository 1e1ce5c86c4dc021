/** The arithmetic of an averaging session: the running sum of the readings
    and the mean that is returned once enough readings have been collected. */
module Averaging {
  import opened Conversion

  /** The running sum of the readings of `codes`, accumulated left to right. */
  function SumPf(codes: seq<uint32>): real
  {
    if codes == [] then 0.0
    else SumPf(codes[..|codes| - 1]) + CodeToPf(codes[|codes| - 1])
  }

  /** The arithmetic mean of the readings of `codes`. */
  function MeanPf(codes: seq<uint32>): real
    requires |codes| > 0
  {
    SumPf(codes) / (|codes| as real)
  }

  /** Adding one more reading adds its picofarads to the running sum. */
  lemma SumPfAppend(codes: seq<uint32>, c: uint32)
    ensures SumPf(codes + [c]) == SumPf(codes) + CodeToPf(c)
  {
    assert (codes + [c])[..|codes|] == codes;
  }

  /** n identical readings sum to n times that reading. */
  lemma {:induction false} SumOfIdentical(codes: seq<uint32>, c: uint32)
    requires forall k :: 0 <= k < |codes| ==> codes[k] == c
    ensures SumPf(codes) == (|codes| as real) * CodeToPf(c)
  {
    if codes != [] {
      SumOfIdentical(codes[..|codes| - 1], c);
    }
  }

  /** The mean of identical readings is that reading; in particular N readings
      of the midpoint code 0x800000 average to exactly 0 pF. */
  lemma MeanOfIdentical(codes: seq<uint32>, c: uint32)
    requires |codes| > 0
    requires forall k :: 0 <= k < |codes| ==> codes[k] == c
    ensures MeanPf(codes) == CodeToPf(c)
    ensures c == MID ==> MeanPf(codes) == 0.0
  {
    SumOfIdentical(codes, c);
  }

  /** The sum of n readings of 24-bit codes lies within n times the span. */
  lemma {:induction false} SumInRange(codes: seq<uint32>)
    requires forall k :: 0 <= k < |codes| ==> codes[k] < CODE_LIMIT
    ensures -FULL_SCALE * (|codes| as real) <= SumPf(codes)
    ensures |codes| > 0 ==> SumPf(codes) < FULL_SCALE * (|codes| as real)
  {
    if codes != [] {
      SumInRange(codes[..|codes| - 1]);
    }
  }

  /** The mean of readings of 24-bit codes lies within the converter's span. */
  lemma MeanInRange(codes: seq<uint32>)
    requires |codes| > 0
    requires forall k :: 0 <= k < |codes| ==> codes[k] < CODE_LIMIT
    ensures -FULL_SCALE <= MeanPf(codes) < FULL_SCALE
  {
    SumInRange(codes);
    var n := |codes| as real;
    assert MeanPf(codes) * n == SumPf(codes);
  }
}
