/** The pure part of acquisition: assembling the 24-bit code from the three data
    register bytes, and the fixed linear map from that code to picofarads.
    Picofarads are exact reals; the source computes in IEEE doubles. */
module Conversion {
  import opened Registers

  /** An unsigned 32-bit quantity (uint32_t). */
  type uint32 = x: int | 0 <= x < 0x1_0000_0000

  /** 2^24: every assembled code lies below it. */
  const CODE_LIMIT: int := 0x100_0000
  /** 2^23, the zero-capacitance code. */
  const MID: int := 0x80_0000
  /** Half the input span: the converter reads -4.096 pF .. +4.096 pF. */
  const FULL_SCALE: real := 4.096
  /** Picofarads per code step. */
  const LSB: real := FULL_SCALE / 8388608.0

  /** The `(int32_t)` cast: reinterprets the 32 bits as two's complement. */
  function Int32Of(x: uint32): (v: int)
    ensures -0x8000_0000 <= v < 0x8000_0000
    ensures (v - x) % 0x1_0000_0000 == 0
  {
    if x < 0x8000_0000 then x else x - 0x1_0000_0000
  }

  /** Picofarads of a raw code: (int32(code) - 2^23) * (4.096 / 2^23).
      Zero exactly at the midpoint; inside the span for every 24-bit code,
      negative exactly below the midpoint. */
  function CodeToPf(code24: uint32): (pf: real)
    ensures pf == 0.0 <==> code24 == MID
    ensures code24 < CODE_LIMIT ==> -FULL_SCALE <= pf < FULL_SCALE
    ensures code24 < CODE_LIMIT ==> (pf < 0.0 <==> code24 < MID)
  {
    ((Int32Of(code24) as real) - 8388608.0) * LSB
  }

  /** On 24-bit codes the cast is the identity and the map is the textbook one;
      the three landmark codes land where the span says. */
  lemma CodeToPfOn24Bit(c: uint32)
    requires c < CODE_LIMIT
    ensures CodeToPf(c) == (c - MID) as real * 4.096 / 8388608.0
    ensures CodeToPf(0x80_0000) == 0.0
    ensures CodeToPf(0x00_0000) == -4.096
    ensures CodeToPf(0xFF_FFFF) == 4.096 - 4.096 / 8388608.0
  {
  }

  /** The map is strictly increasing on 24-bit codes, by exactly one LSB per step. */
  lemma CodeToPfStrictlyIncreasing(a: uint32, b: uint32)
    requires a < b < CODE_LIMIT
    ensures CodeToPf(a) < CodeToPf(b)
    ensures CodeToPf(b) - CodeToPf(a) == (b - a) as real * LSB
  {
  }

  /** The code whose reading is the largest one not above `pf`: the inverse of
      CodeToPf up to one LSB. */
  function CodeFor(pf: real): (code: uint32)
    requires -FULL_SCALE <= pf < FULL_SCALE
    ensures code < CODE_LIMIT
    ensures CodeToPf(code) <= pf < CodeToPf(code) + LSB
  {
    var steps := (pf / LSB).Floor;
    assert -(MID as real) <= pf / LSB < MID as real;
    steps + MID
  }

  /** Converting a code to picofarads and back gives the same code. */
  lemma CodeForCodeToPf(c: uint32)
    requires c < CODE_LIMIT
    ensures CodeFor(CodeToPf(c)) == c
  {
    assert CodeToPf(c) / LSB == (c - MID) as real;
  }

  /** The big-endian code d0*2^16 + d1*2^8 + d2 of three data register bytes. */
  function Assemble(d0: byte, d1: byte, d2: byte): (code: uint32)
    ensures code < CODE_LIMIT
    ensures code / 0x1_0000 == d0
  {
    d0 * 0x1_0000 + d1 * 0x100 + d2
  }

  /** On 32-bit words holding bytes, the source's `(d0 << 16) | (d1 << 8) | d2`
      is the weighted sum that Assemble computes: the three fields do not overlap. */
  lemma ShiftOrIsSum(d0: bv32, d1: bv32, d2: bv32)
    requires d0 < 0x100 && d1 < 0x100 && d2 < 0x100
    ensures (d0 << 16) | (d1 << 8) | d2 == d0 * 0x1_0000 + d1 * 0x100 + d2
  {
  }

  /** The three bytes of a 24-bit code, high byte first. */
  function Split(code: uint32): (bytes: (byte, byte, byte))
    requires code < CODE_LIMIT
  {
    (code / 0x1_0000, code / 0x100 % 0x100, code % 0x100)
  }

  /** Splitting an assembled code gives back the bytes that were read. */
  lemma SplitAssemble(d0: byte, d1: byte, d2: byte)
    ensures Split(Assemble(d0, d1, d2)) == (d0, d1, d2)
  {
    var code := Assemble(d0, d1, d2);
    assert code / 0x100 == d0 * 0x100 + d1;
    assert code % 0x100 == d2;
    assert (d0 * 0x100 + d1) % 0x100 == d1;
  }

  /** Every 24-bit code is assembled from its own three bytes. */
  lemma AssembleSplit(code: uint32)
    requires code < CODE_LIMIT
    ensures Assemble(Split(code).0, Split(code).1, Split(code).2) == code
  {
    var q := code / 0x100;
    assert code == q * 0x100 + code % 0x100;
    assert q == (q / 0x100) * 0x100 + q % 0x100;
    assert q / 0x100 == code / 0x1_0000;
  }
}
