/** Register map, bus addresses, STATUS bit positions and documented default
    configuration of the AD7746 capacitance-to-digital converter. */
module Registers {

  /** An unsigned 8-bit quantity (uint8_t). */
  type byte = b: int | 0 <= b < 0x100

  /** The AD7746's fixed 7-bit slave address. */
  const I2C_ADDR: byte := 0x48
  /** The reserved broadcast address used by the general-call reset. */
  const GENERAL_CALL_ADDR: byte := 0x00
  /** The command byte that, sent to the general-call address, resets the chip. */
  const RESET_CMD: byte := 0x06

  // Register map
  const REG_STATUS: byte        := 0x00
  const REG_CAP_DATA_H: byte    := 0x01
  const REG_CAP_DATA_M: byte    := 0x02
  const REG_CAP_DATA_L: byte    := 0x03
  const REG_VT_DATA_H: byte     := 0x04
  const REG_VT_DATA_M: byte     := 0x05
  const REG_VT_DATA_L: byte     := 0x06
  const REG_CAP_SETUP: byte     := 0x07
  const REG_VT_SETUP: byte      := 0x08
  const REG_EXC_SETUP: byte     := 0x09
  const REG_CONFIGURATION: byte := 0x0A
  const REG_CAP_DAC_A: byte     := 0x0B
  const REG_CAP_DAC_B: byte     := 0x0C
  const REG_CAP_OFF_H: byte     := 0x0D
  const REG_CAP_OFF_L: byte     := 0x0E
  const REG_CAP_GAIN_H: byte    := 0x0F
  const REG_CAP_GAIN_L: byte    := 0x10

  // STATUS bits
  const STATUS_EXCERR_BIT: nat := 3
  const STATUS_RDYVT_BIT: nat  := 1
  const STATUS_RDYCAP_BIT: nat := 0

  // Defaults written at bring-up
  /** CAPEN=1, CIN1, single-ended, CAPCHOP=1 */
  const DEFAULT_CAP_SETUP: byte := 0x81
  /** EXCA on, non-inverted, EXCLVL=00 (lowest) */
  const DEFAULT_EXC_SETUP: byte := 0x08
  /** MD=001 (continuous), CAPF=100 (slower, less noise) */
  const DEFAULT_CONFIGURATION: byte := 0x21

  /** The register map in declaration order. */
  function RegisterMap(): seq<byte>
  {
    [REG_STATUS, REG_CAP_DATA_H, REG_CAP_DATA_M, REG_CAP_DATA_L,
     REG_VT_DATA_H, REG_VT_DATA_M, REG_VT_DATA_L,
     REG_CAP_SETUP, REG_VT_SETUP, REG_EXC_SETUP, REG_CONFIGURATION,
     REG_CAP_DAC_A, REG_CAP_DAC_B,
     REG_CAP_OFF_H, REG_CAP_OFF_L, REG_CAP_GAIN_H, REG_CAP_GAIN_L]
  }

  /** The seventeen register addresses are exactly 0x00 .. 0x10, so no two coincide. */
  lemma RegisterMapDistinct()
    ensures |RegisterMap()| == 17
    ensures forall k :: 0 <= k < |RegisterMap()| ==> RegisterMap()[k] == k
    ensures forall i, j :: 0 <= i < j < |RegisterMap()| ==> RegisterMap()[i] != RegisterMap()[j]
  {
  }

  /** The three capacitance data registers are consecutive, high byte first,
      so one auto-incrementing 3-byte read from the high register yields H, M, L. */
  lemma CapDataConsecutive()
    ensures REG_CAP_DATA_M == REG_CAP_DATA_H + 1
    ensures REG_CAP_DATA_L == REG_CAP_DATA_H + 2
    ensures forall k :: 0 <= k < 3 ==>
      REG_CAP_DATA_H + k == [REG_CAP_DATA_H, REG_CAP_DATA_M, REG_CAP_DATA_L][k]
  {
  }

  /** The device address is a legal (non-reserved) 7-bit address and differs from
      the general-call address used by the reset. */
  lemma AddressesValid()
    ensures I2C_ADDR < 0x80
    ensures 0x08 <= I2C_ADDR < 0x78
    ensures I2C_ADDR != GENERAL_CALL_ADDR
  {
  }

  /** The single-bit mask `1 << k` of an 8-bit register. */
  function Mask(k: nat): (m: bv8)
    requires k < 8
    ensures m != 0
  {
    (1 as bv8) << k
  }

  /** Whether bit `k` of `status` is set, tested as `status & (1 << k)`. */
  predicate BitSet(status: byte, k: nat)
    requires k < 8
  {
    (status as bv8) & Mask(k) != 0
  }

  /** RDYCAP: the capacitance result is not ready yet. */
  predicate CapNotReady(status: byte)
  {
    BitSet(status, STATUS_RDYCAP_BIT)
  }

  /** The three STATUS bit positions are distinct bits of one byte, and the
      RDYCAP mask is 0x01: it tests the lowest bit and nothing else. */
  lemma StatusBits(status: byte)
    ensures STATUS_RDYCAP_BIT < 8 && STATUS_RDYVT_BIT < 8 && STATUS_EXCERR_BIT < 8
    ensures STATUS_RDYCAP_BIT != STATUS_RDYVT_BIT && STATUS_RDYVT_BIT != STATUS_EXCERR_BIT
    ensures STATUS_EXCERR_BIT != STATUS_RDYCAP_BIT
    ensures Mask(STATUS_RDYCAP_BIT) == 0x01
    ensures CapNotReady(status) <==> status % 2 == 1
  {
    var b := status as bv8;
    assert b & 1 == (status % 2) as bv8;
  }
}
