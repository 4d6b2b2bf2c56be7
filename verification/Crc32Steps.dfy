/** The CRC-32 register's own arithmetic: one bit, one byte, forwards and backwards.

    Bit-vector reasoning stays in this module; the other CRC modules use the register only
    through the laws stated here and the algebra of module XorSpace. */
module Crc32Steps {
  const POLYNOMIAL: bv32 := 0xEDB8_8320

  function Xor(x: bv32, y: bv32): bv32 { x ^ y }

  function ShiftBit(c: bv32): bv32 {
    if c & 1 == 1 then (c >> 1) ^ 0xEDB8_8320 else c >> 1
  }
  function ShiftBits2(c: bv32): bv32 { ShiftBit(ShiftBit(c)) }
  function ShiftBits4(c: bv32): bv32 { ShiftBits2(ShiftBits2(c)) }
  function ShiftByte(c: bv32): bv32 { ShiftBits4(ShiftBits4(c)) }

  /** One step of the bit-serial register on one message bit. */
  function BitStep(register: bv32, bit: bool): bv32 {
    if (register & 1 == 1) != bit then (register >> 1) ^ POLYNOMIAL else register >> 1
  }

  function BitWord(bit: bool): bv32 { if bit then 1 else 0 }

  lemma LowBit1(c: bv32)
    ensures (c ^ 1) >> 1 == c >> 1
    ensures (c ^ 1) & 1 == 1 <==> c & 1 != 1
  {}

  /** Folding the bit into the register first gives the same step. */
  lemma BitStepIsShift(c: bv32, bit: bool)
    ensures BitStep(c, bit) == ShiftBit(Xor(c, BitWord(bit)))
  {
    LowBit1(c);
    if bit {
      assert Xor(c, BitWord(bit)) == c ^ 1;
    } else {
      assert Xor(c, BitWord(bit)) == c;
    }
  }

  function Unstep(c: bv32): bv32 { if c & 0x8000_0000 != 0 then ((c ^ 0xEDB8_8320) << 1) | 1 else c << 1 }
  function Back8(c: bv32): bv32 { Unstep(Unstep(Unstep(Unstep(Unstep(Unstep(Unstep(Unstep(c)))))))) }

  lemma XorAbelian(a: bv32, b: bv32, c: bv32)
    ensures Xor(Xor(a, b), c) == Xor(a, Xor(b, c))
    ensures Xor(a, b) == Xor(b, a)
  {}

  /** One changed byte always shows in the low byte of the register. */
  lemma OneByteLowBits(d: bv8)
    requires ShiftByte(d as bv32) & 0xFF == 0
    ensures d == 0
  {}

  /** Two changed bytes show in the low half of the register, except for one pattern. */
  lemma TwoBytesLowBits(d: bv8, e: bv8)
    requires ShiftByte(ShiftByte(d as bv32) ^ (e as bv32)) & 0xFFFF == 0
    ensures (d == 0 && e == 0) || (d == 0x61 && e == 0xD8)
  {}

  lemma BlindPattern()
    ensures ShiftByte(ShiftByte(0x61) ^ 0xD8) == 0xF4EE_0000
  {}

  lemma ThreeBytesBack(t: bv8)
    requires Back8(Back8(Back8((t as bv32) << 24))) < 0x100_0000
    ensures t == 0
  {}
}
