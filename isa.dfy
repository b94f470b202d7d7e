/** Instruction-word layout of the RV32I base formats, as the simulator
    slices a 32-bit instruction into its fields. */
module Isa {

  type Word = bv32
  type Byte = bv8

  /** A 32-bit unsigned address, kept as its numeric value. */
  type Addr = a: int | 0 <= a < 0x1_0000_0000

  datatype Option<T> = None | Some(value: T)

  /** Major opcodes (bits 6..0) of the formats the simulator knows. */
  const OP_LOAD: bv7 := 0x03
  const OP_IMM: bv7 := 0x13
  const OP_STORE: bv7 := 0x23
  const OP_REG: bv7 := 0x33
  const OP_BRANCH: bv7 := 0x63
  const OP_JAL: bv7 := 0x6F

  /** Bits 6..0. */
  function Opcode(w: Word): bv7 { (w & 0x7F) as bv7 }

  /** Bits 11..7: the destination register, or the low immediate bits of a store or branch. */
  function Rd(w: Word): bv5 { ((w >> 7) & 0x1F) as bv5 }

  /** Bits 14..12. */
  function Funct3(w: Word): bv3 { ((w >> 12) & 0x7) as bv3 }

  /** Bits 19..15. */
  function Rs1(w: Word): bv5 { ((w >> 15) & 0x1F) as bv5 }

  /** Bits 24..20. */
  function Rs2(w: Word): bv5 { ((w >> 20) & 0x1F) as bv5 }

  /** Bits 31..25. */
  function Funct7(w: Word): bv7 { ((w >> 25) & 0x7F) as bv7 }

  /** Lays six fields out at their places in a word: the reference encoder
      that the field extractors above invert. */
  function Assemble(funct7: bv7, rs2: bv5, rs1: bv5, funct3: bv3, rd: bv5, opcode: bv7): (w: Word)
    ensures Opcode(w) == opcode && Rd(w) == rd && Funct3(w) == funct3
    ensures Rs1(w) == rs1 && Rs2(w) == rs2 && Funct7(w) == funct7
  {
    (funct7 as Word << 25) | (rs2 as Word << 20) | (rs1 as Word << 15)
      | (funct3 as Word << 12) | (rd as Word << 7) | opcode as Word
  }

  /** The six fields partition the word: re-assembling them gives it back. */
  lemma AssembleFields(w: Word)
    ensures Assemble(Funct7(w), Rs2(w), Rs1(w), Funct3(w), Rd(w), Opcode(w)) == w
  {
  }
}
