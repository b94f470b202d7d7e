/** The disassembler's dispatch table: which RV32I mnemonic, if any, the
    simulator's program listing gives an instruction word. Only the choice of
    mnemonic is modelled, not the text printed for it. */
module Classify {
  import opened Isa

  datatype Mnemonic =
    | Add | Sub | Sll | Slt | Sltu | Xor | Srl | Sra | Or | And
    | Addi | Slli | Slti | Sltiu | Xori | Srli | Srai | Ori | Andi
    | Lb | Lh | Lw | Lbu | Lhu
    | Sb | Sh | Sw
    | Beq | Blt | Bge | Bltu | Bgeu
    | Jal

  /** The major opcode of each mnemonic's canonical encoding. */
  function OpcodeOf(m: Mnemonic): bv7 {
    match m
    case Add | Sub | Sll | Slt | Sltu | Xor | Srl | Sra | Or | And => OP_REG
    case Addi | Slli | Slti | Sltiu | Xori | Srli | Srai | Ori | Andi => OP_IMM
    case Lb | Lh | Lw | Lbu | Lhu => OP_LOAD
    case Sb | Sh | Sw => OP_STORE
    case Beq | Blt | Bge | Bltu | Bgeu => OP_BRANCH
    case Jal => OP_JAL
  }

  /** The funct3 of each mnemonic's canonical encoding (jal has none; its
      bits 14..12 belong to the immediate). */
  function Funct3Of(m: Mnemonic): bv3 {
    match m
    case Add | Sub | Addi | Lb | Sb | Beq | Jal => 0
    case Sll | Slli | Lh | Sh => 1
    case Slt | Slti | Lw | Sw => 2
    case Sltu | Sltiu => 3
    case Xor | Xori | Lbu | Blt => 4
    case Srl | Sra | Srli | Srai | Lhu | Bge => 5
    case Or | Ori | Bltu => 6
    case And | Andi | Bgeu => 7
  }

  /** The bits 31..25 that a mnemonic's canonical encoding fixes, when it
      fixes them (for the others they are immediate bits). */
  function Funct7Of(m: Mnemonic): Option<bv7> {
    match m
    case Add | Sll | Slt | Sltu | Xor | Srl | Or | And | Slli | Srli => Some(0x00)
    case Sub | Sra | Srai => Some(0x20)
    case _ => None
  }

  /** The fields of an instruction word other than its opcode, by position. */
  datatype Operands = Operands(hi: bv7, rs2: bv5, rs1: bv5, mid: bv3, rd: bv5)

  function OperandsOf(w: Word): Operands {
    Operands(Funct7(w), Rs2(w), Rs1(w), Funct3(w), Rd(w))
  }

  /** The canonical RV32I encoding of `m` over the operand bits `f`: the
      opcode, funct3 and funct7 the mnemonic fixes override the corresponding
      bits of `f`. */
  function Encode(m: Mnemonic, f: Operands): Word {
    Assemble(
      if Funct7Of(m).Some? then Funct7Of(m).value else f.hi,
      f.rs2, f.rs1,
      if m == Jal then f.mid else Funct3Of(m),
      f.rd, OpcodeOf(m))
  }

  /** Register-register dispatch (funct3, then funct7 for add/sub and srl/sra). */
  function ClassifyReg(w: Word): (r: Option<Mnemonic>)
    ensures r.Some? ==> OpcodeOf(r.value) == OP_REG && Funct3Of(r.value) == Funct3(w)
  {
    var funct3, funct7 := Funct3(w), Funct7(w);
    if funct3 == 0 then
      (if funct7 == 0x00 then Some(Add) else if funct7 == 0x20 then Some(Sub) else None)
    else if funct3 == 1 then Some(Sll)
    else if funct3 == 2 then Some(Slt)
    else if funct3 == 3 then Some(Sltu)
    else if funct3 == 4 then Some(Xor)
    else if funct3 == 5 then
      (if funct7 == 0x00 then Some(Srl) else if funct7 == 0x20 then Some(Sra) else None)
    else if funct3 == 6 then Some(Or)
    else Some(And)
  }

  /** Store dispatch: sb, sh, sw for funct3 0, 1, 2. */
  function ClassifyStore(w: Word): (r: Option<Mnemonic>)
    ensures r.Some? ==> OpcodeOf(r.value) == OP_STORE && Funct3Of(r.value) == Funct3(w)
  {
    var funct3 := Funct3(w);
    if funct3 == 0 then Some(Sb)
    else if funct3 == 1 then Some(Sh)
    else if funct3 == 2 then Some(Sw)
    else None
  }

  /** Immediate-ALU and load dispatch, by opcode and then funct3. */
  function ClassifyImm(w: Word): (r: Option<Mnemonic>)
    ensures r.Some? ==> OpcodeOf(r.value) == Opcode(w) && Funct3Of(r.value) == Funct3(w)
  {
    var opcode := Opcode(w);
    if opcode == OP_IMM then ClassifyAluImm(w)
    else if opcode == OP_LOAD then ClassifyLoad(w)
    else None
  }

  /** For funct3 5 of the immediate ALU group, the upper seven bits of the
      12-bit immediate choose between srli and srai. */
  function ClassifyAluImm(w: Word): (r: Option<Mnemonic>)
    ensures r.Some? ==> OpcodeOf(r.value) == OP_IMM && Funct3Of(r.value) == Funct3(w)
  {
    var funct3 := Funct3(w);
    var imm := (w >> 20) & 0xFFF;
    if funct3 == 0 then Some(Addi)
    else if funct3 == 1 then Some(Slli)
    else if funct3 == 2 then Some(Slti)
    else if funct3 == 3 then Some(Sltiu)
    else if funct3 == 4 then Some(Xori)
    else if funct3 == 5 then
      (if imm >> 5 == 0 then Some(Srli) else if imm >> 5 == 0x20 then Some(Srai) else None)
    else if funct3 == 6 then Some(Ori)
    else Some(Andi)
  }

  function ClassifyLoad(w: Word): (r: Option<Mnemonic>)
    ensures r.Some? ==> OpcodeOf(r.value) == OP_LOAD && Funct3Of(r.value) == Funct3(w)
  {
    var funct3 := Funct3(w);
    if funct3 == 0 then Some(Lb)
    else if funct3 == 1 then Some(Lh)
    else if funct3 == 2 then Some(Lw)
    else if funct3 == 4 then Some(Lbu)
    else if funct3 == 5 then Some(Lhu)
    else None
  }

  /** Branch dispatch. funct3 1 is labelled beq as well, exactly as the
      listing does; funct3 2 and 3 have no mnemonic. */
  function ClassifyBranch(w: Word): (r: Option<Mnemonic>)
    ensures r.Some? ==> OpcodeOf(r.value) == OP_BRANCH
    ensures r.Some? && r.value != Beq ==> Funct3Of(r.value) == Funct3(w)
    ensures r == Some(Beq) ==> Funct3(w) == 0 || Funct3(w) == 1
  {
    var funct3 := Funct3(w);
    if funct3 == 0 || funct3 == 1 then Some(Beq)
    else if funct3 == 4 then Some(Blt)
    else if funct3 == 5 then Some(Bge)
    else if funct3 == 6 then Some(Bltu)
    else if funct3 == 7 then Some(Bgeu)
    else None
  }

  /** The mnemonic the program listing gives `w`; the zero word and unknown
      opcodes get none. */
  function Classify(w: Word): (r: Option<Mnemonic>)
    ensures w == 0 ==> r.None?
    ensures r.Some? ==> Opcode(w) == OpcodeOf(r.value)
    ensures r.Some? && r.value != Jal && r.value != Beq ==> Funct3(w) == Funct3Of(r.value)
    ensures r == Some(Beq) ==> Funct3(w) == 0 || Funct3(w) == 1
  {
    if w == 0 then None
    else
      var opcode := Opcode(w);
      if opcode == OP_REG then ClassifyReg(w)
      else if opcode == OP_STORE then ClassifyStore(w)
      else if opcode == OP_IMM || opcode == OP_LOAD then ClassifyImm(w)
      else if opcode == OP_BRANCH then ClassifyBranch(w)
      else if opcode == OP_JAL then Some(Jal)
      else None
  }

  /** Every canonical encoding is listed under its own mnemonic. */
  lemma ClassifyEncode(m: Mnemonic, f: Operands)
    ensures Classify(Encode(m, f)) == Some(m)
  {
    var w := Encode(m, f);
    assert Opcode(w) == OpcodeOf(m);
    assert w != 0 by {
      assert Opcode(w) != 0;
    }
    if OpcodeOf(m) == OP_REG {
      EncodeReg(m, f);
    } else if OpcodeOf(m) == OP_STORE {
      EncodeStore(m, f);
    } else if OpcodeOf(m) == OP_IMM {
      EncodeAluImm(m, f);
    } else if OpcodeOf(m) == OP_LOAD {
      EncodeLoad(m, f);
    } else if OpcodeOf(m) == OP_BRANCH {
      EncodeBranch(m, f);
    }
  }

  lemma EncodeReg(m: Mnemonic, f: Operands)
    requires OpcodeOf(m) == OP_REG
    ensures ClassifyReg(Encode(m, f)) == Some(m)
  {
    var w := Encode(m, f);
    assert Funct3(w) == Funct3Of(m) && Funct7(w) == Funct7Of(m).value;
  }

  lemma EncodeStore(m: Mnemonic, f: Operands)
    requires OpcodeOf(m) == OP_STORE
    ensures ClassifyStore(Encode(m, f)) == Some(m)
  {
    assert Funct3(Encode(m, f)) == Funct3Of(m);
  }

  lemma EncodeAluImm(m: Mnemonic, f: Operands)
    requires OpcodeOf(m) == OP_IMM
    ensures ClassifyAluImm(Encode(m, f)) == Some(m)
  {
    var w := Encode(m, f);
    assert Funct3(w) == Funct3Of(m);
    assert Funct7Of(m).Some? ==> Funct7(w) == Funct7Of(m).value;
    assert (w >> 20) & 0xFFF == (Funct7(w) as Word << 5) | Rs2(w) as Word;
  }

  lemma EncodeLoad(m: Mnemonic, f: Operands)
    requires OpcodeOf(m) == OP_LOAD
    ensures ClassifyLoad(Encode(m, f)) == Some(m)
  {
    assert Funct3(Encode(m, f)) == Funct3Of(m);
  }

  lemma EncodeBranch(m: Mnemonic, f: Operands)
    requires OpcodeOf(m) == OP_BRANCH
    ensures ClassifyBranch(Encode(m, f)) == Some(m)
  {
    assert Funct3(Encode(m, f)) == Funct3Of(m);
  }

  /** Mnemonics whose table entry does not look at bits 31..25, although
      their canonical encoding fixes them to zero. */
  predicate IgnoresFunct7(m: Mnemonic) {
    m in {Sll, Slt, Sltu, Xor, Or, And, Slli}
  }

  /** A word is listed under `m` exactly when it is the canonical encoding of
      `m` over its own operand bits, or one of the encodings the table accepts
      beyond the canonical ones: branch funct3 1 (bne) listed as beq, and the
      entries that ignore bits 31..25. */
  lemma ClassifyExact(w: Word, m: Mnemonic)
    ensures Classify(w) == Some(m) <==>
      w == Encode(m, OperandsOf(w))
      || (m == Beq && Opcode(w) == OP_BRANCH && Funct3(w) == 1)
      || (IgnoresFunct7(m) && Opcode(w) == OpcodeOf(m) && Funct3(w) == Funct3Of(m))
  {
    if w == Encode(m, OperandsOf(w)) {
      ClassifyEncode(m, OperandsOf(w));
    }
    if IgnoresFunct7(m) && Opcode(w) == OpcodeOf(m) && Funct3(w) == Funct3Of(m) {
      ListedAnyFunct7(w, m);
    }
    if Classify(w) == Some(m) && !(m == Beq && Funct3(w) == 1) && !IgnoresFunct7(m) {
      ListedIsCanonical(w, m);
    }
  }

  lemma ListedAnyFunct7(w: Word, m: Mnemonic)
    requires IgnoresFunct7(m) && Opcode(w) == OpcodeOf(m) && Funct3(w) == Funct3Of(m)
    ensures Classify(w) == Some(m)
  {
    assert w != 0;
  }

  lemma ListedIsCanonical(w: Word, m: Mnemonic)
    requires Classify(w) == Some(m) && !(m == Beq && Funct3(w) == 1) && !IgnoresFunct7(m)
    ensures w == Encode(m, OperandsOf(w))
  {
    assert Opcode(w) == OpcodeOf(m);
    assert m != Jal ==> Funct3(w) == Funct3Of(m);
    assert Funct7Of(m).Some? ==> Funct7(w) == Funct7Of(m).value by {
      assert (w >> 20) & 0xFFF == (Funct7(w) as Word << 5) | Rs2(w) as Word;
    }
    AssembleFields(w);
  }

  /** The holes in the table: which well-formed-looking words get no mnemonic. */
  lemma ClassifyGaps(w: Word)
    ensures Classify(0) == None
    ensures Opcode(w) == OP_REG && (Funct3(w) == 0 || Funct3(w) == 5) ==>
      (Classify(w).Some? <==> Funct7(w) == 0x00 || Funct7(w) == 0x20)
    ensures Opcode(w) == OP_REG && Funct3(w) != 0 && Funct3(w) != 5 ==> Classify(w).Some?
    ensures Opcode(w) == OP_IMM && Funct3(w) == 5 ==>
      (Classify(w).Some? <==> Funct7(w) == 0x00 || Funct7(w) == 0x20)
    ensures Opcode(w) == OP_IMM && Funct3(w) != 5 ==> Classify(w).Some?
    ensures Opcode(w) == OP_LOAD ==>
      (Classify(w).None? <==> Funct3(w) == 3 || Funct3(w) == 6 || Funct3(w) == 7)
    ensures Opcode(w) == OP_STORE ==> (Classify(w).None? <==> Funct3(w) >= 3)
    ensures Opcode(w) == OP_BRANCH ==> (Classify(w).None? <==> Funct3(w) == 2 || Funct3(w) == 3)
    ensures Opcode(w) == OP_BRANCH && Funct3(w) == 1 ==> Classify(w) == Some(Beq)
    ensures Opcode(w) == OP_JAL ==> Classify(w) == Some(Jal)
    ensures Opcode(w) !in {OP_REG, OP_IMM, OP_LOAD, OP_STORE, OP_BRANCH, OP_JAL} ==> Classify(w).None?
  {
    assert Opcode(w) != 0 ==> w != 0;
    assert (w >> 20) & 0xFFF == (Funct7(w) as Word << 5) | Rs2(w) as Word;
  }
}
