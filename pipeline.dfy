/** The five-stage pipeline as values: the architected state, the four
    inter-stage latches, what each implemented stage does to them, and one
    clock cycle as a function of the whole machine. The simulator's methods
    are proved to compute exactly these functions. */
module Pipeline {
  import opened Isa
  import opened Memory

  const REGISTER_COUNT := 32

  type RegFile = s: seq<Word> | |s| == REGISTER_COUNT witness seq(REGISTER_COUNT, _ => 0)

  function ZeroRegs(): RegFile {
    seq(REGISTER_COUNT, _ => 0)
  }

  /** Architected state: program counter, the 32 general registers and the
      HI/LO pair. */
  datatype CpuState = CpuState(pc: Addr, regs: RegFile, hi: Word, lo: Word)

  /** One pipeline register. All four latches share this shape; each stage
      fills in the fields it produces. */
  datatype Latch = Latch(pc: Addr, ir: Word, a: Word, b: Word, imm: Word, aluOutput: Word, lmd: Word)

  const EMPTY_LATCH := Latch(0, 0, 0, 0, 0, 0, 0)

  /** A data word used as a memory address. */
  function AddressOf(w: Word): Addr {
    w as int
  }

  /** The address after `pc`, wrapping as unsigned 32-bit addition does. */
  function NextPc(pc: Addr): (r: Addr)
    ensures pc + 4 < 0x1_0000_0000 ==> r == pc + 4
    ensures pc + 4 >= 0x1_0000_0000 ==> r == pc + 4 - 0x1_0000_0000
  {
    (pc + 4) % 0x1_0000_0000
  }

  /** The immediate the decode stage passes on. Bits 31..20 for the
      immediate-ALU and load groups, bits 31..25 then 11..7 for stores, and 0
      otherwise -- in every case zero-extended: nothing is sign-extended. */
  function Immediate(w: Word): Word {
    var opcode := Opcode(w);
    if opcode == OP_IMM || opcode == OP_LOAD then w >> 20
    else if opcode == OP_STORE then ((w >> 25) << 5) | ((w >> 7) & 0x1F)
    else 0
  }

  /** Where the bits of the immediate come from: funct7 above rs2 for the
      immediate-ALU and load groups, funct7 above rd for stores, nothing
      otherwise; it always fits in twelve bits, unsigned. */
  lemma ImmediateFields(w: Word)
    ensures Opcode(w) == OP_IMM || Opcode(w) == OP_LOAD ==>
      Immediate(w) == (Funct7(w) as Word) * 32 + Rs2(w) as Word
    ensures Opcode(w) == OP_STORE ==>
      Immediate(w) == (Funct7(w) as Word) * 32 + Rd(w) as Word
    ensures Opcode(w) != OP_IMM && Opcode(w) != OP_LOAD && Opcode(w) != OP_STORE ==> Immediate(w) == 0
    ensures Immediate(w) < 0x1000
  {
  }

  /** IF: the word at `pc` and `pc` itself go into the fetch/decode latch. */
  function Fetched(ifId: Latch, pc: Addr, img: seq<RegionImage>): (r: Latch)
    requires Layout(img) && AccessOk(img, pc)
    ensures r.pc == pc && r.(ir := ifId.ir, pc := ifId.pc) == ifId
  {
    ifId.(ir := Load(img, pc), pc := pc)
  }

  /** ID: operands read from the registers named by the instruction's source
      fields, the immediate extracted, and PC and IR passed on unchanged. */
  function Decoded(ifId: Latch, idEx: Latch, cur: CpuState): (r: Latch)
    ensures r.ir == ifId.ir && r.pc == ifId.pc
    ensures r.a == cur.regs[Rs1(ifId.ir) as int] && r.b == cur.regs[Rs2(ifId.ir) as int]
    ensures r.imm == Immediate(ifId.ir)
    ensures r.aluOutput == idEx.aluOutput && r.lmd == idEx.lmd
  {
    var ir := ifId.ir;
    idEx.(a := cur.regs[Rs1(ir) as int], b := cur.regs[Rs2(ir) as int], imm := Immediate(ir), pc := ifId.pc, ir := ir)
  }

  /** EX as far as it is written: only the instruction word moves on. */
  function Executed(idEx: Latch, exMem: Latch): (r: Latch)
    ensures r.ir == idEx.ir && r.(ir := exMem.ir) == exMem
  {
    exMem.(ir := idEx.ir)
  }

  predicate IsLoad(ir: Word) { ir != 0 && Opcode(ir) == OP_LOAD }

  predicate IsStore(ir: Word) { ir != 0 && Opcode(ir) == OP_STORE }

  /** The memory access MEM will make is defined. */
  predicate MemAccessOk(exMem: Latch, img: seq<RegionImage>) {
    (IsLoad(exMem.ir) || IsStore(exMem.ir)) ==> AccessOk(img, AddressOf(exMem.aluOutput))
  }

  /** MEM: an empty latch (IR 0) changes nothing; a load reads the word at
      ALUOutput into LMD; a store writes B there; any instruction moves IR, PC
      and ALUOutput on. Returns the new memory/writeback latch and memory. */
  function MemStage(exMem: Latch, memWb: Latch, img: seq<RegionImage>): (r: (Latch, seq<RegionImage>))
    requires Layout(img) && MemAccessOk(exMem, img)
    ensures Layout(r.1) && SameBounds(img, r.1)
  {
    if exMem.ir == 0 then (memWb, img)
    else
      var a := AddressOf(exMem.aluOutput);
      var lmd := if IsLoad(exMem.ir) then Load(img, a) else memWb.lmd;
      var img' := if IsStore(exMem.ir) then Store(img, a, exMem.b) else img;
      (memWb.(lmd := lmd, ir := exMem.ir, pc := exMem.pc, aluOutput := exMem.aluOutput), img')
  }

  /** What MEM does, case by case: an empty latch changes nothing; otherwise
      IR, PC and ALUOutput move on, LMD gets the loaded word for a load and
      keeps its value for anything else, and only a store changes memory. */
  lemma MemStageSpec(exMem: Latch, memWb: Latch, img: seq<RegionImage>)
    requires Layout(img) && MemAccessOk(exMem, img)
    ensures var (memWb', img') := MemStage(exMem, memWb, img);
      (exMem.ir == 0 ==> memWb' == memWb && img' == img) &&
      (exMem.ir != 0 ==>
        memWb'.ir == exMem.ir && memWb'.pc == exMem.pc && memWb'.aluOutput == exMem.aluOutput &&
        memWb'.a == memWb.a && memWb'.b == memWb.b && memWb'.imm == memWb.imm) &&
      (IsLoad(exMem.ir) ==> memWb'.lmd == Load(img, AddressOf(exMem.aluOutput))) &&
      (!IsLoad(exMem.ir) ==> memWb'.lmd == memWb.lmd) &&
      (IsStore(exMem.ir) ==> img' == Store(img, AddressOf(exMem.aluOutput), exMem.b)) &&
      (!IsStore(exMem.ir) ==> img' == img)
  {
  }

  /** A load passing through MEM right after a store to the same address
      reads the word the store wrote. */
  lemma MemStoreThenLoad(store: Latch, load: Latch, memWb: Latch, img: seq<RegionImage>)
    requires Layout(img) && IsStore(store.ir) && IsLoad(load.ir)
    requires load.aluOutput == store.aluOutput
    requires AccessOk(img, AddressOf(store.aluOutput)) && Find(img, AddressOf(store.aluOutput)).Some?
    ensures var (memWb', img') := MemStage(store, memWb, img);
      MemAccessOk(load, img') && MemStage(load, memWb', img').0.lmd == store.b
  {
    var a := AddressOf(store.aluOutput);
    MemStageSpec(store, memWb, img);
    var (memWb', img') := MemStage(store, memWb, img);
    MemStageSpec(load, memWb', img');
    LoadAfterStore(img, a, store.b);
  }

  /** The whole simulated machine between two clock edges. */
  datatype Machine = Machine(
    current: CpuState, next: CpuState,
    ifId: Latch, idEx: Latch, exMem: Latch, memWb: Latch,
    bubble: bool, cycleCount: nat,
    image: seq<RegionImage>)

  /** The accesses this cycle's MEM and IF will make are defined. */
  predicate CanStep(m: Machine) {
    Layout(m.image) && MemAccessOk(m.exMem, m.image) &&
    (!m.bubble ==> AccessOk(m.image, m.current.pc))
  }

  /** MEM applied to the whole machine: the memory/writeback latch and the
      memory change, nothing else does. */
  function MemPhase(m: Machine): (r: Machine)
    requires Layout(m.image) && MemAccessOk(m.exMem, m.image)
    ensures Layout(r.image) && SameBounds(m.image, r.image)
    ensures r.(memWb := m.memWb, image := m.image) == m
  {
    var (memWb, img) := MemStage(m.exMem, m.memWb, m.image);
    m.(memWb := memWb, image := img)
  }

  /** EX applied to the whole machine. */
  function ExPhase(m: Machine): (r: Machine)
    ensures r.(exMem := m.exMem) == m
  {
    m.(exMem := Executed(m.idEx, m.exMem))
  }

  /** ID applied to the whole machine. */
  function IdPhase(m: Machine): (r: Machine)
    ensures r.(idEx := m.idEx) == m
  {
    m.(idEx := Decoded(m.ifId, m.idEx, m.current))
  }

  /** IF applied to the whole machine: the fetch/decode latch and the next
      PC change. */
  function IfPhase(m: Machine): (r: Machine)
    requires Layout(m.image) && AccessOk(m.image, m.current.pc)
    ensures r.(ifId := m.ifId, next := m.next) == m
    ensures r.next.(pc := m.next.pc) == m.next
  {
    m.(ifId := Fetched(m.ifId, m.current.pc, m.image), next := m.next.(pc := NextPc(m.current.pc)))
  }

  /** One pass over the stages, WB, MEM, EX, ID, then IF unless a bubble is
      pending, in that order, so that every stage reads the latch contents of
      the previous cycle; the bubble is cleared. WB is empty. */
  function Stages(m: Machine): (r: Machine)
    requires CanStep(m)
    ensures Layout(r.image) && SameBounds(m.image, r.image)
    ensures !r.bubble && r.current == m.current && r.cycleCount == m.cycleCount
  {
    var m3 := IdPhase(ExPhase(MemPhase(m)));
    if m.bubble then m3.(bubble := false)
    else
      AccessOkSameBounds(m.image, m3.image, m.current.pc);
      IfPhase(m3).(bubble := false)
  }

  /** What each stage contributes to one pass: MEM gives the memory/writeback
      latch and the memory, EX the execute/memory latch, ID the decode/execute
      latch, and IF, unless a bubble suppresses it, the fetch/decode latch and
      the next PC; every stage reads the latches as they were before the pass. */
  lemma StagesSpec(m: Machine)
    requires CanStep(m)
    ensures var r := Stages(m);
      (r.memWb, r.image) == MemStage(m.exMem, m.memWb, m.image) &&
      r.exMem == Executed(m.idEx, m.exMem) &&
      r.idEx == Decoded(m.ifId, m.idEx, m.current) &&
      (m.bubble ==> r.ifId == m.ifId && r.next == m.next) &&
      (!m.bubble ==>
        AccessOk(r.image, m.current.pc) &&
        r.ifId == Fetched(m.ifId, m.current.pc, r.image) &&
        r.next == m.next.(pc := NextPc(m.current.pc)))
  {
    if !m.bubble {
      AccessOkSameBounds(m.image, Stages(m).image, m.current.pc);
    }
  }


  /** One clock cycle: the stages, then the next state becomes current and
      the cycle counter goes up by one. */
  function Step(m: Machine): (r: Machine)
    requires CanStep(m)
    ensures r.current == Stages(m).next
    ensures r.(current := m.current, cycleCount := m.cycleCount) == Stages(m)
    ensures r.cycleCount == m.cycleCount + 1
    ensures !r.bubble
    ensures Layout(r.image) && SameBounds(m.image, r.image)
  {
    var s := Stages(m);
    s.(current := s.next, cycleCount := s.cycleCount + 1)
  }

  /** Every access in the next k cycles is defined. */
  predicate Runnable(m: Machine, k: nat)
    decreases k
  {
    Layout(m.image) && (k > 0 ==> CanStep(m) && Runnable(Step(m), k - 1))
  }

  /** k clock cycles in a row. */
  function Steps(m: Machine, k: nat): (r: Machine)
    requires Runnable(m, k)
    ensures Layout(r.image) && SameBounds(m.image, r.image)
    decreases k
  {
    if k == 0 then m else Steps(Step(m), k - 1)
  }

  /** k cycles are one cycle followed by k - 1 more. */
  lemma StepsFirst(m: Machine, k: nat)
    requires Runnable(m, k) && k > 0
    ensures CanStep(m) && Runnable(Step(m), k - 1)
    ensures Steps(m, k) == Steps(Step(m), k - 1)
  {
  }

  /** k + 1 cycles are k cycles followed by one more. */
  lemma {:induction false} StepsLast(m: Machine, k: nat)
    requires Runnable(m, k + 1)
    ensures Runnable(m, k) && CanStep(Steps(m, k))
    ensures Steps(m, k + 1) == Step(Steps(m, k))
    decreases k
  {
    StepsFirst(m, k + 1);
    if k > 0 {
      StepsLast(Step(m), k - 1);
    }
  }

  /** A machine that can run n cycles can run any fewer. */
  lemma {:induction false} RunnablePrefix(m: Machine, n: nat, k: nat)
    requires Runnable(m, n) && k <= n
    ensures Runnable(m, k)
    decreases k
  {
    if k > 0 {
      RunnablePrefix(Step(m), n - 1, k - 1);
    }
  }

  /** The cycle counter counts cycles. */
  lemma {:induction false} StepsCycleCount(m: Machine, k: nat)
    requires Runnable(m, k)
    ensures Steps(m, k).cycleCount == m.cycleCount + k
    decreases k
  {
    if k > 0 {
      StepsFirst(m, k);
      StepsCycleCount(Step(m), k - 1);
    }
  }

  /** With no bubble pending, IF runs every cycle and the program counter
      advances by one word per cycle, modulo 2^32. */
  lemma {:induction false} StepsPc(m: Machine, k: nat)
    requires Runnable(m, k) && !m.bubble
    ensures Steps(m, k).current.pc == WordAddress(m.current.pc, k)
    decreases k
  {
    if k > 0 {
      StepsFirst(m, k);
      StepPc(m);
      StepsPc(Step(m), k - 1);
      WordAddressNext(m.current.pc, k);
    }
  }

  /** One cycle without a bubble moves the PC on by one word. */
  lemma StepPc(m: Machine)
    requires CanStep(m) && !m.bubble
    ensures Step(m).current.pc == NextPc(m.current.pc)
  {
    StagesSpec(m);
  }

  /** k words on from `pc` is k - 1 words on from the next word. */
  lemma WordAddressNext(pc: Addr, k: nat)
    requires k > 0
    ensures WordAddress(NextPc(pc), k - 1) == WordAddress(pc, k)
  {
    WrapAdd(pc + 4, 4 * (k - 1));
  }

  lemma WrapAdd(x: nat, y: nat)
    requires x < 2 * 0x1_0000_0000
    ensures (x % 0x1_0000_0000 + y) % 0x1_0000_0000 == (x + y) % 0x1_0000_0000
  {
    var n := 0x1_0000_0000;
    if x >= n {
      var z := x - n + y;
      assert x % n == x - n;
      assert (z + n) / n == z / n + 1;
    }
  }

  /** No stage writes the register file or HI/LO: from the first cycle on,
      the committed registers are those of the state that was next before it. */
  lemma {:induction false} StepsRegisters(m: Machine, k: nat)
    requires Runnable(m, k) && k > 0
    ensures Steps(m, k).current.regs == m.next.regs
    ensures Steps(m, k).current.hi == m.next.hi && Steps(m, k).current.lo == m.next.lo
    decreases k
  {
    StepsFirst(m, k);
    StagesSpec(m);
    if k > 1 {
      StepsRegisters(Step(m), k - 1);
    }
  }

  /** One cycle moves every instruction one latch further on: IF's word to
      ID/EX, ID/EX's to EX/MEM, and EX/MEM's, unless it is the zero word, to
      MEM/WB; IF, when not suppressed, latches the word at the PC. */
  lemma StepLatches(m: Machine)
    requires CanStep(m)
    ensures Step(m).idEx.ir == m.ifId.ir && Step(m).idEx.pc == m.ifId.pc
    ensures Step(m).exMem.ir == m.idEx.ir
    ensures Step(m).idEx.a == m.current.regs[Rs1(m.ifId.ir) as int]
    ensures Step(m).idEx.b == m.current.regs[Rs2(m.ifId.ir) as int]
    ensures Step(m).idEx.imm == Immediate(m.ifId.ir)
    ensures m.exMem.ir != 0 ==> Step(m).memWb.ir == m.exMem.ir && Step(m).memWb.pc == m.exMem.pc
    ensures m.exMem.ir == 0 ==> Step(m).memWb == m.memWb
    ensures !m.bubble ==>
      AccessOk(Step(m).image, m.current.pc) &&
      Step(m).ifId.ir == Load(Step(m).image, m.current.pc) && Step(m).ifId.pc == m.current.pc
  {
    StagesSpec(m);
    MemStageSpec(m.exMem, m.memWb, m.image);
  }

  /** Two, three and four cycles spelled out. */
  lemma StepsUnroll(m: Machine)
    requires Runnable(m, 4)
    ensures CanStep(m) && CanStep(Step(m)) && CanStep(Step(Step(m))) && CanStep(Step(Step(Step(m))))
    ensures Steps(m, 2) == Step(Step(m))
    ensures Steps(m, 3) == Step(Step(Step(m)))
    ensures Steps(m, 4) == Step(Step(Step(Step(m))))
  {
    var s1, s2, s3 := Step(m), Step(Step(m)), Step(Step(Step(m)));
    StepsFirst(m, 4);
    StepsFirst(s1, 3);
    StepsFirst(s2, 2);
    StepsFirst(s3, 1);
    StepsFirst(m, 3);
    StepsFirst(s1, 2);
    StepsFirst(s2, 1);
    StepsFirst(m, 2);
    StepsFirst(s1, 1);
  }

  /** The instruction fetched in the first of four cycles is in the
      decode/execute latch after the second, in the execute/memory latch after
      the third and, unless it is the zero word, in the memory/writeback latch
      after the fourth, each time with the PC it was fetched from. */
  lemma InstructionFlow(m: Machine)
    requires Runnable(m, 4) && !m.bubble
    ensures var w := Step(m).ifId.ir;
      Steps(m, 2).idEx.ir == w && Steps(m, 2).idEx.pc == m.current.pc &&
      Steps(m, 3).exMem.ir == w &&
      (w != 0 ==> Steps(m, 4).memWb.ir == w)
  {
    var s1 := Step(m);
    var s2 := Step(s1);
    var s3 := Step(s2);
    var s4 := Step(s3);
    StepLatches(m);
    StepLatches(s1);
    StepLatches(s2);
    StepLatches(s3);
    StepsUnroll(m);
  }
}
