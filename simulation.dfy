/** The simulator as the C program runs it: one object holding the region
    table with its byte buffers, the current and next architected state, the
    four pipeline latches and the driver's counters and flags, updated in
    place. The byte buffers are kept equal to a ghost image. `ReadWord` and
    `WriteWord` compute `Load` and `Store`; the stage methods,
    `HandlePipeline`, `Cycle` and `Run` compute the corresponding functions
    of the Pipeline module; `ClearMemory` and `LoadProgram` compute `Zeroed`
    and `StoreWords`. `Reset`, the constructor, `ClearBytes`, `PutWord` and
    `WriteRegion` state their effect on fields and buffers directly, and
    `Writeback` changes nothing. */
module Simulation {
  import opened Isa
  import opened Memory
  import opened Pipeline

  /** One entry of the region table: an address range and its byte buffer. */
  datatype Region = Region(begin: Addr, end: Addr, mem: array<Byte>)

  /** Clears a whole byte buffer, as memset(buf, 0, size) does. */
  method ClearBytes(buf: array<Byte>)
    modifies buf
    ensures buf[..] == seq(buf.Length, _ => 0)
  {
    var k := 0;
    while k < buf.Length
      invariant 0 <= k <= buf.Length
      invariant forall j :: 0 <= j < k ==> buf[j] == 0
    {
      buf[k] := 0;
      k := k + 1;
    }
  }

  /** The four byte stores of mem_write_32 into one buffer, most significant
      byte first, at offset..offset+3. */
  method PutWord(buf: array<Byte>, offset: nat, value: Word)
    requires offset + 4 <= buf.Length
    modifies buf
    ensures buf[..] == old(buf[..])[..offset] + LeBytes(value) + old(buf[..])[offset + 4..]
  {
    buf[offset + 3] := ((value >> 24) & 0xFF) as Byte;
    buf[offset + 2] := ((value >> 16) & 0xFF) as Byte;
    buf[offset + 1] := ((value >> 8) & 0xFF) as Byte;
    buf[offset] := (value & 0xFF) as Byte;
  }

  /** One pass of mem_write_32's region scan: when the region holds
      `address`, the word goes into its buffer; otherwise nothing changes. The
      buffer ends up holding the bytes Store gives that region. */
  method WriteRegion(r: Region, ghost ri: RegionImage, address: Addr, value: Word)
    requires r.begin == ri.begin && r.end == ri.end && r.mem[..] == ri.bytes
    requires |ri.bytes| == ri.end - ri.begin + 1
    requires Contains(ri, address) ==> address + 3 <= ri.end
    modifies r.mem
    ensures r.mem[..] == (if Contains(ri, address) then Patch(ri, address, value) else ri).bytes
  {
    if r.begin <= address <= r.end {
      PutWord(r.mem, address - r.begin, value);
    }
  }

  class Simulator {
    const regions: seq<Region>
    /** Start of the text region, where programs are loaded and execution begins. */
    const textBegin: Addr
    /** The byte buffers behind the regions. */
    ghost const Repr: set<array<Byte>>
    /** The contents of the region table as values. */
    ghost var image: seq<RegionImage>

    var current: CpuState
    var next: CpuState
    var ifId: Latch
    var idEx: Latch
    var exMem: Latch
    var memWb: Latch
    /** Set to suppress one fetch; the driver clears it every cycle. */
    var bubble: bool
    var cycleCount: nat
    var instructionCount: nat
    var runFlag: bool
    var programSize: nat

    /** The region table is well formed, every buffer holds exactly the
        bytes `image` gives its region, and each region has one byte per
        address. */
    ghost predicate Valid()
      reads this`image, Repr
    {
      Owned() && Mirrored() && Layout(image)
    }

    /** No two regions overlap, each has a buffer of its own, and all the
        buffers are in Repr. */
    ghost predicate Owned() {
      (forall i, j :: 0 <= i < j < |regions| ==>
        regions[i].end < regions[j].begin || regions[j].end < regions[i].begin) &&
      (forall i :: 0 <= i < |regions| ==> regions[i].mem in Repr) &&
      (forall i, j :: 0 <= i < j < |regions| ==> regions[i].mem != regions[j].mem)
    }

    /** The buffers hold the bytes `image` gives the regions. */
    ghost predicate Mirrored()
      requires Owned()
      reads this`image, Repr
    {
      |image| == |regions| &&
      forall i :: 0 <= i < |regions| ==>
        image[i] == RegionImage(regions[i].begin, regions[i].end, regions[i].mem[..])
    }

    /** The whole machine as a value. */
    ghost function State(): Machine
      reads this
    {
      Machine(current, next, ifId, idEx, exMem, memWb, bubble, cycleCount, image)
    }

    /** initialize and init_memory: every region gets a cleared buffer, the
        PC starts at the text region, the next state equals the current one
        and the run flag is raised. Everything else starts at zero, as the
        program's static storage does. */
    constructor (layout: seq<(Addr, Addr)>, textBegin: Addr)
      requires forall i :: 0 <= i < |layout| ==> layout[i].0 <= layout[i].1
      requires forall i, j :: 0 <= i < j < |layout| ==> layout[i].1 < layout[j].0 || layout[j].1 < layout[i].0
      ensures Valid() && fresh(Repr)
      ensures image == Blank(layout)
      ensures this.textBegin == textBegin
      ensures current == CpuState(textBegin, ZeroRegs(), 0, 0) && next == current
      ensures ifId == EMPTY_LATCH && idEx == EMPTY_LATCH && exMem == EMPTY_LATCH && memWb == EMPTY_LATCH
      ensures !bubble && cycleCount == 0 && instructionCount == 0 && programSize == 0
      ensures runFlag
    {
      var rs: seq<Region> := [];
      var i := 0;
      while i < |layout|
        invariant 0 <= i <= |layout| && |rs| == i
        invariant forall j :: 0 <= j < i ==> fresh(rs[j].mem)
        invariant forall j :: 0 <= j < i ==>
          rs[j].begin == layout[j].0 && rs[j].end == layout[j].1 &&
          rs[j].mem[..] == seq(layout[j].1 - layout[j].0 + 1, _ => 0)
        invariant forall j, k :: 0 <= j < k < i ==> rs[j].mem != rs[k].mem
      {
        var size := (layout[i].1 as int) - (layout[i].0 as int) + 1;
        var buf := new Byte[size];
        ClearBytes(buf);
        rs := rs + [Region(layout[i].0, layout[i].1, buf)];
        i := i + 1;
      }
      regions := rs;
      Repr := set j | 0 <= j < |rs| :: rs[j].mem;
      image := Blank(layout);
      this.textBegin := textBegin;
      current := CpuState(textBegin, ZeroRegs(), 0, 0);
      next := current;
      ifId, idEx, exMem, memWb := EMPTY_LATCH, EMPTY_LATCH, EMPTY_LATCH, EMPTY_LATCH;
      bubble := false;
      cycleCount, instructionCount, programSize := 0, 0, 0;
      runFlag := true;
    }

    /** mem_read_32: scans the region table and assembles the word at
        `address` from the first region holding it, least significant byte
        first; 0 when no region holds it. */
    method ReadWord(address: Addr) returns (w: Word)
      requires Valid() && AccessOk(image, address)
      ensures w == Load(image, address)
    {
      var i := 0;
      while i < |regions|
        invariant 0 <= i <= |regions|
        invariant forall j :: 0 <= j < i ==> !Contains(image[j], address)
      {
        var r := regions[i];
        if r.begin <= address <= r.end {
          var offset := address - r.begin;
          var b0, b1, b2, b3 := r.mem[offset], r.mem[offset + 1], r.mem[offset + 2], r.mem[offset + 3];
          w := (b3 as Word << 24) | (b2 as Word << 16) | (b1 as Word << 8) | b0 as Word;
          assert w == LeWord([b0, b1, b2, b3]);
          assert image[i].bytes[offset..offset + 4] == [b0, b1, b2, b3];
          assert Find(image, address) == Some(i);
          return;
        }
        i := i + 1;
      }
      w := 0;
    }

    /** mem_write_32: writes the four bytes of `value`, least significant
        first, at `address` in every region holding it. */
    method WriteWord(address: Addr, value: Word)
      requires Valid() && AccessOk(image, address)
      modifies Repr, this`image
      ensures Valid() && image == Store(old(image), address, value)
    {
      ghost var before := image;
      ghost var after := Store(before, address, value);
      var i := 0;
      while i < |regions|
        modifies Repr
        invariant 0 <= i <= |regions|
        invariant forall j :: 0 <= j < i ==> regions[j].mem[..] == after[j].bytes
        invariant forall j :: i <= j < |regions| ==> regions[j].mem[..] == before[j].bytes
      {
        assert forall j :: 0 <= j < |regions| && j != i ==> regions[j].mem != regions[i].mem;
        WriteRegion(regions[i], before[i], address, value);
        i := i + 1;
      }
      image := after;
    }

    /** WB: not written yet; commits nothing. */
    method Writeback()
      ensures State() == old(State())
    {
    }

    /** MEM: a latch with IR 0 is skipped; a load reads the word at ALUOutput
        into LMD, a store writes B there; IR, PC and ALUOutput move on to the
        memory/writeback latch. */
    method MemoryAccess()
      requires Valid() && MemAccessOk(exMem, image)
      modifies this`memWb, this`image, Repr
      ensures Valid() && State() == MemPhase(old(State()))
    {
      ghost var r := MemStage(exMem, memWb, image);
      if exMem.ir == 0 {
        return;
      }
      var opcode := Opcode(exMem.ir);
      if opcode == OP_LOAD {
        var w := ReadWord(AddressOf(exMem.aluOutput));
        memWb := memWb.(lmd := w);
      } else if opcode == OP_STORE {
        WriteWord(AddressOf(exMem.aluOutput), exMem.b);
      }
      memWb := memWb.(ir := exMem.ir, pc := exMem.pc, aluOutput := exMem.aluOutput);
      assert memWb == r.0;
    }

    /** EX, as far as it is written: the instruction word moves on. */
    method Execute()
      requires Valid()
      modifies this`exMem
      ensures Valid() && State() == ExPhase(old(State()))
    {
      exMem := exMem.(ir := idEx.ir);
    }

    /** ID: slices the fetched word, reads the two source registers from the
        current state, extracts the immediate and passes PC and IR on. */
    method Decode()
      requires Valid()
      modifies this`idEx
      ensures Valid() && State() == IdPhase(old(State()))
    {
      var instruction := ifId.ir;
      var rs1, rs2 := Rs1(instruction), Rs2(instruction);
      idEx := idEx.(a := current.regs[rs1 as int], b := current.regs[rs2 as int],
        imm := Immediate(instruction), pc := ifId.pc, ir := ifId.ir);
    }

    /** IF: fetches the word at the current PC with its address into the
        fetch/decode latch and sets the next PC one word further on. */
    method Fetch()
      requires Valid() && AccessOk(image, current.pc)
      modifies this`ifId, this`next
      ensures Valid() && State() == IfPhase(old(State()))
    {
      var w := ReadWord(current.pc);
      ifId := ifId.(ir := w, pc := current.pc);
      next := next.(pc := NextPc(current.pc));
    }

    /** handle_pipeline: the stages in the order WB, MEM, EX, ID, then IF
        unless a bubble is pending; the bubble is then cleared. */
    method HandlePipeline()
      requires Valid() && CanStep(State())
      modifies this`memWb, this`exMem, this`idEx, this`ifId, this`next, this`bubble, this`image, Repr
      ensures Valid() && State() == Stages(old(State()))
    {
      ghost var m := State();
      Writeback();
      MemoryAccess();
      Execute();
      Decode();
      if !bubble {
        AccessOkSameBounds(m.image, image, current.pc);
        Fetch();
      }
      bubble := false;
    }

    /** cycle: one pass of the pipeline, then the next state is committed and
        the cycle counter goes up by one. */
    method Cycle()
      requires Valid() && CanStep(State())
      modifies this`memWb, this`exMem, this`idEx, this`ifId, this`next, this`bubble
      modifies this`current, this`cycleCount, this`image, Repr
      ensures Valid() && State() == Step(old(State()))
    {
      HandlePipeline();
      current := next;
      cycleCount := cycleCount + 1;
    }

    /** run: nothing when the run flag is down; otherwise up to `numCycles`
        cycles, checking the flag before each. No stage lowers the flag, so
        all of them run. */
    method Run(numCycles: int)
      requires Valid()
      requires runFlag && numCycles > 0 ==> Runnable(State(), numCycles)
      modifies this`memWb, this`exMem, this`idEx, this`ifId, this`next, this`bubble
      modifies this`current, this`cycleCount, this`image, Repr
      ensures Valid()
      ensures !old(runFlag) || numCycles <= 0 ==> State() == old(State())
      ensures old(runFlag) && numCycles > 0 ==> State() == Steps(old(State()), numCycles)
    {
      if !runFlag {
        return;
      }
      ghost var m0 := State();
      assert m0 == old(State());
      ghost var n: nat := if numCycles > 0 then numCycles else 0;
      var i := 0;
      while i < numCycles
        invariant 0 <= i <= n
        invariant Valid() && runFlag
        invariant Runnable(m0, n) && Runnable(m0, i) && State() == Steps(m0, i)
      {
        if !runFlag {
          break;
        }
        RunnablePrefix(m0, n, i + 1);
        StepsLast(m0, i);
        Cycle();
        i := i + 1;
      }
      assert i == n;
      if numCycles <= 0 {
        assert State() == m0;
      }
    }

    /** The memset loop of reset: every byte of every region cleared. */
    method ClearMemory()
      requires Valid()
      modifies Repr, this`image
      ensures Valid() && image == Zeroed(old(image))
    {
      ghost var before := image;
      ghost var after := Zeroed(before);
      var i := 0;
      while i < |regions|
        modifies Repr
        invariant 0 <= i <= |regions|
        invariant forall j :: 0 <= j < |regions| ==>
          regions[j].mem[..] == (if j < i then after[j].bytes else before[j].bytes)
      {
        ClearBytes(regions[i].mem);
        i := i + 1;
      }
      image := after;
    }

    /** The store loop of load_program: the k-th word of the program goes to
        textBegin + 4k, and the program size is the number of words. */
    method LoadProgram(words: seq<Word>)
      requires Valid() && 4 * |words| <= 0x7FFF_FFFF && BlockOk(image, textBegin, |words|)
      modifies Repr, this`image, this`programSize
      ensures Valid() && image == StoreWords(old(image), textBegin, words)
      ensures programSize == |words|
    {
      ghost var before := image;
      var i := 0;
      while i < 4 * |words|
        invariant 0 <= i <= 4 * |words| && i % 4 == 0
        invariant Valid() && SameBounds(before, image)
        invariant image == StoreWords(before, textBegin, words[..i / 4])
      {
        var address := (textBegin + i) % 0x1_0000_0000;
        var k := i / 4;
        assert address == WordAddress(textBegin, k);
        AccessOkSameBounds(before, image, address);
        WriteWord(address, words[k]);
        assert words[..k + 1][..k] == words[..k];
        i := i + 4;
      }
      assert words[..i / 4] == words;
      programSize := i / 4;
    }

    /** reset: clears the registers, HI and LO and all memory, reloads the
        program, zeroes the instruction count, puts the PC back at the text
        region, makes the next state equal the current one and raises the run
        flag. The latches, the bubble and the cycle count are left alone. */
    method Reset(program: seq<Word>)
      requires Valid() && 4 * |program| <= 0x7FFF_FFFF && BlockOk(image, textBegin, |program|)
      modifies this`current, this`next, this`instructionCount, this`runFlag, this`programSize
      modifies this`image, Repr
      ensures Valid()
      ensures current == CpuState(textBegin, ZeroRegs(), 0, 0) && next == current
      ensures instructionCount == 0 && runFlag
      ensures programSize == |program|
      ensures image == StoreWords(Zeroed(old(image)), textBegin, program)
    {
      var i := 0;
      while i < REGISTER_COUNT
        modifies this`current
        invariant 0 <= i <= REGISTER_COUNT
        invariant forall j :: 0 <= j < i ==> current.regs[j] == 0
      {
        current := current.(regs := current.regs[i := 0]);
        i := i + 1;
      }
      assert current.regs == ZeroRegs();
      current := current.(hi := 0);
      current := current.(lo := 0);
      ClearMemory();
      BlockOkSameBounds(old(image), image, textBegin, |program|);
      LoadProgram(program);
      instructionCount := 0;
      current := current.(pc := textBegin);
      next := current;
      runFlag := true;
    }
  }
}
