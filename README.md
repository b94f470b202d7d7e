# mu-riscv pipeline core in Dafny

A model of the core of `mu-riscv`, a teaching simulator for a five-stage
RISC-V (RV32I) pipeline written in C (`src/mu-riscv.c`). The model has five
modules:

- `Isa`: the 32-bit instruction word and the fields the simulator cuts out
  of it (opcode, rd, funct3, rs1, rs2, funct7). It includes a reference
  encoder that the extractors invert.
- `Memory`: the simulated address space as values. It is an ordered table
  of regions, each covering `begin..end` inclusive with one byte per
  address. `Load` reads a word, little-endian, from the first region that
  holds the address, as `mem_read_32` does. An unmapped address reads as 0.
  `Store` writes the four bytes into every region that holds the address,
  as `mem_write_32` does, since it has no `break`. `StoreWords` is the
  effect of the store loop of `load_program`.
- `Classify`: which mnemonic the program listing (`print_command` and the
  `handle_*_print` functions) gives an instruction word. The printed operand
  text is not modelled.
- `Pipeline`: the machine between two clock edges, as one value of type
  `Machine`. It holds the current and next architected state, the four
  latches IF/ID, ID/EX, EX/MEM and MEM/WB, the bubble flag, the cycle
  counter and memory. Each implemented stage is a function. `Stages` is one
  pass of `handle_pipeline`, `Step` is one `cycle`, and `Steps` is k cycles.
- `Simulation`: the simulator as the C program runs it. The `Simulator`
  class holds the region table, with one `array<Byte>` per region, and the
  mutable state, updated in place. The byte buffers are kept equal to the
  ghost `image` that the value-level functions read. `ReadWord` and
  `WriteWord` are proved to compute `Load` and `Store`. The stage methods,
  `HandlePipeline`, `Cycle` and `Run` are proved to compute the
  corresponding functions of `Pipeline`. `ClearMemory` and `LoadProgram` are
  proved to compute `Zeroed` and `StoreWords`. `Reset`, the constructor,
  `ClearBytes` and `PutWord` state their effect on the fields and buffers
  directly. `Writeback` is proved to change nothing.

The five stages run in the order WB, MEM, EX, ID, IF, so each stage reads
what the previous cycle left in its input latch. Only IF, ID and MEM are
implemented in the source:

- WB is an empty function.
- EX copies the instruction word on and nothing else. The rest of its body
  is an unfinished statement, `EX_MEM.ALUOutput` followed only by comments.
- No stage writes a register or the run flag, and no stage computes an
  ALUOutput: MEM only copies EX/MEM's ALUOutput on to MEM/WB. The proved
  consequences include `StepsRegisters` and `InstructionFlow`.
  `StepsRegisters` says that after k ≥ 1 cycles the registers are those of
  the next state before the first cycle. `InstructionFlow` says that an
  instruction word moves one latch per cycle.

Where the design comments and the code differ, the model follows the code:

- ID's comment says the immediate is sign-extended. The code shifts the
  unsigned word before the cast, so the immediate is zero-extended, and
  `Immediate` does the same.
- The listing labels branch funct3 1 (bne) as `beq`, and `ClassifyBranch`
  does the same.
- The sll/slt/sltu/xor/or/and and `slli` entries of the listing ignore
  bits 31..25; add/sub, srl/sra and srli/srai switch on them.
  `ClassifyExact` states precisely which words the table accepts beyond
  the canonical encodings.

The opcode values come from the header `mu-riscv.h`, which is not part of
this model. They are taken to be the standard RV32I major opcodes: 0x03
load, 0x13 immediate ALU, 0x23 store, 0x33 register, 0x63 branch, 0x6F jal.

## Model

| member | source | states |
|---|---|---|
| Isa.Assemble | src/mu-riscv.c:424-430 | Each field extractor, `Opcode`, `Rd`, `Funct3`, `Rs1`, `Rs2` and `Funct7`, gives back the field placed at its position. This is the reference encoder for ID's field slicing. |
| Isa.AssembleFields | src/mu-riscv.c:529-533 | The six fields partition the word: re-assembling what the extractors cut out gives the word back. |
| Memory.LeWordOfBytes | src/mu-riscv.c:55-58 | `LeBytes` splits a word into four bytes as mem_write_32 does. Joining them with `LeWord` gives the word back. |
| Memory.LeBytesOfWord | src/mu-riscv.c:35-38 | `LeWord` assembles a word from four bytes as mem_read_32 does. Splitting it with `LeBytes` gives the bytes back. |
| Memory.LoadBytes | src/mu-riscv.c:29-42 | `Load`, the word mem_read_32 returns: at a mapped address it splits back into exactly the four bytes at its offset in the first region holding it. `Unmapped` gives the other case, 0. |
| Memory.Find | src/mu-riscv.c:32-33 | The region found is the first one, in table order, whose `begin..end` holds the address. None means no region holds it. |
| Memory.LoadAfterStore | src/mu-riscv.c:29-61 | A word read right after it is written at the same address is the word written. At an unmapped address it is 0. |
| Memory.Unmapped | src/mu-riscv.c:41 | At an address in no region, a read gives 0 and a write changes no region. |
| Memory.StoreBytes | src/mu-riscv.c:52-58 | `Store`, through `Patch` on each region holding the address: a write at a mapped address sets bytes offset..offset+3 of its region to the bytes of the value, least significant first. Every other byte of every region is unchanged. |
| Memory.LoadStoreOther | src/mu-riscv.c:29-61 | A write does not change the word read at another address whose four bytes do not overlap it. |
| Memory.StoreKeepsWindow | src/mu-riscv.c:51-58 | The four bytes under another address's word survive a write elsewhere. |
| Memory.FindSameBounds | src/mu-riscv.c:32-33 | Which region holds an address depends only on the bounds, which writes keep. |
| Memory.Store | src/mu-riscv.c:47-61 | A write keeps the region table and each region's size. |
| Memory.BlankCleared | src/mu-riscv.c:275-282 | `Blank`, the table init_memory allocates: one region per address range, each with one byte per address, every byte already 0. |
| Memory.Zeroed | src/mu-riscv.c:257-260 | Clearing keeps the table and sizes and makes every byte 0. |
| Memory.StoreWords | src/mu-riscv.c:301-307 | Writing a block of words keeps the region table and sizes. `StoreWordsReadBack` gives what it writes and `StoreWordsOther` what it leaves alone. |
| Memory.StoreWordsOther | src/mu-riscv.c:301-307 | Storing the program's block of words leaves the word at every address outside the block as it was. |
| Memory.ZeroedLoad | src/mu-riscv.c:257-260 | After memory is cleared, every mapped word reads 0. |
| Memory.StoreWordsZeroedOther | src/mu-riscv.c:248-270 | After reset's clear and program load, every mapped word outside the program reads 0. |
| Memory.StoreWordsReadBack | src/mu-riscv.c:301-307 | After the program's words are stored at textBegin, textBegin+4, ..., the k-th word reads back from textBegin + 4k, wherever that address is mapped. |
| Memory.WordAddressNoWrap | src/mu-riscv.c:303 | Inside a block that does not pass 2^32, the word address is the plain sum. |
| Classify.ClassifyReg | src/mu-riscv.c:528-583 | Any mnemonic given to a register-register word has that opcode and the word's funct3. |
| Classify.ClassifyStore | src/mu-riscv.c:585-606 | Any mnemonic given to a store word has the store opcode and the word's funct3. |
| Classify.ClassifyImm | src/mu-riscv.c:608-686 | Any mnemonic given has the word's own opcode, immediate ALU or load, and the word's funct3. |
| Classify.ClassifyAluImm | src/mu-riscv.c:616-658 | Any mnemonic given to an immediate-ALU word has that opcode and the word's funct3. |
| Classify.ClassifyLoad | src/mu-riscv.c:659-680 | Any mnemonic given to a load word has the load opcode and the word's funct3. |
| Classify.ClassifyBranch | src/mu-riscv.c:688-725 | Any mnemonic given has the branch opcode. It has the word's funct3, except beq, which is given for funct3 0 and 1. |
| Classify.Classify | src/mu-riscv.c:499-526 | The zero word gets no mnemonic. Any mnemonic given has the word's opcode, and its funct3 except for jal and the beq case. |
| Classify.ClassifyEncode | src/mu-riscv.c:499-736 | Every canonical RV32I encoding of every listed mnemonic, over any operand bits, is listed under that mnemonic. |
| Classify.EncodeReg | src/mu-riscv.c:528-583 | The register-register table maps each canonical encoding to its own mnemonic. |
| Classify.EncodeStore | src/mu-riscv.c:585-606 | The store table maps each canonical encoding to its own mnemonic. |
| Classify.EncodeAluImm | src/mu-riscv.c:616-658 | The immediate-ALU table, including srli/srai chosen by imm[11:5], maps each canonical encoding to its own mnemonic. |
| Classify.EncodeLoad | src/mu-riscv.c:659-680 | The load table maps each canonical encoding to its own mnemonic. |
| Classify.EncodeBranch | src/mu-riscv.c:688-725 | The branch table maps each canonical encoding to its own mnemonic. |
| Classify.ClassifyExact | src/mu-riscv.c:499-736 | If and only if: a word is listed under m exactly when it is m's canonical encoding over its own operand bits, or it is branch funct3 1 listed as beq, or it is an entry that ignores bits 31..25. |
| Classify.ListedAnyFunct7 | src/mu-riscv.c:548-578 | The sll/slt/sltu/xor/or/and and slli entries accept any bits 31..25. |
| Classify.ListedIsCanonical | src/mu-riscv.c:499-736 | Apart from those two exceptions, a listed word is the canonical encoding of its mnemonic. |
| Classify.ClassifyGaps | src/mu-riscv.c:499-736 | The words the listing reports as unknown are listed for each opcode group: wrong funct7 or imm[11:5], missing funct3 values, unknown opcodes and the zero word. |
| Pipeline.ImmediateFields | src/mu-riscv.c:437-447 | `Immediate`, ID's immediate, is funct7·32 + rs2 for immediate-ALU and loads, funct7·32 + rd for stores, and 0 otherwise. It is always below 2^12, so it is never sign-extended. |
| Pipeline.MemStage | src/mu-riscv.c:350-375 | MEM keeps the region table and sizes. |
| Pipeline.MemStageSpec | src/mu-riscv.c:350-375 | MEM case by case. IR 0 changes nothing. Otherwise IR, PC and ALUOutput move on and A, B, imm are kept. LMD gets the loaded word for a load and is kept otherwise. Only a store changes memory, by writing B at ALUOutput. |
| Pipeline.MemStoreThenLoad | src/mu-riscv.c:363-369 | A load through MEM right after a store to the same mapped address reads the stored B. |
| Pipeline.MemPhase | src/mu-riscv.c:350-375 | MEM on the whole machine changes only the MEM/WB latch and memory, and keeps the region table. |
| Pipeline.Executed | src/mu-riscv.c:394-396 | EX gives EX/MEM the instruction word of ID/EX and changes no other field of EX/MEM. |
| Pipeline.ExPhase | src/mu-riscv.c:394-415 | EX on the whole machine changes only the EX/MEM latch. |
| Pipeline.Decoded | src/mu-riscv.c:420-452 | ID sets A and B to the current registers named by bits 19..15 and 24..20 of IF/ID's IR, sets the immediate to `Immediate` of the IR (its fields given by `ImmediateFields`), passes IR and PC on from IF/ID, and leaves ALUOutput and LMD of ID/EX as they were. |
| Pipeline.IdPhase | src/mu-riscv.c:420-452 | ID on the whole machine changes only the ID/EX latch. |
| Pipeline.Fetched | src/mu-riscv.c:457-464 | IF sets the PC of IF/ID to the fetch address and changes nothing in IF/ID but its IR and PC. `StepLatches` says the IR is the word read at the PC. |
| Pipeline.NextPc | src/mu-riscv.c:466 | The next PC is PC + 4, wrapping to PC + 4 - 2^32 past the top of the address space, as unsigned 32-bit addition does. |
| Pipeline.IfPhase | src/mu-riscv.c:457-467 | IF on the whole machine changes only IF/ID and the next state, and of the next state only its PC. |
| Pipeline.Stages | src/mu-riscv.c:316-332 | One pass clears the bubble and keeps the current state and cycle count. |
| Pipeline.StagesSpec | src/mu-riscv.c:316-332 | Each latch after a pass is what its stage makes of the latches before it. IF and the next PC are untouched when a bubble is pending. |
| Pipeline.Step | src/mu-riscv.c:66-70 | After a cycle the current state is the next state the stages left, as line 68 commits it. Every other field is what the stages left, except the cycle counter, which is one higher. No bubble is pending and the region table is kept. |
| Pipeline.StepsFirst | src/mu-riscv.c:84-90 | k cycles are one cycle, then k-1 more. |
| Pipeline.StepsLast | src/mu-riscv.c:84-90 | k+1 cycles are k cycles, then one more. |
| Pipeline.Steps | src/mu-riscv.c:84-90 | Any number of cycles keeps the region table and each region's size. |
| Pipeline.RunnablePrefix | src/mu-riscv.c:84-90 | A machine that can run n cycles (`Runnable`: every access in them is defined) can run any fewer. |
| Pipeline.StepsCycleCount | src/mu-riscv.c:69 | After k cycles the cycle counter has gone up by exactly k. |
| Pipeline.StepPc | src/mu-riscv.c:466 | One cycle without a bubble moves the PC on by 4, modulo 2^32. |
| Pipeline.StepsPc | src/mu-riscv.c:457-467 | After k cycles from a state with no bubble, the PC is the starting PC + 4k, modulo 2^32. |
| Pipeline.WordAddressNext | src/mu-riscv.c:466 | k words on from pc is k-1 words on from pc+4. |
| Pipeline.StepsRegisters | src/mu-riscv.c:337-345 | No stage writes the register file or HI/LO. After k ≥ 1 cycles the registers are those of the next state before the first cycle. |
| Pipeline.StepLatches | src/mu-riscv.c:322-328 | Each cycle moves every instruction word one latch on. ID/EX gets the operands from the current registers named by the IR in IF/ID and its immediate. MEM/WB takes on EX/MEM's IR and PC for a non-zero word and is left exactly as it was for the zero word. When not suppressed, IF latches the word at the PC together with the PC. |
| Pipeline.StepsUnroll | src/mu-riscv.c:84-90 | Two, three and four cycles are the same step applied that many times. |
| Pipeline.InstructionFlow | src/mu-riscv.c:316-332 | The word fetched in a cycle is in ID/EX one cycle later, with its PC. It is in EX/MEM after two and, unless it is 0, in MEM/WB after three. |
| Simulation.ClearBytes | src/mu-riscv.c:259 | Every byte of the buffer is 0 afterwards. |
| Simulation.PutWord | src/mu-riscv.c:55-58 | The buffer afterwards has the value's four bytes, least significant first, at offset..offset+3, and is unchanged elsewhere. |
| Simulation.Simulator.constructor | src/mu-riscv.c:473-478 | initialize and init_memory give one fresh, cleared buffer per region, start the PC at the text region with next equal to current, and raise the run flag. |
| Simulation.WriteRegion | src/mu-riscv.c:51-59 | One pass of mem_write_32's scan: the region's buffer ends up holding exactly the bytes `Store` gives that region. |
| Simulation.Simulator.ReadWord | src/mu-riscv.c:29-42 | mem_read_32 returns exactly Load of the memory image. |
| Simulation.Simulator.WriteWord | src/mu-riscv.c:47-61 | mem_write_32 changes the buffers exactly as Store changes the image. |
| Simulation.Simulator.Writeback | src/mu-riscv.c:337-345 | WB is unwritten: the machine is unchanged. |
| Simulation.Simulator.MemoryAccess | src/mu-riscv.c:350-375 | MEM changes the machine exactly as MemPhase says. |
| Simulation.Simulator.Execute | src/mu-riscv.c:394-415 | EX changes the machine exactly as ExPhase says. |
| Simulation.Simulator.Decode | src/mu-riscv.c:420-452 | ID changes the machine exactly as IdPhase says. |
| Simulation.Simulator.Fetch | src/mu-riscv.c:457-467 | IF changes the machine exactly as IfPhase says. |
| Simulation.Simulator.HandlePipeline | src/mu-riscv.c:316-332 | handle_pipeline changes the machine exactly as Stages says. |
| Simulation.Simulator.Cycle | src/mu-riscv.c:66-70 | cycle changes the machine exactly as Step says. |
| Simulation.Simulator.Run | src/mu-riscv.c:75-91 | run does nothing when the run flag is down or the count is not positive. Otherwise the machine afterwards is Steps of the machine before, for exactly num_cycles cycles. |
| Simulation.Simulator.ClearMemory | src/mu-riscv.c:257-260 | The memset loop of reset clears every byte of every region, as Zeroed says. |
| Simulation.Simulator.LoadProgram | src/mu-riscv.c:301-308 | The store loop leaves memory as StoreWords of the program at the text region. The program size is the number of words. |
| Simulation.Simulator.Reset | src/mu-riscv.c:248-270 | reset zeroes the registers, HI and LO, clears memory then loads the program, zeroes the instruction count, puts the PC at the text region with next equal to current, and raises the run flag. |

## Left out

- Console and file I/O are not modelled: the command loop (`handle_command`, `help`), `mdump`, `rdump`, `show_pipeline`, `print_program`, `main` and every `printf`. The program that `load_program` reads with `fopen`/`fscanf` is a parameter, a sequence of words, of `LoadProgram` and `Reset`. The exit on a missing file is not modelled.
- `runAll` is not modelled: it loops while the run flag is up, and no stage ever lowers the flag, so it never returns.
- The ALU in EX and the register write in WB are not modelled: both are unwritten in the source. No stage computes ALUOutput, so the model leaves it where it is.
- Classify.Classify: only the choice of mnemonic is modelled. The operand and immediate text printed for it is not.
- Pipeline.StepsCycleCount: the cycle and instruction counters are unbounded naturals. The model does not wrap them at 2^32.
- Simulation.Simulator.ReadWord: requires AccessOk. A word access whose last bytes run past the end of its region reads or writes outside the region's buffer in the source. That is undefined behaviour, so the model excludes it.
- Simulation.Simulator.WriteWord: requires AccessOk, for the same reason as ReadWord.
- Simulation.Simulator.Run: requires that every access in the requested cycles is defined (`Runnable`), which follows from AccessOk at each cycle.
- Simulation.Simulator.LoadProgram: requires that the program's words all have defined accesses. It also requires that 4 × the word count stays below 2^31, because the loop counter is a C `int`.
- Simulation.Simulator.Reset: has the same requirements as LoadProgram.
- Memory.StoreWordsReadBack: only for blocks that do not wrap past 2^32. A wrapping block can overwrite its own first words.
- Memory.StoreWordsOther: only for blocks that do not wrap past 2^32, for the same reason.
- The constructor takes the region table and the text-region start as parameters. The source fixes them in `mu-riscv.h`, which is not part of this model.
- `malloc` failure is not modelled.
- The source has no hazard detection, no forwarding and no branch flush. Nothing sets `bubble`. `ENABLE_FORWARDING` is set and echoed by the command loop (lines 232-236) but no stage reads it. The model has none of these either.
