# mips-pipeline in Dafny

A model of the simulator core of mips-pipeline, a teaching tool for MIPS-style
processors, together with proofs about it. The model covers:

- **Storage.** A register file of 48 registers (`$0`..`$31`, then
  `$f0`..`$f15`). `$0` is wired to zero. Each register has a symbolic name,
  and names and indices convert both ways. A 32-cell data memory reports
  whether a write changed anything. Instruction memory reads a default
  instruction from the end of the program up to address 999. There are also
  the older 32-register file and 1024-cell memory.
- **Assembler.** The shared two-pass assembler drops blank lines, strips
  comments, collects labels and numbers the instructions. It then resolves
  each label to an offset relative to the referring instruction. It also has
  the R-, I-, branch-zero- and memory-operand parsers.
- **Instruction sets.** There are three:
  - the classic `load`/`store`/`add`/`beqz` set;
  - the five-stage set with control signals, including the pseudo-instructions `li`, `nop`, `mv` and `j`;
  - the Tomasulo set: `L.D`, `S.D`, `ADD.D`, `SUB.D`, `MUL.D` and `DIV.D`.
- **Five-stage pipeline.** The in-order pipeline has two parts:
  - a clock tick that computes all five stages from the latches as they stood before the tick;
  - hazard detection, EX/MEM-before-MEM/WB forwarding with the load-use stall, predict-not-taken `beqz` with flush, and the cycle statistics.

  It appears twice: a class over the register file, data memory and
  instruction memory, and the older copy with `tick(n)` and a different
  `tryForward`.
- **Stage labels.** The helper that tags every program instruction with the
  pipeline stage holding it.
- **Tomasulo engine.** It has reservation-station pools ADD, MUL and MEM, a
  register-status table `qi`, and an in-order memory queue. A step is:
  1. issue;
  2. tick: start, count down, at most one common-data-bus broadcast, store;
  3. the state update.

  The older variant is modelled separately, with its own latencies and
  queue-shift rules.

Each stateful source class is modelled as a Dafny class whose methods are
proved to transform the state exactly as a specification function of the old
state says. The properties the engines promise are then proved about those
functions:

- **Tomasulo invariant.** Every awaited tag names a busy station that has a
  destination (not a store), no tag sits in two register slots, and the memory queue lists
  exactly the waiting memory stations in issue order.
- **Tomasulo step.** Issue is in order. The bus winner is unique and is the
  first ready station. Operands are captured at issue.
- **Five-stage pipeline.** Stalls happen exactly when a register is shared.
  Forwarding is all or nothing. Taken branches flush both latches. Cycles
  are counted.
- **Decoders.** Round trips from text.

Clock-driven I/O, UI callbacks and listeners become returned values or are
left out (below). Division in `DIV.D` is a parameter `divide`, because the
source divides floating-point numbers.

## Model

| member | source | states |
|---|---|---|
| RegisterFiles.RegisterFile.constructor | src/lib/simulator/hardware/register-file.ts:6-8 | a new register file holds 48 zeros |
| RegisterFiles.RegisterFile.GetAt | src/lib/simulator/hardware/register-file.ts:10-22 | reading fails outside 0..47 with the out-of-bounds message; `$0` reads 0; any other register reads its cell |
| RegisterFiles.RegisterFile.SetAt | src/lib/simulator/hardware/register-file.ts:23-51 | writing fails outside 0..47 and changes nothing; a write to `$0` is discarded; otherwise exactly that register changes |
| RegisterFiles.RegisterFile.Reset | src/lib/simulator/hardware/register-file.ts:53-55 | every register becomes 0 |
| RegisterFiles.RegisterFile.GetRegisters | src/lib/simulator/hardware/register-file.ts:61-64 | the copy is the whole register array, 48 entries, and each register other than `$0` reads as the copy says |
| RegisterFiles.ReadAfterWrite | src/lib/simulator/hardware/register-file.ts:10-51 | after an in-range write, reading the written register gives the value unless it is `$0`, and every other register is unchanged |
| RegisterFiles.IndexOf | src/lib/simulator/hardware/register-file.ts:131-135 | the index found is the first position holding the key; none exactly when the key is absent |
| RegisterFiles.NameTableKeys | src/lib/simulator/hardware/register-file.ts:67-117 | the 48 symbolic names are distinct: each name's first position in the table is its own index |
| RegisterFiles.GetRegisterIndex | src/lib/simulator/hardware/register-file.ts:119-136 | a name that is accepted gives an index in 0..47 |
| RegisterFiles.GetRegisterName | src/lib/simulator/hardware/register-file.ts:138-151 | the name of an index is its table entry, or the out-of-bounds error |
| RegisterFiles.RegisterNameRoundTrip | src/lib/simulator/hardware/register-file.ts:119-151 | every index in range has a name, and looking that name up gives back the index |
| RegisterFiles.OneDigitName | src/lib/simulator/hardware/register-file.ts:124-130 | `$` followed by one digit names that register |
| RegisterFiles.KeyRoundTrip | src/lib/simulator/hardware/register-file.ts:131-135 | every symbolic name, `$zero` included, is read as its own register |
| RegisterFiles.NumericNameNeedsOneDigit | src/lib/simulator/hardware/register-file.ts:119-136 | a numeric name of two or more digits such as `$10` is rejected |
| DataMemory.Memory.constructor | src/lib/simulator/hardware/memory.ts:10-13 | a new memory holds 32 zeros |
| DataMemory.Memory.GetAt | src/lib/simulator/hardware/memory.ts:35-40 | reading fails outside 0..31 and otherwise gives the cell |
| DataMemory.Memory.SetAt | src/lib/simulator/hardware/memory.ts:42-66 | writing fails outside 0..31 and changes nothing; a non-numeric value stores 0; listeners are notified exactly when the memory changed |
| DataMemory.Memory.Reset | src/lib/simulator/hardware/memory.ts:68-75 | every cell becomes 0, and listeners are notified exactly when some cell was non-zero |
| DataMemory.Memory.GetMemory | src/lib/simulator/hardware/memory.ts:81-84 | the copy has 32 entries, each the cell's value |
| DataMemory.LoadAfterStore | src/lib/simulator/hardware/memory.ts:35-66 | after an in-range store, the written cell reads the value (0 for a non-number) and every other cell is unchanged |
| DataMemory.StoreFailsOutOfRange | src/lib/simulator/hardware/memory.ts:35-45 | a store fails exactly outside 0..31, with the same error a load there gives |
| LegacyRegisterFile.RegisterFile.constructor | src/lib/simulator/register-file.ts:3-5 | a new legacy register file holds 32 zeros |
| LegacyRegisterFile.RegisterFile.GetAt | src/lib/simulator/register-file.ts:7-16 | reading fails exactly outside 0..31; register 0 reads 0 |
| LegacyRegisterFile.RegisterFile.SetAt | src/lib/simulator/register-file.ts:17-25 | writing fails exactly outside 0..31; a write to register 0 is discarded; otherwise exactly that register changes |
| LegacyMemory.Memory.constructor | src/lib/simulator/memory.ts:4-6 | a new legacy memory holds 1024 zeros |
| LegacyMemory.Memory.GetAt | src/lib/simulator/memory.ts:7-12 | reading fails exactly outside 0..1023 and otherwise gives the cell |
| LegacyMemory.Memory.SetAt | src/lib/simulator/memory.ts:13-18 | writing fails exactly outside 0..1023; otherwise exactly that cell changes |
| LegacyMemory.Memory.Reset | src/lib/simulator/memory.ts:19-21 | every cell becomes 0 |
| InstructionMemories.InstructionMemory.constructor | src/lib/simulator/hardware/instruction-memory.ts:7-10 | the memory holds the given program and default |
| InstructionMemories.InstructionMemory.GetInstructionAt | src/lib/simulator/hardware/instruction-memory.ts:11-19 | reading fails outside 0..999; inside the program it gives that instruction; from the end of the program to 999 it gives the default |
| InstructionMemories.InstructionMemory.Reset | src/lib/simulator/hardware/instruction-memory.ts:24-26 | the program becomes empty |
| PipelineRegisters.DefaultRegsEmpty | src/lib/simulator/hardware/pipeline-registers.ts:27-39 | the default latch set holds the default instruction in every latch, counts as drained, and has every numeric field 0 |
| Instructions.Default | src/lib/simulator/instruction.ts:22-24 | the default instruction is `add $0,$0,$0` with no program index |
| Instructions.RegisterArgs | src/lib/simulator/instruction.ts:76-98 | reading register operands succeeds exactly when every operand is `$` followed by a number, and then gives, in order, the number each one names |
| Instructions.Parse | src/lib/simulator/instruction.ts:26-112 | a parsed instruction keeps its text and program index |
| Instructions.ParseProgram | src/lib/simulator/instruction.ts:239-247 | a parsed program has one instruction per kept line, in order: the `k`-th is that line parsed with index `k`, carrying the line; it fails exactly when some kept line fails to parse |
| InstructionProperties.ProgramLinesInOrder | src/lib/simulator/instruction.ts:239-247 | the kept lines are exactly the lines that are neither blank nor a comment once trimmed, each trimmed, in their order in the text, none skipped |
| Instructions.NewInstructionMemory | src/lib/simulator/instruction.ts:220-252 | building the instruction memory fails exactly when parsing fails; otherwise it holds the parsed program with the default instruction |
| InstructionProperties.ShowRoundTrip | src/lib/simulator/instruction.ts:26-112 | every instruction, written back as text, parses to itself with that text |
| InstructionProperties.MemoryOperandRoles | src/lib/simulator/instruction.ts:136-153 | for a parsed `load`/`store $r, offset($base)`, `rs1` is `base` and `immediate` is `offset`; `rd` is `r` for a load and absent for a store; `rs2` is `r` for a store and absent for a load |
| InstructionProperties.AddOperandRoles | src/lib/simulator/instruction.ts:179-190 | for a parsed `add $rd, $r1, $r2`, `rs1` is `r1`, `rs2` is `r2`, `rd` is `rd`, and there is no immediate |
| InstructionProperties.BranchOperandRoles | src/lib/simulator/instruction.ts:204-217 | for a parsed `beqz $r, offset`, `rs1` is `r`, there is no `rs2` or `rd`, and `immediate` is `offset` |
| InstructionProperties.MemoryRoundTrip | src/lib/simulator/instruction.ts:37-75 | the text `load/store $r, offset($base)` decodes to that load or store |
| InstructionProperties.AddRoundTrip | src/lib/simulator/instruction.ts:76-98 | the text `add $rd, $rs, $rt` decodes to that addition |
| InstructionProperties.BranchRoundTrip | src/lib/simulator/instruction.ts:99-108 | the text `beqz $r, offset` decodes to that branch |
| InstructionProperties.UnknownOpcode | src/lib/simulator/instruction.ts:109-110 | an opcode other than load, store, add and beqz is rejected as an unknown instruction type |
| InstructionProperties.AddArgumentCount | src/lib/simulator/instruction.ts:76-81 | `add` with other than three operands is rejected with the argument-count error |
| InstructionParse.Number | src/lib/simulator/instruction-parse/parse-inst.ts:35-44 | the first pass numbers the instructions 0, 1, 2, ... in order, and the counter ends at their number |
| InstructionParse.CommentLine | src/lib/simulator/instruction-parse/parse-inst.ts:86-91 | a line that is only a comment produces neither an instruction nor a label |
| InstructionParse.InstructionLine | src/lib/simulator/instruction-parse/parse-inst.ts:102-118 | `op operands` is handed to the decoder with the opcode and the operand text |
| InstructionParse.LabelledLine | src/lib/simulator/instruction-parse/parse-inst.ts:93-104 | `name: op operands` gives both the label and the instruction |
| InstructionParse.LabelOnlyLine | src/lib/simulator/instruction-parse/parse-inst.ts:93-101 | `name:` on its own gives the label and no instruction |
| InstructionParse.LineErrorsArePrefixed | src/lib/simulator/instruction-parse/parse-inst.ts:106-118 | every line error starts with the prefix naming the line |
| InstructionParse.LastLabelLine | src/lib/simulator/instruction-parse/parse-inst.ts:35-37 | the line found is the last one defining the label |
| InstructionParse.LabelsOfNumber | src/lib/simulator/instruction-parse/parse-inst.ts:35-44 | a label is defined exactly when some line names it, and it stands for the number of instructions before its last definition |
| InstructionParse.EmptyLabelIgnored | src/lib/simulator/instruction-parse/parse-inst.ts:35-37 | the empty label is never defined |
| InstructionParse.InstOfLine | src/lib/simulator/instruction-parse/parse-inst.ts:38-44 | the instruction of a line is numbered by how many instructions precede it |
| InstructionParse.LabelsInRange | src/lib/simulator/instruction-parse/parse-inst.ts:35-44 | every label points into the program or just past its end |
| InstructionParse.NonBlankInOrder | src/lib/simulator/instruction-parse/parse-inst.ts:31 | the kept lines are exactly the lines that are not blank, unchanged and in their order, none skipped |
| InstructionParse.FirstPassFails | src/lib/simulator/instruction-parse/parse-inst.ts:22-53 | the first pass fails exactly when some kept line fails |
| InstructionParse.SecondPassSpec | src/lib/simulator/instruction-parse/parse-inst.ts:55-72 | the second pass fails exactly when some instruction names an unknown label; otherwise each label becomes target minus own index |
| InstructionParse.AssembledIndices | src/lib/simulator/instruction-parse/parse-inst.ts:22-72 | the `k`-th assembled instruction has program index `k` |
| InstructionParse.ParseRType | src/lib/simulator/instruction-parse/parse-inst.ts:122-131 | the three registers read are all in range |
| InstructionParse.ParseMemType | src/lib/simulator/instruction-parse/parse-inst.ts:160-181 | the two registers read are in range |
| InstructionParse.RTypeRoundTrip | src/lib/simulator/instruction-parse/parse-inst.ts:122-131 | `rd, rs1, rs2` reads back as the three registers, in the parser's order |
| InstructionParse.ITypeRoundTrip | src/lib/simulator/instruction-parse/parse-inst.ts:133-145 | `rd, rs, imm` reads back as the registers and the number |
| InstructionParse.ITypeLabel | src/lib/simulator/instruction-parse/parse-inst.ts:133-145 | `rd, rs, name` with a non-numeric name reads back as a label reference |
| InstructionParse.BzTypeRoundTrip | src/lib/simulator/instruction-parse/parse-inst.ts:147-158 | `rs, imm` and `rs, name` read back as the register with a number or a label |
| InstructionParse.MemTypeRoundTrip | src/lib/simulator/instruction-parse/parse-inst.ts:160-181 | `rd, imm(base)` reads back as base, register and offset |
| InstructionParse.DigitRegisterOperand | src/lib/simulator/hardware/register-file.ts:124-130 | `$d` for one digit `d` is a well-formed operand naming register `d` |
| BasicInstructions.DefaultInst | src/lib/simulator/basic-pipeline/instruction.ts:348-366 | the default five-stage instruction is a NOP with no program index that writes neither register nor memory |
| BasicInstructions.GetIMem5Stage | src/lib/simulator/basic-pipeline/instruction.ts:368-373 | building the five-stage instruction memory fails exactly when assembling fails (as written, an `mv` naming a register numbered 10 or above fails); otherwise it holds the program with the NOP as default |
| BasicInstructionProperties.EveryOpcodeHasParser | src/lib/simulator/basic-pipeline/instruction.ts:34-67 | an opcode has a decoder exactly when it is in the supported list; any other opcode is rejected as unsupported |
| BasicInstructionProperties.ArithmeticNames | src/lib/simulator/basic-pipeline/instruction.ts:129-159 | each ALU operation has its register form under its name and, except `sub`, its immediate form under the name plus `i` |
| BasicInstructionProperties.Dispatch | src/lib/simulator/basic-pipeline/instruction.ts:70-78 | decoding runs the decoder the table maps the opcode to |
| BasicInstructionProperties.RTypeText | src/lib/simulator/basic-pipeline/instruction.ts:79-102 | `op rd, rs1, rs2` decodes to a register-register instruction with the R-type control signals |
| BasicInstructionProperties.ITypeText | src/lib/simulator/basic-pipeline/instruction.ts:104-127 | `op rd, rs1, imm` decodes to a register-immediate instruction with the I-type control signals |
| BasicInstructionProperties.BranchText | src/lib/simulator/basic-pipeline/instruction.ts:161-183 | `op a, b, imm` and `op a, b, label` decode to a branch comparing `a` with `b` |
| BasicInstructionProperties.BranchZeroText | src/lib/simulator/basic-pipeline/instruction.ts:185-202 | `beqz/bnez a, target` decodes to a branch comparing `a` with `$0` |
| BasicInstructionProperties.ControllerOf | src/lib/simulator/basic-pipeline/instruction.ts:161-226 | the branch controller of a decoded instruction is its table entry's condition, and never-taken for non-branches |
| BasicInstructionProperties.BranchConditions | src/lib/simulator/basic-pipeline/instruction.ts:185-226 | each branch opcode is taken exactly on its comparison (equal, not equal, greater, ...) and `j` always |
| BasicInstructionProperties.NonBranchEntries | src/lib/simulator/basic-pipeline/instruction.ts:151-226 | only branch opcodes are mapped to a branch decoder |
| BasicInstructionProperties.LoadWordText | src/lib/simulator/basic-pipeline/instruction.ts:228-246 | `lw rd, imm(base)` decodes to a load with memory write-back |
| BasicInstructionProperties.StoreWordText | src/lib/simulator/basic-pipeline/instruction.ts:247-265 | `sw data, imm(base)` decodes to a store that writes memory and no register |
| BasicInstructionProperties.LoadImmediateText | src/lib/simulator/basic-pipeline/instruction.ts:267-286 | `li rd, imm` decodes to `addi rd, $0, imm` |
| BasicInstructionProperties.LoadImmediateIsAddi | src/lib/simulator/basic-pipeline/instruction.ts:267-286 | `li rd, imm` decodes exactly as `addi rd, $0, imm` does |
| BasicInstructionProperties.NopIsDefault | src/lib/simulator/basic-pipeline/instruction.ts:288-305 | `nop` decodes to the default instruction's signals and registers |
| BasicInstructionProperties.JumpText | src/lib/simulator/basic-pipeline/instruction.ts:316-341 | `j target` decodes to an always-taken branch |
| BasicInstructionProperties.ProgramIndices5Stage | src/lib/simulator/basic-pipeline/instruction.ts:19-32 | the `k`-th assembled five-stage instruction has program index `k` |
| BasicInstructionProperties.MoveText | src/lib/simulator/basic-pipeline/instruction.ts:307-315 | `mv rd, rs` is accepted exactly when both register numbers are below 10, and then decodes to `addi rd, rs, 0` |
| BasicInstructionProperties.MoveIsAddi | src/lib/simulator/basic-pipeline/instruction.ts:307-315 | the intended `mv rd, rs` decodes exactly as `addi rd, rs, 0` for any two registers; the program's own `mv` does so when both numbers are below 10 |
| BasicInstructionProperties.RereadText | src/lib/simulator/basic-pipeline/instruction.ts:307-315 | re-reading `$d, $s, 0` succeeds exactly when both numbers are single digits |
| BasicInstructionProperties.MoveAsWrittenNeedsOneDigit | src/lib/simulator/basic-pipeline/instruction.ts:307-315 | `mv` as written succeeds exactly when both registers have indices below 10 |
| BasicInstructionProperties.MoveAsWrittenRejectsT2 | src/lib/simulator/basic-pipeline/instruction.ts:307-315 | `$t2` and `$t3` are registers 10 and 11; the program rejects `mv $t2, $t3`, while the intended decoding is `addi $t2, $t3, 0` |
| StageLabels.LastStageSpec | src/lib/pipeline-parsers/instruction-list.ts:29-33 | an entry is labelled with a stage exactly when that stage's index names it and no later stage's does, and with none exactly when no stage names it |
| StageLabels.LastStageNone | src/lib/pipeline-parsers/instruction-list.ts:21-33 | no label exactly when no stage index names the entry |
| StageLabels.StageLabelsOneEntry | src/lib/pipeline-parsers/instruction-list.ts:29-33 | a stage labels at most one entry |
| StageLabels.ParseInstWithStage | src/lib/pipeline-parsers/instruction-list.ts:9-36 | one entry per program instruction, in order, each labelled with the last stage naming it; fails exactly when reading the instruction at `pc` fails |
| TomasuloInstructions.ParseOpAccepts | src/lib/simulator/tomasulo/instruction.ts:12-19 | an opcode is accepted exactly when it is one of the six supported names |
| TomasuloInstructions.OpNameRoundTrip | src/lib/simulator/tomasulo/instruction.ts:12-19 | every operation's name parses back to it |
| TomasuloInstructions.DecodeOperands | src/lib/simulator/tomasulo/instruction.ts:32-68 | the decoded operands have the shape of the operation: load, store or two sources and a destination, all in range |
| TomasuloInstructions.ParseTomaOpcode | src/lib/simulator/tomasulo/instruction.ts:32-68 | a decoded instruction has the opcode written, and an unsupported opcode fails |
| TomasuloInstructions.LoadForm | src/lib/simulator/tomasulo/instruction.ts:38-47 | `L.D rd, imm(base)` decodes to a load that reads `base`, writes `rd` and has offset `imm` |
| TomasuloInstructions.StoreForm | src/lib/simulator/tomasulo/instruction.ts:48-57 | `S.D data, imm(base)` decodes to a store with no destination |
| TomasuloInstructions.ArithmeticForm | src/lib/simulator/tomasulo/instruction.ts:58-67 | `OP rd, a, b` decodes to that operation on `a` and `b` into `rd` |
| TomasuloInstructions.GetIMemToma | src/lib/simulator/tomasulo/instruction.ts:70-77 | building the Tomasulo instruction memory fails exactly when assembling fails; otherwise it holds the program and reads past its end as an error |
| TomasuloInstructions.TomaProgramIndices | src/lib/simulator/tomasulo/instruction.ts:27-30 | the `k`-th assembled instruction has program index `k` |
| Tomasulo.ExecuteTime | src/lib/simulator/tomasulo/tomasulo.ts:63-75 | `ADD.D` and `SUB.D` take 2 cycles, `MUL.D` 10, `DIV.D` 40, and `L.D` and `S.D` 2 |
| Tomasulo.NextInst | src/lib/simulator/tomasulo/tomasulo.ts:662-673 | the next instruction is the one at `pc`; past the end of the program there is none, which is not an error |
| Tomasulo.FirstFree | src/lib/simulator/tomasulo/tomasulo.ts:432-530 | the station chosen is the lowest-index idle one; none exactly when the pool is full |
| Tomasulo.ApplyIssue | src/lib/simulator/tomasulo/tomasulo.ts:389-402 | placing an issued instruction changes no register, memory cell or program entry |
| Tomasulo.FindTag | src/lib/simulator/tomasulo/tomasulo.ts:610-633 | the register found is the first one awaiting the tag; none exactly when no register awaits it |
| Tomasulo.ForwardStation | src/lib/simulator/tomasulo/tomasulo.ts:610-633 | a broadcast clears every operand waiting on its tag, gives it the value, and leaves other operands alone |
| Tomasulo.ApplyUpdate | src/lib/simulator/tomasulo/tomasulo.ts:410-418 | a countdown update changes only the station it names |
| Tomasulo.ApplyUpdates | src/lib/simulator/tomasulo/tomasulo.ts:410-418 | applying the updates changes no register, memory, queue or `qi` entry |
| Tomasulo.TomasuloProcessor.constructor | src/lib/simulator/tomasulo/tomasulo.ts:282-321 | a new processor starts at `pc` 0 with idle pools of the requested sizes, nothing awaited and an empty queue |
| Tomasulo.TomasuloProcessor.Step | src/lib/simulator/tomasulo/tomasulo.ts:323-355 | a step is issue, then tick, then the state update, and returns whether the processor is finished |
| Tomasulo.TomasuloProcessor.IsFinishedNow | src/lib/simulator/tomasulo/tomasulo.ts:653-660 | finished exactly when every station is idle and no register awaits a result |
| Tomasulo.TomasuloProcessor.CheckRegReady | src/lib/simulator/tomasulo/tomasulo.ts:635-643 | reading an operand gives the awaited tag, or no tag and the register value |
| Tomasulo.TomasuloProcessor.Issue | src/lib/simulator/tomasulo/tomasulo.ts:432-530 | issue changes nothing and computes the issue specification |
| Tomasulo.TomasuloProcessor.Tick | src/lib/simulator/tomasulo/tomasulo.ts:532-608 | the pool scans change nothing and compute the tick specification |
| Tomasulo.TomasuloProcessor.ArithLoop | src/lib/simulator/tomasulo/tomasulo.ts:77-139 | the scan of an ADD or MUL pool gives the actions the pool specification gives |
| Tomasulo.TomasuloProcessor.MemLoop | src/lib/simulator/tomasulo/tomasulo.ts:141-257 | the scan of the MEM pool gives the loads' and stores' actions the specification gives |
| Tomasulo.TomasuloProcessor.CommitChange | src/lib/simulator/tomasulo/tomasulo.ts:610-633 | a broadcast changes the state as the commit specification says |
| Tomasulo.TomasuloProcessor.UpdateState | src/lib/simulator/tomasulo/tomasulo.ts:382-430 | the state update applies issue, broadcast, countdown updates, store and queue pop in that order |
| Tomasulo.TomasuloProcessor.PlaceIssued | src/lib/simulator/tomasulo/tomasulo.ts:389-402 | the issued instruction is placed and its destination tagged |
| Tomasulo.TomasuloProcessor.Broadcast | src/lib/simulator/tomasulo/tomasulo.ts:404-408 | the broadcast, if any, is applied |
| Tomasulo.TomasuloProcessor.ApplyUpdateList | src/lib/simulator/tomasulo/tomasulo.ts:410-418 | every countdown update is applied |
| Tomasulo.TomasuloProcessor.StoreAndPop | src/lib/simulator/tomasulo/tomasulo.ts:420-429 | the store writes memory and frees its station, then the queue is popped if asked |
| TomasuloProperties.FirstReady | src/lib/simulator/tomasulo/tomasulo.ts:538-600 | the station found is the first one in the pool ready to broadcast |
| TomasuloProperties.LastStore | src/lib/simulator/tomasulo/tomasulo.ts:566-600 | the store found is the last writing store of the scan |
| TomasuloProperties.ArithPassShape | src/lib/simulator/tomasulo/tomasulo.ts:77-139 | an arithmetic scan adds each station's update in order and commits the first ready station if the bus is free |
| TomasuloProperties.MemPassUpdates | src/lib/simulator/tomasulo/tomasulo.ts:141-257 | the MEM scan adds each memory station's update in order |
| TomasuloProperties.MemPassCommit | src/lib/simulator/tomasulo/tomasulo.ts:141-208 | the MEM scan commits the first finished load if the bus is free |
| TomasuloProperties.MemPassStore | src/lib/simulator/tomasulo/tomasulo.ts:210-257 | the store action is that of the last writing store |
| TomasuloProperties.MemPassPop | src/lib/simulator/tomasulo/tomasulo.ts:162-181 | the queue is popped exactly when a load starts or a store writes |
| TomasuloProperties.BusWinnerFirst | src/lib/simulator/tomasulo/tomasulo.ts:538-600 | a bus winner exists exactly when some station is ready; it is ready, and no earlier station in ADD, MUL, MEM order is ready |
| TomasuloProperties.TickUpdates | src/lib/simulator/tomasulo/tomasulo.ts:532-608 | the tick's updates are those of ADD, then MUL, then MEM |
| TomasuloProperties.TickCommit | src/lib/simulator/tomasulo/tomasulo.ts:532-608 | the tick broadcasts exactly when there is a bus winner, and it broadcasts the winner's result |
| TomasuloProperties.TickStore | src/lib/simulator/tomasulo/tomasulo.ts:566-600 | the tick's store is that of the last writing store station |
| TomasuloProperties.TickPop | src/lib/simulator/tomasulo/tomasulo.ts:162-181 | the tick pops the queue exactly when some load starts or some store writes |
| TomasuloProperties.InitialInv | src/lib/simulator/tomasulo/tomasulo.ts:282-321 | a new processor satisfies the invariant |
| TomasuloProperties.IssueFacts | src/lib/simulator/tomasulo/tomasulo.ts:432-530 | the instruction issued is the one at `pc`, into the lowest free station of its operation's pool, with operands captured from `qi` or the registers |
| TomasuloProperties.IssueNone | src/lib/simulator/tomasulo/tomasulo.ts:432-530 | nothing issues exactly when past the end of the program or the operation's pool is full |
| TomasuloProperties.IssuePastEnd | src/lib/simulator/tomasulo/tomasulo.ts:662-673 | past the last instruction nothing issues and this is not an error |
| TomasuloProperties.RegReadyFacts | src/lib/simulator/tomasulo/tomasulo.ts:635-643 | a tagged register gives its tag and value 0; an untagged one gives no tag and its value |
| TomasuloProperties.IssueSpecOk | src/lib/simulator/tomasulo/tomasulo.ts:432-530 | an issued station is a free slot of the right pool, not started, whose awaited operands name busy stations |
| TomasuloProperties.IssuePhase | src/lib/simulator/tomasulo/tomasulo.ts:389-402 | issuing keeps the invariant |
| TomasuloProperties.TickCommitOk | src/lib/simulator/tomasulo/tomasulo.ts:532-608 | the broadcasting station is busy and is no store |
| TomasuloProperties.CommitWrites | src/lib/simulator/tomasulo/tomasulo.ts:610-633 | a broadcast writes the first register awaiting its tag, with the value, and no register if the tag was superseded |
| TomasuloProperties.TagSlotUnique | src/lib/simulator/tomasulo/tomasulo.ts:396-398 | under the invariant a tag is awaited by at most one register |
| TomasuloProperties.CommitPhase | src/lib/simulator/tomasulo/tomasulo.ts:404-408 | a broadcast keeps the invariant |
| TomasuloProperties.TickUpdatesIn | src/lib/simulator/tomasulo/tomasulo.ts:532-608 | an update is in the tick exactly when its station wants it |
| TomasuloProperties.UpdatesAt | src/lib/simulator/tomasulo/tomasulo.ts:410-418 | after the updates each station is as its own update, if any, says |
| TomasuloStep.IssuedGetsBroadcast | src/lib/simulator/tomasulo/tomasulo.ts:389-408 | a station issued in a step also receives that step's broadcast |
| TomasuloStep.UpdateStatePhases | src/lib/simulator/tomasulo/tomasulo.ts:382-430 | the state update is issue, broadcast, updates, store, then pop |
| TomasuloStep.StoreKeepsCore | src/lib/simulator/tomasulo/tomasulo.ts:420-423 | the store phase keeps the station and tag invariant |
| TomasuloStep.ApplyStoreShape | src/lib/simulator/tomasulo/tomasulo.ts:420-423 | a store writes the data at its address and frees its station, and changes nothing else |
| TomasuloStep.PopNeverFails | src/lib/simulator/tomasulo/tomasulo.ts:424-429 | under the invariant the update can fail only on a store to a bad address, never on an empty queue |
| TomasuloStep.StepKeepsInv | src/lib/simulator/tomasulo/tomasulo.ts:323-355 | every step keeps the invariant, and a step that throws keeps its station and tag part |
| TomasuloStep.StepOutcome | src/lib/simulator/tomasulo/tomasulo.ts:323-355 | a step returns whether everything is idle and nothing is awaited |
| TomasuloStep.StepStation | src/lib/simulator/tomasulo/tomasulo.ts:382-430 | after a step each station is freed if it broadcast or stored, and otherwise issued, forwarded and counted down |
| TomasuloStep.StepIssue | src/lib/simulator/tomasulo/tomasulo.ts:389-402 | `pc` advances by one exactly when an instruction issued |
| TomasuloStep.StepRenames | src/lib/simulator/tomasulo/tomasulo.ts:396-398 | after issuing, the destination awaits the new station's tag, superseding any older tag |
| TomasuloStep.StepLoserRetries | src/lib/simulator/tomasulo/tomasulo.ts:538-600 | a ready station that loses the bus stays busy and ready, and retries |
| TomasuloStep.StepQueue | src/lib/simulator/tomasulo/tomasulo.ts:396-401 | the queue after a step is the old queue plus any issued memory station, minus the head if it left |
| TomasuloStep.FinishedIsFixpoint | src/lib/simulator/tomasulo/tomasulo.ts:653-673 | a finished processor past its program stays as it is and reports finished |
| LegacyTomasulo.ApplyIssueAsWritten | src/lib/simulator/tomasolu/tomasolu.ts:268-279 | placing an instruction as written changes no register or memory cell |
| LegacyTomasulo.TomasoluProcessor.constructor | src/lib/simulator/tomasolu/tomasolu.ts:230-262 | a new legacy processor starts at `pc` 0 with two idle stations per pool |
| LegacyTomasulo.TomasoluProcessor.Step | src/lib/simulator/tomasolu/tomasolu.ts:264-310 | a legacy step, as written, is issue (tagging `qi[dest]` even for a store), tick, then broadcast with queue shift, updates and store with queue shift |
| LegacyTomasulo.TomasoluProcessor.CheckRegReady | src/lib/simulator/tomasolu/tomasolu.ts:513-521 | reading an operand gives the awaited tag, or no tag and the register value |
| LegacyTomasulo.TomasoluProcessor.Issue | src/lib/simulator/tomasolu/tomasolu.ts:312-415 | legacy issue computes its specification and changes nothing |
| LegacyTomasulo.TomasoluProcessor.Tick | src/lib/simulator/tomasolu/tomasolu.ts:417-486 | the legacy pool scans compute their specification and change nothing |
| LegacyTomasulo.TomasoluProcessor.ArithLoop | src/lib/simulator/tomasolu/tomasolu.ts:55-103 | the legacy arithmetic scan gives the actions its specification gives |
| LegacyTomasulo.TomasoluProcessor.MemLoop | src/lib/simulator/tomasolu/tomasolu.ts:106-209 | the legacy MEM scan gives the actions its specification gives |
| LegacyTomasulo.TomasoluProcessor.CommitChange | src/lib/simulator/tomasolu/tomasolu.ts:488-511 | a legacy broadcast changes the state as the commit specification says |
| LegacyTomasulo.TomasoluProcessor.PlaceIssued | src/lib/simulator/tomasolu/tomasolu.ts:268-279 | the issued station is placed and `pc` advanced, `qi[dest]` tagged whatever the destination, and a MEM station queued, as the as-written issue says |
| LegacyTomasulo.TomasoluProcessor.Broadcast | src/lib/simulator/tomasolu/tomasolu.ts:281-288 | the broadcasting station is freed, its result delivered, and the queue shifted for a MEM station |
| LegacyTomasulo.TomasoluProcessor.ApplyUpdateList | src/lib/simulator/tomasolu/tomasolu.ts:290-298 | every countdown update is applied, in order |
| LegacyTomasulo.TomasoluProcessor.StoreAndShift | src/lib/simulator/tomasolu/tomasolu.ts:300-309 | a legacy store writes memory, frees its station and shifts the queue |
| LegacyTomasuloProperties.FirstArith | src/lib/simulator/tomasolu/tomasolu.ts:55-103 | the station found is the first arithmetic station finishing |
| LegacyTomasuloProperties.FirstLoad | src/lib/simulator/tomasolu/tomasolu.ts:106-172 | the station found is the first load finishing |
| LegacyTomasuloProperties.BusWinnerFirst | src/lib/simulator/tomasolu/tomasolu.ts:417-486 | a legacy bus winner exists exactly when some station finishes, and no earlier one does |
| LegacyTomasuloProperties.ArithRoundShape | src/lib/simulator/tomasolu/tomasolu.ts:55-103 | the legacy arithmetic scan adds each station's update in order, using the pool's latency |
| LegacyTomasuloProperties.MemRoundShape | src/lib/simulator/tomasolu/tomasolu.ts:106-209 | the legacy MEM scan adds each station's update in order |
| LegacyTomasuloProperties.TickCommit | src/lib/simulator/tomasolu/tomasolu.ts:417-486 | the legacy tick broadcasts exactly when there is a bus winner, and it broadcasts the winner |
| LegacyTomasuloProperties.CommitNotStore | src/lib/simulator/tomasolu/tomasolu.ts:174-209 | a station that broadcasts is busy and is never a store |
| LegacyTomasuloProperties.TickStore | src/lib/simulator/tomasolu/tomasolu.ts:174-209 | the legacy store action is that of the last writing store |
| LegacyTomasuloProperties.TickStarts | src/lib/simulator/tomasolu/tomasolu.ts:423-467 | a starting ADD station has 1 cycle left and a MUL station 9 (latencies 2 and 10); a starting store has 1 left and its effective address fixed |
| LegacyTomasuloProperties.IssueLikeLater | src/lib/simulator/tomasolu/tomasolu.ts:312-415 | legacy issue is the later issue except that a store's destination is 0 |
| LegacyTomasuloProperties.IssueFacts | src/lib/simulator/tomasolu/tomasolu.ts:312-415 | the issued instruction goes into the lowest free station of its pool, operands captured |
| LegacyTomasuloProperties.IssueNone | src/lib/simulator/tomasolu/tomasolu.ts:312-415 | nothing issues exactly when past the end of the program or the pool is full |
| LegacyTomasuloProperties.StoreTagsRegisterZero | src/lib/simulator/tomasolu/tomasolu.ts:268-279 | as written, issuing a store makes register 0 await the store's tag, which never broadcasts, so the invariant breaks |
| LegacyTomasuloProperties.IssueAsWrittenTagsZero | src/lib/simulator/tomasolu/tomasolu.ts:268-279 | the as-written issue is the guarded one, except that a destination of 0 (a store's) also tags register 0 |
| LegacyTomasuloProperties.StepAgreesUnlessZeroDest | src/lib/simulator/tomasolu/tomasolu.ts:264-310 | a step whose issued station does not have destination 0 is the same as written and corrected |
| LegacyTomasuloProperties.IssueKeepsInv | src/lib/simulator/tomasolu/tomasolu.ts:268-279 | the guarded issue keeps the invariant |
| LegacyTomasuloProperties.StepQueue | src/lib/simulator/tomasolu/tomasolu.ts:281-309 | in the step as written, the legacy queue is shifted once on a MEM broadcast and once on a store, and `pc` advances exactly when an instruction issued |
| LegacyTomasuloProperties.InitialLegacyInv | src/lib/simulator/tomasolu/tomasolu.ts:230-262 | a new legacy processor satisfies the invariant |
| LegacyTomasuloProperties.UpdatesKeepInv | src/lib/simulator/tomasolu/tomasolu.ts:290-298 | countdown updates keep the invariant |
| LegacyTomasuloProperties.StoreKeepsInv | src/lib/simulator/tomasolu/tomasolu.ts:300-309 | a store keeps the invariant |
| LegacyTomasuloProperties.StepKeepsInv | src/lib/simulator/tomasolu/tomasolu.ts:264-310 | the corrected legacy step, whose issue never tags register 0, keeps the invariant: each awaited register names a busy non-store station writing it |
| Pipelines.CollisionFacts | src/lib/simulator/pipeline.ts:279-293 | a collision is symmetric and holds exactly when both registers are given, equal and not `$0` |
| Pipelines.HazardMeansSharedRegister | src/lib/simulator/pipeline.ts:295-311 | a hazard exists exactly when a source of the decoded instruction, other than `$0`, is the destination of the instruction in EX/MEM or MEM/WB |
| Pipelines.BubblesNeverStall | src/lib/simulator/pipeline.ts:289-311 | a bubble in ID/EX, or bubbles in both later latches, raise no hazard |
| Pipelines.CheckForwardingForRegister | src/lib/simulator/pipeline.ts:320-380 | a stall forwards nothing |
| Pipelines.ForwardedValueIsWrittenBack | src/lib/simulator/pipeline.ts:320-380 | EX/MEM is checked before MEM/WB; a load in EX/MEM stalls; otherwise the value forwarded is the one that stage will write back |
| Pipelines.TryForwardAllOrNothing | src/lib/simulator/pipeline.ts:389-435 | if either operand needs a stall nothing changes; otherwise each forwarded operand is replaced and counted once |
| Pipelines.ClockTick | src/lib/simulator/pipeline.ts:102-163 | a tick keeps the program and the forwarding setting |
| Pipelines.RunLoop | src/lib/simulator/pipeline.ts:69-90 | running keeps the program |
| Pipelines.StagesUsePreTickLatches | src/lib/simulator/pipeline.ts:102-113 | every stage reads the latches as they stood before the tick |
| Pipelines.WriteBackVisibleToDecode | src/lib/simulator/pipeline.ts:106-113 | a register written back in a cycle is read by decode in the same cycle |
| Pipelines.FailedTickKeepsControlState | src/lib/simulator/pipeline.ts:102-163 | a tick that throws leaves `pc`, latches and statistics unchanged |
| Pipelines.TickCountsCycles | src/lib/simulator/pipeline.ts:156-160 | each tick counts one cycle, and one finished instruction exactly when MEM/WB held a program instruction |
| Pipelines.TakenBranchFlushes | src/lib/simulator/pipeline.ts:115-128 | a taken branch flushes IF/ID and ID/EX, jumps to its own index plus its offset, and counts one misprediction |
| Pipelines.NoBranchNoFlush | src/lib/simulator/pipeline.ts:115-128 | without a taken branch no misprediction is counted |
| Pipelines.StallWithoutForwarding | src/lib/simulator/pipeline.ts:129-154 | without forwarding a hazard turns ID/EX into a bubble, keeps IF/ID and `pc`, and counts a stall; otherwise `pc` advances by one |
| Pipelines.StallWithForwarding | src/lib/simulator/pipeline.ts:129-154 | with forwarding a load-use stall behaves as a hazard does, and otherwise the forwarded operands are installed and `pc` advances |
| Pipelines.BubbleWritesNothing | src/lib/simulator/pipeline.ts:195-210 | writing back a bubble changes no register |
| Pipelines.EmptyLatchesFinished | src/lib/simulator/pipeline.ts:92-100 | with default latches the pipeline is finished exactly when `pc` is past the program |
| Pipelines.RunStopsWhereAsked | src/lib/simulator/pipeline.ts:69-90 | a run that ends stops because the pipeline finished or because the instruction at `pc` is the one asked for |
| Pipelines.WriteBackStage | src/lib/simulator/pipeline.ts:195-210 | write-back writes the register the specification names, and nothing if it throws |
| Pipelines.MemStage | src/lib/simulator/pipeline.ts:212-228 | the memory stage loads or stores as the specification says, and changes nothing if it throws |
| Pipelines.InstDecodeStage | src/lib/simulator/pipeline.ts:259-268 | decode reads the operand registers |
| Pipelines.InstFetchStage | src/lib/simulator/pipeline.ts:269-276 | fetch reads the instruction at `pc` |
| Pipelines.Pipeline.constructor | src/lib/simulator/pipeline.ts:47-61 | a new pipeline is reset: `pc` 0, zero registers and memory, default latches and zero statistics |
| Pipelines.Pipeline.Tick | src/lib/simulator/pipeline.ts:102-163 | one clock tick changes the state as the tick specification says |
| Pipelines.Pipeline.Install | src/lib/simulator/pipeline.ts:115-162 | the new latches, `pc` and statistics are installed as the branch and hazard rules say |
| Pipelines.Pipeline.IsFinished | src/lib/simulator/pipeline.ts:92-100 | finished exactly when the four latches and the instruction at `pc` carry no program index |
| Pipelines.Pipeline.ShouldContinue | src/lib/simulator/pipeline.ts:69-90 | a run goes on while not finished and the instruction at `pc` is not the one to stop at |
| Pipelines.Pipeline.TickUntil | src/lib/simulator/pipeline.ts:69-90 | `tick()` runs one cycle, and `tick(k)` runs as the run specification says |
| Pipelines.Pipeline.RunUntil | src/lib/simulator/pipeline.ts:69-90 | the loop runs as the run specification says |
| Pipelines.Pipeline.Reset | src/lib/simulator/pipeline.ts:165-178 | `pc`, registers, memory, latches and statistics are zeroed |
| Pipelines.Pipeline.ResetAll | src/lib/simulator/pipeline.ts:180-183 | reset, and the program emptied |
| Pipelines.Pipeline.SetIMem | src/lib/simulator/pipeline.ts:185-188 | reset, with the new program |
| Pipelines.Pipeline.SetForwarding | src/lib/simulator/pipeline.ts:190-193 | reset, with the new forwarding setting |
| LegacyPipelines.LegacyForwardWritesEvenWhenStalling | src/lib/simulator/pipline.ts:265-291 | the older forwarding writes operands found before reporting a stall |
| LegacyPipelines.LegacyForwardMatchesCurrent | src/lib/simulator/pipline.ts:265-291 | the older forwarding stalls exactly when the later one does, and installs the same latches |
| LegacyPipelines.LegacyClockTick | src/lib/simulator/pipline.ts:42-78 | an older tick keeps the register file and data memory at their sizes; LegacyTickAgreesWithCurrent gives its effect |
| LegacyPipelines.LegacyTickAgreesWithCurrent | src/lib/simulator/pipline.ts:42-78 | the older tick does what the later tick does, except that it keeps no statistics |
| LegacyPipelines.LegacyTakenBranchFlushes | src/lib/simulator/pipline.ts:42-78 | a taken branch flushes IF/ID and ID/EX and jumps to its target |
| LegacyPipelines.TickTimesAdd | src/lib/simulator/pipline.ts:36-40 | `a + b` ticks are `a` ticks followed by `b`, unless one throws |
| LegacyPipelines.LegacyPipeline.constructor | src/lib/simulator/pipline.ts:27-34 | a new older pipeline is reset |
| LegacyPipelines.LegacyPipeline.Tick | src/lib/simulator/pipline.ts:36-40 | `tick(n)` runs `n` ticks, stopping at the first that throws |
| LegacyPipelines.LegacyPipeline.TickOnce | src/lib/simulator/pipline.ts:42-78 | one older tick changes the state as its specification says |
| LegacyPipelines.LegacyPipeline.Install | src/lib/simulator/pipline.ts:50-78 | the new latches and `pc` are installed as the branch and hazard rules say |
| LegacyPipelines.LegacyPipeline.Reset | src/lib/simulator/pipline.ts:80-86 | `pc`, registers, memory and latches are zeroed |
| LegacyPipelines.LegacyPipeline.ResetAll | src/lib/simulator/pipline.ts:88-91 | reset, and the program emptied |
| LegacyPipelines.LegacyPipeline.SetIMem | src/lib/simulator/pipline.ts:93-96 | reset, with the new program |

## Left out

- `src/lib/simulator/basic-pipeline/pipeline.ts` is not part of this model. The stage-label helper therefore takes `pc` and the four latch instructions as parameters.
- Console output, the instruction-status and hazard/forwarding callbacks, and memory listeners are left out. Listener notification is reduced to the flag `SetAt` and `Reset` return.
- Floating point and NaN are left out. Values are unbounded integers. `DIV.D` divides with a `divide` parameter. A NaN register index in the classic parser is a parse error, and so is a `beqz` offset that is not a number, which `instruction.ts:105-106` would keep as NaN. A missing memory value in the memory stage is 0.
- Zod schema failures and JavaScript `undefined` operands are modelled as `Err` results. In the legacy engine, an issued destination outside `qi` leaves `qi` unchanged; it cannot arise, since decoded registers are below 48 and `qi` has 48 entries.
- `RegisterFile.getAt` and `setAt` also accept a register name. The model takes the index; the name form is `GetRegisterIndex` followed by the index form.
- Pipelines.RunLoop: `tick(-1)` and `tick(k)` loop without bound in the source. The model runs them with a `fuel` count, and a run that uses up its fuel reports so.
- TomasuloStep.StepKeepsInv: when a store to a bad address throws, the model proves only the station-and-tag part of the invariant, not the memory-queue part.
- The step counts the tests pin for particular programs are not proved: there are no end-to-end runs of concrete programs.
- Tomasulo.NextInst: assumes that reading past the end of the Tomasulo program throws a `NoMoreInstruction`, which `getNextInst` (`tomasulo/tomasulo.ts:662-673`) catches. `InstructionMemory.getInstructionAt` (`hardware/instruction-memory.ts:11-19`) takes no second argument and calls the memory's default there. The throwing default is not part of this model, so the model does not check what that default throws.
- `Memory.getSize`, `InstructionMemory.getSize` and `RegisterFile.getSize` are plain field reads. They are modelled as functions with no contract.
- The UI components and the test files are not part of this model.

## Findings

| source | as written | input that shows it | evidently intended | confidence | as-written member | corrected member |
|---|---|---|---|---|---|---|
| src/lib/simulator/tomasolu/tomasolu.ts:275 | issue sets `qi[dest]` without a guard, and a store is issued with `dest: 0`, so a store tags register 0 | `S.D $f4, 0($0)` followed by `L.D $f2, 0($0)`: the load waits on the store's tag, which never broadcasts | leave `qi` alone for a store or a zero destination, as `tomasulo.ts:396-398` does | not executed | LegacyTomasulo.ApplyIssueAsWritten, LegacyTomasuloProperties.StoreTagsRegisterZero | LegacyTomasuloProperties.StepAgreesUnlessZeroDest, LegacyTomasuloProperties.StepKeepsInv |
| src/lib/simulator/basic-pipeline/instruction.ts:307-315 | `mv` re-parses the text `$<rd>, $<rs>, 0` built from register numbers, and numeric names of two digits are rejected | `mv $t2, $t3` re-parses `$10, $11, 0` and fails | decode `mv rd, rs` as `addi rd, rs, 0` for every register | not executed | BasicInstructions.MoveAsWritten, BasicInstructionProperties.MoveAsWrittenRejectsT2 | BasicInstructions.MoveCorrected, BasicInstructionProperties.MoveIsAddi |

In both cases the model of the program runs the code as written, and the corrected definition sits beside it with the intended property proved.
