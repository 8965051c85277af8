/**
 * The in-order 5-stage pipeline (IF, ID, EX, MEM, WB) running the
 * `load`/`store`/`add`/`beqz` instruction set, with optional forwarding,
 * not-taken branch prediction and statistics counters.
 *
 * A clock tick computes the five stage outputs from the latches as they were
 * before the tick (write-back first, so decode sees the value written in the
 * same cycle), then resolves a taken branch or a data hazard, and finally
 * installs the new latches. `Tick` is the pure description of one clock tick
 * on a snapshot `PipeState`; the class `Pipeline` performs it in place and is
 * proved to agree with it.
 */
module Pipelines {
  import opened Wrappers
  import opened RegisterFiles
  import opened DataMemory
  import opened InstructionMemories
  import opened Instructions
  import opened PipelineRegisters

  datatype Statics = Statics(clockCycles: nat, finishedInsts: nat, dataHazardStalls: nat,
                             predictFails: nat, forwardCount: nat)

  function ZeroStatics(): Statics { Statics(0, 0, 0, 0, 0) }

  // ---------------------------------------------------------------------------
  // Hazard detection and forwarding

  /** Two register indices collide when both are present, equal, and not `$0`. */
  predicate RegIndexCollision(r1: Option<int>, r2: Option<int>) {
    if r1.None? || r2.None? then false
    else if r1.value != r2.value then false
    else if r1.value == 0 && r2.value == 0 then false
    else true
  }

  /** Collision is symmetric, and `$0` and absent indices never collide. */
  lemma CollisionFacts(r1: Option<int>, r2: Option<int>)
    ensures RegIndexCollision(r1, r2) == RegIndexCollision(r2, r1)
    ensures RegIndexCollision(r1, r2) <==> r1.Some? && r1 == r2 && r1.value != 0
  {
  }

  /**
   * The hazard check without forwarding: a source register of the instruction
   * entering EX is written by the instruction entering MEM or the one entering WB.
   */
  predicate CalculateHazards(regs: PipelineRegs) {
    var rs1 := Some(Rs1(regs.id2ex.inst));
    var rs2 := Rs2(regs.id2ex.inst);
    var memWriteReg := Rd(regs.ex2mem.inst);
    var wbWriteReg := Rd(regs.mem2wb.inst);
    RegIndexCollision(rs1, wbWriteReg) || RegIndexCollision(rs2, wbWriteReg)
    || RegIndexCollision(rs1, memWriteReg) || RegIndexCollision(rs2, memWriteReg)
  }

  /** The source registers an instruction reads: its first operand, and its second if any. */
  function Sources(inst: Instruction): set<int> {
    {Rs1(inst)} + (if Rs2(inst).Some? then {Rs2(inst).value} else {})
  }

  /** A hazard is a non-zero source register of ID/EX that EX/MEM or MEM/WB writes. */
  lemma HazardMeansSharedRegister(regs: PipelineRegs)
    ensures CalculateHazards(regs) <==>
      exists r :: r in Sources(regs.id2ex.inst) && r != 0
        && (Rd(regs.ex2mem.inst) == Some(r) || Rd(regs.mem2wb.inst) == Some(r))
  {
    var inst := regs.id2ex.inst;
    if CalculateHazards(regs) {
      if RegIndexCollision(Some(Rs1(inst)), Rd(regs.mem2wb.inst))
        || RegIndexCollision(Some(Rs1(inst)), Rd(regs.ex2mem.inst)) {
        assert Rs1(inst) in Sources(inst);
      } else {
        assert Rs2(inst).value in Sources(inst);
      }
    }
  }

  /** A bubble in ID/EX never stalls, and neither does one in both later latches. */
  lemma BubblesNeverStall(regs: PipelineRegs)
    ensures regs.id2ex.inst == Default() ==> !CalculateHazards(regs)
    ensures regs.ex2mem.inst == Default() && regs.mem2wb.inst == Default() ==> !CalculateHazards(regs)
  {
  }

  /** What forwarding finds for one source register: a stall, or possibly a value to use. */
  datatype Forwarding = Forwarding(needsStall: bool, data: Option<int>)

  /**
   * The forwarding decision for a source register: EX/MEM is checked before
   * MEM/WB; a load in EX/MEM has no value yet and stalls; an add in EX/MEM
   * forwards its ALU output; MEM/WB forwards the loaded word or the ALU result.
   */
  function CheckForwardingForRegister(source: Option<int>, regs: PipelineRegs): (f: Forwarding)
    ensures f.needsStall ==> f.data.None?
  {
    if RegIndexCollision(source, Rd(regs.ex2mem.inst)) then
      if regs.ex2mem.inst.LoadSave? then Forwarding(true, None)
      else Forwarding(false, Some(regs.ex2mem.aluOut))
    else if RegIndexCollision(source, Rd(regs.mem2wb.inst)) then
      if regs.mem2wb.inst.LoadSave? then Forwarding(false, Some(regs.mem2wb.mem))
      else if regs.mem2wb.inst.Arithmetic? then Forwarding(false, Some(regs.mem2wb.alu))
      else Forwarding(false, None)
    else Forwarding(false, None)
  }

  /**
   * The register and value the write-back stage writes for a MEM/WB latch:
   * a load writes the loaded word, an add its sum, the others nothing.
   */
  function WriteBackTarget(l: MemWb): Option<(int, int)> {
    match l.inst
    case LoadSave(_, r, _, kind, _, _) => if kind == Load then Some((r, l.mem)) else None
    case Arithmetic(_, _, rd, _, _) => Some((rd, l.alu))
    case Branch(_, _, _, _) => None
  }

  /**
   * Forwarding hands over exactly the value the producing instruction is about
   * to write back: from MEM/WB the value write-back writes now, from EX/MEM the
   * ALU output an add carries to write-back; it stalls exactly on a load in
   * EX/MEM that writes the register; with no producer it forwards nothing.
   */
  lemma ForwardedValueIsWrittenBack(source: Option<int>, regs: PipelineRegs)
    ensures var f := CheckForwardingForRegister(source, regs);
      && (f.needsStall <==> RegIndexCollision(source, Rd(regs.ex2mem.inst)) && regs.ex2mem.inst.LoadSave?)
      && (RegIndexCollision(source, Rd(regs.ex2mem.inst)) && !f.needsStall ==>
            regs.ex2mem.inst.Arithmetic? && f.data == Some(regs.ex2mem.aluOut)
            && WriteBackTarget(MemWb(regs.ex2mem.inst, 0, regs.ex2mem.aluOut)) == Some((source.value, f.data.value)))
      && (!RegIndexCollision(source, Rd(regs.ex2mem.inst)) && RegIndexCollision(source, Rd(regs.mem2wb.inst)) ==>
            f.data.Some? && WriteBackTarget(regs.mem2wb) == Some((source.value, f.data.value)))
      && (!RegIndexCollision(source, Rd(regs.ex2mem.inst)) && !RegIndexCollision(source, Rd(regs.mem2wb.inst)) ==>
            f == Forwarding(false, None))
  {
  }

  /** The outcome of `tryForward`: whether to stall, the latches afterwards, and the forwards made. */
  datatype ForwardResult = ForwardResult(hazard: bool, regs: PipelineRegs, forwarded: nat)

  /**
   * Forwarding into ID/EX, all or nothing: if either operand must stall,
   * nothing changes; otherwise each operand with a forwarded value takes it,
   * and each forward counts once. (The source updates the latch set being
   * built for the next cycle in place; here the updated set is returned.)
   */
  function TryForward(regs: PipelineRegs): ForwardResult {
    var r1 := CheckForwardingForRegister(Some(Rs1(regs.id2ex.inst)), regs);
    var r2 := CheckForwardingForRegister(Rs2(regs.id2ex.inst), regs);
    if r1.needsStall || r2.needsStall then ForwardResult(true, regs, 0)
    else
      var id1 := if r1.data.Some? then regs.id2ex.(reg1 := r1.data.value) else regs.id2ex;
      var id2 := if r2.data.Some? then id1.(reg2 := r2.data.value) else id1;
      ForwardResult(false, regs.(id2ex := id2), (if r1.data.Some? then 1 else 0) + (if r2.data.Some? then 1 else 0))
  }

  /**
   * `TryForward` stalls exactly when an operand depends on a load still in
   * EX/MEM, and then leaves the latches and the count alone; otherwise it
   * changes at most `reg1` and `reg2` of ID/EX, setting each to its forwarded
   * value, and counts one per forwarded operand.
   */
  lemma TryForwardAllOrNothing(regs: PipelineRegs)
    ensures var f := TryForward(regs);
      var ld := regs.ex2mem.inst.LoadSave?;
      && (f.hazard <==>
            ld && (RegIndexCollision(Some(Rs1(regs.id2ex.inst)), Rd(regs.ex2mem.inst))
                   || RegIndexCollision(Rs2(regs.id2ex.inst), Rd(regs.ex2mem.inst))))
      && (f.hazard ==> f.regs == regs && f.forwarded == 0)
      && (!f.hazard ==>
            var c1 := CheckForwardingForRegister(Some(Rs1(regs.id2ex.inst)), regs);
            var c2 := CheckForwardingForRegister(Rs2(regs.id2ex.inst), regs);
            && f.regs.mem2wb == regs.mem2wb && f.regs.ex2mem == regs.ex2mem && f.regs.if2id == regs.if2id
            && f.regs.id2ex.inst == regs.id2ex.inst && f.regs.id2ex.pc == regs.id2ex.pc
            && f.regs.id2ex.immediate == regs.id2ex.immediate
            && f.regs.id2ex.reg1 == (if c1.data.Some? then c1.data.value else regs.id2ex.reg1)
            && f.regs.id2ex.reg2 == (if c2.data.Some? then c2.data.value else regs.id2ex.reg2)
            && f.forwarded == |(if c1.data.Some? then {1} else {}) + (if c2.data.Some? then {2} else {})|)
  {
    ForwardedValueIsWrittenBack(Some(Rs1(regs.id2ex.inst)), regs);
    ForwardedValueIsWrittenBack(Rs2(regs.id2ex.inst), regs);
  }

  // ---------------------------------------------------------------------------
  // The five stages, on values

  /** WB: a load writes the loaded word to its register, an add its sum to `rd`. */
  function WriteBack(registers: seq<int>, l: MemWb): Result<seq<int>>
    requires |registers| == RegisterFileSize
  {
    match WriteBackTarget(l)
    case None => Ok(registers)
    case Some((r, v)) => Write(registers, r, v)
  }

  /**
   * MEM: a load reads the cell its ALU output addresses, a store writes its
   * data there; the ALU output passes on. (A non-load's `mem` is `NaN` in the
   * source and is never read; here it is 0.)
   */
  function MemAccess(memory: seq<int>, l: ExMem): Result<(MemWb, seq<int>)>
    requires |memory| == MemorySize
  {
    match l.inst
    case LoadSave(_, _, _, Load, _, _) =>
      var v :- DataMemory.Load(memory, l.aluOut);
      Ok((MemWb(l.inst, v, l.aluOut), memory))
    case LoadSave(_, _, _, Store, _, _) =>
      var m :- DataMemory.Store(memory, l.aluOut, Numeric(l.writeData));
      Ok((MemWb(l.inst, 0, l.aluOut), m))
    case _ => Ok((MemWb(l.inst, 0, l.aluOut), memory))
  }

  /** What EX produces, and whether a branch is taken. */
  datatype AluOutput = AluOutput(out: ExMem, shouldBranch: bool)

  /**
   * EX: an add sums its operands, a load or store adds the offset to the base,
   * a branch adds its offset to its own address; `beqz` is taken when its
   * register is 0.
   */
  function AluStage(l: IdEx): (r: AluOutput)
    ensures r.out.inst == l.inst && r.out.writeData == l.reg2
    ensures r.shouldBranch <==> l.inst.Branch? && l.reg1 == 0
    ensures l.inst.Arithmetic? ==> r.out.aluOut == l.reg1 + l.reg2
    ensures l.inst.LoadSave? ==> r.out.aluOut == l.reg1 + l.immediate
    ensures l.inst.Branch? ==> r.out.aluOut == l.pc + l.immediate
  {
    match l.inst
    case Arithmetic(_, _, _, _, _) => AluOutput(ExMem(l.inst, l.reg1 + l.reg2, l.reg2), false)
    case LoadSave(_, _, _, _, _, _) => AluOutput(ExMem(l.inst, l.reg1 + l.immediate, l.reg2), false)
    case Branch(_, _, _, _) => AluOutput(ExMem(l.inst, l.pc + l.immediate, l.reg2), l.reg1 == 0)
  }

  /** ID: reads the source registers (`$0` for a missing second one) and the immediate (0 if none). */
  function DecodeOperands(registers: seq<int>, l: IfId): Result<IdEx>
    requires |registers| == RegisterFileSize
  {
    var reg1 :- Read(registers, Rs1(l.inst));
    var reg2 :- Read(registers, if Rs2(l.inst).Some? then Rs2(l.inst).value else 0);
    Ok(IdEx(l.inst, reg1, reg2, l.pc, if Immediate(l.inst).Some? then Immediate(l.inst).value else 0))
  }

  /** IF: the instruction at `pc` (the bubble past the program's end), with its address. */
  function Fetch(program: seq<Instruction>, pc: int): Result<IfId> {
    var inst :- InstructionAt(program, Ok(Default()), pc);
    Ok(IfId(inst, pc))
  }

  // ---------------------------------------------------------------------------
  // One clock tick, on a snapshot of the whole pipeline

  datatype PipeState = PipeState(pc: int, registers: seq<int>, memory: seq<int>, program: seq<Instruction>,
                                 latches: PipelineRegs, forwarding: bool, statics: Statics)

  predicate WellSized(s: PipeState) {
    |s.registers| == RegisterFileSize && |s.memory| == MemorySize
  }

  /** The outputs of the five stages, computed from the latches before the tick. */
  datatype StageOutputs = StageOutputs(registers: seq<int>, memory: seq<int>,
                                       outcome: Result<(PipelineRegs, bool)>)

  /**
   * The stages in the order the source runs them; a stage that throws stops
   * the tick, keeping what write-back and the memory stage already changed.
   */
  function Stages(s: PipeState): (o: StageOutputs)
    requires WellSized(s)
    ensures |o.registers| == RegisterFileSize && |o.memory| == MemorySize
  {
    match WriteBack(s.registers, s.latches.mem2wb)
    case Err(e) => StageOutputs(s.registers, s.memory, Err(e))
    case Ok(registers) =>
      match MemAccess(s.memory, s.latches.ex2mem)
      case Err(e) => StageOutputs(registers, s.memory, Err(e))
      case Ok((mem2wb, memory)) =>
        var alu := AluStage(s.latches.id2ex);
        match DecodeOperands(registers, s.latches.if2id)
        case Err(e) => StageOutputs(registers, memory, Err(e))
        case Ok(id2ex) =>
          match Fetch(s.program, s.pc)
          case Err(e) => StageOutputs(registers, memory, Err(e))
          case Ok(if2id) =>
            StageOutputs(registers, memory, Ok((PipelineRegs(mem2wb, alu.out, id2ex, if2id), alu.shouldBranch)))
  }

  /** The statistics after a tick: one more cycle, and one more finished instruction if MEM/WB held one. */
  function CountCycle(st: Statics, retiring: Instruction): Statics {
    st.(clockCycles := st.clockCycles + 1,
        finishedInsts := st.finishedInsts + if retiring.originalIndex.Some? then 1 else 0)
  }

  /**
   * The end of a tick: a taken branch flushes IF/ID and ID/EX and redirects
   * `pc`; otherwise a data hazard (found by forwarding or by the plain check)
   * turns ID/EX into a bubble and holds IF/ID and `pc`; otherwise `pc` advances.
   */
  function Resolve(s: PipeState, regs: PipelineRegs, shouldBranch: bool): PipeState {
    var st := CountCycle(s.statics, s.latches.mem2wb.inst);
    if shouldBranch then
      s.(pc := regs.ex2mem.aluOut,
         latches := regs.(id2ex := DefaultIdEx(), if2id := DefaultIfId()),
         statics := st.(predictFails := st.predictFails + 1))
    else
      var f := if s.forwarding then TryForward(regs) else ForwardResult(CalculateHazards(regs), regs, 0);
      var st' := st.(forwardCount := st.forwardCount + f.forwarded);
      if f.hazard then
        s.(latches := f.regs.(id2ex := DefaultIdEx(), if2id := s.latches.if2id),
           statics := st'.(dataHazardStalls := st'.dataHazardStalls + 1))
      else
        s.(pc := s.pc + 1, latches := f.regs, statics := st')
  }

  datatype TickResult = TickResult(state: PipeState, outcome: Outcome)

  /** One clock tick (`_tick`). */
  function ClockTick(s: PipeState): (r: TickResult)
    requires WellSized(s)
    ensures WellSized(r.state)
    ensures r.state.program == s.program && r.state.forwarding == s.forwarding
  {
    var o := Stages(s);
    match o.outcome
    case Err(e) => TickResult(s.(registers := o.registers, memory := o.memory), Fail(e))
    case Ok((regs, shouldBranch)) =>
      TickResult(Resolve(s.(registers := o.registers, memory := o.memory), regs, shouldBranch), Pass)
  }

  /** Whether the pipeline has drained: no latch and the instruction at `pc` belong to the program. */
  function Finished(latches: PipelineRegs, program: seq<Instruction>, pc: int): Result<bool> {
    if latches.if2id.inst.originalIndex.None? && latches.id2ex.inst.originalIndex.None?
       && latches.ex2mem.inst.originalIndex.None? && latches.mem2wb.inst.originalIndex.None? then
      var inst :- InstructionAt(program, Ok(Default()), pc);
      Ok(inst.originalIndex.None?)
    else Ok(false)
  }

  /** How a run of ticks ended: normally, with an error thrown, or with its fuel used up. */
  datatype RunOutcome = Done | Threw(error: string) | OutOfFuel

  datatype RunResult = RunResult(state: PipeState, outcome: RunOutcome)

  /**
   * Whether `tick(stop)` runs another cycle: `-1` runs until finished, another
   * number until the instruction at `pc` is the program's instruction `stop`.
   */
  function KeepRunning(s: PipeState, stop: int): Result<bool> {
    if stop == -1 then
      var finished :- Finished(s.latches, s.program, s.pc);
      Ok(!finished)
    else
      var inst :- InstructionAt(s.program, Ok(Default()), s.pc);
      if inst.originalIndex == Some(stop) then Ok(false)
      else
        var finished :- Finished(s.latches, s.program, s.pc);
        Ok(!finished)
  }

  /** The loop of `tick(stop)`, allowed at most `fuel` cycles. */
  function RunLoop(s: PipeState, stop: int, fuel: nat): (r: RunResult)
    requires WellSized(s)
    ensures WellSized(r.state) && r.state.program == s.program
    decreases fuel, 0
  {
    match KeepRunning(s, stop)
    case Err(e) => RunResult(s, Threw(e))
    case Ok(false) => RunResult(s, Done)
    case Ok(true) =>
      if fuel == 0 then RunResult(s, OutOfFuel)
      else AfterTick(ClockTick(s), stop, fuel - 1)
  }

  /** The loop after one tick: stop if it threw, else go on with `fuel` cycles left. */
  function AfterTick(t: TickResult, stop: int, fuel: nat): (r: RunResult)
    requires WellSized(t.state)
    ensures WellSized(r.state) && r.state.program == t.state.program
    decreases fuel, 1
  {
    if t.outcome.Fail? then RunResult(t.state, Threw(t.outcome.error))
    else RunLoop(t.state, stop, fuel)
  }

  /** `tick(stopAt)`: one cycle when `stopAt` is absent, else the loop above. */
  function Run(s: PipeState, stopAt: Option<int>, fuel: nat): RunResult
    requires WellSized(s)
  {
    if stopAt.None? then
      var t := ClockTick(s);
      RunResult(t.state, if t.outcome.Pass? then Done else Threw(t.outcome.error))
    else RunLoop(s, stopAt.value, fuel)
  }

  /** The state `reset` leaves: `pc` 0, registers, memory and statistics zeroed, latches empty. */
  function ResetState(s: PipeState): PipeState {
    s.(pc := 0, registers := seq(RegisterFileSize, _ => 0), memory := seq(MemorySize, _ => 0),
       latches := DefaultPipelineRegs(), statics := ZeroStatics())
  }

  // ---------------------------------------------------------------------------
  // Properties of a clock tick

  /**
   * Every new latch is computed from the latches before the tick: MEM/WB from
   * EX/MEM, EX/MEM from ID/EX, ID/EX from IF/ID with the registers as
   * write-back left them, IF/ID from the instruction at `pc`.
   */
  lemma StagesUsePreTickLatches(s: PipeState)
    requires WellSized(s)
    requires Stages(s).outcome.Ok?
    ensures var (regs, shouldBranch) := Stages(s).outcome.value;
      var registers := WriteBack(s.registers, s.latches.mem2wb);
      && registers == Ok(Stages(s).registers)
      && regs.mem2wb.inst == s.latches.ex2mem.inst && regs.mem2wb.alu == s.latches.ex2mem.aluOut
      && AluStage(s.latches.id2ex) == AluOutput(regs.ex2mem, shouldBranch)
      && DecodeOperands(registers.value, s.latches.if2id) == Ok(regs.id2ex)
      && Fetch(s.program, s.pc) == Ok(regs.if2id)
  {
  }

  /** Write-back happens before decode: a register written back is read by decode in the same cycle. */
  lemma WriteBackVisibleToDecode(s: PipeState)
    requires WellSized(s)
    requires Stages(s).outcome.Ok?
    requires WriteBackTarget(s.latches.mem2wb).Some?
    requires var (r, _) := WriteBackTarget(s.latches.mem2wb).value; 0 < r < RegisterFileSize && Rs1(s.latches.if2id.inst) == r
    ensures Stages(s).outcome.value.0.id2ex.reg1 == WriteBackTarget(s.latches.mem2wb).value.1
  {
    var (r, v) := WriteBackTarget(s.latches.mem2wb).value;
    ReadAfterWrite(s.registers, r, v, r);
  }

  /** An unsuccessful tick leaves `pc`, the latches and the statistics as they were. */
  lemma FailedTickKeepsControlState(s: PipeState)
    requires WellSized(s)
    requires ClockTick(s).outcome.Fail?
    ensures var t := ClockTick(s).state;
      t.pc == s.pc && t.latches == s.latches && t.statics == s.statics
  {
  }

  /** Every successful tick counts one cycle, and one finished instruction iff MEM/WB held one. */
  lemma TickCountsCycles(s: PipeState)
    requires WellSized(s)
    requires ClockTick(s).outcome.Pass?
    ensures var t := ClockTick(s).state;
      && t.statics.clockCycles == s.statics.clockCycles + 1
      && (t.statics.finishedInsts == s.statics.finishedInsts + 1 <==> s.latches.mem2wb.inst.originalIndex.Some?)
      && (t.statics.finishedInsts == s.statics.finishedInsts <==> s.latches.mem2wb.inst.originalIndex.None?)
  {
  }

  /**
   * A taken branch: `beqz` in ID/EX with its register 0. The new IF/ID and
   * ID/EX become bubbles, `pc` becomes the branch's own address plus its
   * offset, `predictFails` grows by one, and no hazard is checked.
   */
  lemma TakenBranchFlushes(s: PipeState)
    requires WellSized(s)
    requires ClockTick(s).outcome.Pass?
    requires s.latches.id2ex.inst.Branch? && s.latches.id2ex.reg1 == 0
    ensures var t := ClockTick(s).state;
      var regs := Stages(s).outcome.value.0;
      && t.pc == s.latches.id2ex.pc + s.latches.id2ex.immediate
      && t.latches == regs.(id2ex := DefaultIdEx(), if2id := DefaultIfId())
      && t.statics.predictFails == s.statics.predictFails + 1
      && t.statics.dataHazardStalls == s.statics.dataHazardStalls
      && t.statics.forwardCount == s.statics.forwardCount
  {
  }

  /** A branch not taken, like any other instruction, predicts nothing wrong. */
  lemma NoBranchNoFlush(s: PipeState)
    requires WellSized(s)
    requires ClockTick(s).outcome.Pass?
    requires !(s.latches.id2ex.inst.Branch? && s.latches.id2ex.reg1 == 0)
    ensures ClockTick(s).state.statics.predictFails == s.statics.predictFails
    ensures !Stages(s).outcome.value.1
  {
  }

  /**
   * Without forwarding, and with no branch taken: the pipeline stalls iff a
   * source register of the new ID/EX collides with the destination of the new
   * EX/MEM or MEM/WB. A stall turns ID/EX into a bubble, keeps the old IF/ID
   * and `pc`, and counts one stall; otherwise the new latches are installed and
   * `pc` advances by one.
   */
  lemma StallWithoutForwarding(s: PipeState)
    requires WellSized(s) && !s.forwarding
    requires Stages(s).outcome.Ok? && !Stages(s).outcome.value.1
    ensures var t := ClockTick(s).state;
      var regs := Stages(s).outcome.value.0;
      && ClockTick(s).outcome.Pass?
      && (CalculateHazards(regs) ==>
            t.latches == regs.(id2ex := DefaultIdEx(), if2id := s.latches.if2id) && t.pc == s.pc
            && t.statics.dataHazardStalls == s.statics.dataHazardStalls + 1)
      && (!CalculateHazards(regs) ==>
            t.latches == regs && t.pc == s.pc + 1 && t.statics.dataHazardStalls == s.statics.dataHazardStalls)
      && t.statics.forwardCount == s.statics.forwardCount
  {
  }

  /**
   * With forwarding, and with no branch taken: the pipeline stalls iff an
   * operand needs a load still in EX/MEM, and then exactly as without
   * forwarding and with no forward counted; otherwise the forwarded operands
   * are installed, `pc` advances, and each forward is counted.
   */
  lemma StallWithForwarding(s: PipeState)
    requires WellSized(s) && s.forwarding
    requires Stages(s).outcome.Ok? && !Stages(s).outcome.value.1
    ensures var t := ClockTick(s).state;
      var regs := Stages(s).outcome.value.0;
      var f := TryForward(regs);
      && ClockTick(s).outcome.Pass?
      && (f.hazard ==>
            t.latches == regs.(id2ex := DefaultIdEx(), if2id := s.latches.if2id) && t.pc == s.pc
            && t.statics.dataHazardStalls == s.statics.dataHazardStalls + 1
            && t.statics.forwardCount == s.statics.forwardCount)
      && (!f.hazard ==>
            t.latches == f.regs && t.pc == s.pc + 1
            && t.statics.dataHazardStalls == s.statics.dataHazardStalls
            && t.statics.forwardCount == s.statics.forwardCount + f.forwarded)
  {
    TryForwardAllOrNothing(regs := Stages(s).outcome.value.0);
  }

  /** A bubble in MEM/WB writes only `$0`, which write-back ignores. */
  lemma BubbleWritesNothing(registers: seq<int>, l: MemWb)
    requires |registers| == RegisterFileSize
    requires l.inst == Default()
    ensures WriteBack(registers, l) == Ok(registers)
  {
  }

  /**
   * With every latch empty, the pipeline is finished exactly when the
   * instruction at `pc` is not one of the program's: past its end, below the
   * limit of 1000 addresses.
   */
  lemma EmptyLatchesFinished(program: seq<Instruction>, pc: int)
    requires forall k :: 0 <= k < |program| ==> program[k].originalIndex.Some?
    ensures 0 <= pc < AddressLimit ==> (Finished(DefaultPipelineRegs(), program, pc) == Ok(pc >= |program|))
    ensures !(0 <= pc < AddressLimit) ==> Finished(DefaultPipelineRegs(), program, pc).Err?
  {
  }

  /**
   * A run that ends normally stops where it should: `tick(-1)` when the
   * pipeline is finished, `tick(k)` when instruction `k` is about to be
   * fetched or the pipeline is finished.
   */
  lemma {:induction false} RunStopsWhereAsked(s: PipeState, stop: int, fuel: nat)
    requires WellSized(s)
    requires RunLoop(s, stop, fuel).outcome.Done?
    ensures var t := RunLoop(s, stop, fuel).state;
      || Finished(t.latches, t.program, t.pc) == Ok(true)
      || (stop != -1 && InstructionAt(t.program, Ok(Default()), t.pc).Ok?
          && InstructionAt(t.program, Ok(Default()), t.pc).value.originalIndex == Some(stop))
    decreases fuel, 0
  {
    if KeepRunning(s, stop) == Ok(true) {
      AfterTickStopsWhereAsked(ClockTick(s), stop, fuel - 1);
    }
  }

  lemma {:induction false} AfterTickStopsWhereAsked(t: TickResult, stop: int, fuel: nat)
    requires WellSized(t.state)
    requires AfterTick(t, stop, fuel).outcome.Done?
    ensures var u := AfterTick(t, stop, fuel).state;
      || Finished(u.latches, u.program, u.pc) == Ok(true)
      || (stop != -1 && InstructionAt(u.program, Ok(Default()), u.pc).Ok?
          && InstructionAt(u.program, Ok(Default()), u.pc).value.originalIndex == Some(stop))
    decreases fuel, 1
  {
    RunStopsWhereAsked(t.state, stop, fuel);
  }

  // ---------------------------------------------------------------------------
  // The five stages, on the register file, the data memory and the instruction memory

  /** WB on the register file. */
  method WriteBackStage(registerFile: RegisterFile, l: MemWb) returns (r: Outcome)
    requires registerFile.Valid()
    modifies registerFile.registers
    ensures WriteBack(old(registerFile.registers[..]), l)
      == if r.Pass? then Ok(registerFile.registers[..]) else Err(r.error)
    ensures r.Fail? ==> registerFile.registers[..] == old(registerFile.registers[..])
  {
    match l.inst {
      case LoadSave(_, registerIndex, _, kind, _, _) =>
        if kind == Load {
          r := registerFile.SetAt(registerIndex, l.mem);
        } else {
          r := Pass;
        }
      case Arithmetic(_, _, resultRegisterIndex, _, _) =>
        r := registerFile.SetAt(resultRegisterIndex, l.alu);
      case Branch(_, _, _, _) =>
        r := Pass;
    }
  }

  /** MEM on the data memory. */
  method MemStage(mem: Memory, l: ExMem) returns (r: Result<MemWb>)
    requires mem.Valid()
    modifies mem.memory
    ensures MemAccess(old(mem.memory[..]), l)
      == if r.Ok? then Ok((r.value, mem.memory[..])) else Err(r.error)
    ensures r.Err? ==> mem.memory[..] == old(mem.memory[..])
  {
    if l.inst.LoadSave? && l.inst.kind == Load {
      var v := mem.GetAt(l.aluOut);
      if v.Err? {
        return Err(v.error);
      }
      return Ok(MemWb(l.inst, v.value, l.aluOut));
    } else if l.inst.LoadSave? {
      var w := mem.SetAt(l.aluOut, Numeric(l.writeData));
      if w.Err? {
        return Err(w.error);
      }
    }
    return Ok(MemWb(l.inst, 0, l.aluOut));
  }

  /** ID on the register file. */
  method InstDecodeStage(registerFile: RegisterFile, l: IfId) returns (r: Result<IdEx>)
    requires registerFile.Valid()
    ensures r == DecodeOperands(registerFile.registers[..], l)
  {
    var reg1 := registerFile.GetAt(Rs1(l.inst));
    if reg1.Err? {
      return Err(reg1.error);
    }
    var reg2 := registerFile.GetAt(if Rs2(l.inst).Some? then Rs2(l.inst).value else 0);
    if reg2.Err? {
      return Err(reg2.error);
    }
    var immediate := if Immediate(l.inst).Some? then Immediate(l.inst).value else 0;
    return Ok(IdEx(l.inst, reg1.value, reg2.value, l.pc, immediate));
  }

  /** IF on the instruction memory. */
  method InstFetchStage(iMem: InstructionMemory<Instruction>, instIndex: int) returns (r: Result<IfId>)
    requires iMem.defaultInst == Ok(Default())
    ensures r == Fetch(iMem.instructions, instIndex)
  {
    var inst := iMem.GetInstructionAt(instIndex);
    if inst.Err? {
      return Err(inst.error);
    }
    return Ok(IfId(inst.value, instIndex));
  }

  /**
   * The five stages of `_tick` on the storage of a pipeline whose snapshot is
   * `s`, up to the new latches and whether a branch is taken.
   */
  method RunStages(registerFile: RegisterFile, mem: Memory, iMem: InstructionMemory<Instruction>,
                   latches: PipelineRegs, pc: int, ghost s: PipeState) returns (r: Result<(PipelineRegs, bool)>)
    requires registerFile.Valid() && mem.Valid() && registerFile.registers != mem.memory
    requires iMem.defaultInst == Ok(Default())
    requires s.pc == pc && s.latches == latches && s.program == iMem.instructions
    requires s.registers == registerFile.registers[..] && s.memory == mem.memory[..]
    modifies registerFile.registers, mem.memory
    ensures Stages(s) == StageOutputs(registerFile.registers[..], mem.memory[..], r)
  {
    var wb := WriteBackStage(registerFile, latches.mem2wb);
    if wb.Fail? {
      return Err(wb.error);
    }
    var mem2wb := MemStage(mem, latches.ex2mem);
    if mem2wb.Err? {
      return Err(mem2wb.error);
    }
    var alu := AluStage(latches.id2ex);
    var id2ex := InstDecodeStage(registerFile, latches.if2id);
    if id2ex.Err? {
      return Err(id2ex.error);
    }
    var if2id := InstFetchStage(iMem, pc);
    if if2id.Err? {
      return Err(if2id.error);
    }
    return Ok((PipelineRegs(mem2wb.value, alu.out, id2ex.value, if2id.value), alu.shouldBranch));
  }

  // ---------------------------------------------------------------------------
  // The pipeline object

  class Pipeline {
    /** The address of the next instruction to fetch, counted in instructions. */
    var pc: int
    const registerFile: RegisterFile
    var iMem: InstructionMemory<Instruction>
    const mem: Memory
    var pipelineRegs: PipelineRegs
    var forwarding: bool
    var statics: Statics

    ghost predicate Valid()
      reads this, registerFile, mem, iMem
    {
      registerFile.Valid() && mem.Valid() && registerFile.registers != mem.memory
      && iMem.defaultInst == Ok(Default())
    }

    ghost function State(): PipeState
      reads this, registerFile, registerFile.registers, mem, mem.memory, iMem
    {
      PipeState(pc, registerFile.registers[..], mem.memory[..], iMem.instructions, pipelineRegs, forwarding, statics)
    }

    constructor(iMem: InstructionMemory<Instruction>, forwarding: bool)
      requires iMem.defaultInst == Ok(Default())
      ensures Valid() && fresh(registerFile) && fresh(registerFile.registers) && fresh(mem) && fresh(mem.memory)
      ensures this.iMem == iMem
      ensures State() == ResetState(PipeState(0, [], [], iMem.instructions, DefaultPipelineRegs(), forwarding, ZeroStatics()))
    {
      pc := 0;
      registerFile := new RegisterFile();
      this.iMem := iMem;
      mem := new Memory();
      pipelineRegs := DefaultPipelineRegs();
      this.forwarding := forwarding;
      statics := ZeroStatics();
    }

    /** One clock tick (`_tick`): stages, then branch or hazard resolution, then the new latches. */
    method Tick() returns (r: Outcome)
      requires Valid()
      modifies this, registerFile.registers, mem.memory
      ensures Valid() && iMem == old(iMem)
      ensures ClockTick(old(State())) == TickResult(State(), r)
    {
      var stages := RunStages(registerFile, mem, iMem, pipelineRegs, pc, State());
      if stages.Err? {
        return Fail(stages.error);
      }
      var (newRegs, shouldBranch) := stages.value;
      Install(newRegs, shouldBranch);
      return Pass;
    }

    /** The end of `_tick`: a taken branch or a hazard, the statistics, and the new latches. */
    method Install(newRegs: PipelineRegs, shouldBranch: bool)
      requires Valid()
      modifies this
      ensures Valid() && iMem == old(iMem)
      ensures State() == Resolve(old(State()), newRegs, shouldBranch)
    {
      var latches := newRegs;
      var st := statics;
      if shouldBranch {
        st := st.(predictFails := st.predictFails + 1);
        latches := latches.(id2ex := DefaultIdEx(), if2id := DefaultIfId());
        pc := latches.ex2mem.aluOut;
      } else {
        var hazard;
        if forwarding {
          var f := TryForward(latches);
          hazard := f.hazard;
          latches := f.regs;
          st := st.(forwardCount := st.forwardCount + f.forwarded);
        } else {
          hazard := CalculateHazards(latches);
        }
        if hazard {
          st := st.(dataHazardStalls := st.dataHazardStalls + 1);
          latches := latches.(id2ex := DefaultIdEx(), if2id := pipelineRegs.if2id);
        } else {
          pc := pc + 1;
        }
      }
      st := st.(clockCycles := st.clockCycles + 1);
      if pipelineRegs.mem2wb.inst.originalIndex.Some? {
        st := st.(finishedInsts := st.finishedInsts + 1);
      }
      statics := st;
      pipelineRegs := latches;
    }

    method IsFinished() returns (r: Result<bool>)
      requires Valid()
      ensures r == Finished(pipelineRegs, iMem.instructions, pc)
    {
      if pipelineRegs.if2id.inst.originalIndex.None? && pipelineRegs.id2ex.inst.originalIndex.None?
         && pipelineRegs.ex2mem.inst.originalIndex.None? && pipelineRegs.mem2wb.inst.originalIndex.None? {
        var inst := iMem.GetInstructionAt(pc);
        if inst.Err? {
          return Err(inst.error);
        }
        return Ok(inst.value.originalIndex.None?);
      }
      return Ok(false);
    }

    /** The loop condition of `tick(stop)`. */
    method ShouldContinue(stop: int) returns (r: Result<bool>)
      requires Valid()
      ensures r == KeepRunning(State(), stop)
    {
      if stop != -1 {
        var inst := iMem.GetInstructionAt(pc);
        if inst.Err? {
          return Err(inst.error);
        }
        if inst.value.originalIndex == Some(stop) {
          return Ok(false);
        }
      }
      var finished := IsFinished();
      if finished.Err? {
        return Err(finished.error);
      }
      return Ok(!finished.value);
    }

    /**
     * `tick(stopAt)`: one cycle when `stopAt` is absent; with `-1`, cycles until
     * the pipeline is finished; otherwise cycles until instruction `stopAt` is
     * about to be fetched or the pipeline is finished. At most `fuel` cycles run.
     */
    method TickUntil(stopAt: Option<int>, fuel: nat) returns (r: RunOutcome)
      requires Valid()
      modifies this, registerFile.registers, mem.memory
      ensures Valid() && iMem == old(iMem)
      ensures Run(old(State()), stopAt, fuel) == RunResult(State(), r)
    {
      if stopAt.None? {
        var t := Tick();
        return if t.Pass? then Done else Threw(t.error);
      }
      r := RunUntil(stopAt.value, fuel);
    }

    /** The loop of `tick(stop)`, at most `fuel` cycles. */
    method RunUntil(stop: int, fuel: nat) returns (r: RunOutcome)
      requires Valid()
      modifies this, registerFile.registers, mem.memory
      ensures Valid() && iMem == old(iMem)
      ensures RunLoop(old(State()), stop, fuel) == RunResult(State(), r)
    {
      var left := fuel;
      while true
        invariant Valid() && iMem == old(iMem)
        invariant RunLoop(old(State()), stop, fuel) == RunLoop(State(), stop, left)
        decreases left
      {
        var more := ShouldContinue(stop);
        if more.Err? {
          return Threw(more.error);
        }
        if !more.value {
          return Done;
        }
        if left == 0 {
          return OutOfFuel;
        }
        ghost var before := State();
        assert RunLoop(before, stop, left) == AfterTick(ClockTick(before), stop, left - 1);
        var t := Tick();
        if t.Fail? {
          return Threw(t.error);
        }
        left := left - 1;
      }
    }

    method Reset()
      requires Valid()
      modifies this, registerFile.registers, mem.memory
      ensures Valid() && iMem == old(iMem)
      ensures State() == ResetState(old(State()))
    {
      pc := 0;
      registerFile.Reset();
      var _ := mem.Reset();
      pipelineRegs := DefaultPipelineRegs();
      statics := ZeroStatics();
    }

    /** `reset` and also empty the instruction memory. */
    method ResetAll()
      requires Valid()
      modifies this, registerFile.registers, mem.memory, iMem
      ensures Valid() && iMem == old(iMem)
      ensures State() == ResetState(old(State())).(program := [])
    {
      Reset();
      iMem.Reset();
    }

    method SetIMem(iMem: InstructionMemory<Instruction>)
      requires Valid() && iMem.defaultInst == Ok(Default())
      modifies this, registerFile.registers, mem.memory
      ensures Valid() && this.iMem == iMem
      ensures State() == ResetState(old(State())).(program := iMem.instructions)
    {
      Reset();
      this.iMem := iMem;
    }

    method SetForwarding(forwarding: bool)
      requires Valid()
      modifies this, registerFile.registers, mem.memory
      ensures Valid() && iMem == old(iMem)
      ensures State() == ResetState(old(State())).(forwarding := forwarding)
    {
      this.forwarding := forwarding;
      Reset();
    }
  }
}
