/**
 * The first version of the 5-stage pipeline: the same stages on the same
 * register file, data memory and instruction set as the current pipeline,
 * but with no statistics, forwarding chosen once at construction, a
 * `tryForward` that writes the forwarded operands even when it then asks for
 * a stall, and a `tick(n)` that simply runs `n` clock ticks.
 */
module LegacyPipelines {
  import opened Wrappers
  import opened RegisterFiles
  import opened DataMemory
  import opened InstructionMemories
  import opened Instructions
  import opened PipelineRegisters
  import opened Pipelines

  /** What the first `tryForward` returns: whether to stall, and the latches with the operands it forwarded. */
  datatype LegacyForward = LegacyForward(stall: bool, regs: PipelineRegs)

  /**
   * Forwarding into ID/EX as first written: each operand with a forwarded
   * value takes it, and the result says whether either operand must stall.
   */
  function LegacyTryForward(regs: PipelineRegs): LegacyForward {
    var r1 := CheckForwardingForRegister(Some(Rs1(regs.id2ex.inst)), regs);
    var r2 := CheckForwardingForRegister(Rs2(regs.id2ex.inst), regs);
    var id1 := if r1.data.Some? then regs.id2ex.(reg1 := r1.data.value) else regs.id2ex;
    var id2 := if r2.data.Some? then id1.(reg2 := r2.data.value) else id1;
    LegacyForward(r1.needsStall || r2.needsStall, regs.(id2ex := id2))
  }

  /**
   * The first `tryForward` stalls exactly when an operand needs a load still in
   * EX/MEM, and it writes every forwarded operand whether or not it stalls;
   * only `reg1` and `reg2` of ID/EX change.
   */
  lemma LegacyForwardWritesEvenWhenStalling(regs: PipelineRegs)
    ensures var f := LegacyTryForward(regs);
      var c1 := CheckForwardingForRegister(Some(Rs1(regs.id2ex.inst)), regs);
      var c2 := CheckForwardingForRegister(Rs2(regs.id2ex.inst), regs);
      && (f.stall <==>
            regs.ex2mem.inst.LoadSave? && (RegIndexCollision(Some(Rs1(regs.id2ex.inst)), Rd(regs.ex2mem.inst))
                                           || RegIndexCollision(Rs2(regs.id2ex.inst), Rd(regs.ex2mem.inst))))
      && f.regs.mem2wb == regs.mem2wb && f.regs.ex2mem == regs.ex2mem && f.regs.if2id == regs.if2id
      && f.regs.id2ex.inst == regs.id2ex.inst && f.regs.id2ex.pc == regs.id2ex.pc
      && f.regs.id2ex.immediate == regs.id2ex.immediate
      && f.regs.id2ex.reg1 == (if c1.data.Some? then c1.data.value else regs.id2ex.reg1)
      && f.regs.id2ex.reg2 == (if c2.data.Some? then c2.data.value else regs.id2ex.reg2)
  {
    ForwardedValueIsWrittenBack(Some(Rs1(regs.id2ex.inst)), regs);
    ForwardedValueIsWrittenBack(Rs2(regs.id2ex.inst), regs);
  }

  /**
   * The two versions of forwarding stall in the same cases, and once a stall
   * has replaced ID/EX with a bubble their latches are the same: the operands
   * the first version writes on a stall are never seen.
   */
  lemma LegacyForwardMatchesCurrent(regs: PipelineRegs, keep: IfId)
    ensures LegacyTryForward(regs).stall == TryForward(regs).hazard
    ensures !TryForward(regs).hazard ==> LegacyTryForward(regs).regs == TryForward(regs).regs
    ensures TryForward(regs).hazard ==>
      LegacyTryForward(regs).regs.(id2ex := DefaultIdEx(), if2id := keep)
      == TryForward(regs).regs.(id2ex := DefaultIdEx(), if2id := keep)
  {
    LegacyForwardWritesEvenWhenStalling(regs);
    TryForwardAllOrNothing(regs);
  }

  /**
   * The end of a first-version tick: a taken branch flushes IF/ID and ID/EX
   * and redirects `pc`; otherwise a hazard turns ID/EX into a bubble and holds
   * IF/ID and `pc`; otherwise `pc` advances. Nothing is counted.
   */
  function LegacyResolve(s: PipeState, regs: PipelineRegs, shouldBranch: bool): PipeState {
    if shouldBranch then
      s.(pc := regs.ex2mem.aluOut, latches := regs.(id2ex := DefaultIdEx(), if2id := DefaultIfId()))
    else
      var f := if s.forwarding then LegacyTryForward(regs) else LegacyForward(CalculateHazards(regs), regs);
      if f.stall then s.(latches := f.regs.(id2ex := DefaultIdEx(), if2id := s.latches.if2id))
      else s.(pc := s.pc + 1, latches := f.regs)
  }

  /** One clock tick of the first version (`_tick`). */
  function LegacyClockTick(s: PipeState): (r: TickResult)
    requires WellSized(s)
    ensures WellSized(r.state)
  {
    var o := Stages(s);
    match o.outcome
    case Err(e) => TickResult(s.(registers := o.registers, memory := o.memory), Fail(e))
    case Ok((regs, shouldBranch)) =>
      TickResult(LegacyResolve(s.(registers := o.registers, memory := o.memory), regs, shouldBranch), Pass)
  }

  /**
   * Apart from the statistics, which it does not keep, a first-version tick
   * does exactly what a tick of the current pipeline does, with or without
   * forwarding: same outcome, `pc`, latches, registers and memory.
   */
  lemma LegacyTickAgreesWithCurrent(s: PipeState)
    requires WellSized(s)
    ensures LegacyClockTick(s).outcome == ClockTick(s).outcome
    ensures LegacyClockTick(s).state == ClockTick(s).state.(statics := s.statics)
  {
    var o := Stages(s);
    if o.outcome.Ok? {
      var (regs, shouldBranch) := o.outcome.value;
      LegacyForwardMatchesCurrent(regs, s.latches.if2id);
    }
  }

  /**
   * A taken branch in the first version flushes IF/ID and ID/EX and sends
   * `pc` to the branch's own address plus its offset.
   */
  lemma LegacyTakenBranchFlushes(s: PipeState)
    requires WellSized(s)
    requires LegacyClockTick(s).outcome.Pass?
    requires s.latches.id2ex.inst.Branch? && s.latches.id2ex.reg1 == 0
    ensures var t := LegacyClockTick(s).state;
      var regs := Stages(s).outcome.value.0;
      t.pc == s.latches.id2ex.pc + s.latches.id2ex.immediate
      && t.latches == regs.(id2ex := DefaultIdEx(), if2id := DefaultIfId())
  {
    LegacyTickAgreesWithCurrent(s);
    TakenBranchFlushes(s);
  }

  /** `tick(n)`: `_tick` run `n` times (none for `n <= 0`), stopping at the first that throws. */
  function TickTimes(s: PipeState, n: int): (r: TickResult)
    requires WellSized(s)
    ensures WellSized(r.state)
    decreases if n > 0 then n else 0, 0
  {
    if n <= 0 then TickResult(s, Pass) else ThenTick(LegacyClockTick(s), n - 1)
  }

  /** After one tick: stop if it threw, else run `n` more. */
  function ThenTick(t: TickResult, n: int): (r: TickResult)
    requires WellSized(t.state)
    ensures WellSized(r.state)
    decreases if n > 0 then n else 0, 1
  {
    if t.outcome.Fail? then t else TickTimes(t.state, n)
  }

  /** Running `a` ticks and then `b` more is running `a + b` ticks. */
  lemma {:induction false} TickTimesAdd(s: PipeState, a: nat, b: nat)
    requires WellSized(s)
    ensures var first := TickTimes(s, a);
      TickTimes(s, a + b) == if first.outcome.Fail? then first else TickTimes(first.state, b)
    decreases a, 0
  {
    if a > 0 {
      ThenTickAdd(LegacyClockTick(s), a - 1, b);
    }
  }

  lemma {:induction false} ThenTickAdd(t: TickResult, a: nat, b: nat)
    requires WellSized(t.state)
    ensures var first := ThenTick(t, a);
      ThenTick(t, a + b) == if first.outcome.Fail? then first else TickTimes(first.state, b)
    decreases a, 1
  {
    if t.outcome.Pass? {
      TickTimesAdd(t.state, a, b);
    }
  }

  // ---------------------------------------------------------------------------
  // The pipeline object

  class LegacyPipeline {
    /** The address of the next instruction to fetch, counted in instructions. */
    var pc: int
    const registerFile: RegisterFile
    var iMem: InstructionMemory<Instruction>
    const mem: Memory
    var pipelineRegs: PipelineRegs
    const forwarding: bool

    ghost predicate Valid()
      reads this, registerFile, mem, iMem
    {
      registerFile.Valid() && mem.Valid() && registerFile.registers != mem.memory
      && iMem.defaultInst == Ok(Default())
    }

    /** The snapshot of this pipeline; it has no statistics, so they read as zero. */
    ghost function State(): PipeState
      reads this, registerFile, registerFile.registers, mem, mem.memory, iMem
    {
      PipeState(pc, registerFile.registers[..], mem.memory[..], iMem.instructions, pipelineRegs, forwarding,
                ZeroStatics())
    }

    constructor(iMem: InstructionMemory<Instruction>, forwarding: bool)
      requires iMem.defaultInst == Ok(Default())
      ensures Valid() && fresh(registerFile) && fresh(registerFile.registers) && fresh(mem) && fresh(mem.memory)
      ensures this.iMem == iMem
      ensures State() == ResetState(PipeState(0, [], [], iMem.instructions, DefaultPipelineRegs(), forwarding, ZeroStatics()))
    {
      pc := 0;
      registerFile := new RegisterFile();
      this.iMem := iMem;
      mem := new Memory();
      pipelineRegs := DefaultPipelineRegs();
      this.forwarding := forwarding;
    }

    /** `tick(nTimes)`: `nTimes` clock ticks, stopping at the first that throws. */
    method Tick(nTimes: int) returns (r: Outcome)
      requires Valid()
      modifies this, registerFile.registers, mem.memory
      ensures Valid() && iMem == old(iMem)
      ensures TickTimes(old(State()), nTimes) == TickResult(State(), r)
    {
      var i := 0;
      while i < nTimes
        invariant Valid() && iMem == old(iMem)
        invariant TickTimes(old(State()), nTimes) == TickTimes(State(), nTimes - i)
        decreases nTimes - i
      {
        var t := TickOnce();
        if t.Fail? {
          return t;
        }
        i := i + 1;
      }
      return Pass;
    }

    /** One clock tick (`_tick`). */
    method TickOnce() returns (r: Outcome)
      requires Valid()
      modifies this, registerFile.registers, mem.memory
      ensures Valid() && iMem == old(iMem)
      ensures LegacyClockTick(old(State())) == TickResult(State(), r)
    {
      var stages := RunStages(registerFile, mem, iMem, pipelineRegs, pc, State());
      if stages.Err? {
        return Fail(stages.error);
      }
      var (newRegs, shouldBranch) := stages.value;
      Install(newRegs, shouldBranch);
      return Pass;
    }

    /** The end of `_tick`: a taken branch or a hazard, then the new latches. */
    method Install(newRegs: PipelineRegs, shouldBranch: bool)
      requires Valid()
      modifies this
      ensures Valid() && iMem == old(iMem)
      ensures State() == LegacyResolve(old(State()), newRegs, shouldBranch)
    {
      var latches := newRegs;
      if shouldBranch {
        latches := latches.(id2ex := DefaultIdEx(), if2id := DefaultIfId());
        pc := latches.ex2mem.aluOut;
      } else {
        var hazard;
        if forwarding {
          var f := LegacyTryForward(latches);
          hazard := f.stall;
          latches := f.regs;
        } else {
          hazard := CalculateHazards(latches);
        }
        if hazard {
          latches := latches.(id2ex := DefaultIdEx(), if2id := pipelineRegs.if2id);
        } else {
          pc := pc + 1;
        }
      }
      pipelineRegs := latches;
    }

    method Reset()
      requires Valid()
      modifies this, registerFile.registers, mem.memory
      ensures Valid() && iMem == old(iMem)
      ensures State() == ResetState(old(State()))
    {
      pc := 0;
      registerFile.Reset();
      var _ := mem.Reset();
      pipelineRegs := DefaultPipelineRegs();
    }

    /** `reset` and also empty the instruction memory. */
    method ResetAll()
      requires Valid()
      modifies this, registerFile.registers, mem.memory, iMem
      ensures Valid() && iMem == old(iMem)
      ensures State() == ResetState(old(State())).(program := [])
    {
      Reset();
      iMem.Reset();
    }

    method SetIMem(iMem: InstructionMemory<Instruction>)
      requires Valid() && iMem.defaultInst == Ok(Default())
      modifies this, registerFile.registers, mem.memory
      ensures Valid() && this.iMem == iMem
      ensures State() == ResetState(old(State())).(program := iMem.instructions)
    {
      Reset();
      this.iMem := iMem;
    }
  }
}
