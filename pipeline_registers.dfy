/**
 * The latches between the stages of the 5-stage pipeline: IF/ID, ID/EX,
 * EX/MEM and MEM/WB, each holding the instruction in flight and the values
 * computed for it so far.
 */
module PipelineRegisters {
  import opened Wrappers
  import opened Instructions

  /** MEM/WB: the loaded word and the ALU result. */
  datatype MemWb = MemWb(inst: Instruction, mem: int, alu: int)

  /** EX/MEM: the ALU result (a sum, an address or a branch target) and the word a store writes. */
  datatype ExMem = ExMem(inst: Instruction, aluOut: int, writeData: int)

  /** ID/EX: the two register operands, the instruction's address and its immediate. */
  datatype IdEx = IdEx(inst: Instruction, reg1: int, reg2: int, pc: int, immediate: int)

  /** IF/ID: the fetched instruction and its address. */
  datatype IfId = IfId(inst: Instruction, pc: int)

  datatype PipelineRegs = PipelineRegs(mem2wb: MemWb, ex2mem: ExMem, id2ex: IdEx, if2id: IfId)

  function DefaultMemWb(): MemWb { MemWb(Default(), 0, 0) }
  function DefaultExMem(): ExMem { ExMem(Default(), 0, 0) }
  function DefaultIdEx(): IdEx { IdEx(Default(), 0, 0, 0, 0) }
  function DefaultIfId(): IfId { IfId(Default(), 0) }

  /** Every latch holding a bubble and zeros: the state of an empty pipeline. */
  function DefaultPipelineRegs(): PipelineRegs {
    PipelineRegs(DefaultMemWb(), DefaultExMem(), DefaultIdEx(), DefaultIfId())
  }

  /** The instructions in flight, from IF/ID to MEM/WB. */
  function InFlight(regs: PipelineRegs): seq<Instruction> {
    [regs.if2id.inst, regs.id2ex.inst, regs.ex2mem.inst, regs.mem2wb.inst]
  }

  /** No latch holds an instruction of the program. */
  predicate Drained(regs: PipelineRegs) {
    forall k :: 0 <= k < 4 ==> InFlight(regs)[k].originalIndex.None?
  }

  /**
   * The default latch set is drained, every latch holds the bubble
   * `add $0, $0, $0`, and every number in it is 0.
   */
  lemma DefaultRegsEmpty()
    ensures Drained(DefaultPipelineRegs())
    ensures forall k :: 0 <= k < 4 ==> InFlight(DefaultPipelineRegs())[k] == Default()
    ensures var d := DefaultPipelineRegs();
      d.mem2wb.mem == 0 && d.mem2wb.alu == 0 && d.ex2mem.aluOut == 0 && d.ex2mem.writeData == 0
      && d.id2ex.reg1 == 0 && d.id2ex.reg2 == 0 && d.id2ex.pc == 0 && d.id2ex.immediate == 0
      && d.if2id.pc == 0
  {
    var d := DefaultPipelineRegs();
    assert InFlight(d) == [Default(), Default(), Default(), Default()];
  }
}
