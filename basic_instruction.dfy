/**
 * The instruction set of the five-stage pipeline with control signals: an
 * opcode table mapping each supported opcode to a decoder that reads its
 * operands and fixes the control signals the datapath runs it with (ALU
 * inputs and operation, memory write, write-back source, register write and
 * the branch condition), including the pseudo-instructions `li`, `nop`, `mv`
 * and `j`; decoding goes through the shared two-pass assembler.
 */
module BasicInstructions {
  import opened Wrappers
  import opened Text
  import opened RegisterFiles
  import opened InstructionMemories
  import opened InstructionParse

  datatype AluOp = AddOp | SubOp | AndOp | OrOp | XorOp | SllOp | SrlOp | SraOp

  /** The ALU's first input: the first register operand or `pc`. */
  datatype ASel = Reg1A | PcA

  /** The ALU's second input: the second register operand or the immediate. */
  datatype BSel = Reg2B | ImmediateB

  /** What write-back writes: the ALU result or the word read from memory. */
  datatype WbSel = AluWb | MemWb

  /** A branch controller, the predicate on `(reg1, reg2)` deciding whether the branch is taken. */
  datatype Condition = Never | Always | Equal | NotEqual | Greater | GreaterEqual | Less | LessEqual

  /** Whether a branch with controller `c` is taken on the operand values `reg1` and `reg2`. */
  function Taken(c: Condition, reg1: int, reg2: int): bool {
    match c
    case Never => false
    case Always => true
    case Equal => reg1 == reg2
    case NotEqual => reg1 != reg2
    case Greater => reg1 > reg2
    case GreaterEqual => reg1 >= reg2
    case Less => reg1 < reg2
    case LessEqual => reg1 <= reg2
  }

  datatype ControlSignals = ControlSignals(branchController: Condition, aSel: ASel, bSel: BSel, aluOp: AluOp,
                                           memWriteEnable: bool, wbSel: WbSel, regWriteEnable: bool)

  /** What the decoders add to an instruction: the opcode it executes as and its control signals. */
  datatype Ctrl = Ctrl(instType: string, controlSignals: ControlSignals)

  type Inst5 = Inst<Ctrl>

  const SupportedInstructions: seq<string> := [
    "add", "addi", "sub", "and", "andi", "or", "ori", "xor", "xori", "sll", "slli", "srl", "srli", "sra", "srai",
    "lw", "sw",
    "beq", "bne", "bgt", "bge", "blt", "ble",
    "beqz", "bnez", "li", "nop", "mv", "j"
  ]

  // ---------------------------------------------------------------------------
  // The opcode table

  /** Register-register (`add rd, rs1, rs2`) or register-immediate (`addi rd, rs1, imm`). */
  datatype Shape = RShape | IShape

  /** The arithmetic entries of the table: each name with its shape and ALU operation. */
  function ArithmeticEntry(name: string): Option<(Shape, AluOp)> {
    if name == "add" then Some((RShape, AddOp))
    else if name == "sub" then Some((RShape, SubOp))
    else if name == "addi" then Some((IShape, AddOp))
    else if name == "and" then Some((RShape, AndOp))
    else if name == "andi" then Some((IShape, AndOp))
    else if name == "or" then Some((RShape, OrOp))
    else if name == "ori" then Some((IShape, OrOp))
    else if name == "xor" then Some((RShape, XorOp))
    else if name == "xori" then Some((IShape, XorOp))
    else if name == "sll" then Some((RShape, SllOp))
    else if name == "slli" then Some((IShape, SllOp))
    else if name == "srl" then Some((RShape, SrlOp))
    else if name == "srli" then Some((IShape, SrlOp))
    else if name == "sra" then Some((RShape, SraOp))
    else if name == "srai" then Some((IShape, SraOp))
    else None
  }

  /** The decoder an opcode is mapped to. */
  datatype Handler =
    | Arith(shape: Shape, aluOp: AluOp)
    | BranchZero(zeroCondition: Condition)
    | BranchTwo(condition: Condition)
    | LoadWord
    | StoreWord
    | LoadImmediate
    | NoOperation
    | Move
    | Jump

  /** `getParsers`: the table from opcode to decoder; an opcode it lacks has none. */
  function HandlerFor(op: string): Option<Handler> {
    match ArithmeticEntry(op)
    case Some((shape, aluOp)) => Some(Arith(shape, aluOp))
    case None =>
      if op == "beqz" then Some(BranchZero(Equal))
      else if op == "bnez" then Some(BranchZero(NotEqual))
      else if op == "beq" then Some(BranchTwo(Equal))
      else if op == "bne" then Some(BranchTwo(NotEqual))
      else if op == "bgt" then Some(BranchTwo(Greater))
      else if op == "bge" then Some(BranchTwo(GreaterEqual))
      else if op == "blt" then Some(BranchTwo(Less))
      else if op == "ble" then Some(BranchTwo(LessEqual))
      else if op == "lw" then Some(LoadWord)
      else if op == "sw" then Some(StoreWord)
      else if op == "li" then Some(LoadImmediate)
      else if op == "nop" then Some(NoOperation)
      else if op == "mv" then Some(Move)
      else if op == "j" then Some(Jump)
      else None
  }

  // ---------------------------------------------------------------------------
  // The decoders

  function RTypeSignals(aluOp: AluOp): ControlSignals {
    ControlSignals(Never, Reg1A, Reg2B, aluOp, false, AluWb, true)
  }

  function ITypeSignals(aluOp: AluOp): ControlSignals {
    ControlSignals(Never, Reg1A, ImmediateB, aluOp, false, AluWb, true)
  }

  function BranchSignals(c: Condition): ControlSignals {
    ControlSignals(c, PcA, ImmediateB, AddOp, false, AluWb, false)
  }

  const LoadSignals: ControlSignals := ControlSignals(Never, Reg1A, ImmediateB, AddOp, false, MemWb, true)
  const StoreSignals: ControlSignals := ControlSignals(Never, Reg1A, ImmediateB, AddOp, true, AluWb, false)
  const NopSignals: ControlSignals := ControlSignals(Never, Reg1A, Reg2B, AddOp, false, AluWb, false)

  /** `getArithmeticRInst`: `rd, rs1, rs2`. */
  function ArithmeticRInst(raw: string, remaining: string, aluOp: AluOp, instType: string): Result<Decoded<Ctrl>> {
    var (rs1, rs2, rd) :- ParseRType(remaining);
    Ok(Decoded(Ctrl(instType, RTypeSignals(aluOp)), (Some(rs1), Some(rs2)), Some(rd), None, raw))
  }

  /** `getArithmeticIInst`: `rd, rs1, imm`, the immediate possibly a label. */
  function ArithmeticIInst(raw: string, remaining: string, aluOp: AluOp, instType: string): Result<Decoded<Ctrl>> {
    var (rs1, rd, imm) :- ParseIType(remaining);
    Ok(Decoded(Ctrl(instType, ITypeSignals(aluOp)), (Some(rs1), None), Some(rd), Some(imm), raw))
  }

  /**
   * `getBranchInst`: the operands of `parsed`, in the order the I-type parser
   * returns them, are put back in source order.
   */
  function BranchInst(raw: string, parsed: (int, int, Imm), c: Condition, instType: string): Decoded<Ctrl> {
    Decoded(Ctrl(instType, BranchSignals(c)), (Some(parsed.1), Some(parsed.0)), None, Some(parsed.2), raw)
  }

  /**
   * `mv rd, rs` as written: both registers read, then the text
   * `$<rd>, $<rs>, 0` handed to the `addi` decoder, which reads the numbers
   * back as register names.
   */
  function MoveAsWritten(raw: string, remaining: string): Result<Decoded<Ctrl>> {
    var args := Args(remaining);
    if |args| != 2 then Err("Invalid number of arguments")
    else
      var rs1 :- GetRegisterIndex(args[1]);
      var rd :- GetRegisterIndex(args[0]);
      ArithmeticIInst(raw, "$" + IntToString(rd) + ", $" + IntToString(rs1) + ", 0", AddOp, "addi")
  }

  /** `mv rd, rs` as intended: `addi rd, rs, 0` built from the registers read. */
  function MoveCorrected(raw: string, remaining: string): Result<Decoded<Ctrl>> {
    var args := Args(remaining);
    if |args| != 2 then Err("Invalid number of arguments")
    else
      var rs1 :- GetRegisterIndex(args[1]);
      var rd :- GetRegisterIndex(args[0]);
      Ok(Decoded(Ctrl("addi", ITypeSignals(AddOp)), (Some(rs1), None), Some(rd), Some(Num(0)), raw))
  }

  /** Runs the decoder `h` on the operands of opcode `op`. */
  function RunHandler(h: Handler, op: string, raw: string, remaining: string): Result<Decoded<Ctrl>> {
    match h
    case Arith(shape, aluOp) =>
      if shape == RShape then ArithmeticRInst(raw, remaining, aluOp, op) else ArithmeticIInst(raw, remaining, aluOp, op)
    case BranchZero(c) =>
      var (r, imm) :- ParseBzType(remaining);
      Ok(BranchInst(raw, (0, r, imm), c, op))
    case BranchTwo(c) =>
      var parsed :- ParseIType(remaining);
      Ok(BranchInst(raw, parsed, c, op))
    case LoadWord =>
      var (rs1, rd, imm) :- ParseMemType(remaining);
      Ok(Decoded(Ctrl("lw", LoadSignals), (Some(rs1), None), Some(rd), Some(Num(imm)), raw))
    case StoreWord =>
      var (rs1, rd, imm) :- ParseMemType(remaining);
      Ok(Decoded(Ctrl("sw", StoreSignals), (Some(rs1), Some(rd)), None, Some(Num(imm)), raw))
    case LoadImmediate =>
      var (r, imm) :- ParseBzType(remaining);
      Ok(Decoded(Ctrl("addi", ITypeSignals(AddOp)), (Some(0), None), Some(r), Some(imm), raw))
    case NoOperation =>
      Ok(Decoded(Ctrl("add", NopSignals), (Some(0), Some(0)), Some(0), None, raw))
    case Move =>
      MoveAsWritten(raw, remaining)
    case Jump =>
      var args := Args(remaining);
      if |args| != 1 then Err("Invalid number of arguments")
      else Ok(Decoded(Ctrl("beq", BranchSignals(Always)), (Some(0), Some(0)), None, Some(ImmOrLabel(args[0])), raw))
  }

  /** The parser `parseInsts5Stage` hands to the assembler: the opcode's decoder, or an error for an unknown opcode. */
  function Decode5(op: string, remaining: string, raw: string): Result<Decoded<Ctrl>> {
    match HandlerFor(op)
    case None => Err("Unsupported instruction: " + op)
    case Some(h) => RunHandler(h, op, raw, remaining)
  }

  /** `parseInsts5Stage`: both assembler passes with this instruction set's decoders. */
  function ParseInsts5Stage(lines: seq<string>): Result<seq<Inst5>> {
    Assemble(lines, Decode5)
  }

  /** `getDefaultInst`: a NOP that is no instruction of the program and writes nothing. */
  function DefaultInst(): (d: Inst5)
    ensures d.originalIndex.None? && !d.kind.controlSignals.regWriteEnable && !d.kind.controlSignals.memWriteEnable
    ensures d.rd == Some(0) && d.rs == (Some(0), Some(0))
  {
    Inst(Ctrl("add", NopSignals), (Some(0), Some(0)), Some(0), None, "add $0, $0, $0 #NOP", None)
  }

  /** `getIMem5Stage`: the program split into lines and assembled; reading past its end gives the NOP. */
  method GetIMem5Stage(raw: string) returns (r: Result<InstructionMemory<Inst5>>)
    ensures r.Err? <==> ParseInsts5Stage(Split(raw, '\n')).Err?
    ensures r.Ok? ==> fresh(r.value) && r.value.instructions == ParseInsts5Stage(Split(raw, '\n')).value
    ensures r.Ok? ==> r.value.defaultInst == Ok(DefaultInst())
  {
    var insts := ParseInsts5Stage(Split(raw, '\n'));
    if insts.Err? {
      return Err(insts.error);
    }
    var imem := new InstructionMemory(insts.value, Ok(DefaultInst()));
    return Ok(imem);
  }
}
