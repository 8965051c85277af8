/**
 * The Tomasulo engine's instruction set: `L.D` and `S.D` with an
 * `offset(base)` address, and the floating-point `ADD.D`, `SUB.D`, `MUL.D`
 * and `DIV.D` on three registers, assembled by the shared two-pass assembler.
 */
module TomasuloInstructions {
  import opened Wrappers
  import opened Text
  import opened RegisterFiles
  import opened InstructionMemories
  import opened InstructionParse

  datatype TomaOp = LD | SD | ADDD | SUBD | MULD | DIVD

  /** The opcode as written in a program. */
  function OpName(op: TomaOp): string {
    match op
    case LD => "L.D"
    case SD => "S.D"
    case ADDD => "ADD.D"
    case SUBD => "SUB.D"
    case MULD => "MUL.D"
    case DIVD => "DIV.D"
  }

  /** The enumeration check on the opcode: one of the six names, else an error naming it. */
  function ParseOp(s: string): Result<TomaOp> {
    if s == "L.D" then Ok(LD)
    else if s == "S.D" then Ok(SD)
    else if s == "ADD.D" then Ok(ADDD)
    else if s == "SUB.D" then Ok(SUBD)
    else if s == "MUL.D" then Ok(MULD)
    else if s == "DIV.D" then Ok(DIVD)
    else Err("Invalid enum value. Expected 'L.D' | 'S.D' | 'ADD.D' | 'SUB.D' | 'MUL.D' | 'DIV.D', received '" + s + "'")
  }

  /** Exactly the six names are accepted, each as the opcode it names. */
  lemma ParseOpAccepts(s: string)
    ensures ParseOp(s).Ok? <==> exists op :: OpName(op) == s
    ensures ParseOp(s).Ok? ==> OpName(ParseOp(s).value) == s
  {
    if ParseOp(s).Ok? {
      var op := ParseOp(s).value;
      assert OpName(op) == s;
    } else {
      forall op: TomaOp
        ensures OpName(op) != s
      {
        OpNameRoundTrip(op);
      }
    }
  }

  /** Every opcode's name is accepted as that opcode. */
  lemma OpNameRoundTrip(op: TomaOp)
    ensures ParseOp(OpName(op)) == Ok(op)
  {
  }

  /**
   * One instruction: `L.D rd, imm(base)` reads `base`; `S.D data, imm(base)`
   * reads `base` and `data` and writes nothing; the others are `OP rd, a, b`.
   */
  function ParseToma(opText: string, remaining: string, raw: string): Result<Decoded<TomaOp>> {
    var op :- ParseOp(opText);
    DecodeOperands(op, remaining, raw)
  }

  /**
   * The operands of `op`, in the shape its opcode demands: a load writes `rd`
   * from memory at `imm(base)` and reads only `base`; a store reads `base`
   * and the data register and writes no register; an arithmetic operation
   * reads two registers, writes one and has no immediate. Every register
   * named is one of the 48.
   */
  function DecodeOperands(op: TomaOp, remaining: string, raw: string): (r: Result<Decoded<TomaOp>>)
    ensures r.Ok? ==> var d := r.value;
      d.kind == op && d.raw == raw && d.rs.0.Some? && InRange(d.rs.0.value)
      && (op == LD ==> d.rs.1.None? && d.rd.Some? && d.immediate.Some? && d.immediate.value.Num?)
      && (op == SD ==> d.rs.1.Some? && d.rd.None? && d.immediate.Some? && d.immediate.value.Num?)
      && (op != LD && op != SD ==> d.rs.1.Some? && d.rd.Some? && d.immediate.None?)
      && (d.rs.1.Some? ==> InRange(d.rs.1.value))
      && (d.rd.Some? ==> InRange(d.rd.value))
  {
    if op == LD then
      var (rs1, rd, imm) :- ParseMemType(remaining);
      Ok(Decoded(op, (Some(rs1), None), Some(rd), Some(Num(imm)), raw))
    else if op == SD then
      var (rs1, rs2, imm) :- ParseMemType(remaining);
      Ok(Decoded(op, (Some(rs1), Some(rs2)), None, Some(Num(imm)), raw))
    else
      var (rs1, rs2, rd) :- ParseRType(remaining);
      Ok(Decoded(op, (Some(rs1), Some(rs2)), Some(rd), None, raw))
  }

  type InstToma = Inst<TomaOp>

  /** `parseInstsToma`: both assembler passes with this instruction set's parser. */
  function ParseInstsToma(lines: seq<string>): Result<seq<InstToma>> {
    Assemble(lines, ParseToma)
  }

  const NoDefaultError: string := "Should not be called, tomasulo does not need to insert default instructions"

  /** `getIMemToma`: the program split into lines and assembled; reading past its end throws. */
  method GetIMemToma(raw: string) returns (r: Result<InstructionMemory<InstToma>>)
    ensures r.Err? <==> ParseInstsToma(Split(raw, '\n')).Err?
    ensures r.Ok? ==> fresh(r.value) && r.value.instructions == ParseInstsToma(Split(raw, '\n')).value
    ensures r.Ok? ==> r.value.defaultInst == Err(NoDefaultError)
  {
    var insts := ParseInstsToma(Split(raw, '\n'));
    if insts.Err? {
      return Err(insts.error);
    }
    var imem := new InstructionMemory(insts.value, Err(NoDefaultError));
    return Ok(imem);
  }

  // ---------------------------------------------------------------------------
  // Properties

  /** An accepted instruction's operation is the one its opcode names. */
  lemma ParseTomaOpcode(opText: string, remaining: string, raw: string)
    ensures var r := ParseToma(opText, remaining, raw);
      r.Ok? ==> OpName(r.value.kind) == opText
    ensures ParseOp(opText).Err? ==> ParseToma(opText, remaining, raw).Err?
  {
    ParseOpAccepts(opText);
  }

  /** `L.D rd, imm(base)` with register names: base read, `rd` written, offset `imm`. */
  lemma LoadForm(rd: string, imm: int, base: string, raw: string)
    requires Operand(rd) && Operand(base)
    requires GetRegisterIndex(rd).Ok? && GetRegisterIndex(base).Ok?
    ensures ParseToma("L.D", rd + ", " + (IntToString(imm) + "(" + base + ")"), raw) ==
      Ok(Decoded(LD, (Some(GetRegisterIndex(base).value), None), Some(GetRegisterIndex(rd).value), Some(Num(imm)), raw))
  {
    MemTypeRoundTrip(rd, imm, base);
  }

  /** `S.D data, imm(base)`: `base` and `data` read, no register written. */
  lemma StoreForm(data: string, imm: int, base: string, raw: string)
    requires Operand(data) && Operand(base)
    requires GetRegisterIndex(data).Ok? && GetRegisterIndex(base).Ok?
    ensures ParseToma("S.D", data + ", " + (IntToString(imm) + "(" + base + ")"), raw) ==
      Ok(Decoded(SD, (Some(GetRegisterIndex(base).value), Some(GetRegisterIndex(data).value)), None, Some(Num(imm)), raw))
  {
    MemTypeRoundTrip(data, imm, base);
  }

  /** `OP rd, a, b` for the four arithmetic operations: `a` and `b` read, `rd` written. */
  lemma ArithmeticForm(op: TomaOp, rd: string, a: string, b: string, raw: string)
    requires op != LD && op != SD
    requires Operand(rd) && Operand(a) && Operand(b)
    requires GetRegisterIndex(rd).Ok? && GetRegisterIndex(a).Ok? && GetRegisterIndex(b).Ok?
    ensures ParseToma(OpName(op), rd + ", " + a + ", " + b, raw) ==
      Ok(Decoded(op, (Some(GetRegisterIndex(a).value), Some(GetRegisterIndex(b).value)),
                 Some(GetRegisterIndex(rd).value), None, raw))
  {
    OpNameRoundTrip(op);
    RTypeRoundTrip(rd, a, b);
  }

  /** An assembled Tomasulo program's instructions carry the indices 0, 1, 2, … in order. */
  lemma TomaProgramIndices(lines: seq<string>)
    ensures var r := ParseInstsToma(lines);
      r.Ok? ==> forall k :: 0 <= k < |r.value| ==> r.value[k].originalIndex == Some(k)
  {
    AssembledIndices(lines, ParseToma);
  }
}
