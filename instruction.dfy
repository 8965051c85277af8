/**
 * The instructions of the forwarding 5-stage pipeline: `load`/`store` with a
 * base register and an offset, a three-register `add`, and `beqz` (branch when
 * a register is zero), parsed from text such as `load $1, 4($2)`.
 */
module Instructions {
  import opened Wrappers
  import opened Text
  import opened InstructionMemories

  datatype MemKind = Load | Store

  datatype Instruction =
    | LoadSave(addressOffset: int, registerIndex: int, startingRegisterIndex: int, kind: MemKind,
               raw: string, originalIndex: Option<int>)
    | Arithmetic(registerIndex1: int, registerIndex2: int, resultRegisterIndex: int,
                 raw: string, originalIndex: Option<int>)
    | Branch(registerIndex: int, offset: int, raw: string, originalIndex: Option<int>)

  /** The first source register: the base of a memory access, else the first operand. */
  function Rs1(inst: Instruction): int {
    match inst
    case LoadSave(_, _, base, _, _, _) => base
    case Arithmetic(r1, _, _, _, _) => r1
    case Branch(r, _, _, _) => r
  }

  /** The second source register: the data register of a store, the second operand of an add. */
  function Rs2(inst: Instruction): Option<int> {
    match inst
    case LoadSave(_, r, _, kind, _, _) => if kind == Store then Some(r) else None
    case Arithmetic(_, r2, _, _, _) => Some(r2)
    case Branch(_, _, _, _) => None
  }

  /** The register written back: the target of a load or of an add. */
  function Rd(inst: Instruction): Option<int> {
    match inst
    case LoadSave(_, r, _, kind, _, _) => if kind == Load then Some(r) else None
    case Arithmetic(_, _, rd, _, _) => Some(rd)
    case Branch(_, _, _, _) => None
  }

  function Immediate(inst: Instruction): Option<int> {
    match inst
    case LoadSave(offset, _, _, _, _, _) => Some(offset)
    case Arithmetic(_, _, _, _, _) => None
    case Branch(_, offset, _, _) => Some(offset)
  }

  const NopText: string := "add $0, $0, $0 #NOP"

  /** The bubble: `add $0, $0, $0`, belonging to no program line. */
  function Default(): (d: Instruction)
    ensures d.Arithmetic? && Rd(d) == Some(0) && Rs1(d) == 0 && Rs2(d) == Some(0)
    ensures d.originalIndex.None?
  {
    Arithmetic(0, 0, 0, NopText, None)
  }

  /** `s.substring(1)`. */
  function Tail(s: string): string {
    if s == [] then [] else s[1..]
  }

  /** `s.substring(0, s.length - 1)`. */
  function DropLast(s: string): string {
    if s == [] then [] else s[..|s| - 1]
  }

  /** `s.charAt(0) === "$"`. */
  predicate IsRegisterToken(s: string) {
    s != [] && s[0] == '$'
  }

  /** The registers `$n` an `add` names; the first argument that is not `$` and a number throws. */
  function RegisterArgs(args: seq<string>): (r: Result<seq<int>>)
    ensures r.Ok? ==> |r.value| == |args|
    ensures r.Ok? ==> forall k :: 0 <= k < |args| ==> IsRegisterToken(args[k]) && ParseInt(Tail(args[k])) == Some(r.value[k])
    ensures r.Err? <==> exists k :: 0 <= k < |args| && !(IsRegisterToken(args[k]) && ParseInt(Tail(args[k])).Some?)
  {
    if args == [] then Ok([])
    else if !IsRegisterToken(args[0]) then Err("Invalid register format: " + args[0])
    else
      match ParseInt(Tail(args[0]))
      case None => Err("Invalid register format: " + args[0])
      case Some(v) =>
        var rest :- RegisterArgs(args[1..]);
        Ok([v] + rest)
  }

  /** The operands' text: the words after the opcode, split at commas and trimmed. */
  function Arguments(parts: seq<string>): seq<string>
    requires |parts| >= 1
  {
    TrimAll(Split(Join(parts[1..], ' '), ','))
  }

  /**
   * Parses one line; `index` becomes the instruction's position in the program.
   * The text after a `#` is a comment.
   */
  function Parse(raw: string, index: Option<int>): (r: Result<Instruction>)
    ensures r.Ok? ==> r.value.raw == raw && r.value.originalIndex == index
  {
    match Decode(raw)
    case Err(e) => Err(e)
    case Ok(inst) => Ok(WithSource(inst, raw, index))
  }

  /** The operation and operands of one line of text (before its text and position are attached). */
  function Decode(raw: string): Result<Instruction> {
    var code := Split(raw, '#')[0];
    var parts := Split(code, ' ');
    var opcode := parts[0];
    var args := Arguments(parts);
    if opcode == "load" then DecodeMemory(Load, opcode, args)
    else if opcode == "store" then DecodeMemory(Store, opcode, args)
    else if opcode == "add" then DecodeAdd(opcode, args)
    else if opcode == "beqz" then DecodeBranch(opcode, args)
    else Err("Unknown instruction type: " + opcode)
  }

  function ArgumentCountError(opcode: string): string {
    "Invalid number of arguments for " + opcode + " instruction"
  }

  /** `load $r, offset($base)` and `store $r, offset($base)`. */
  function DecodeMemory(kind: MemKind, opcode: string, args: seq<string>): Result<Instruction> {
    if |args| != 2 then Err(ArgumentCountError(opcode))
    else if !IsRegisterToken(args[0]) then Err("Invalid register format: " + args[0])
    else
      match ParseInt(Tail(args[0]))
      case None => Err("Invalid register format: " + args[0])
      case Some(registerIndex) =>
        var addressParts := Split(args[1], '(');
        if |addressParts| != 2 then Err("Invalid address format: " + args[1])
        else
          match ParseInt(addressParts[0])
          case None => Err("Invalid address format: " + args[1])
          case Some(address) =>
            var reg := DropLast(addressParts[1]);
            if !IsRegisterToken(reg) then Err("Invalid register format: " + addressParts[1])
            else
              match ParseInt(Tail(reg))
              case None => Err("Invalid register format: " + reg)
              case Some(base) => Ok(LoadSave(address, registerIndex, base, kind, [], None))
  }

  /** `add $rd, $rs1, $rs2`. */
  function DecodeAdd(opcode: string, args: seq<string>): Result<Instruction> {
    if |args| != 3 then Err(ArgumentCountError(opcode))
    else
      var regs :- RegisterArgs(args);
      Ok(Arithmetic(regs[1], regs[2], regs[0], [], None))
  }

  /** `beqz $r, offset`. */
  function DecodeBranch(opcode: string, args: seq<string>): Result<Instruction> {
    if |args| != 2 then Err(ArgumentCountError(opcode))
    else
      match (ParseInt(Tail(args[0])), ParseInt(args[1]))
      case (Some(r), Some(offset)) => Ok(Branch(r, offset, [], None))
      case _ => Err("Invalid branch operands: " + args[0] + ", " + args[1])
  }

  /** The usual text of an instruction, e.g. `load $1, 4($2)` or `add $3, $1, $2`. */
  function Show(inst: Instruction): string {
    match inst
    case LoadSave(offset, r, base, kind, _, _) =>
      (if kind == Load then "load" else "store") + " "
      + ("$" + IntToString(r) + ", " + (IntToString(offset) + "(" + ("$" + IntToString(base)) + ")"))
    case Arithmetic(r1, r2, rd, _, _) =>
      "add" + " " + ("$" + IntToString(rd) + ", " + ("$" + IntToString(r1)) + ", " + ("$" + IntToString(r2)))
    case Branch(r, offset, _, _) =>
      "beqz" + " " + ("$" + IntToString(r) + ", " + IntToString(offset))
  }

  /** The instruction with its text and program position replaced. */
  function WithSource(inst: Instruction, raw: string, index: Option<int>): Instruction {
    match inst
    case LoadSave(offset, r, base, kind, _, _) => LoadSave(offset, r, base, kind, raw, index)
    case Arithmetic(r1, r2, rd, _, _) => Arithmetic(r1, r2, rd, raw, index)
    case Branch(r, offset, _, _) => Branch(r, offset, raw, index)
  }

  /**
   * The program text: one instruction per non-blank line that is not a comment,
   * numbered from 0 in order; the first line that does not parse makes it fail.
   */
  function ParseProgram(raw: string): (r: Result<seq<Instruction>>)
    ensures r.Ok? ==> |r.value| == |ProgramLines(Split(raw, '\n'))|
    ensures r.Ok? ==> var lines := ProgramLines(Split(raw, '\n'));
      forall k :: 0 <= k < |lines| ==>
        Parse(lines[k], Some(k)) == Ok(r.value[k]) && r.value[k].raw == lines[k] && r.value[k].originalIndex == Some(k)
    ensures var lines := ProgramLines(Split(raw, '\n'));
      r.Err? <==> exists k :: 0 <= k < |lines| && Parse(lines[k], Some(k)).Err?
  {
    var lines := ProgramLines(Split(raw, '\n'));
    CollectFails(ParseEach(lines));
    Collect(ParseEach(lines))
  }

  /** Every line parsed with its position. */
  function ParseEach(lines: seq<string>): (rs: seq<Result<Instruction>>)
    ensures |rs| == |lines|
    ensures forall k :: 0 <= k < |lines| ==> rs[k] == Parse(lines[k], Some(k))
  {
    seq(|lines|, k requires 0 <= k < |lines| => Parse(lines[k], Some(k)))
  }

  /** The trimmed lines that hold an instruction. */
  function ProgramLines(lines: seq<string>): (r: seq<string>)
    ensures forall k :: 0 <= k < |r| ==> r[k] != [] && r[k][0] != '#' && Trim(r[k]) == r[k]
  {
    if lines == [] then []
    else
      var line := Trim(lines[0]);
      TrimIdempotent(lines[0]);
      (if line != [] && line[0] != '#' then [line] else []) + ProgramLines(lines[1..])
  }

  /** `InstructionMemory.parse`: a memory holding the parsed program, with the bubble past its end. */
  method NewInstructionMemory(raw: string) returns (r: Result<InstructionMemory<Instruction>>)
    ensures r.Err? <==> ParseProgram(raw).Err?
    ensures r.Ok? ==> fresh(r.value) && r.value.instructions == ParseProgram(raw).value
    ensures r.Ok? ==> r.value.defaultInst == Ok(Default())
  {
    var program := ParseProgram(raw);
    if program.Err? {
      return Err(program.error);
    }
    var imem := new InstructionMemory(program.value, Ok(Default()));
    return Ok(imem);
  }
}
