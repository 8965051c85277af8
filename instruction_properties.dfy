/**
 * Properties of the forwarding pipeline's instruction parser: the usual text
 * of every instruction parses back to it, and a line whose opcode is none of
 * `load`, `store`, `add` and `beqz` is rejected.
 */
module InstructionProperties {
  import opened Wrappers
  import opened Text
  import opened Instructions
  import IP = InstructionParse

  /** The precondition `DecodeLine` puts on the operand text. */
  predicate OperandLine(operands: string) {
    operands != [] && !IsSpace(operands[|operands| - 1]) && '#' !in operands && ':' !in operands
  }

  /** A `load` line is read by the memory decoder. */
  lemma LoadLine(operands: string)
    requires OperandLine(operands)
    ensures Decode("load" + " " + operands) == DecodeMemory(Load, "load", IP.Args(operands))
  {
    DecodeLine("load", operands);
  }

  /** A `store` line is read by the memory decoder. */
  lemma StoreLine(operands: string)
    requires OperandLine(operands)
    ensures Decode("store" + " " + operands) == DecodeMemory(Store, "store", IP.Args(operands))
  {
    DecodeLine("store", operands);
  }

  /** An `add` line is read by the addition decoder. */
  lemma AddLine(operands: string)
    requires OperandLine(operands)
    ensures Decode("add" + " " + operands) == DecodeAdd("add", IP.Args(operands))
  {
    DecodeLine("add", operands);
  }

  /** A `beqz` line is read by the branch decoder. */
  lemma BranchLine(operands: string)
    requires OperandLine(operands)
    ensures Decode("beqz" + " " + operands) == DecodeBranch("beqz", IP.Args(operands))
  {
    DecodeLine("beqz", operands);
  }

  /** `$n` is a register token both the operand splitter and the register reader accept. */
  lemma RegisterText(n: int)
    ensures var s := "$" + IntToString(n);
      IP.Operand(s) && IsRegisterToken(s) && ParseInt(Tail(s)) == Some(n)
  {
    IntToStringChars(n);
    DollarText(IntToString(n));
    ParseIntIntToString(n);
  }

  /** `$` before digits and minus signs is a register token whose tail is those characters. */
  lemma DollarText(d: string)
    requires d != [] && !IsSpace(d[|d| - 1]) && forall c :: c in d ==> IsDigit(c) || c == '-'
    ensures IP.Operand("$" + d) && IsRegisterToken("$" + d) && Tail("$" + d) == d
  {
    var s := "$" + d;
    assert s[|s| - 1] == d[|d| - 1];
    assert forall c :: c in s ==> c == '$' || c in d;
    assert s[1..] == d;
  }

  /** A number has no character the operand splitter or the comment reader splits at. */
  lemma NumberText(n: int)
    ensures var s := IntToString(n);
      s != [] && !IsSpace(s[0]) && !IsSpace(s[|s| - 1]) && IP.NoPunctuation(s)
  {
    IntToStringChars(n);
  }

  /** The line `op operands` is read as the opcode `op` with the operands `operands` splits into. */
  lemma LineText(op: string, operands: string)
    requires op != [] && !IsSpace(op[0]) && ' ' !in op && '#' !in op && ':' !in op
    requires operands != [] && !IsSpace(operands[|operands| - 1]) && '#' !in operands && ':' !in operands
    ensures var text := op + " " + operands;
      var parts := Split(Split(text, '#')[0], ' ');
      parts[0] == op && Arguments(parts) == IP.Args(operands)
  {
    var text := op + " " + operands;
    IP.InstructionText(op, operands);
    SplitNoSep(text, '#');
  }

  /** Reading the line `op operands`: the decoder `op` names, run on the operands. */
  lemma DecodeLine(op: string, operands: string)
    requires op != [] && !IsSpace(op[0]) && ' ' !in op && '#' !in op && ':' !in op
    requires operands != [] && !IsSpace(operands[|operands| - 1]) && '#' !in operands && ':' !in operands
    ensures var args := IP.Args(operands);
      Decode(op + " " + operands) ==
        if op == "load" then DecodeMemory(Load, op, args)
        else if op == "store" then DecodeMemory(Store, op, args)
        else if op == "add" then DecodeAdd(op, args)
        else if op == "beqz" then DecodeBranch(op, args)
        else Err("Unknown instruction type: " + op)
  {
    LineText(op, operands);
  }

  /** `n(rs)` after `a, `: two operands, the second split at its parenthesis. */
  lemma AddressOperands(a: string, n: string, rs: string)
    requires IP.Operand(a) && IP.Operand(n) && IP.Operand(rs)
    ensures var address := n + "(" + rs + ")";
      var operands := a + ", " + address;
      operands != [] && !IsSpace(operands[|operands| - 1]) && '#' !in operands && ':' !in operands
      && IP.Args(operands) == [a, address] && Split(address, '(') == [n, rs + ")"]
  {
    var address := n + "(" + rs + ")";
    assert address[0] == n[0] && address[|address| - 1] == ')';
    assert address == n + ['('] + (rs + ")");
    SplitPrefix(n, '(', rs + ")");
    SplitNoSep(rs + ")", '(');
    IP.TwoOperands(a, address);
  }

  /** The operands `$r, offset($base)`: two of them, the second split at its parenthesis. */
  lemma MemoryOperands(r: int, offset: int, base: int)
    ensures var a := "$" + IntToString(r);
      var rs := "$" + IntToString(base);
      var address := IntToString(offset) + "(" + rs + ")";
      var operands := a + ", " + address;
      operands != [] && !IsSpace(operands[|operands| - 1]) && '#' !in operands && ':' !in operands
      && IP.Args(operands) == [a, address] && Split(address, '(') == [IntToString(offset), rs + ")"]
  {
    RegisterText(r);
    RegisterText(base);
    NumberText(offset);
    AddressOperands("$" + IntToString(r), IntToString(offset), "$" + IntToString(base));
  }

  /** The memory decoder on a register token and an address `n(reg)` whose parts read as numbers. */
  lemma MemoryArgs(kind: MemKind, op: string, args: seq<string>, r: int, offset: int, base: int)
    requires |args| == 2 && IsRegisterToken(args[0]) && ParseInt(Tail(args[0])) == Some(r)
    requires |Split(args[1], '(')| == 2 && ParseInt(Split(args[1], '(')[0]) == Some(offset)
    requires IsRegisterToken(DropLast(Split(args[1], '(')[1]))
    requires ParseInt(Tail(DropLast(Split(args[1], '(')[1]))) == Some(base)
    ensures DecodeMemory(kind, op, args) == Ok(LoadSave(offset, r, base, kind, [], None))
  {
  }

  /** `op $r, offset($base)` decodes, by the memory decoder, to the access it names. */
  lemma MemoryLine(kind: MemKind, op: string, r: int, offset: int, base: int)
    ensures var rs := "$" + IntToString(base);
      var operands := "$" + IntToString(r) + ", " + (IntToString(offset) + "(" + rs + ")");
      DecodeMemory(kind, op, IP.Args(operands)) == Ok(LoadSave(offset, r, base, kind, [], None))
  {
    var rs := "$" + IntToString(base);
    MemoryOperands(r, offset, base);
    RegisterText(r);
    RegisterText(base);
    ParseIntIntToString(offset);
    assert DropLast(rs + ")") == rs;
    var a := "$" + IntToString(r);
    var address := IntToString(offset) + "(" + rs + ")";
    MemoryArgs(kind, op, [a, address], r, offset, base);
  }

  /** `load`/`store $r, offset($base)` reads back as the access it shows. */
  lemma MemoryRoundTrip(offset: int, r: int, base: int, kind: MemKind, raw: string, index: Option<int>)
    ensures var inst := LoadSave(offset, r, base, kind, raw, index);
      Decode(Show(inst)) == Ok(WithSource(inst, [], None))
  {
    MemoryText(kind, if kind == Load then "load" else "store", r, offset, base);
  }

  /** The line `op $r, offset($base)` of a memory opcode decodes to that access. */
  lemma MemoryText(kind: MemKind, op: string, r: int, offset: int, base: int)
    requires op == if kind == Load then "load" else "store"
    ensures Decode(op + " " + ("$" + IntToString(r) + ", " + (IntToString(offset) + "(" + ("$" + IntToString(base)) + ")")))
      == Ok(LoadSave(offset, r, base, kind, [], None))
  {
    var operands := "$" + IntToString(r) + ", " + (IntToString(offset) + "(" + ("$" + IntToString(base)) + ")");
    MemoryOperands(r, offset, base);
    if kind == Load {
      LoadLine(operands);
    } else {
      StoreLine(operands);
    }
    MemoryLine(kind, op, r, offset, base);
  }

  /** `a, b, c` of three operands has no comment or label mark and ends where `c` ends. */
  lemma ThreeOperandText(a: string, b: string, c: string)
    requires IP.Operand(a) && IP.Operand(b) && IP.Operand(c)
    ensures var operands := a + ", " + b + ", " + c;
      operands != [] && !IsSpace(operands[|operands| - 1]) && '#' !in operands && ':' !in operands
  {
    var operands := a + ", " + b + ", " + c;
    assert operands[|operands| - 1] == c[|c| - 1];
  }

  /** The registers of a list whose first token is a register: that one, then the rest's. */
  lemma RegisterArgsCons(args: seq<string>, v: int)
    requires args != [] && IsRegisterToken(args[0]) && ParseInt(Tail(args[0])) == Some(v)
    requires RegisterArgs(args[1..]).Ok?
    ensures RegisterArgs(args) == Ok([v] + RegisterArgs(args[1..]).value)
  {
  }

  /** Three register tokens read as their three registers. */
  lemma RegisterTriple(a: string, b: string, c: string, ra: int, rb: int, rc: int)
    requires IsRegisterToken(a) && IsRegisterToken(b) && IsRegisterToken(c)
    requires ParseInt(Tail(a)) == Some(ra) && ParseInt(Tail(b)) == Some(rb) && ParseInt(Tail(c)) == Some(rc)
    ensures RegisterArgs([a, b, c]) == Ok([ra, rb, rc])
  {
    assert [a, b, c][1..] == [b, c];
    assert [b, c][1..] == [c];
    assert [c][1..] == [];
    assert RegisterArgs([c][1..]) == Ok([]);
    RegisterArgsCons([c], rc);
    assert [rc] + [] == [rc];
    assert RegisterArgs([c]) == Ok([rc]);
    RegisterArgsCons([b, c], rb);
    assert [rb] + [rc] == [rb, rc];
    RegisterArgsCons([a, b, c], ra);
    assert [ra] + [rb, rc] == [ra, rb, rc];
  }

  /** `a, b, c` of three register tokens: no comment or label mark, and the three registers. */
  lemma RegisterOperands(a: string, b: string, c: string, ra: int, rb: int, rc: int)
    requires IP.Operand(a) && IP.Operand(b) && IP.Operand(c)
    requires IsRegisterToken(a) && IsRegisterToken(b) && IsRegisterToken(c)
    requires ParseInt(Tail(a)) == Some(ra) && ParseInt(Tail(b)) == Some(rb) && ParseInt(Tail(c)) == Some(rc)
    ensures var operands := a + ", " + b + ", " + c;
      operands != [] && !IsSpace(operands[|operands| - 1]) && '#' !in operands && ':' !in operands
      && RegisterArgs(IP.Args(operands)) == Ok([ra, rb, rc])
  {
    IP.ThreeOperands(a, b, c);
    ThreeOperandText(a, b, c);
    RegisterTriple(a, b, c, ra, rb, rc);
  }

  /** The operands `$rd, $r1, $r2`: three registers. */
  lemma AddOperands(r1: int, r2: int, rd: int)
    ensures var operands := "$" + IntToString(rd) + ", " + ("$" + IntToString(r1)) + ", " + ("$" + IntToString(r2));
      operands != [] && !IsSpace(operands[|operands| - 1]) && '#' !in operands && ':' !in operands
      && RegisterArgs(IP.Args(operands)) == Ok([rd, r1, r2])
  {
    RegisterText(rd);
    RegisterText(r1);
    RegisterText(r2);
    RegisterOperands("$" + IntToString(rd), "$" + IntToString(r1), "$" + IntToString(r2), rd, r1, r2);
  }

  /** The `add` decoder on three register operands. */
  lemma AddArgs(op: string, args: seq<string>, regs: seq<int>)
    requires |args| == 3 && RegisterArgs(args) == Ok(regs)
    ensures DecodeAdd(op, args) == Ok(Arithmetic(regs[1], regs[2], regs[0], [], None))
  {
  }

  /** `add $rd, $r1, $r2` reads back as the addition it shows. */
  lemma AddRoundTrip(r1: int, r2: int, rd: int, raw: string, index: Option<int>)
    ensures var inst := Arithmetic(r1, r2, rd, raw, index);
      Decode(Show(inst)) == Ok(WithSource(inst, [], None))
  {
    var operands := "$" + IntToString(rd) + ", " + ("$" + IntToString(r1)) + ", " + ("$" + IntToString(r2));
    AddOperands(r1, r2, rd);
    AddLine(operands);
    var args := IP.Args(operands);
    assert |args| == 3;
    AddArgs("add", args, [rd, r1, r2]);
  }

  /** The operands `$r, offset`: a register and a number. */
  lemma BranchOperands(r: int, offset: int)
    ensures var a := "$" + IntToString(r);
      var operands := a + ", " + IntToString(offset);
      operands != [] && !IsSpace(operands[|operands| - 1]) && '#' !in operands && ':' !in operands
      && IP.Args(operands) == [a, IntToString(offset)]
  {
    var a := "$" + IntToString(r);
    var b := IntToString(offset);
    RegisterText(r);
    NumberText(offset);
    IP.TwoOperands(a, b);
    var operands := a + ", " + b;
    assert operands[|operands| - 1] == b[|b| - 1];
  }

  /** `beqz $r, offset` reads back as the branch it shows. */
  lemma BranchRoundTrip(r: int, offset: int, raw: string, index: Option<int>)
    ensures var inst := Branch(r, offset, raw, index);
      Decode(Show(inst)) == Ok(WithSource(inst, [], None))
  {
    var operands := "$" + IntToString(r) + ", " + IntToString(offset);
    BranchOperands(r, offset);
    BranchLine(operands);
    RegisterText(r);
    ParseIntIntToString(offset);
    BranchArgs("beqz", IP.Args(operands), r, offset);
  }

  /** The branch decoder on a register token and a number. */
  lemma BranchArgs(op: string, args: seq<string>, r: int, offset: int)
    requires |args| == 2 && ParseInt(Tail(args[0])) == Some(r) && ParseInt(args[1]) == Some(offset)
    ensures DecodeBranch(op, args) == Ok(Branch(r, offset, [], None))
  {
  }

  /**
   * Every instruction's usual text parses back to it, with that text and the
   * given position attached.
   */
  lemma ShowRoundTrip(inst: Instruction, index: Option<int>)
    ensures Parse(Show(inst), index) == Ok(WithSource(inst, Show(inst), index))
  {
    match inst
    case LoadSave(offset, r, base, kind, raw, i) => MemoryRoundTrip(offset, r, base, kind, raw, i);
    case Arithmetic(r1, r2, rd, raw, i) => AddRoundTrip(r1, r2, rd, raw, i);
    case Branch(r, offset, raw, i) => BranchRoundTrip(r, offset, raw, i);
  }

  /**
   * The operand roles of a parsed access: `load`/`store $r, offset($base)`
   * reads `base` first and has `offset` as immediate; a load writes `r`,
   * a store reads it as its second source.
   */
  lemma MemoryOperandRoles(kind: MemKind, r: int, offset: int, base: int, index: Option<int>)
    ensures var op := if kind == Load then "load" else "store";
      var p := Parse(op + " " + ("$" + IntToString(r) + ", " + (IntToString(offset) + "(" + ("$" + IntToString(base)) + ")")), index);
      p.Ok? && Rs1(p.value) == base && Immediate(p.value) == Some(offset)
      && Rd(p.value) == (if kind == Load then Some(r) else None)
      && Rs2(p.value) == (if kind == Store then Some(r) else None)
  {
    MemoryText(kind, if kind == Load then "load" else "store", r, offset, base);
  }

  /** The operand roles of a parsed `add $rd, $r1, $r2`: it reads `r1` and `r2`, writes `rd`, and has no immediate. */
  lemma AddOperandRoles(r1: int, r2: int, rd: int, index: Option<int>)
    ensures var p := Parse("add" + " " + ("$" + IntToString(rd) + ", " + ("$" + IntToString(r1)) + ", " + ("$" + IntToString(r2))), index);
      p.Ok? && Rs1(p.value) == r1 && Rs2(p.value) == Some(r2) && Rd(p.value) == Some(rd)
      && Immediate(p.value).None?
  {
    AddRoundTrip(r1, r2, rd, [], None);
  }

  /** The operand roles of a parsed `beqz $r, offset`: it reads `r` only, writes nothing, and has `offset` as immediate. */
  lemma BranchOperandRoles(r: int, offset: int, index: Option<int>)
    ensures var p := Parse("beqz" + " " + ("$" + IntToString(r) + ", " + IntToString(offset)), index);
      p.Ok? && Rs1(p.value) == r && Rs2(p.value).None? && Rd(p.value).None?
      && Immediate(p.value) == Some(offset)
  {
    BranchRoundTrip(r, offset, [], None);
  }

  /** A line whose opcode is not one of the four is rejected, naming the opcode. */
  lemma UnknownOpcode(op: string, operands: string, index: Option<int>)
    requires op != [] && !IsSpace(op[0]) && ' ' !in op && '#' !in op && ':' !in op
    requires operands != [] && !IsSpace(operands[|operands| - 1]) && '#' !in operands && ':' !in operands
    requires op != "load" && op != "store" && op != "add" && op != "beqz"
    ensures Parse(op + " " + operands, index) == Err("Unknown instruction type: " + op)
  {
    DecodeLine(op, operands);
  }

  /** An `add` needs three register operands: any other count is rejected. */
  lemma AddArgumentCount(operands: string, index: Option<int>)
    requires operands != [] && !IsSpace(operands[|operands| - 1]) && '#' !in operands && ':' !in operands
    requires |IP.Args(operands)| != 3
    ensures Parse("add " + operands, index) == Err(ArgumentCountError("add"))
  {
    DecodeLine("add", operands);
    assert "add " + operands == "add" + " " + operands;
  }

  // ---------------------------------------------------------------------------
  // The program's lines

  /** A line of the program text that holds an instruction: once trimmed, neither empty nor a comment. */
  predicate HoldsInstruction(line: string) {
    Trim(line) != [] && Trim(line)[0] != '#'
  }

  /** The positions, from `from` on, of the lines that hold an instruction, in increasing order. */
  function InstructionLineIndices(lines: seq<string>, from: nat): seq<nat>
    decreases |lines| - from
  {
    if from >= |lines| then []
    else (if HoldsInstruction(lines[from]) then [from] else []) + InstructionLineIndices(lines, from + 1)
  }

  /**
   * `r` lists, in order and each trimmed, the lines of `lines[from..]` that
   * hold an instruction, and `idx` their positions: the `j`-th entry of `r`
   * is the line at `idx[j]`, the positions increase, and none is skipped.
   */
  ghost predicate KeptInOrder(lines: seq<string>, from: nat, r: seq<string>, idx: seq<nat>) {
    |idx| == |r|
    && (forall j :: 0 <= j < |idx| ==> from <= idx[j] < |lines| && HoldsInstruction(lines[idx[j]]) && r[j] == Trim(lines[idx[j]]))
    && (forall j, j' :: 0 <= j < j' < |idx| ==> idx[j] < idx[j'])
    && (forall i :: from <= i < |lines| && HoldsInstruction(lines[i]) ==> i in idx)
  }

  /** An instruction line at `from` goes in front. */
  lemma KeptCons(lines: seq<string>, from: nat, r: seq<string>, idx: seq<nat>)
    requires from < |lines| && HoldsInstruction(lines[from]) && KeptInOrder(lines, from + 1, r, idx)
    ensures KeptInOrder(lines, from, [Trim(lines[from])] + r, [from] + idx)
  {
    var r2 := [Trim(lines[from])] + r;
    var idx2 := [from] + idx;
    assert forall j :: 0 < j < |idx2| ==> idx2[j] == idx[j - 1] && r2[j] == r[j - 1];
  }

  /** A line at `from` holding no instruction is skipped. */
  lemma KeptSkip(lines: seq<string>, from: nat, r: seq<string>, idx: seq<nat>)
    requires from < |lines| && !HoldsInstruction(lines[from]) && KeptInOrder(lines, from + 1, r, idx)
    ensures KeptInOrder(lines, from, r, idx)
  {
  }

  /** The lines kept from `lines[from..]` are the instruction lines from `from` on, in order. */
  lemma {:induction false} ProgramLinesFrom(lines: seq<string>, from: nat)
    requires from <= |lines|
    ensures KeptInOrder(lines, from, ProgramLines(lines[from..]), InstructionLineIndices(lines, from))
    decreases |lines| - from
  {
    if from < |lines| {
      ProgramLinesFrom(lines, from + 1);
      ProgramLinesStep(lines, from);
      var r' := ProgramLines(lines[from + 1..]);
      var idx' := InstructionLineIndices(lines, from + 1);
      if HoldsInstruction(lines[from]) {
        KeptCons(lines, from, r', idx');
      } else {
        KeptSkip(lines, from, r', idx');
      }
    }
  }

  /** One line of the filter: the line at `from`, trimmed, if it holds an instruction, then the rest. */
  lemma ProgramLinesStep(lines: seq<string>, from: nat)
    requires from < |lines|
    ensures ProgramLines(lines[from..]) ==
      (if HoldsInstruction(lines[from]) then [Trim(lines[from])] else []) + ProgramLines(lines[from + 1..])
  {
    assert lines[from..][0] == lines[from] && lines[from..][1..] == lines[from + 1..];
  }

  /** The program's lines are exactly its instruction lines, each trimmed, in their order in the text. */
  lemma ProgramLinesInOrder(lines: seq<string>)
    ensures var r := ProgramLines(lines); var idx := InstructionLineIndices(lines, 0);
      |idx| == |r|
      && (forall j :: 0 <= j < |idx| ==> idx[j] < |lines| && HoldsInstruction(lines[idx[j]]) && r[j] == Trim(lines[idx[j]]))
      && (forall j, j' :: 0 <= j < j' < |idx| ==> idx[j] < idx[j'])
      && (forall i :: 0 <= i < |lines| && HoldsInstruction(lines[i]) ==> i in idx)
  {
    ProgramLinesFrom(lines, 0);
    assert lines[0..] == lines;
  }
}
