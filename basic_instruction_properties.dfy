/** Properties of the five-stage instruction set: its table, the decoding of each instruction shape, and `mv`. */
module BasicInstructionProperties {
  import opened Wrappers
  import opened Text
  import opened RegisterFiles
  import opened InstructionParse
  import opened BasicInstructions

  // ---------------------------------------------------------------------------
  // Properties of the table

  /** Exactly the supported opcodes have a decoder; any other opcode is rejected by name. */
  lemma EveryOpcodeHasParser(op: string, remaining: string, raw: string)
    ensures HandlerFor(op).Some? <==> op in SupportedInstructions
    ensures op !in SupportedInstructions ==> Decode5(op, remaining, raw) == Err("Unsupported instruction: " + op)
  {
    HandlersAreSupported(op);
    if op in SupportedInstructions {
      SupportedHaveHandlers(op);
    }
  }

  lemma HandlersAreSupported(op: string)
    ensures HandlerFor(op).Some? ==> op in SupportedInstructions
  {
  }

  lemma SupportedHaveHandlers(op: string)
    requires op in SupportedInstructions
    ensures HandlerFor(op).Some?
  {
    var k :| 0 <= k < |SupportedInstructions| && SupportedInstructions[k] == op;
    if k < 15 {
      ArithmeticSupported(k);
    } else {
      OtherSupported(k);
    }
  }

  lemma ArithmeticSupported(k: nat)
    requires k < 15
    ensures HandlerFor(SupportedInstructions[k]).Some?
  {
  }

  lemma OtherSupported(k: nat)
    requires 15 <= k < |SupportedInstructions|
    ensures HandlerFor(SupportedInstructions[k]).Some?
  {
  }

  /** The opcode an ALU operation is written as. */
  function AluName(a: AluOp): string {
    match a
    case AddOp => "add"
    case SubOp => "sub"
    case AndOp => "and"
    case OrOp => "or"
    case XorOp => "xor"
    case SllOp => "sll"
    case SrlOp => "srl"
    case SraOp => "sra"
  }

  /** Only the arithmetic entries of the table map to an ALU decoder. */
  lemma ArithmeticHandler(op: string, s: Shape, a: AluOp)
    ensures HandlerFor(op) == Some(Arith(s, a)) <==> ArithmeticEntry(op) == Some((s, a))
  {
  }

  /**
   * The arithmetic opcodes: each ALU operation's name is its register form,
   * and the name with `i` appended its immediate form, which every
   * operation but `sub` has.
   */
  lemma ArithmeticNames(op: string, a: AluOp)
    ensures HandlerFor(op) == Some(Arith(RShape, a)) <==> op == AluName(a)
    ensures HandlerFor(op) == Some(Arith(IShape, a)) <==> a != SubOp && op == AluName(a) + "i"
  {
    ArithmeticHandler(op, RShape, a);
    ArithmeticHandler(op, IShape, a);
    match a
    case AddOp => assert AluName(a) + "i" == "addi";
    case SubOp => assert AluName(a) + "i" == "subi";
    case AndOp => assert AluName(a) + "i" == "andi";
    case OrOp => assert AluName(a) + "i" == "ori";
    case XorOp => assert AluName(a) + "i" == "xori";
    case SllOp => assert AluName(a) + "i" == "slli";
    case SrlOp => assert AluName(a) + "i" == "srli";
    case SraOp => assert AluName(a) + "i" == "srai";
  }

  /** Decoding an opcode of the table runs its decoder. */
  lemma Dispatch(op: string, h: Handler, remaining: string, raw: string)
    requires HandlerFor(op) == Some(h)
    ensures Decode5(op, remaining, raw) == RunHandler(h, op, raw, remaining)
  {
  }

  /** The entries of the table for the memory instructions. */
  lemma MemoryEntries()
    ensures HandlerFor("lw") == Some(LoadWord) && HandlerFor("sw") == Some(StoreWord)
  {
  }

  /** The entries of the table for the pseudo-instructions `li`, `nop` and `mv`, and for `addi`. */
  lemma PseudoEntries()
    ensures HandlerFor("li") == Some(LoadImmediate) && HandlerFor("nop") == Some(NoOperation)
    ensures HandlerFor("mv") == Some(Move) && HandlerFor("addi") == Some(Arith(IShape, AddOp))
  {
  }

  lemma RunRType(op: string, a: AluOp, raw: string, text: string)
    requires ParseRType(text).Ok?
    ensures var p := ParseRType(text).value;
      RunHandler(Arith(RShape, a), op, raw, text) ==
        Ok(Decoded(Ctrl(op, RTypeSignals(a)), (Some(p.0), Some(p.1)), Some(p.2), None, raw))
  {
  }

  lemma RunIType(op: string, a: AluOp, raw: string, text: string)
    requires ParseIType(text).Ok?
    ensures var p := ParseIType(text).value;
      RunHandler(Arith(IShape, a), op, raw, text) ==
        Ok(Decoded(Ctrl(op, ITypeSignals(a)), (Some(p.0), None), Some(p.1), Some(p.2), raw))
  {
  }

  lemma RunBranchTwo(op: string, c: Condition, raw: string, text: string)
    requires ParseIType(text).Ok?
    ensures var p := ParseIType(text).value;
      RunHandler(BranchTwo(c), op, raw, text) ==
        Ok(Decoded(Ctrl(op, BranchSignals(c)), (Some(p.1), Some(p.0)), None, Some(p.2), raw))
  {
  }

  lemma RunBranchZero(op: string, c: Condition, raw: string, text: string)
    requires ParseBzType(text).Ok?
    ensures var p := ParseBzType(text).value;
      RunHandler(BranchZero(c), op, raw, text) ==
        Ok(Decoded(Ctrl(op, BranchSignals(c)), (Some(p.0), Some(0)), None, Some(p.1), raw))
  {
  }

  lemma RunLoadWord(h: Handler, op: string, raw: string, text: string)
    requires h.LoadWord? && ParseMemType(text).Ok?
    ensures var p := ParseMemType(text).value;
      RunHandler(h, op, raw, text) ==
        Ok(Decoded(Ctrl("lw", LoadSignals), (Some(p.0), None), Some(p.1), Some(Num(p.2)), raw))
  {
  }

  lemma RunStoreWord(h: Handler, op: string, raw: string, text: string)
    requires h.StoreWord? && ParseMemType(text).Ok?
    ensures var p := ParseMemType(text).value;
      RunHandler(h, op, raw, text) ==
        Ok(Decoded(Ctrl("sw", StoreSignals), (Some(p.0), Some(p.1)), None, Some(Num(p.2)), raw))
  {
  }

  lemma RunLoadImmediate(h: Handler, op: string, raw: string, text: string)
    requires h.LoadImmediate? && ParseBzType(text).Ok?
    ensures var p := ParseBzType(text).value;
      RunHandler(h, op, raw, text) ==
        Ok(Decoded(Ctrl("addi", ITypeSignals(AddOp)), (Some(0), None), Some(p.0), Some(p.1), raw))
  {
  }

  /**
   * `OP rd, rs1, rs2` for a register-form arithmetic opcode reads `rs1` and
   * `rs2`, writes `rd` from the ALU and never writes memory.
   */
  lemma RTypeText(op: string, a: AluOp, rd: string, rs1: string, rs2: string, raw: string)
    requires HandlerFor(op) == Some(Arith(RShape, a))
    requires Operand(rd) && Operand(rs1) && Operand(rs2)
    requires GetRegisterIndex(rd).Ok? && GetRegisterIndex(rs1).Ok? && GetRegisterIndex(rs2).Ok?
    ensures Decode5(op, rd + ", " + rs1 + ", " + rs2, raw) ==
      Ok(Decoded(Ctrl(op, ControlSignals(Never, Reg1A, Reg2B, a, false, AluWb, true)),
                 (Some(GetRegisterIndex(rs1).value), Some(GetRegisterIndex(rs2).value)),
                 Some(GetRegisterIndex(rd).value), None, raw))
  {
    var text := rd + ", " + rs1 + ", " + rs2;
    RTypeRoundTrip(rd, rs1, rs2);
    Dispatch(op, Arith(RShape, a), text, raw);
    RunRType(op, a, raw, text);
  }

  /** `OP rd, rs1, imm` for an immediate-form opcode reads only `rs1` and feeds the immediate to the ALU. */
  lemma ITypeText(op: string, a: AluOp, rd: string, rs1: string, imm: int, raw: string)
    requires HandlerFor(op) == Some(Arith(IShape, a))
    requires Operand(rd) && Operand(rs1)
    requires GetRegisterIndex(rd).Ok? && GetRegisterIndex(rs1).Ok?
    ensures Decode5(op, rd + ", " + rs1 + ", " + IntToString(imm), raw) ==
      Ok(Decoded(Ctrl(op, ControlSignals(Never, Reg1A, ImmediateB, a, false, AluWb, true)),
                 (Some(GetRegisterIndex(rs1).value), None), Some(GetRegisterIndex(rd).value), Some(Num(imm)), raw))
  {
    var text := rd + ", " + rs1 + ", " + IntToString(imm);
    ITypeRoundTrip(rd, rs1, imm);
    Dispatch(op, Arith(IShape, a), text, raw);
    RunIType(op, a, raw, text);
  }

  /**
   * `OP a, b, imm` for a two-register branch: the operands come out in
   * source order, no register is written, and the ALU adds the immediate to
   * `pc`; a target that is no number is kept as a label.
   */
  lemma BranchText(op: string, c: Condition, a: string, b: string, imm: int, target: string, raw: string)
    requires HandlerFor(op) == Some(BranchTwo(c))
    requires Operand(a) && Operand(b) && Operand(target) && ParseInt(target).None?
    requires GetRegisterIndex(a).Ok? && GetRegisterIndex(b).Ok?
    ensures Decode5(op, a + ", " + b + ", " + IntToString(imm), raw) ==
      Ok(Decoded(Ctrl(op, ControlSignals(c, PcA, ImmediateB, AddOp, false, AluWb, false)),
                 (Some(GetRegisterIndex(a).value), Some(GetRegisterIndex(b).value)), None, Some(Num(imm)), raw))
    ensures Decode5(op, a + ", " + b + ", " + target, raw) ==
      Ok(Decoded(Ctrl(op, ControlSignals(c, PcA, ImmediateB, AddOp, false, AluWb, false)),
                 (Some(GetRegisterIndex(a).value), Some(GetRegisterIndex(b).value)), None, Some(Label(target)), raw))
  {
    var text1 := a + ", " + b + ", " + IntToString(imm);
    var text2 := a + ", " + b + ", " + target;
    ITypeRoundTrip(a, b, imm);
    ITypeLabel(a, b, target);
    Dispatch(op, BranchTwo(c), text1, raw);
    Dispatch(op, BranchTwo(c), text2, raw);
    RunBranchTwo(op, c, raw, text1);
    RunBranchTwo(op, c, raw, text2);
  }

  /** `beqz a, target` and `bnez a, target` compare `a` with register 0. */
  lemma BranchZeroText(op: string, c: Condition, a: string, imm: int, target: string, raw: string)
    requires HandlerFor(op) == Some(BranchZero(c))
    requires Operand(a) && Operand(target) && ParseInt(target).None?
    requires GetRegisterIndex(a).Ok?
    ensures Decode5(op, a + ", " + IntToString(imm), raw) ==
      Ok(Decoded(Ctrl(op, BranchSignals(c)), (Some(GetRegisterIndex(a).value), Some(0)), None, Some(Num(imm)), raw))
    ensures Decode5(op, a + ", " + target, raw) ==
      Ok(Decoded(Ctrl(op, BranchSignals(c)), (Some(GetRegisterIndex(a).value), Some(0)), None, Some(Label(target)), raw))
  {
    var text1 := a + ", " + IntToString(imm);
    var text2 := a + ", " + target;
    BzTypeRoundTrip(a, imm, target);
    Dispatch(op, BranchZero(c), text1, raw);
    Dispatch(op, BranchZero(c), text2, raw);
    RunBranchZero(op, c, raw, text1);
    RunBranchZero(op, c, raw, text2);
  }

  /** The controller each opcode of the table decodes with, whatever its operands. */
  lemma ControllerOf(h: Handler, op: string, remaining: string, raw: string)
    requires RunHandler(h, op, raw, remaining).Ok?
    ensures var c := RunHandler(h, op, raw, remaining).value.kind.controlSignals.branchController;
      c == match h
           case BranchZero(z) => z
           case BranchTwo(z) => z
           case Jump => Always
           case _ => Never
  {
  }

  /**
   * The branch controllers: `beq`/`beqz` are taken on equal operands,
   * `bne`/`bnez` on different ones, `bgt`, `bge`, `blt` and `ble` compare
   * the first operand with the second, and `j` is always taken; no other
   * opcode ever branches.
   */
  lemma BranchConditions(op: string, remaining: string, raw: string, x: int, y: int)
    requires Decode5(op, remaining, raw).Ok?
    ensures var c := Decode5(op, remaining, raw).value.kind.controlSignals.branchController;
      (op == "beq" || op == "beqz" ==> (Taken(c, x, y) <==> x == y))
      && (op == "bne" || op == "bnez" ==> (Taken(c, x, y) <==> x != y))
      && (op == "bgt" ==> (Taken(c, x, y) <==> x > y)) && (op == "bge" ==> (Taken(c, x, y) <==> x >= y))
      && (op == "blt" ==> (Taken(c, x, y) <==> x < y)) && (op == "ble" ==> (Taken(c, x, y) <==> x <= y))
      && (op == "j" ==> Taken(c, x, y))
      && (op !in BranchOpcodes ==> !Taken(c, x, y))
  {
    var h := HandlerFor(op).value;
    Dispatch(op, h, remaining, raw);
    ControllerOf(h, op, remaining, raw);
    BranchEntries();
    NonBranchEntries(op);
  }

  const BranchOpcodes: seq<string> := ["beq", "beqz", "bne", "bnez", "bgt", "bge", "blt", "ble", "j"]

  /** The table's branch entries, with their controllers. */
  lemma BranchEntries()
    ensures HandlerFor("beq") == Some(BranchTwo(Equal)) && HandlerFor("bne") == Some(BranchTwo(NotEqual))
    ensures HandlerFor("bgt") == Some(BranchTwo(Greater)) && HandlerFor("bge") == Some(BranchTwo(GreaterEqual))
    ensures HandlerFor("blt") == Some(BranchTwo(Less)) && HandlerFor("ble") == Some(BranchTwo(LessEqual))
    ensures HandlerFor("beqz") == Some(BranchZero(Equal)) && HandlerFor("bnez") == Some(BranchZero(NotEqual))
    ensures HandlerFor("j") == Some(Jump)
  {
    EqualityBranchEntries();
    GreaterBranchEntries();
    LessBranchEntries();
    ZeroBranchEntries();
  }

  lemma EqualityBranchEntries()
    ensures HandlerFor("beq") == Some(BranchTwo(Equal)) && HandlerFor("bne") == Some(BranchTwo(NotEqual))
  {
  }

  lemma GreaterBranchEntries()
    ensures HandlerFor("bgt") == Some(BranchTwo(Greater)) && HandlerFor("bge") == Some(BranchTwo(GreaterEqual))
  {
  }

  lemma LessBranchEntries()
    ensures HandlerFor("blt") == Some(BranchTwo(Less)) && HandlerFor("ble") == Some(BranchTwo(LessEqual))
  {
  }

  lemma ZeroBranchEntries()
    ensures HandlerFor("beqz") == Some(BranchZero(Equal)) && HandlerFor("bnez") == Some(BranchZero(NotEqual))
    ensures HandlerFor("j") == Some(Jump)
  {
  }

  /** Every branching decoder of the table belongs to one of the branch opcodes. */
  lemma NonBranchEntries(op: string)
    ensures HandlerFor(op).Some? && (HandlerFor(op).value.BranchZero? || HandlerFor(op).value.BranchTwo? || HandlerFor(op).value.Jump?)
      ==> op in BranchOpcodes
  {
  }

  /** `lw rd, imm(base)` reads `base`, writes `rd` from memory and does not write memory. */
  lemma LoadWordText(rd: string, imm: int, base: string, raw: string)
    requires Operand(rd) && Operand(base)
    requires GetRegisterIndex(rd).Ok? && GetRegisterIndex(base).Ok?
    ensures Decode5("lw", rd + ", " + (IntToString(imm) + "(" + base + ")"), raw) ==
      Ok(Decoded(Ctrl("lw", ControlSignals(Never, Reg1A, ImmediateB, AddOp, false, MemWb, true)),
                 (Some(GetRegisterIndex(base).value), None), Some(GetRegisterIndex(rd).value), Some(Num(imm)), raw))
  {
    var text := rd + ", " + (IntToString(imm) + "(" + base + ")");
    MemTypeRoundTrip(rd, imm, base);
    MemoryEntries();
    Dispatch("lw", LoadWord, text, raw);
    RunLoadWord(LoadWord, "lw", raw, text);
  }

  /** `sw data, imm(base)` reads `base` and `data`, writes memory and no register. */
  lemma StoreWordText(data: string, imm: int, base: string, raw: string)
    requires Operand(data) && Operand(base)
    requires GetRegisterIndex(data).Ok? && GetRegisterIndex(base).Ok?
    ensures Decode5("sw", data + ", " + (IntToString(imm) + "(" + base + ")"), raw) ==
      Ok(Decoded(Ctrl("sw", ControlSignals(Never, Reg1A, ImmediateB, AddOp, true, AluWb, false)),
                 (Some(GetRegisterIndex(base).value), Some(GetRegisterIndex(data).value)), None, Some(Num(imm)), raw))
  {
    var text := data + ", " + (IntToString(imm) + "(" + base + ")");
    MemTypeRoundTrip(data, imm, base);
    MemoryEntries();
    Dispatch("sw", StoreWord, text, raw);
    RunStoreWord(StoreWord, "sw", raw, text);
  }

  /** `li rd, imm` writes `rd` with `$0` plus the immediate, which may be a label. */
  lemma LoadImmediateText(op: string, rd: string, imm: int, target: string, raw: string)
    requires HandlerFor(op) == Some(LoadImmediate)
    requires Operand(rd) && Operand(target) && ParseInt(target).None?
    requires GetRegisterIndex(rd).Ok?
    ensures Decode5(op, rd + ", " + IntToString(imm), raw) ==
      Ok(Decoded(Ctrl("addi", ITypeSignals(AddOp)), (Some(0), None), Some(GetRegisterIndex(rd).value), Some(Num(imm)), raw))
    ensures Decode5(op, rd + ", " + target, raw) ==
      Ok(Decoded(Ctrl("addi", ITypeSignals(AddOp)), (Some(0), None), Some(GetRegisterIndex(rd).value), Some(Label(target)), raw))
  {
    var text1 := rd + ", " + IntToString(imm);
    var text2 := rd + ", " + target;
    BzTypeRoundTrip(rd, imm, target);
    Dispatch(op, LoadImmediate, text1, raw);
    Dispatch(op, LoadImmediate, text2, raw);
    RunLoadImmediate(LoadImmediate, op, raw, text1);
    RunLoadImmediate(LoadImmediate, op, raw, text2);
  }

  /** `li rd, imm` decodes exactly as `addi rd, $0, imm`. */
  lemma LoadImmediateIsAddi(rd: string, imm: int, raw: string)
    requires Operand(rd) && GetRegisterIndex(rd).Ok?
    ensures Decode5("li", rd + ", " + IntToString(imm), raw).Ok?
    ensures Decode5("li", rd + ", " + IntToString(imm), raw) == Decode5("addi", rd + ", $0, " + IntToString(imm), raw)
  {
    ZeroOperand();
    ZeroOperandText(rd, IntToString(imm));
    PseudoEntries();
    ITypeText("addi", AddOp, rd, "$0", imm, raw);
    LabelOperand();
    LoadImmediateText("li", rd, imm, "L", raw);
  }

  lemma ZeroOperandText(rd: string, rest: string)
    ensures rd + ", $0, " + rest == rd + ", " + "$0" + ", " + rest
  {
  }

  lemma LabelOperand()
    ensures Operand("L") && ParseInt("L").None?
  {
  }

  /** `$0` is register 0. */
  lemma ZeroOperand()
    ensures Operand("$0") && GetRegisterIndex("$0") == Ok(0)
  {
    DigitRegisterOperand(0);
    assert ['$', DigitChar(0)] == "$0";
  }

  /**
   * `nop` ignores its operands and is the default instruction under another
   * text: it reads and writes register 0, and write-back is disabled.
   */
  lemma NopIsDefault(remaining: string, raw: string)
    ensures var d := Decode5("nop", remaining, raw);
      d.Ok? && d.value.kind == DefaultInst().kind && d.value.rs == DefaultInst().rs && d.value.rd == DefaultInst().rd
      && d.value.immediate.None? && DefaultInst().immediate.None? && !d.value.kind.controlSignals.regWriteEnable
  {
    PseudoEntries();
    Dispatch("nop", NoOperation, remaining, raw);
  }

  lemma RunJump(h: Handler, op: string, raw: string, text: string)
    requires h.Jump? && Args(text) == [text]
    ensures RunHandler(h, op, raw, text) ==
      Ok(Decoded(Ctrl("beq", BranchSignals(Always)), (Some(0), Some(0)), None, Some(ImmOrLabel(text)), raw))
  {
  }

  /** `j target` is a `beq $0, $0` that is always taken; a target that is no number is a label. */
  lemma JumpText(op: string, imm: int, target: string, raw: string)
    requires HandlerFor(op) == Some(Jump)
    requires Operand(target) && ParseInt(target).None?
    ensures Decode5(op, IntToString(imm), raw) ==
      Ok(Decoded(Ctrl("beq", BranchSignals(Always)), (Some(0), Some(0)), None, Some(Num(imm)), raw))
    ensures Decode5(op, target, raw) ==
      Ok(Decoded(Ctrl("beq", BranchSignals(Always)), (Some(0), Some(0)), None, Some(Label(target)), raw))
  {
    var s := IntToString(imm);
    NumberOperand(imm);
    ParseIntIntToString(imm);
    OneOperand(target);
    Dispatch(op, Jump, s, raw);
    Dispatch(op, Jump, target, raw);
    RunJump(Jump, op, raw, s);
    RunJump(Jump, op, raw, target);
  }

  lemma NumberOperand(imm: int)
    ensures Args(IntToString(imm)) == [IntToString(imm)]
  {
    IntToStringChars(imm);
    assert !IsDigit(',');
    OneOperand(IntToString(imm));
  }

  /** A five-stage program's instructions carry the indices 0, 1, 2, … in order. */
  lemma ProgramIndices5Stage(lines: seq<string>)
    ensures var r := ParseInsts5Stage(lines);
      r.Ok? ==> forall k :: 0 <= k < |r.value| ==> r.value[k].originalIndex == Some(k)
  {
    AssembledIndices(lines, Decode5);
  }

  // ---------------------------------------------------------------------------
  // `mv`: as written and as intended

  /** The intended `mv rd, rs` on two register names. */
  lemma MoveCorrectedText(rd: string, rs: string, raw: string)
    requires Operand(rd) && Operand(rs)
    requires GetRegisterIndex(rd).Ok? && GetRegisterIndex(rs).Ok?
    ensures MoveCorrected(raw, rd + ", " + rs) ==
      Ok(Decoded(Ctrl("addi", ITypeSignals(AddOp)), (Some(GetRegisterIndex(rs).value), None),
                 Some(GetRegisterIndex(rd).value), Some(Num(0)), raw))
  {
    TwoOperands(rd, rs);
  }

  lemma RunMove(h: Handler, op: string, raw: string, text: string)
    requires h.Move?
    ensures RunHandler(h, op, raw, text) == MoveAsWritten(raw, text)
  {
  }

  /**
   * `mv rd, rs` through the table, as written: accepted exactly when both
   * registers have numbers below 10, and then decoded as intended.
   */
  lemma MoveText(op: string, rd: string, rs: string, raw: string)
    requires HandlerFor(op) == Some(Move)
    requires Operand(rd) && Operand(rs)
    requires GetRegisterIndex(rd).Ok? && GetRegisterIndex(rs).Ok?
    ensures Decode5(op, rd + ", " + rs, raw).Ok? <==> GetRegisterIndex(rd).value < 10 && GetRegisterIndex(rs).value < 10
    ensures Decode5(op, rd + ", " + rs, raw).Ok? ==>
      Decode5(op, rd + ", " + rs, raw) ==
        Ok(Decoded(Ctrl("addi", ITypeSignals(AddOp)), (Some(GetRegisterIndex(rs).value), None),
                   Some(GetRegisterIndex(rd).value), Some(Num(0)), raw))
  {
    MoveCorrectedText(rd, rs, raw);
    MoveAsWrittenNeedsOneDigit(rd, rs, raw);
    Dispatch(op, Move, rd + ", " + rs, raw);
    RunMove(Move, op, raw, rd + ", " + rs);
  }

  /**
   * The intended `mv rd, rs` decodes exactly as `addi rd, rs, 0`, whatever
   * the registers; the program's `mv` does so when both numbers are below 10.
   */
  lemma MoveIsAddi(rd: string, rs: string, raw: string)
    requires Operand(rd) && Operand(rs)
    requires GetRegisterIndex(rd).Ok? && GetRegisterIndex(rs).Ok?
    ensures MoveCorrected(raw, rd + ", " + rs).Ok?
    ensures MoveCorrected(raw, rd + ", " + rs) == Decode5("addi", rd + ", " + rs + ", 0", raw)
    ensures GetRegisterIndex(rd).value < 10 && GetRegisterIndex(rs).value < 10 ==>
      Decode5("mv", rd + ", " + rs, raw) == Decode5("addi", rd + ", " + rs + ", 0", raw)
  {
    ZeroImmediateText(rd, rs);
    PseudoEntries();
    ITypeText("addi", AddOp, rd, rs, 0, raw);
    MoveCorrectedText(rd, rs, raw);
    MoveText("mv", rd, rs, raw);
  }

  lemma ZeroImmediateText(rd: string, rs: string)
    ensures rd + ", " + rs + ", 0" == rd + ", " + rs + ", " + IntToString(0)
  {
    assert IntToString(0) == "0";
  }

  /** `$` and the decimal digits of `n`: a register name exactly when `n` has one digit. */
  lemma NumericRegisterText(n: nat)
    ensures Operand("$" + NatToString(n))
    ensures n < 10 ==> GetRegisterIndex("$" + NatToString(n)) == Ok(n)
    ensures n >= 10 ==> GetRegisterIndex("$" + NatToString(n)).Err?
  {
    var s := "$" + NatToString(n);
    NatToStringDigits(n);
    assert s[|s| - 1] in NatToString(n);
    assert forall c :: c in s ==> c == '$' || c in NatToString(n);
    if n < 10 {
      DigitRegisterOperand(n);
      assert s == ['$', DigitChar(n)];
    } else {
      NumericNameNeedsOneDigit(n);
    }
  }

  lemma RereadShape(d: nat, s: nat)
    ensures "$" + IntToString(d) + ", $" + IntToString(s) + ", 0" ==
      ("$" + NatToString(d)) + ", " + ("$" + NatToString(s)) + ", " + IntToString(0)
  {
    assert IntToString(0) == "0";
  }

  /** The text `mv` hands on re-reads as `(rs, rd, 0)` exactly when both numbers have one digit. */
  lemma RereadText(d: nat, s: nat)
    ensures var p := ParseIType("$" + IntToString(d) + ", $" + IntToString(s) + ", 0");
      (p.Ok? <==> d < 10 && s < 10) && (p.Ok? ==> p.value == (s, d, Num(0)))
  {
    var a := "$" + NatToString(d);
    var b := "$" + NatToString(s);
    NumericRegisterText(d);
    NumericRegisterText(s);
    RereadShape(d, s);
    IntToStringChars(0);
    ThreeOperands(a, b, IntToString(0));
    if d < 10 && s < 10 {
      ITypeRoundTrip(a, b, 0);
    }
  }

  /**
   * As written, `mv rd, rs` succeeds exactly when both registers have
   * numbers below 10, since the re-read text names them as `$<number>`; it
   * then agrees with the intended decoding.
   */
  lemma MoveAsWrittenNeedsOneDigit(rd: string, rs: string, raw: string)
    requires Operand(rd) && Operand(rs)
    requires GetRegisterIndex(rd).Ok? && GetRegisterIndex(rs).Ok?
    ensures MoveAsWritten(raw, rd + ", " + rs).Ok? <==> GetRegisterIndex(rd).value < 10 && GetRegisterIndex(rs).value < 10
    ensures MoveAsWritten(raw, rd + ", " + rs).Ok? ==> MoveAsWritten(raw, rd + ", " + rs) == MoveCorrected(raw, rd + ", " + rs)
  {
    TwoOperands(rd, rs);
    MoveCorrectedText(rd, rs, raw);
    var d := GetRegisterIndex(rd).value;
    var s := GetRegisterIndex(rs).value;
    RereadText(d, s);
  }

  /** Example: `mv $t2, $t3` names registers 10 and 11; as written it is rejected, as intended it is `addi $t2, $t3, 0`. */
  lemma MoveAsWrittenRejectsT2(raw: string)
    ensures GetRegisterIndex("$t2") == Ok(10) && GetRegisterIndex("$t3") == Ok(11)
    ensures MoveAsWritten(raw, "$t2, $t3").Err? && Decode5("mv", "$t2, $t3", raw).Err?
    ensures MoveCorrected(raw, "$t2, $t3") ==
      Ok(Decoded(Ctrl("addi", ITypeSignals(AddOp)), (Some(11), None), Some(10), Some(Num(0)), raw))
  {
    TemporaryNames();
    MoveAsWrittenNeedsOneDigit("$t2", "$t3", raw);
    MoveCorrectedText("$t2", "$t3", raw);
    PseudoEntries();
    MoveText("mv", "$t2", "$t3", raw);
  }

  lemma TemporaryNames()
    ensures GetRegisterIndex("$t2") == Ok(10) && GetRegisterIndex("$t3") == Ok(11)
    ensures Operand("$t2") && Operand("$t3") && "$t2" + ", " + "$t3" == "$t2, $t3"
  {
    TemporaryIndices();
    TemporaryOperands();
    TemporaryText();
  }

  lemma TemporaryText()
    ensures "$t2" + ", " + "$t3" == "$t2, $t3"
  {
  }

  lemma TemporaryOperands()
    ensures Operand("$t2") && Operand("$t3")
  {
  }

  lemma TemporaryIndices()
    ensures GetRegisterIndex("$t2") == Ok(10) && GetRegisterIndex("$t3") == Ok(11)
  {
    T2Index();
    T3Index();
  }

  lemma T2Index()
    ensures GetRegisterIndex("$t2") == Ok(10)
  {
    KeyRoundTrip(10);
    assert RegisterNames[10] == "$t2";
  }

  lemma T3Index()
    ensures GetRegisterIndex("$t3") == Ok(11)
  {
    KeyRoundTrip(11);
    assert RegisterNames[11] == "$t3";
  }
}
