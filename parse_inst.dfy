/**
 * The assembler shared by the instruction sets: a first pass that strips
 * comments, reads an optional `label:` prefix, hands each instruction to the
 * instruction set's own parser and numbers the instructions from 0; a second
 * pass that turns each label operand into an offset relative to the
 * instruction using it; and the operand-shape parsers (R-type, I-type,
 * branch-on-zero and memory) the instruction sets are built from.
 */
module InstructionParse {
  import opened Wrappers
  import opened Text
  import opened RegisterFiles

  /** An immediate operand as written: a number, or a label to be resolved. */
  datatype Imm = Num(n: int) | Label(name: string)

  /**
   * What an instruction set's parser makes of one instruction: its kind `K`
   * (the opcode and whatever the set derives from it), the source registers,
   * the destination, the immediate, and the line it came from.
   */
  datatype Decoded<K> = Decoded(kind: K, rs: (Option<int>, Option<int>), rd: Option<int>,
                                immediate: Option<Imm>, raw: string)

  /** A decoded instruction with its position among the program's instructions. */
  datatype FirstPassInst<K> = FirstPassInst(body: Decoded<K>, originalIndex: int)

  /** An assembled instruction: every immediate a number; bubbles have no `originalIndex`. */
  datatype Inst<K> = Inst(kind: K, rs: (Option<int>, Option<int>), rd: Option<int>,
                          immediate: Option<int>, raw: string, originalIndex: Option<int>)

  /** What the first pass finds on one line: possibly an instruction, possibly a label. */
  datatype LineResult<K> = LineResult(inst: Option<Decoded<K>>, foundLabel: Option<string>)

  /** The first pass's accumulator: the numbered instructions, the labels, the next index. */
  datatype FirstPass<K> = FirstPass(insts: seq<FirstPassInst<K>>, labels: map<string, int>, curIndex: int)

  // ---------------------------------------------------------------------------
  // First pass

  /** The text before and after the first `:`, both trimmed. */
  function LabelSplit(code: string): (Option<string>, string)
    requires ':' in code
  {
    var parts := Split(code, ':');
    SplitAtSeparator(code, ':');
    (Some(Trim(parts[0])), Trim(parts[1]))
  }

  /**
   * One line: the text before any `#`, trimmed; a `label:` prefix; the first
   * space-separated word as the opcode and the rest, rejoined, as its operands.
   * A parser error is re-thrown with the instruction's text in front.
   */
  function ParseSingleInstFirstPass<K>(raw: string, parse: (string, string, string) -> Result<Decoded<K>>)
    : Result<LineResult<K>>
  {
    var code := Trim(Split(raw, '#')[0]);
    if code == [] then Ok(LineResult(None, None))
    else
      var split := if ':' in code then LabelSplit(code) else (None, code);
      var found := split.0;
      var rest := split.1;
      if rest == [] then Ok(LineResult(None, found))
      else
        var parts := Split(rest, ' ');
        match parse(parts[0], Join(parts[1..], ' '), raw)
        case Err(e) => Err(ParseErrorPrefix(rest) + e)
        case Ok(d) => Ok(LineResult(Some(d), found))
  }

  function ParseErrorPrefix(text: string): string {
    "Error parsing instruction \"" + text + "\": "
  }

  /** `lines.filter((line) => line.trim())`. */
  function NonBlank(lines: seq<string>): seq<string> {
    if lines == [] then []
    else (if Trim(lines[0]) != [] then [lines[0]] else []) + NonBlank(lines[1..])
  }

  /** The number of lines that hold an instruction. */
  function CountInsts<K>(rs: seq<LineResult<K>>): nat {
    if rs == [] then 0 else CountInsts(rs[..|rs| - 1]) + if rs[|rs| - 1].inst.Some? then 1 else 0
  }

  /** One step of the first pass's `reduce`: record the label, then number the instruction. */
  function Absorb<K>(acc: FirstPass<K>, r: LineResult<K>): FirstPass<K> {
    var labels := if r.foundLabel.Some? && r.foundLabel.value != [] then acc.labels[r.foundLabel.value := acc.curIndex]
                  else acc.labels;
    if r.inst.Some? then FirstPass(acc.insts + [FirstPassInst(r.inst.value, acc.curIndex)], labels, acc.curIndex + 1)
    else FirstPass(acc.insts, labels, acc.curIndex)
  }

  /**
   * The `reduce` of the first pass over the lines' results: the instructions
   * are numbered 0, 1, 2, … in order, and the count is the number of lines
   * holding one.
   */
  function Number<K>(rs: seq<LineResult<K>>): (fp: FirstPass<K>)
    ensures fp.curIndex == CountInsts(rs) == |fp.insts|
    ensures forall k :: 0 <= k < |fp.insts| ==> fp.insts[k].originalIndex == k
  {
    if rs == [] then FirstPass([], map[], 0) else Absorb(Number(rs[..|rs| - 1]), rs[|rs| - 1])
  }

  /** Every non-blank line parsed on its own. */
  function ParseLines<K>(kept: seq<string>, parse: (string, string, string) -> Result<Decoded<K>>)
    : (rs: seq<Result<LineResult<K>>>)
    ensures |rs| == |kept|
    ensures forall k :: 0 <= k < |kept| ==> rs[k] == ParseSingleInstFirstPass(kept[k], parse)
  {
    seq(|kept|, k requires 0 <= k < |kept| => ParseSingleInstFirstPass(kept[k], parse))
  }

  /** `parseFirstPass`: the non-blank lines parsed, then numbered; the first line that fails makes it fail. */
  function ParseFirstPass<K>(lines: seq<string>, parse: (string, string, string) -> Result<Decoded<K>>)
    : Result<FirstPass<K>>
  {
    var results :- Collect(ParseLines(NonBlank(lines), parse));
    Ok(Number(results))
  }

  // ---------------------------------------------------------------------------
  // Second pass

  /** A label operand becomes the distance from this instruction to the label's; a number stays. */
  function Resolve<K>(inst: FirstPassInst<K>, labels: map<string, int>): Result<Inst<K>> {
    var b := inst.body;
    match b.immediate
    case None => Ok(Inst(b.kind, b.rs, b.rd, None, b.raw, Some(inst.originalIndex)))
    case Some(Num(n)) => Ok(Inst(b.kind, b.rs, b.rd, Some(n), b.raw, Some(inst.originalIndex)))
    case Some(Label(l)) =>
      if l in labels then Ok(Inst(b.kind, b.rs, b.rd, Some(labels[l] - inst.originalIndex), b.raw, Some(inst.originalIndex)))
      else Err("Label " + l + " not found at instruction " + b.raw)
  }

  function ResolveAll<K>(insts: seq<FirstPassInst<K>>, labels: map<string, int>): (rs: seq<Result<Inst<K>>>)
    ensures |rs| == |insts|
    ensures forall k :: 0 <= k < |insts| ==> rs[k] == Resolve(insts[k], labels)
  {
    seq(|insts|, k requires 0 <= k < |insts| => Resolve(insts[k], labels))
  }

  /** `parseSecondPass`: every instruction resolved; an unknown label makes it fail. */
  function ParseSecondPass<K>(insts: seq<FirstPassInst<K>>, labels: map<string, int>): Result<seq<Inst<K>>> {
    Collect(ResolveAll(insts, labels))
  }

  /** Both passes over the program's lines. */
  function Assemble<K>(lines: seq<string>, parse: (string, string, string) -> Result<Decoded<K>>)
    : Result<seq<Inst<K>>>
  {
    var fp :- ParseFirstPass(lines, parse);
    ParseSecondPass(fp.insts, fp.labels)
  }

  // ---------------------------------------------------------------------------
  // Operand shapes

  /** The operands: the text split at commas, each part trimmed. */
  function Args(remaining: string): seq<string> {
    TrimAll(Split(remaining, ','))
  }

  /** A number if `parseInt` reads one, else the text as a label. */
  function ImmOrLabel(s: string): Imm {
    match ParseInt(s)
    case Some(n) => Num(n)
    case None => Label(s)
  }

  predicate InRange(index: int) {
    0 <= index < RegisterFileSize
  }

  /** `rd, rs1, rs2`, returned as `(rs1, rs2, rd)`. */
  function ParseRType(remaining: string): (r: Result<(int, int, int)>)
    ensures r.Ok? ==> InRange(r.value.0) && InRange(r.value.1) && InRange(r.value.2)
  {
    var args := Args(remaining);
    if |args| != 3 then Err("Invalid number of arguments")
    else
      var rs1 :- GetRegisterIndex(args[1]);
      var rs2 :- GetRegisterIndex(args[2]);
      var rd :- GetRegisterIndex(args[0]);
      Ok((rs1, rs2, rd))
  }

  /** `rd, rs, imm`, returned as `(rs, rd, imm)`; an immediate that is no number is a label. */
  function ParseIType(remaining: string): Result<(int, int, Imm)> {
    var args := Args(remaining);
    if |args| != 3 then Err("Invalid number of arguments")
    else
      var resultRegisterIndex :- GetRegisterIndex(args[0]);
      var registerIndex :- GetRegisterIndex(args[1]);
      Ok((registerIndex, resultRegisterIndex, ImmOrLabel(args[2])))
  }

  /** `rs, imm`, returned as `(rs, imm)`; an immediate that is no number is a label. */
  function ParseBzType(remaining: string): Result<(int, Imm)> {
    var args := Args(remaining);
    if |args| != 2 then Err("Invalid number of arguments")
    else
      var registerIndex :- GetRegisterIndex(args[0]);
      Ok((registerIndex, ImmOrLabel(args[1])))
  }

  /** `rd, imm(rs)`, returned as `(rs, rd, imm)`; the offset must be a number. */
  function ParseMemType(remaining: string): (r: Result<(int, int, int)>)
    ensures r.Ok? ==> InRange(r.value.0) && InRange(r.value.1)
  {
    var args := Args(remaining);
    if |args| != 2 then Err("Invalid number of arguments")
    else
      var rd :- GetRegisterIndex(args[0]);
      var addressParts := Split(args[1], '(');
      if |addressParts| != 2 then Err("Invalid address format: " + args[1])
      else
        match ParseInt(addressParts[0])
        case None => Err("Invalid address format: " + args[1])
        case Some(imm) =>
          var reg := if addressParts[1] == [] then [] else addressParts[1][..|addressParts[1]| - 1];
          var rs1 :- GetRegisterIndex(reg);
          Ok((rs1, rd, imm))
  }

  // ---------------------------------------------------------------------------
  // Properties of one line

  /** A comment, possibly indented, yields neither an instruction nor a label. */
  lemma CommentLine<K>(pad: string, comment: string, parse: (string, string, string) -> Result<Decoded<K>>)
    requires forall c :: c in pad ==> IsSpace(c)
    ensures ParseSingleInstFirstPass(pad + "#" + comment, parse) == Ok(LineResult(None, None))
  {
    assert !IsSpace('#');
    SplitPrefix(pad, '#', comment);
    TrimOfSpaces(pad);
  }

  /**
   * An instruction line `op operands`: the instruction set's parser is handed
   * exactly `op`, `operands` and the line, and its error comes back behind
   * the line's text.
   */
  lemma InstructionLine<K>(op: string, operands: string, parse: (string, string, string) -> Result<Decoded<K>>)
    requires op != [] && !IsSpace(op[0]) && ' ' !in op && '#' !in op && ':' !in op
    requires operands != [] && !IsSpace(operands[|operands| - 1]) && '#' !in operands && ':' !in operands
    ensures var raw := op + " " + operands;
      ParseSingleInstFirstPass(raw, parse) ==
        match parse(op, operands, raw)
        case Err(e) => Err(ParseErrorPrefix(raw) + e)
        case Ok(d) => Ok(LineResult(Some(d), None))
  {
    var raw := op + " " + operands;
    InstructionText(op, operands);
    SplitNoSep(raw, '#');
    TrimNoSpaceEnds(raw);
  }

  /** `label: op operands`: the label is found, and the error names the instruction without it. */
  lemma LabelledLine<K>(name: string, op: string, operands: string,
                        parse: (string, string, string) -> Result<Decoded<K>>)
    requires name != [] && !IsSpace(name[0]) && !IsSpace(name[|name| - 1]) && '#' !in name && ':' !in name
    requires op != [] && !IsSpace(op[0]) && ' ' !in op && '#' !in op && ':' !in op
    requires operands != [] && !IsSpace(operands[|operands| - 1]) && '#' !in operands && ':' !in operands
    ensures var text := op + " " + operands;
      var raw := name + ": " + text;
      ParseSingleInstFirstPass(raw, parse) ==
        match parse(op, operands, raw)
        case Err(e) => Err(ParseErrorPrefix(text) + e)
        case Ok(d) => Ok(LineResult(Some(d), Some(name)))
  {
    var text := op + " " + operands;
    var raw := name + ": " + text;
    InstructionText(op, operands);
    assert raw == name + [':'] + (" " + text);
    assert raw[|raw| - 1] == operands[|operands| - 1];
    SplitNoSep(raw, '#');
    TrimNoSpaceEnds(raw);
    assert ':' in raw by { assert raw[|name|] == ':'; }
    SplitNoSep(" " + text, ':');
    SplitPrefix(name, ':', " " + text);
    TrimNoSpaceEnds(name);
    TrimLeadingSpace(' ', text);
    TrimNoSpaceEnds(text);
  }

  /** A line holding only `label:` records the label and no instruction. */
  lemma LabelOnlyLine<K>(name: string, parse: (string, string, string) -> Result<Decoded<K>>)
    requires name != [] && !IsSpace(name[0]) && !IsSpace(name[|name| - 1]) && '#' !in name && ':' !in name
    ensures ParseSingleInstFirstPass(name + ":", parse) == Ok(LineResult(None, Some(name)))
  {
    var raw := name + ":";
    assert raw == name + [':'] + [];
    assert '#' !in raw;
    SplitNoSep(raw, '#');
    TrimNoSpaceEnds(raw);
    assert ':' in raw by { assert raw[|name|] == ':'; }
    SplitPrefix(name, ':', []);
    TrimNoSpaceEnds(name);
  }

  /** The text `op operands` is its own trim, has no `#` or `:`, and splits into `op` and `operands`. */
  lemma InstructionText(op: string, operands: string)
    requires op != [] && !IsSpace(op[0]) && ' ' !in op && '#' !in op && ':' !in op
    requires operands != [] && !IsSpace(operands[|operands| - 1]) && '#' !in operands && ':' !in operands
    ensures var text := op + " " + operands;
      text != [] && !IsSpace(text[0]) && !IsSpace(text[|text| - 1]) && '#' !in text && ':' !in text
      && Split(text, ' ')[0] == op && Join(Split(text, ' ')[1..], ' ') == operands
  {
    var text := op + " " + operands;
    assert text == op + [' '] + operands;
    assert text[|text| - 1] == operands[|operands| - 1];
    SplitPrefix(op, ' ', operands);
    JoinSplit(operands, ' ');
  }

  /** Whatever fails on a line fails with the instruction's text in front. */
  lemma LineErrorsArePrefixed<K>(raw: string, parse: (string, string, string) -> Result<Decoded<K>>)
    ensures var r := ParseSingleInstFirstPass(raw, parse);
      r.Err? ==> exists text :: StartsWith(r.error, ParseErrorPrefix(text))
  {
    var r := ParseSingleInstFirstPass(raw, parse);
    if r.Err? {
      var code := Trim(Split(raw, '#')[0]);
      var text := if ':' in code then LabelSplit(code).1 else code;
      assert r.error[..|ParseErrorPrefix(text)|] == ParseErrorPrefix(text);
    }
  }

  // ---------------------------------------------------------------------------
  // Properties of the first pass

  /** The last of the results carrying label `l`, or -1 when none does. */
  function LastLabelLine<K>(rs: seq<LineResult<K>>, l: string): (j: int)
    ensures -1 <= j < |rs|
    ensures j >= 0 ==> rs[j].foundLabel == Some(l)
    ensures forall k :: j < k < |rs| ==> rs[k].foundLabel != Some(l)
  {
    if rs == [] then -1
    else if rs[|rs| - 1].foundLabel == Some(l) then |rs| - 1
    else LastLabelLine(rs[..|rs| - 1], l)
  }

  /**
   * A non-empty label is known exactly when some line carries it, and it
   * stands for the number of instructions on the lines before the last line
   * carrying it: the index of the next instruction from there on.
   */
  lemma {:induction false} LabelsOfNumber<K>(rs: seq<LineResult<K>>, l: string)
    requires l != []
    ensures l in Number(rs).labels <==> LastLabelLine(rs, l) >= 0
    ensures l in Number(rs).labels ==> Number(rs).labels[l] == CountInsts(rs[..LastLabelLine(rs, l)])
  {
    if rs != [] {
      var p := rs[..|rs| - 1];
      LabelsOfNumber(p, l);
      if rs[|rs| - 1].foundLabel != Some(l) {
        var j := LastLabelLine(p, l);
        if j >= 0 {
          assert rs[..j] == p[..j];
        }
      }
    }
  }

  /** An empty label (a line starting with `:`) is never recorded. */
  lemma {:induction false} EmptyLabelIgnored<K>(rs: seq<LineResult<K>>)
    ensures [] !in Number(rs).labels
  {
    if rs != [] {
      EmptyLabelIgnored(rs[..|rs| - 1]);
    }
  }

  /** Instructions are only ever appended: the numbering of a prefix of the lines is kept. */
  lemma {:induction false} NumberPrefix<K>(rs: seq<LineResult<K>>, n: nat)
    requires n <= |rs|
    ensures Number(rs[..n]).insts <= Number(rs).insts
  {
    if n < |rs| {
      NumberPrefix(rs[..|rs| - 1], n);
      assert rs[..|rs| - 1][..n] == rs[..n];
    } else {
      assert rs[..n] == rs;
    }
  }

  /** The instruction on line `j` is numbered with the count of instructions on the lines before it. */
  lemma InstOfLine<K>(rs: seq<LineResult<K>>, j: nat)
    requires j < |rs| && rs[j].inst.Some?
    ensures CountInsts(rs[..j]) < |Number(rs).insts|
    ensures Number(rs).insts[CountInsts(rs[..j])] == FirstPassInst(rs[j].inst.value, CountInsts(rs[..j]))
  {
    NumberPrefix(rs, j + 1);
    assert rs[..j + 1][..j] == rs[..j];
  }

  /** Every label stands for an index from 0 up to one past the last instruction. */
  lemma LabelsInRange<K>(rs: seq<LineResult<K>>, l: string)
    requires l in Number(rs).labels
    ensures 0 <= Number(rs).labels[l] <= |Number(rs).insts|
  {
    EmptyLabelIgnored(rs);
    LabelsOfNumber(rs, l);
    NumberPrefix(rs, LastLabelLine(rs, l));
  }

  /** The lines kept are exactly the lines that are not blank. */
  lemma {:induction false} NonBlankKeeps(lines: seq<string>, line: string)
    ensures line in NonBlank(lines) <==> line in lines && Trim(line) != []
  {
    if lines != [] {
      NonBlankKeeps(lines[1..], line);
      assert lines == [lines[0]] + lines[1..];
    }
  }

  /** The positions, from `from` on, of the lines that are not blank, in increasing order. */
  function NonBlankIndices(lines: seq<string>, from: nat): seq<nat>
    decreases |lines| - from
  {
    if from >= |lines| then []
    else (if Trim(lines[from]) != [] then [from] else []) + NonBlankIndices(lines, from + 1)
  }

  /**
   * `r` lists, in order and unchanged, the lines of `lines[from..]` that are
   * not blank, and `idx` their positions: the `j`-th entry of `r` is the
   * line at `idx[j]`, the positions increase, and none is skipped.
   */
  ghost predicate NonBlankInOrderFrom(lines: seq<string>, from: nat, r: seq<string>, idx: seq<nat>) {
    |idx| == |r|
    && (forall j :: 0 <= j < |idx| ==> from <= idx[j] < |lines| && Trim(lines[idx[j]]) != [] && r[j] == lines[idx[j]])
    && (forall j, j' :: 0 <= j < j' < |idx| ==> idx[j] < idx[j'])
    && (forall i :: from <= i < |lines| && Trim(lines[i]) != [] ==> i in idx)
  }

  /** A non-blank line at `from` goes in front. */
  lemma NonBlankCons(lines: seq<string>, from: nat, r: seq<string>, idx: seq<nat>)
    requires from < |lines| && Trim(lines[from]) != [] && NonBlankInOrderFrom(lines, from + 1, r, idx)
    ensures NonBlankInOrderFrom(lines, from, [lines[from]] + r, [from] + idx)
  {
    var r2 := [lines[from]] + r;
    var idx2 := [from] + idx;
    assert forall j :: 0 < j < |idx2| ==> idx2[j] == idx[j - 1] && r2[j] == r[j - 1];
  }

  /** A blank line at `from` is skipped. */
  lemma NonBlankSkip(lines: seq<string>, from: nat, r: seq<string>, idx: seq<nat>)
    requires from < |lines| && Trim(lines[from]) == [] && NonBlankInOrderFrom(lines, from + 1, r, idx)
    ensures NonBlankInOrderFrom(lines, from, r, idx)
  {
  }

  /** The lines kept from `lines[from..]` are the non-blank lines from `from` on, in order. */
  lemma {:induction false} NonBlankFrom(lines: seq<string>, from: nat)
    requires from <= |lines|
    ensures NonBlankInOrderFrom(lines, from, NonBlank(lines[from..]), NonBlankIndices(lines, from))
    decreases |lines| - from
  {
    if from < |lines| {
      NonBlankFrom(lines, from + 1);
      NonBlankStep(lines, from);
      var r' := NonBlank(lines[from + 1..]);
      var idx' := NonBlankIndices(lines, from + 1);
      if Trim(lines[from]) != [] {
        NonBlankCons(lines, from, r', idx');
      } else {
        NonBlankSkip(lines, from, r', idx');
      }
    }
  }

  /** One line of the filter: the line at `from`, if it is not blank, then the rest. */
  lemma NonBlankStep(lines: seq<string>, from: nat)
    requires from < |lines|
    ensures NonBlank(lines[from..]) == (if Trim(lines[from]) != [] then [lines[from]] else []) + NonBlank(lines[from + 1..])
  {
    assert lines[from..][0] == lines[from] && lines[from..][1..] == lines[from + 1..];
  }

  /** The lines kept are exactly the lines that are not blank, unchanged and in their order. */
  lemma NonBlankInOrder(lines: seq<string>)
    ensures var r := NonBlank(lines); var idx := NonBlankIndices(lines, 0);
      |idx| == |r|
      && (forall j :: 0 <= j < |idx| ==> idx[j] < |lines| && Trim(lines[idx[j]]) != [] && r[j] == lines[idx[j]])
      && (forall j, j' :: 0 <= j < j' < |idx| ==> idx[j] < idx[j'])
      && (forall i :: 0 <= i < |lines| && Trim(lines[i]) != [] ==> i in idx)
  {
    NonBlankFrom(lines, 0);
    assert lines[0..] == lines;
  }

  /** The first pass fails exactly when one of the non-blank lines fails. */
  lemma FirstPassFails<K>(lines: seq<string>, parse: (string, string, string) -> Result<Decoded<K>>)
    ensures ParseFirstPass(lines, parse).Err? <==>
      exists k :: 0 <= k < |NonBlank(lines)| && ParseSingleInstFirstPass(NonBlank(lines)[k], parse).Err?
  {
    var rs := ParseLines(NonBlank(lines), parse);
    CollectFails(rs);
    assert ParseFirstPass(lines, parse).Err? <==> Collect(rs).Err?;
  }

  // ---------------------------------------------------------------------------
  // Properties of the second pass

  /** The instruction refers to a label the program does not define. */
  predicate UnknownLabel<K>(inst: FirstPassInst<K>, labels: map<string, int>) {
    inst.body.immediate.Some? && inst.body.immediate.value.Label? && inst.body.immediate.value.name !in labels
  }

  /**
   * `o` is `inst` assembled: the same operation, registers and text, its own
   * index, and an immediate that is the number written or, for a label, the
   * distance that added to the instruction's index reaches the label's.
   */
  ghost predicate Assembled<K>(inst: FirstPassInst<K>, labels: map<string, int>, o: Inst<K>) {
    var b := inst.body;
    o.kind == b.kind && o.rs == b.rs && o.rd == b.rd && o.raw == b.raw
    && o.originalIndex == Some(inst.originalIndex)
    && match b.immediate
       case None => o.immediate.None?
       case Some(Num(n)) => o.immediate == Some(n)
       case Some(Label(l)) => l in labels && o.immediate.Some? && inst.originalIndex + o.immediate.value == labels[l]
  }

  /** The second pass fails exactly on an unknown label, and otherwise assembles every instruction. */
  lemma SecondPassSpec<K>(insts: seq<FirstPassInst<K>>, labels: map<string, int>)
    ensures ParseSecondPass(insts, labels).Err? <==> exists k :: 0 <= k < |insts| && UnknownLabel(insts[k], labels)
    ensures ParseSecondPass(insts, labels).Ok? ==>
      |ParseSecondPass(insts, labels).value| == |insts|
      && forall k :: 0 <= k < |insts| ==> Assembled(insts[k], labels, ParseSecondPass(insts, labels).value[k])
  {
    var rs := ResolveAll(insts, labels);
    CollectFails(rs);
    assert forall k :: 0 <= k < |insts| ==> (rs[k].Err? <==> UnknownLabel(insts[k], labels));
  }

  /** An assembled program's instructions carry the indices 0, 1, 2, … in order. */
  lemma AssembledIndices<K>(lines: seq<string>, parse: (string, string, string) -> Result<Decoded<K>>)
    ensures var r := Assemble(lines, parse);
      r.Ok? ==> forall k :: 0 <= k < |r.value| ==> r.value[k].originalIndex == Some(k)
  {
    var fp := ParseFirstPass(lines, parse);
    if fp.Ok? {
      SecondPassSpec(fp.value.insts, fp.value.labels);
    }
  }

  // ---------------------------------------------------------------------------
  // Properties of the operand shapes

  /** No comma, parenthesis, comment or label mark: none of the characters the assembler splits at. */
  predicate NoPunctuation(s: string) {
    ',' !in s && '(' !in s && ')' !in s && '#' !in s && ':' !in s
  }

  /** A register's text as an operand can hold it: no white space at its ends and no punctuation. */
  predicate Operand(s: string) {
    s != [] && !IsSpace(s[0]) && !IsSpace(s[|s| - 1]) && NoPunctuation(s)
  }

  /** A comma and a space after a comma-free `x`: the first part is `x`. */
  lemma CommaSplit(x: string, y: string)
    requires ',' !in x
    ensures Split(x + ", " + y, ',') == [x] + Split(" " + y, ',')
  {
    assert x + ", " + y == x + [','] + (" " + y);
    SplitPrefix(x, ',', " " + y);
  }

  /** `a, b, c` has the operands `a`, `b` and `c`. */
  lemma ThreeOperands(a: string, b: string, c: string)
    requires Operand(a) && Operand(b) && Operand(c)
    ensures Args(a + ", " + b + ", " + c) == [a, b, c]
  {
    var parts := Split(a + ", " + b + ", " + c, ',');
    assert a + ", " + b + ", " + c == a + ", " + (b + ", " + c);
    CommaSplit(a, b + ", " + c);
    assert " " + (b + ", " + c) == (" " + b) + ", " + c;
    CommaSplit(" " + b, c);
    SplitNoSep(" " + c, ',');
    assert parts == [a, " " + b, " " + c];
    TrimNoSpaceEnds(a);
    TrimLeadingSpace(' ', b);
    TrimNoSpaceEnds(b);
    TrimLeadingSpace(' ', c);
    TrimNoSpaceEnds(c);
  }

  /** `a, b` has the operands `a` and `b`. */
  lemma TwoOperands(a: string, b: string)
    requires Operand(a)
    requires b != [] && !IsSpace(b[0]) && !IsSpace(b[|b| - 1]) && ',' !in b
    ensures Args(a + ", " + b) == [a, b]
  {
    CommaSplit(a, b);
    SplitNoSep(" " + b, ',');
    TrimNoSpaceEnds(a);
    TrimLeadingSpace(' ', b);
    TrimNoSpaceEnds(b);
  }

  /** A single operand without commas is the one operand. */
  lemma OneOperand(a: string)
    requires a != [] && !IsSpace(a[0]) && !IsSpace(a[|a| - 1]) && ',' !in a
    ensures Args(a) == [a]
  {
    SplitNoSep(a, ',');
    TrimNoSpaceEnds(a);
  }

  /** `rd, rs1, rs2` written with register names reads back as `(rs1, rs2, rd)`. */
  lemma RTypeRoundTrip(rd: string, rs1: string, rs2: string)
    requires Operand(rd) && Operand(rs1) && Operand(rs2)
    requires GetRegisterIndex(rd).Ok? && GetRegisterIndex(rs1).Ok? && GetRegisterIndex(rs2).Ok?
    ensures ParseRType(rd + ", " + rs1 + ", " + rs2) ==
      Ok((GetRegisterIndex(rs1).value, GetRegisterIndex(rs2).value, GetRegisterIndex(rd).value))
  {
    ThreeOperands(rd, rs1, rs2);
  }

  /**
   * `rd, rs, imm` reads back as `(rs, rd, imm)` with a numeric immediate, and
   * text that is no number stays a label.
   */
  lemma ITypeRoundTrip(rd: string, rs: string, imm: int)
    requires Operand(rd) && Operand(rs)
    requires GetRegisterIndex(rd).Ok? && GetRegisterIndex(rs).Ok?
    ensures ParseIType(rd + ", " + rs + ", " + IntToString(imm)) ==
      Ok((GetRegisterIndex(rs).value, GetRegisterIndex(rd).value, Num(imm)))
  {
    IntToStringChars(imm);
    ThreeOperands(rd, rs, IntToString(imm));
    ParseIntIntToString(imm);
  }

  /** A label operand in the I-type: text that `parseInt` does not read is kept as the label. */
  lemma ITypeLabel(rd: string, rs: string, target: string)
    requires Operand(rd) && Operand(rs) && Operand(target) && ParseInt(target).None?
    requires GetRegisterIndex(rd).Ok? && GetRegisterIndex(rs).Ok?
    ensures ParseIType(rd + ", " + rs + ", " + target) ==
      Ok((GetRegisterIndex(rs).value, GetRegisterIndex(rd).value, Label(target)))
  {
    ThreeOperands(rd, rs, target);
  }

  /** `rs, imm` reads back as `(rs, imm)`, and `rs, target` keeps the label. */
  lemma BzTypeRoundTrip(rs: string, imm: int, target: string)
    requires Operand(rs) && Operand(target) && ParseInt(target).None?
    requires GetRegisterIndex(rs).Ok?
    ensures ParseBzType(rs + ", " + IntToString(imm)) == Ok((GetRegisterIndex(rs).value, Num(imm)))
    ensures ParseBzType(rs + ", " + target) == Ok((GetRegisterIndex(rs).value, Label(target)))
  {
    IntToStringChars(imm);
    TwoOperands(rs, IntToString(imm));
    ParseIntIntToString(imm);
    TwoOperands(rs, target);
  }

  /** `imm(rs)` splits at the parenthesis into the offset and `rs)`. */
  lemma AddressOperand(imm: int, rs: string)
    requires Operand(rs)
    ensures var address := IntToString(imm) + "(" + rs + ")";
      !IsSpace(address[0]) && !IsSpace(address[|address| - 1]) && ',' !in address
      && Split(address, '(') == [IntToString(imm), rs + ")"]
  {
    var n := IntToString(imm);
    var address := n + "(" + rs + ")";
    IntToStringChars(imm);
    assert !IsDigit(',') && !IsDigit('(');
    assert address[|address| - 1] == ')';
    assert address == n + ['('] + (rs + ")");
    SplitPrefix(n, '(', rs + ")");
    SplitNoSep(rs + ")", '(');
  }

  /** `rd, imm(rs)` reads back as `(rs, rd, imm)`. */
  lemma MemTypeRoundTrip(rd: string, imm: int, rs: string)
    requires Operand(rd) && Operand(rs)
    requires GetRegisterIndex(rd).Ok? && GetRegisterIndex(rs).Ok?
    ensures ParseMemType(rd + ", " + (IntToString(imm) + "(" + rs + ")")) ==
      Ok((GetRegisterIndex(rs).value, GetRegisterIndex(rd).value, imm))
  {
    var address := IntToString(imm) + "(" + rs + ")";
    AddressOperand(imm, rs);
    TwoOperands(rd, address);
    var parts := Split(address, '(');
    ParseIntIntToString(imm);
    assert ParseInt(parts[0]) == Some(imm);
    assert parts[1] != [] && parts[1][..|parts[1]| - 1] == rs;
  }

  /** `$` and one digit is an operand of every shape. */
  lemma DigitRegisterOperand(d: nat)
    requires d < 10
    ensures Operand(['$', DigitChar(d)]) && GetRegisterIndex(['$', DigitChar(d)]) == Ok(d)
  {
    OneDigitName(DigitChar(d));
  }
}
