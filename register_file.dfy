/**
 * The 48-entry register file shared by the 5-stage pipeline and the Tomasulo
 * engine (32 integer registers `$0..$31` followed by 16 floating-point
 * registers `$f0..$f15`), and the translation between register names and indices.
 */
module RegisterFiles {
  import opened Wrappers
  import opened Text

  const RegisterFileSize: nat := 32 + 16

  /** Reading register `index` of the cells `regs`: out of range throws, `$0` reads 0. */
  function Read(regs: seq<int>, index: int): Result<int>
    requires |regs| == RegisterFileSize
  {
    if index < 0 || index >= RegisterFileSize then Err("Register index out of bounds: " + IntToString(index))
    else if index == 0 then Ok(0)
    else Ok(regs[index])
  }

  /** Writing `value` to register `index`: out of range throws, writes to `$0` are ignored. */
  function Write(regs: seq<int>, index: int, value: int): Result<seq<int>>
    requires |regs| == RegisterFileSize
  {
    if index < 0 || index >= RegisterFileSize then Err("Register index out of bounds: " + IntToString(index))
    else if index == 0 then Ok(regs)
    else Ok(regs[index := value])
  }

  /** The register file: 48 cells, all 0 at first. */
  class RegisterFile {
    var registers: array<int>

    ghost predicate Valid()
      reads this
    {
      registers.Length == RegisterFileSize
    }

    constructor()
      ensures Valid() && fresh(registers)
      ensures registers[..] == seq(RegisterFileSize, _ => 0)
    {
      registers := new int[RegisterFileSize](_ => 0);
    }

    method GetAt(index: int) returns (r: Result<int>)
      requires Valid()
      ensures r == Read(registers[..], index)
    {
      if index < 0 || index >= RegisterFileSize {
        return Err("Register index out of bounds: " + IntToString(index));
      }
      if index == 0 {
        return Ok(0);
      }
      return Ok(registers[index]);
    }

    method SetAt(index: int, value: int) returns (r: Outcome)
      requires Valid()
      modifies registers
      ensures Write(old(registers[..]), index, value) == if r.Pass? then Ok(registers[..]) else Err(r.error)
      ensures r.Fail? ==> registers[..] == old(registers[..])
    {
      if index < 0 || index >= RegisterFileSize {
        return Fail("Register index out of bounds: " + IntToString(index));
      }
      if index == 0 {
        return Pass;
      }
      if registers[index] != value {
        registers[index] := value;
      } else {
        assert registers[..] == old(registers[..])[index := value];
      }
      return Pass;
    }

    method Reset()
      requires Valid()
      modifies registers
      ensures registers[..] == seq(RegisterFileSize, _ => 0)
    {
      var i := 0;
      while i < registers.Length
        invariant 0 <= i <= registers.Length
        invariant forall k :: 0 <= k < i ==> registers[k] == 0
      {
        registers[i] := 0;
        i := i + 1;
      }
    }

    method GetRegisters() returns (r: seq<int>)
      requires Valid()
      ensures r == registers[..] && |r| == RegisterFileSize
      ensures forall k :: 0 < k < RegisterFileSize ==> Read(registers[..], k) == Ok(r[k])
    {
      r := registers[..];
    }
  }

  /** A write is seen by the next read of the same register, and only there; `$0` stays 0. */
  lemma ReadAfterWrite(regs: seq<int>, i: int, v: int, j: int)
    requires |regs| == RegisterFileSize
    requires 0 <= i < RegisterFileSize
    ensures Write(regs, i, v).Ok?
    ensures Read(Write(regs, i, v).value, j) ==
      if i == j && i != 0 then Ok(v) else Read(regs, j)
  {
  }

  /** The integer registers' names, in the name table's declaration order. */
  const IntegerRegisterNames: seq<string> := [
    "$zero", "$at", "$v0", "$v1", "$a0", "$a1", "$a2", "$a3",
    "$t0", "$t1", "$t2", "$t3", "$t4", "$t5", "$t6", "$t7",
    "$s0", "$s1", "$s2", "$s3", "$s4", "$s5", "$s6", "$s7",
    "$t8", "$t9", "$k0", "$k1", "$gp", "$sp", "$fp", "$ra"
  ]

  /** The floating-point registers' names, in the name table's declaration order. */
  const FloatRegisterNames: seq<string> := [
    "$f0", "$f1", "$f2", "$f3", "$f4", "$f5", "$f6", "$f7",
    "$f8", "$f9", "$f10", "$f11", "$f12", "$f13", "$f14", "$f15"
  ]

  /** The name table's keys in declaration order: the key at position `k` names register `k`. */
  const RegisterNames: seq<string> := IntegerRegisterNames + FloatRegisterNames

  /** A property lookup in the name table: the position of the first key equal to `key`. */
  function IndexOf(keys: seq<string>, key: string): (r: Option<nat>)
    ensures r.Some? ==> r.value < |keys| && keys[r.value] == key
    ensures r.Some? ==> forall k :: 0 <= k < r.value ==> keys[k] != key
    ensures r.None? <==> key !in keys
  {
    if keys == [] then None
    else if keys[0] == key then Some(0)
    else match IndexOf(keys[1..], key)
           case None => None
           case Some(k) => Some(k + 1)
  }

  function DigitAt(s: string, i: nat): int {
    if i < |s| && IsDigit(s[i]) then DigitValue(s[i]) else -1
  }

  /** Reads a key of the table back to its position; it shows the keys are distinct. */
  ghost function KeyCode(key: string): int {
    if |key| < 3 then -1
    else
      var c, d := key[1], DigitAt(key, 2);
      if c == 'z' then 0
      else if c == 'a' then (if key[2] == 't' then 1 else 4 + d)
      else if c == 'v' then 2 + d
      else if c == 't' then (if d < 8 then 8 + d else 16 + d)
      else if c == 's' then (if key[2] == 'p' then 29 else 16 + d)
      else if c == 'k' then 26 + d
      else if c == 'g' then 28
      else if c == 'r' then 31
      else if c == 'f' then (if key[2] == 'p' then 30 else if |key| == 3 then 32 + d else 42 + DigitAt(key, 3))
      else -1
  }

  /** Every key starts with `$` and a letter, and decodes to its own position. */
  lemma KeyFacts(index: nat)
    requires index < RegisterFileSize
    ensures var key := RegisterNames[index];
      |key| > 2 && key[0] == '$' && !IsDigit(key[1]) && !IsSpace(key[|key| - 1]) && KeyCode(key) == index
  {
    if index < 12 { KeyFacts0(index); }
    else if index < 24 { KeyFacts1(index); }
    else if index < 36 { KeyFacts2(index); }
    else { KeyFacts3(index); }
  }

  lemma KeyFacts0(index: nat)
    requires 0 <= index < 12
    ensures var key := RegisterNames[index];
      |key| > 2 && key[0] == '$' && !IsDigit(key[1]) && !IsSpace(key[|key| - 1]) && KeyCode(key) == index
  {
    if index == 0 { assert RegisterNames[0] == "$zero"; }
    if index == 1 { assert RegisterNames[1] == "$at"; }
    if index == 2 { assert RegisterNames[2] == "$v0"; }
    if index == 3 { assert RegisterNames[3] == "$v1"; }
    if index == 4 { assert RegisterNames[4] == "$a0"; }
    if index == 5 { assert RegisterNames[5] == "$a1"; }
    if index == 6 { assert RegisterNames[6] == "$a2"; }
    if index == 7 { assert RegisterNames[7] == "$a3"; }
    if index == 8 { assert RegisterNames[8] == "$t0"; }
    if index == 9 { assert RegisterNames[9] == "$t1"; }
    if index == 10 { assert RegisterNames[10] == "$t2"; }
    if index == 11 { assert RegisterNames[11] == "$t3"; }
  }

  lemma KeyFacts1(index: nat)
    requires 12 <= index < 24
    ensures var key := RegisterNames[index];
      |key| > 2 && key[0] == '$' && !IsDigit(key[1]) && !IsSpace(key[|key| - 1]) && KeyCode(key) == index
  {
    if index == 12 { assert RegisterNames[12] == "$t4"; }
    if index == 13 { assert RegisterNames[13] == "$t5"; }
    if index == 14 { assert RegisterNames[14] == "$t6"; }
    if index == 15 { assert RegisterNames[15] == "$t7"; }
    if index == 16 { assert RegisterNames[16] == "$s0"; }
    if index == 17 { assert RegisterNames[17] == "$s1"; }
    if index == 18 { assert RegisterNames[18] == "$s2"; }
    if index == 19 { assert RegisterNames[19] == "$s3"; }
    if index == 20 { assert RegisterNames[20] == "$s4"; }
    if index == 21 { assert RegisterNames[21] == "$s5"; }
    if index == 22 { assert RegisterNames[22] == "$s6"; }
    if index == 23 { assert RegisterNames[23] == "$s7"; }
  }

  lemma KeyFacts2(index: nat)
    requires 24 <= index < 36
    ensures var key := RegisterNames[index];
      |key| > 2 && key[0] == '$' && !IsDigit(key[1]) && !IsSpace(key[|key| - 1]) && KeyCode(key) == index
  {
    if index == 24 { assert RegisterNames[24] == "$t8"; }
    if index == 25 { assert RegisterNames[25] == "$t9"; }
    if index == 26 { assert RegisterNames[26] == "$k0"; }
    if index == 27 { assert RegisterNames[27] == "$k1"; }
    if index == 28 { assert RegisterNames[28] == "$gp"; }
    if index == 29 { assert RegisterNames[29] == "$sp"; }
    if index == 30 { assert RegisterNames[30] == "$fp"; }
    if index == 31 { assert RegisterNames[31] == "$ra"; }
    if index == 32 { assert RegisterNames[32] == "$f0"; }
    if index == 33 { assert RegisterNames[33] == "$f1"; }
    if index == 34 { assert RegisterNames[34] == "$f2"; }
    if index == 35 { assert RegisterNames[35] == "$f3"; }
  }

  lemma KeyFacts3(index: nat)
    requires 36 <= index < 48
    ensures var key := RegisterNames[index];
      |key| > 2 && key[0] == '$' && !IsDigit(key[1]) && !IsSpace(key[|key| - 1]) && KeyCode(key) == index
  {
    if index == 36 { assert RegisterNames[36] == "$f4"; }
    if index == 37 { assert RegisterNames[37] == "$f5"; }
    if index == 38 { assert RegisterNames[38] == "$f6"; }
    if index == 39 { assert RegisterNames[39] == "$f7"; }
    if index == 40 { assert RegisterNames[40] == "$f8"; }
    if index == 41 { assert RegisterNames[41] == "$f9"; }
    if index == 42 { assert RegisterNames[42] == "$f10"; }
    if index == 43 { assert RegisterNames[43] == "$f11"; }
    if index == 44 { assert RegisterNames[44] == "$f12"; }
    if index == 45 { assert RegisterNames[45] == "$f13"; }
    if index == 46 { assert RegisterNames[46] == "$f14"; }
    if index == 47 { assert RegisterNames[47] == "$f15"; }
  }

  /** Every key of the table looks up to its own position. */
  lemma NameTableKeys(index: nat)
    requires index < RegisterFileSize
    ensures IndexOf(RegisterNames, RegisterNames[index]) == Some(index)
  {
    var r := IndexOf(RegisterNames, RegisterNames[index]);
    assert r.Some?;
    KeyFacts(index);
    KeyFacts(r.value);
  }

  /**
   * The register a name denotes: `$` followed by one digit, or a key of the
   * name table, surrounding white space ignored.
   */
  function GetRegisterIndex(str: string): (r: Result<int>)
    ensures r.Ok? ==> 0 <= r.value < RegisterFileSize
  {
    var trimmed := Trim(str);
    if |trimmed| < 2 || trimmed[0] != '$' then Err("Invalid register name: " + str)
    else if |trimmed| == 2 then
      match ParseInt(trimmed[1..])
      case None => Err("Invalid register index: " + str)
      case Some(index) =>
        if index < 0 || index >= RegisterFileSize then Err("Invalid register index: " + str)
        else Ok(index)
    else
      match IndexOf(RegisterNames, trimmed)
      case None => Err("Invalid register name: " + str)
      case Some(k) => Ok(k)
  }

  /** The name shown for register `index`: `$0` for register 0, else its table key. */
  function RegisterName(index: int): Result<string> {
    if index < 0 || index >= RegisterFileSize then Err("Invalid register index: " + IntToString(index))
    else if index == 0 then Ok("$0")
    else Ok(RegisterNames[index])
  }

  /** Looks the index up among the table's entries, in declaration order. */
  method GetRegisterName(index: int) returns (r: Result<string>)
    ensures r == RegisterName(index)
  {
    if index < 0 || index >= RegisterFileSize {
      return Err("Invalid register index: " + IntToString(index));
    }
    if index == 0 {
      return Ok("$0");
    }
    var k := 0;
    while k < |RegisterNames|
      invariant 0 <= k <= index
    {
      if k == index {
        return Ok(RegisterNames[k]);
      }
      k := k + 1;
    }
    return Err("unreachable");
  }

  /** The name of every register reads back as that register. */
  lemma RegisterNameRoundTrip(index: int)
    requires 0 <= index < RegisterFileSize
    ensures RegisterName(index).Ok?
    ensures GetRegisterIndex(RegisterName(index).value) == Ok(index)
  {
    if index == 0 {
      OneDigitName('0');
      assert RegisterName(0).value == ['$', '0'];
    } else {
      KeyRoundTrip(index);
    }
  }

  /** `$` and one digit name the register with that number. */
  lemma OneDigitName(d: char)
    requires IsDigit(d)
    ensures GetRegisterIndex(['$', d]) == Ok(DigitValue(d) as int)
  {
    var name := ['$', d];
    TrimNoSpaceEnds(name);
    var trimmed := Trim(name);
    assert |trimmed| == 2 && trimmed[0] == '$' && trimmed[1..] == [d];
    ParseIntOneChar(d);
    assert ParseInt(trimmed[1..]) == Some(DigitValue(d) as int);
  }

  /** Every key of the name table, `$zero` included, names its own register. */
  lemma KeyRoundTrip(index: nat)
    requires index < RegisterFileSize
    ensures GetRegisterIndex(RegisterNames[index]) == Ok(index)
  {
    var name := RegisterNames[index];
    NameTableKeys(index);
    KeyFacts(index);
    TrimNoSpaceEnds(name);
  }

  /** `$` followed by a number of two or more digits is no register name (`$10` is invalid). */
  lemma NumericNameNeedsOneDigit(n: nat)
    requires n >= 10
    ensures GetRegisterIndex("$" + NatToString(n)).Err?
  {
    var digits := NatToString(n);
    var name := "$" + digits;
    assert |digits| >= 2 by {
      assert digits == NatToString(n / 10) + [DigitChar(n % 10)];
    }
    NatToStringDigits(n);
    assert name[1] == digits[0] && digits[0] in digits;
    assert name[|name| - 1] == digits[|digits| - 1] && digits[|digits| - 1] in digits;
    TrimNoSpaceEnds(name);
    if name in RegisterNames {
      var k :| 0 <= k < |RegisterNames| && RegisterNames[k] == name;
      KeyFacts(k);
    }
  }
}
