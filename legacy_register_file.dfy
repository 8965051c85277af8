/** The first simulator's register file: 32 integer registers, `$0` hard-wired to 0. */
module LegacyRegisterFile {
  import opened Wrappers
  import opened Text

  const RegisterFileSize: nat := 32

  class RegisterFile {
    var registers: array<int>

    ghost predicate Valid()
      reads this
    {
      registers.Length == RegisterFileSize
    }

    constructor()
      ensures Valid() && fresh(registers)
      ensures registers[..] == seq(RegisterFileSize, _ => 0)
    {
      registers := new int[RegisterFileSize](_ => 0);
    }

    method GetAt(index: int) returns (r: Result<int>)
      requires Valid()
      ensures r.Err? <==> index < 0 || index >= RegisterFileSize
      ensures r.Ok? ==> r.value == if index == 0 then 0 else registers[index]
    {
      if index < 0 || index >= RegisterFileSize {
        return Err("Register index out of bounds: " + IntToString(index));
      }
      if index == 0 {
        return Ok(0);
      }
      return Ok(registers[index]);
    }

    method SetAt(index: int, value: int) returns (r: Outcome)
      requires Valid()
      modifies registers
      ensures r.Fail? <==> index < 0 || index >= RegisterFileSize
      ensures registers[..] ==
        if r.Fail? || index == 0 then old(registers[..]) else old(registers[..])[index := value]
    {
      if index < 0 || index >= RegisterFileSize {
        return Fail("Register index out of bounds: " + IntToString(index));
      }
      if index == 0 {
        return Pass;
      }
      registers[index] := value;
      return Pass;
    }
  }
}
