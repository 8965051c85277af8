/** The first simulator's data memory: 1024 cells. */
module LegacyMemory {
  import opened Wrappers
  import opened Text

  const MemorySize: nat := 1024

  class Memory {
    var memory: array<int>

    ghost predicate Valid()
      reads this
    {
      memory.Length == MemorySize
    }

    constructor()
      ensures Valid() && fresh(memory)
      ensures memory[..] == seq(MemorySize, _ => 0)
    {
      memory := new int[MemorySize](_ => 0);
    }

    method GetAt(index: int) returns (r: Result<int>)
      requires Valid()
      ensures r.Err? <==> index < 0 || index >= MemorySize
      ensures r.Ok? ==> r.value == memory[index]
    {
      if index < 0 || index >= MemorySize {
        return Err("Memory index out of bounds: " + IntToString(index));
      }
      return Ok(memory[index]);
    }

    method SetAt(index: int, value: int) returns (r: Outcome)
      requires Valid()
      modifies memory
      ensures r.Fail? <==> index < 0 || index >= MemorySize
      ensures memory[..] == if r.Fail? then old(memory[..]) else old(memory[..])[index := value]
    {
      if index < 0 || index >= MemorySize {
        return Fail("Memory index out of bounds: " + IntToString(index));
      }
      memory[index] := value;
      return Pass;
    }

    method Reset()
      requires Valid()
      modifies memory
      ensures memory[..] == seq(MemorySize, _ => 0)
    {
      var i := 0;
      while i < memory.Length
        invariant 0 <= i <= memory.Length
        invariant forall k :: 0 <= k < i ==> memory[k] == 0
      {
        memory[i] := 0;
        i := i + 1;
      }
    }
  }
}
