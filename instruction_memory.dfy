/**
 * Instruction memory: the program as a list, addressed by instruction index.
 * Addresses from the end of the program up to 999 read a default instruction
 * (a NOP for the 5-stage pipeline; for the Tomasulo engine the default throws).
 */
module InstructionMemories {
  import opened Wrappers
  import opened Text

  const AddressLimit: nat := 1000

  /** The instruction read at `index`. */
  function InstructionAt<T>(instructions: seq<T>, defaultInst: Result<T>, index: int): Result<T> {
    if index < 0 || index >= AddressLimit then Err("Instruction index out of bounds: " + IntToString(index))
    else if index >= |instructions| then defaultInst
    else Ok(instructions[index])
  }

  class InstructionMemory<T> {
    var instructions: seq<T>
    /** What `getDefaultInst` yields: an instruction, or the error it throws. */
    const defaultInst: Result<T>

    constructor(instructions: seq<T>, defaultInst: Result<T>)
      ensures this.instructions == instructions && this.defaultInst == defaultInst
    {
      this.instructions := instructions;
      this.defaultInst := defaultInst;
    }

    method GetInstructionAt(index: int) returns (r: Result<T>)
      ensures r == InstructionAt(instructions, defaultInst, index)
      ensures index < 0 || index >= AddressLimit ==> r.Err?
      ensures 0 <= index < |instructions| && index < AddressLimit ==> r == Ok(instructions[index])
      ensures |instructions| <= index < AddressLimit ==> r == defaultInst
    {
      if index < 0 || index >= AddressLimit {
        return Err("Instruction index out of bounds: " + IntToString(index));
      }
      if index >= |instructions| {
        return defaultInst;
      }
      return Ok(instructions[index]);
    }

    function GetSize(): nat
      reads this
    {
      |instructions|
    }

    method Reset()
      modifies this
      ensures instructions == []
    {
      instructions := [];
    }
  }
}
