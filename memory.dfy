/**
 * The 32-cell data memory shared by the 5-stage pipeline and the Tomasulo
 * engine. A write notifies the memory's listeners only when it changes a cell;
 * the model returns that notification as a flag instead of calling listeners.
 */
module DataMemory {
  import opened Wrappers
  import opened Text

  const MemorySize: nat := 32

  /** A value handed to a write: a number, or something `Number` turns into `NaN`. */
  datatype Value = Numeric(n: int) | NotANumber

  function OutOfBounds(index: int): string {
    "Memory index out of bounds: " + IntToString(index)
  }

  /** Reading cell `index`; out of range throws. */
  function Load(cells: seq<int>, index: int): Result<int>
    requires |cells| == MemorySize
  {
    if index < 0 || index >= MemorySize then Err(OutOfBounds(index)) else Ok(cells[index])
  }

  /** Writing cell `index`; a value that is not a number writes 0. */
  function Store(cells: seq<int>, index: int, v: Value): Result<seq<int>>
    requires |cells| == MemorySize
  {
    if index < 0 || index >= MemorySize then Err(OutOfBounds(index))
    else Ok(cells[index := if v.Numeric? then v.n else 0])
  }

  /** The memory: 32 cells, all 0 at first. */
  class Memory {
    var memory: array<int>

    ghost predicate Valid()
      reads this
    {
      memory.Length == MemorySize
    }

    constructor()
      ensures Valid() && fresh(memory)
      ensures memory[..] == seq(MemorySize, _ => 0)
    {
      memory := new int[MemorySize](_ => 0);
    }

    method GetAt(index: int) returns (r: Result<int>)
      requires Valid()
      ensures r == Load(memory[..], index)
    {
      if index < 0 || index >= MemorySize {
        return Err(OutOfBounds(index));
      }
      return Ok(memory[index]);
    }

    /** Writes a cell; `notified` is whether the listeners were told about a change. */
    method SetAt(index: int, value: Value) returns (r: Result<bool>)
      requires Valid()
      modifies memory
      ensures r.Err? ==> memory[..] == old(memory[..])
      ensures Store(old(memory[..]), index, value) == if r.Ok? then Ok(memory[..]) else Err(r.error)
      ensures r.Ok? ==> (r.value <==> memory[..] != old(memory[..]))
    {
      if index < 0 || index >= MemorySize {
        return Err(OutOfBounds(index));
      }
      var changed := false;
      match value {
        case NotANumber =>
          if memory[index] != 0 {
            memory[index] := 0;
            changed := true;
          }
        case Numeric(n) =>
          if memory[index] != n {
            memory[index] := n;
            changed := true;
          }
      }
      if !changed {
        assert memory[..] == old(memory[..])[index := if value.Numeric? then value.n else 0];
      } else {
        assert memory[..][index] != old(memory[..])[index];
      }
      return Ok(changed);
    }

    /** Clears every cell; the listeners are told only if some cell was not 0. */
    method Reset() returns (notified: bool)
      requires Valid()
      modifies memory
      ensures memory[..] == seq(MemorySize, _ => 0)
      ensures notified <==> exists k :: 0 <= k < MemorySize && old(memory[k]) != 0
    {
      notified := false;
      var i := 0;
      while i < memory.Length
        invariant 0 <= i <= memory.Length
        invariant forall k :: 0 <= k < i ==> memory[k] == 0
        invariant forall k :: i <= k < memory.Length ==> memory[k] == old(memory[k])
        invariant notified <==> exists k :: 0 <= k < i && old(memory[k]) != 0
      {
        if memory[i] != 0 {
          notified := true;
        }
        memory[i] := 0;
        i := i + 1;
      }
    }

    method GetMemory() returns (r: seq<int>)
      requires Valid()
      ensures |r| == MemorySize
      ensures forall k :: 0 <= k < MemorySize ==> Load(memory[..], k) == Ok(r[k])
    {
      r := memory[..];
    }
  }

  /** A write is seen by the next read of the same cell, and by no other cell. */
  lemma LoadAfterStore(cells: seq<int>, i: int, v: Value, j: int)
    requires |cells| == MemorySize
    requires 0 <= i < MemorySize
    ensures Store(cells, i, v).Ok?
    ensures Load(Store(cells, i, v).value, j) ==
      if i == j then Ok(if v.Numeric? then v.n else 0) else Load(cells, j)
  {
  }

  /** A write fails exactly when the index is out of range, and then only reports it. */
  lemma StoreFailsOutOfRange(cells: seq<int>, i: int, v: Value)
    requires |cells| == MemorySize
    ensures Store(cells, i, v).Err? <==> (i < 0 || i >= MemorySize)
    ensures Store(cells, i, v).Err? ==> Store(cells, i, v) == Err(OutOfBounds(i)) && Load(cells, i) == Err(OutOfBounds(i))
  {
  }
}
