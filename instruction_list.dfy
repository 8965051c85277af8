/**
 * The instruction list the five-stage view shows: every instruction of the
 * program, each tagged with the pipeline stage it is in, if any.  The stage
 * of an instruction is read off the `originalIndex` of the instruction at
 * `pc` (IF) and of the instructions held by the four latches (ID, EX, MEM,
 * WB).
 */
module StageLabels {
  import opened Wrappers
  import opened InstructionMemories
  import opened InstructionParse
  import opened BasicInstructions

  datatype Stage = IF | ID | EX | MEM | WB

  /** The stages in the order they are applied. */
  const Stages: seq<Stage> := [IF, ID, EX, MEM, WB]

  datatype InstWithStage = InstWithStage(inst: Inst5, stage: Option<Stage>)

  /**
   * The stage entry `k` is labelled with by the indices in `indices`, the
   * `j`-th index belonging to `Stages[j]`: the last stage naming `k`, or
   * none.
   */
  function LastStage(indices: seq<Option<int>>, k: int): Option<Stage>
    requires |indices| <= |Stages|
  {
    if indices == [] then None
    else if indices[|indices| - 1] == Some(k) then Some(Stages[|indices| - 1])
    else LastStage(indices[..|indices| - 1], k)
  }

  /**
   * The later stage wins: entry `k` is labelled with `Stages[j]` exactly when
   * the `j`-th index is `k` and no later index is, and with nothing exactly
   * when no index is `k`.
   */
  lemma {:induction false} LastStageSpec(indices: seq<Option<int>>, k: int, j: nat)
    requires |indices| <= |Stages| && j < |indices|
    ensures LastStage(indices, k) == Some(Stages[j]) <==>
      indices[j] == Some(k) && forall j' :: j < j' < |indices| ==> indices[j'] != Some(k)
    ensures LastStage(indices, k).None? <==> Some(k) !in indices
  {
    var n := |indices| - 1;
    StagesDistinct();
    if j == n {
      if LastStage(indices[..n], k).Some? {
        LastStageNamesK(indices[..n], k);
      }
    } else {
      LastStageSpec(indices[..n], k, j);
      assert forall j' :: 0 <= j' < n ==> indices[..n][j'] == indices[j'];
    }
    LastStageNone(indices, k);
  }

  /** The five stages are distinct. */
  lemma StagesDistinct()
    ensures forall i, j :: 0 <= i < j < |Stages| ==> Stages[i] != Stages[j]
  {
  }

  /** No stage names `k` exactly when `k` is none of the indices. */
  lemma {:induction false} LastStageNone(indices: seq<Option<int>>, k: int)
    requires |indices| <= |Stages|
    ensures LastStage(indices, k).None? <==> Some(k) !in indices
  {
    if indices != [] {
      var n := |indices| - 1;
      LastStageNone(indices[..n], k);
      assert indices == indices[..n] + [indices[n]];
    }
  }

  /** The stage a label names is one whose index is `k`. */
  lemma {:induction false} LastStageNamesK(indices: seq<Option<int>>, k: int)
    requires |indices| <= |Stages| && LastStage(indices, k).Some?
    ensures exists j :: 0 <= j < |indices| && Stages[j] == LastStage(indices, k).value && indices[j] == Some(k)
  {
    var n := |indices| - 1;
    if indices[n] != Some(k) {
      LastStageNamesK(indices[..n], k);
      var j :| 0 <= j < n && Stages[j] == LastStage(indices[..n], k).value && indices[..n][j] == Some(k);
      assert indices[j] == Some(k);
    }
  }

  /** Each stage labels at most one entry: the one its index names. */
  lemma StageLabelsOneEntry(indices: seq<Option<int>>, k1: int, k2: int)
    requires |indices| <= |Stages|
    requires LastStage(indices, k1).Some? && LastStage(indices, k1) == LastStage(indices, k2)
    ensures k1 == k2
  {
    LastStageNamesK(indices, k1);
    LastStageNamesK(indices, k2);
    var j1 :| 0 <= j1 < |indices| && Stages[j1] == LastStage(indices, k1).value && indices[j1] == Some(k1);
    var j2 :| 0 <= j2 < |indices| && Stages[j2] == LastStage(indices, k2).value && indices[j2] == Some(k2);
    StagesDistinct();
  }

  /** One step of the labelling loop: what `results[index].stage = stage` does, if the index is in range. */
  lemma LabelStep(indices: seq<Option<int>>, i: nat, k: int)
    requires i < |indices| <= |Stages|
    ensures LastStage(indices[..i + 1], k) ==
      if indices[i] == Some(k) then Some(Stages[i]) else LastStage(indices[..i], k)
  {
    assert indices[..i + 1][..i] == indices[..i];
  }

  /**
   * `parseInstWithStage` for a pipeline whose instruction memory is `iMem`,
   * whose `pc` is `pc` and whose latches hold `if2id`, `id2ex`, `ex2mem` and
   * `mem2wb`: one entry per program instruction, in order, each labelled with
   * the last stage whose index names it; reading the instruction at `pc`
   * fails as `getInstructionAt` does.
   */
  method ParseInstWithStage(iMem: InstructionMemory<Inst5>, pc: int, if2id: Inst5, id2ex: Inst5, ex2mem: Inst5, mem2wb: Inst5)
    returns (r: Result<seq<InstWithStage>>)
    ensures r.Err? <==> InstructionAt(iMem.instructions, iMem.defaultInst, pc).Err?
    ensures r.Ok? ==>
      var indices := [InstructionAt(iMem.instructions, iMem.defaultInst, pc).value.originalIndex,
                      if2id.originalIndex, id2ex.originalIndex, ex2mem.originalIndex, mem2wb.originalIndex];
      |r.value| == |iMem.instructions|
      && forall k :: 0 <= k < |r.value| ==> r.value[k] == InstWithStage(iMem.instructions[k], LastStage(indices, k))
  {
    var fetched := iMem.GetInstructionAt(pc);
    if fetched.Err? {
      return Err(fetched.error);
    }
    var indices := [fetched.value.originalIndex, if2id.originalIndex, id2ex.originalIndex,
                    ex2mem.originalIndex, mem2wb.originalIndex];
    var insts := iMem.instructions;
    var results := seq(|insts|, k requires 0 <= k < |insts| => InstWithStage(insts[k], None));
    for i := 0 to |indices|
      invariant |results| == |insts|
      invariant forall k :: 0 <= k < |results| ==> results[k] == InstWithStage(insts[k], LastStage(indices[..i], k))
    {
      var index := indices[i];
      if index.Some? && index.value >= 0 && index.value < |results| {
        results := results[index.value := results[index.value].(stage := Some(Stages[i]))];
      }
      forall k | 0 <= k < |results|
        ensures results[k] == InstWithStage(insts[k], LastStage(indices[..i + 1], k))
      {
        LabelStep(indices, i, k);
      }
    }
    assert indices[..|indices|] == indices;
    return Ok(results);
  }
}
