/**
 * The first Tomasulo engine, kept beside the current one. It has the same
 * state (stations, register-status table `qi`, memory queue) and the same
 * broadcast, update and store application, but two stations per pool,
 * latencies fixed where `tick` calls the station rules, a load that may
 * start and broadcast in the same step, and a memory queue shifted whenever
 * a MEM station broadcasts or a store writes. `step` returns nothing.
 */
module LegacyTomasulo {
  import opened Wrappers
  import opened RegisterFiles
  import opened DataMemory
  import opened InstructionMemories
  import opened TomasuloInstructions
  import opened Tomasulo

  /** Each pool is created with this many stations. */
  const StationsPerPool: nat := 2

  /** The cycles `tick` hands to each station rule. */
  const AddTime: int := 2
  const MulTime: int := 10
  const LoadTime: int := 1
  const StoreTime: int := 2

  // ---------------------------------------------------------------------------
  // The station rules

  /**
   * `reservationTickArithmetic`: an idle station does nothing; a waiting one
   * starts once both operands are values; a running one broadcasts when its
   * count would reach 0 and the bus is free, and otherwise counts down (even
   * below 0 while the bus is taken).
   */
  function TickArithmetic(rs: Station, executeTime: int, tag: RSIndex, cbdAvailable: bool, divide: Divide)
    : Result<ArithAction>
  {
    if !rs.busy then Ok(ArithIdle)
    else
      match rs.remainingTime
      case None =>
        if rs.qj.None? && rs.qk.None? then Ok(ArithUpdate(Update(tag, executeTime - 1, None)))
        else Ok(ArithIdle)
      case Some(t) =>
        if cbdAvailable && t - 1 <= 0 then
          var data :- Compute(rs.op, rs.vj, rs.vk, divide);
          Ok(ArithCommit(Commit(tag, data)))
        else Ok(ArithUpdate(Update(tag, t - 1, None)))
  }

  /** What a load station does: possibly an update, possibly a broadcast. */
  datatype LoadResult = LoadResult(update: Option<Update>, commit: Option<Commit>)

  /**
   * `reservationTickLoad`: a waiting load starts only at the head of the
   * queue with its base known, computing its effective address; in the step
   * it starts or any later one it broadcasts the memory word once its count
   * would reach 0 and the bus is free. A started load that cannot broadcast
   * counts down, and records its address in the step it starts.
   */
  function TickLoad(rs: Station, executeTime: int, isBufferFirst: bool, cbdAvailable: bool,
                    tag: RSIndex, memory: seq<int>): Result<LoadResult>
    requires |memory| == MemorySize
  {
    if !rs.busy then Ok(LoadResult(None, None))
    else if rs.remainingTime.None? && !(isBufferFirst && rs.qj.None?) then Ok(LoadResult(None, None))
    else
      var starting := rs.remainingTime.None?;
      var next := if starting then executeTime - 1 else rs.remainingTime.value - 1;
      var address := if starting then rs.vj + rs.address else rs.address;
      if cbdAvailable && next <= 0 then
        var data :- Load(memory, address);
        Ok(LoadResult(None, Some(Commit(tag, data))))
      else Ok(LoadResult(Some(Update(tag, next, if starting then Some(address) else None)), None))
  }

  /**
   * `reservationTickStore`: a waiting store starts only at the head of the
   * queue with its base known; once done and with its data known it writes
   * memory (never using the bus); until then it counts down.
   */
  function TickStore(rs: Station, executeTime: int, isBufferFirst: bool, tag: RSIndex): StoreAction {
    if !rs.busy then StoreIdle
    else
      match rs.remainingTime
      case None =>
        if isBufferFirst && rs.qj.None? then StoreUpdate(Update(tag, executeTime - 1, Some(rs.vj + rs.address)))
        else StoreIdle
      case Some(t) =>
        if t <= 0 && rs.qk.None? then StoreWrite(StoreAct(rs.address, rs.vk, tag))
        else StoreUpdate(Update(tag, t - 1, None))
  }

  // ---------------------------------------------------------------------------
  // Tick

  /** What `tick` collects: the updates in station order, the one broadcast, and the store. */
  datatype Actions = Actions(updates: seq<Update>, commit: Option<Commit>, store: Option<StoreAct>)

  function NoActions(): Actions {
    Actions([], None, None)
  }

  /** One arithmetic station's turn; the bus is free while nothing has been broadcast. */
  function ArithTurn(acc: Actions, rs: Station, executeTime: int, tag: RSIndex, divide: Divide): Result<Actions> {
    var r :- TickArithmetic(rs, executeTime, tag, acc.commit.None?, divide);
    match r
    case ArithIdle => Ok(acc)
    case ArithUpdate(u) => Ok(acc.(updates := acc.updates + [u]))
    case ArithCommit(c) => Ok(acc.(commit := Some(c)))
  }

  /** The first `n` stations of an arithmetic pool, in index order. */
  function ArithRound(ss: seq<Station>, pool: Pool, executeTime: int, n: nat, acc: Actions, divide: Divide)
    : Result<Actions>
    requires n <= |ss|
  {
    if n == 0 then Ok(acc)
    else
      var a :- ArithRound(ss, pool, executeTime, n - 1, acc, divide);
      ArithTurn(a, ss[n - 1], executeTime, RS(pool, n - 1), divide)
  }

  /** An error thrown by one station ends the whole pass with it. */
  lemma {:induction false} ArithRoundErr(ss: seq<Station>, pool: Pool, executeTime: int, n: nat, m: nat, acc: Actions,
                            divide: Divide)
    requires n <= m <= |ss| && ArithRound(ss, pool, executeTime, n, acc, divide).Err?
    ensures ArithRound(ss, pool, executeTime, m, acc, divide) == ArithRound(ss, pool, executeTime, n, acc, divide)
    decreases m
  {
    if m > n {
      ArithRoundErr(ss, pool, executeTime, n, m - 1, acc, divide);
    }
  }

  /** One MEM station's turn: a load follows the load rule, anything else the store rule. */
  function MemTurn(acc: Actions, rs: Station, i: nat, memQueue: seq<int>, memory: seq<int>): Result<Actions>
    requires |memory| == MemorySize
  {
    var first := IsBufferFirst(memQueue, i);
    if rs.op == LD then
      var r :- TickLoad(rs, LoadTime, first, acc.commit.None?, RS(MEM, i), memory);
      Ok(Actions(acc.updates + (if r.update.Some? then [r.update.value] else []),
                 if r.commit.Some? then r.commit else acc.commit,
                 acc.store))
    else
      match TickStore(rs, StoreTime, first, RS(MEM, i))
      case StoreIdle => Ok(acc)
      case StoreUpdate(u) => Ok(acc.(updates := acc.updates + [u]))
      case StoreWrite(st) => Ok(acc.(store := Some(st)))
  }

  /** The first `n` MEM stations, in index order. */
  function MemRound(ss: seq<Station>, n: nat, acc: Actions, memQueue: seq<int>, memory: seq<int>): Result<Actions>
    requires n <= |ss| && |memory| == MemorySize
  {
    if n == 0 then Ok(acc)
    else
      var a :- MemRound(ss, n - 1, acc, memQueue, memory);
      MemTurn(a, ss[n - 1], n - 1, memQueue, memory)
  }

  /** An error thrown by one MEM station ends the pass with it. */
  lemma {:induction false} MemRoundErr(ss: seq<Station>, n: nat, m: nat, acc: Actions, memQueue: seq<int>, memory: seq<int>)
    requires n <= m <= |ss| && |memory| == MemorySize && MemRound(ss, n, acc, memQueue, memory).Err?
    ensures MemRound(ss, m, acc, memQueue, memory) == MemRound(ss, n, acc, memQueue, memory)
    decreases m
  {
    if m > n {
      MemRoundErr(ss, n, m - 1, acc, memQueue, memory);
    }
  }

  /** `tick`: the ADD pool (2 cycles), the MUL pool (10), then the MEM pool (loads 1, stores 2). */
  function TickActions(s: TomaState, divide: Divide): Result<Actions>
    requires WellSized(s)
  {
    var a :- ArithRound(s.add, ADD, AddTime, |s.add|, NoActions(), divide);
    var b :- ArithRound(s.mul, MUL, MulTime, |s.mul|, a, divide);
    MemRound(s.mem, |s.mem|, b, s.memQueue, s.memory)
  }

  // ---------------------------------------------------------------------------
  // Issue

  /**
   * The station an instruction fills. It is the later engine's, except that a
   * store keeps the initial destination 0 where the later engine has none.
   */
  function StationFor(s: TomaState, inst: InstToma): Result<Station>
    requires WellSized(s)
  {
    var st :- Tomasulo.IssueStation(s, inst);
    Ok(if inst.kind == SD then st.(dest := Some(0)) else st)
  }

  /**
   * `issue`: the next instruction, its operands read, placed in the lowest
   * free station of its pool; nothing when the program is over or the pool
   * is full.
   */
  function IssueAction(s: TomaState): Result<Option<Issued>>
    requires WellSized(s)
  {
    var next :- NextInst(s);
    if next.None? then Ok(None)
    else
      var inst := next.value;
      var st :- StationFor(s, inst);
      var pool := PoolOf(inst.kind);
      match FirstFree(Stations(s, pool))
      case None => Ok(None)
      case Some(i) => Ok(Some(Issued(RS(pool, i), st)))
  }

  /**
   * The issue step as written: `qi[dest]` is tagged for every issued
   * station, so a store, whose destination stays 0, tags register 0.
   */
  function ApplyIssueAsWritten(s: TomaState, iss: Option<Issued>): (r: TomaState)
    ensures r.registers == s.registers && r.memory == s.memory && r.program == s.program && |r.qi| == |s.qi|
  {
    if iss.None? || !ValidTag(s, iss.value.tag) then s
    else
      var t := iss.value.tag;
      var s1 := WithStation(s, t, iss.value.station.(remainingTime := None)).(pc := s.pc + 1);
      var d := iss.value.station.dest;
      var s2 := if d.Some? && 0 <= d.value < |s.qi| then s1.(qi := s1.qi[d.value := Some(t)]) else s1;
      if t.pool == MEM then s2.(memQueue := s2.memQueue + [t.index]) else s2
  }

  // ---------------------------------------------------------------------------
  // step

  /** `memQueue.shift()`: the head dropped; an empty queue stays empty. */
  function Shift(q: seq<int>): seq<int> {
    if q == [] then [] else q[1..]
  }

  /** The broadcasting station freed, its result delivered, and the queue shifted when it is a MEM station. */
  function ApplyBroadcast(s: TomaState, c: Option<Commit>): (r: TomaState)
    requires WellSized(s)
    ensures WellSized(r)
  {
    var s1 := ApplyCommit(s, c);
    if c.Some? && c.value.tag.pool == MEM then s1.(memQueue := Shift(s1.memQueue)) else s1
  }

  const EmptyStoreQueueError: string := "Mem queue is empty when storing, which should not happen"

  /**
   * The phases of `step` after the issued station is placed: the broadcast,
   * the updates, then the store, which writes memory, frees its station and
   * shifts the queue. A write outside memory throws with the earlier phases
   * applied; an empty queue throws after the write.
   */
  function ApplyPhases(s1: TomaState, acts: Actions): Applied
    requires WellSized(s1)
  {
    var s2 := ApplyBroadcast(s1, acts.commit);
    var s3 := ApplyUpdates(s2, acts.updates);
    if acts.store.None? then Applied(s3, Pass)
    else
      match ApplyStore(s3, acts.store)
      case Err(e) => Applied(s3, Fail(e))
      case Ok(s4) =>
        if s4.memQueue == [] then Applied(s4, Fail(EmptyStoreQueueError))
        else Applied(s4.(memQueue := s4.memQueue[1..]), Pass)
  }

  /** The second half of `step` as written: the issued station placed, `qi[dest]` tagged even for a store, then the other phases. */
  function ApplyActions(s: TomaState, iss: Option<Issued>, acts: Actions): Applied
    requires WellSized(s)
  {
    ApplyPhases(ApplyIssueAsWritten(s, iss), acts)
  }

  /** The second half of `step` with the corrected issue, which never tags register 0. */
  function ApplyActionsCorrected(s: TomaState, iss: Option<Issued>, acts: Actions): Applied
    requires WellSized(s)
  {
    ApplyPhases(ApplyIssue(s, iss), acts)
  }

  /** `step` as written: issue and tick both look at the state before the step; an error in either changes nothing. */
  function StepOutcome(s: TomaState, divide: Divide): Applied
    requires WellSized(s)
  {
    match IssueAction(s)
    case Err(e) => Applied(s, Fail(e))
    case Ok(iss) =>
      match TickActions(s, divide)
      case Err(e) => Applied(s, Fail(e))
      case Ok(acts) => ApplyActions(s, iss, acts)
  }

  /** `step` with the corrected issue. */
  function StepOutcomeCorrected(s: TomaState, divide: Divide): Applied
    requires WellSized(s)
  {
    match IssueAction(s)
    case Err(e) => Applied(s, Fail(e))
    case Ok(iss) =>
      match TickActions(s, divide)
      case Err(e) => Applied(s, Fail(e))
      case Ok(acts) => ApplyActionsCorrected(s, iss, acts)
  }

  // ---------------------------------------------------------------------------
  // The processor

  /**
   * `TomasoluProcessor`: the stations, `qi` and the memory queue as fields,
   * over a register file and a data memory of its own. Each method does what
   * the function of the same name above describes to the state `State()`.
   */
  class TomasoluProcessor {
    const iMem: InstructionMemory<InstToma>
    const dMem: Memory
    const registerFile: RegisterFile
    var pc: int
    var add: seq<Station>
    var mul: seq<Station>
    var mem: seq<Station>
    var qi: seq<Option<RSIndex>>
    var memQueue: seq<int>
    const divide: Divide

    ghost predicate Valid()
      reads this, registerFile, dMem
    {
      registerFile.Valid() && dMem.Valid() && registerFile.registers != dMem.memory
      && |qi| == RegisterFileSize
    }

    ghost function State(): (r: TomaState)
      reads this, registerFile, registerFile.registers, dMem, dMem.memory, iMem
      ensures Valid() ==> WellSized(r)
    {
      TomaState(pc, registerFile.registers[..], dMem.memory[..], iMem.instructions, add, mul, mem, qi, memQueue)
    }

    /** A processor with two idle stations in each pool and nothing awaited. */
    constructor(iMem: InstructionMemory<InstToma>, divide: Divide)
      ensures Valid() && fresh(registerFile) && fresh(registerFile.registers) && fresh(dMem) && fresh(dMem.memory)
      ensures this.iMem == iMem && this.divide == divide
      ensures State() == InitialState(iMem.instructions, StationsPerPool, StationsPerPool, StationsPerPool)
      ensures |add| == 2 && |mul| == 2 && |mem| == 2
    {
      this.iMem := iMem;
      dMem := new Memory();
      registerFile := new RegisterFile();
      pc := 0;
      add := seq(StationsPerPool, _ => IdleStation());
      mul := seq(StationsPerPool, _ => IdleStation());
      mem := seq(StationsPerPool, _ => IdleStation());
      qi := seq(RegisterFileSize, _ => None);
      memQueue := [];
      this.divide := divide;
    }

    /** `step`: issue, tick, then apply what they found. */
    method Step() returns (r: Outcome)
      requires Valid()
      modifies this, registerFile.registers, dMem.memory
      ensures Valid()
      ensures StepOutcome(old(State()), divide) == Applied(State(), r)
    {
      var issueResult := Issue();
      if issueResult.Err? {
        return Fail(issueResult.error);
      }
      var acts := Tick();
      if acts.Err? {
        return Fail(acts.error);
      }
      PlaceIssued(issueResult.value);
      Broadcast(acts.value.commit);
      ApplyUpdateList(acts.value.updates);
      r := StoreAndShift(acts.value.store);
    }

    /** `checkRegReady`. */
    method CheckRegReady(reg: Option<int>) returns (r: Result<(Option<RSIndex>, int)>)
      requires Valid()
      ensures r == RegReady(State(), reg)
    {
      var index := if reg.Some? then reg.value else -1;
      if 0 <= index < |qi| && qi[index].Some? {
        return Ok((qi[index], 0));
      }
      var v := registerFile.GetAt(index);
      if v.Err? {
        return Err(v.error);
      }
      return Ok((None, v.value));
    }

    /** `issue`: reads the next instruction and its operands, then looks for a free station. */
    method Issue() returns (r: Result<Option<Issued>>)
      requires Valid()
      ensures r == IssueAction(State())
    {
      if 0 <= pc < AddressLimit && pc >= |iMem.instructions| {
        return Ok(None);
      }
      var next := iMem.GetInstructionAt(pc);
      if next.Err? {
        return Err(next.error);
      }
      var inst := next.value;
      var st: Station;
      var a := CheckRegReady(inst.rs.0);
      if a.Err? {
        return Err(a.error);
      }
      var (qj, vj) := a.value;
      if inst.kind == LD {
        st := Station(true, LD, vj, 0, qj, None, inst.rd, ImmOf(inst), None);
      } else {
        var b := CheckRegReady(inst.rs.1);
        if b.Err? {
          return Err(b.error);
        }
        var (qk, vk) := b.value;
        if inst.kind == SD {
          st := Station(true, SD, vj, vk, qj, qk, Some(0), ImmOf(inst), None);
        } else {
          st := Station(true, inst.kind, vj, vk, qj, qk, inst.rd, 0, None);
        }
      }
      var pool := PoolOf(inst.kind);
      var free := FirstFree(if pool == ADD then add else if pool == MUL then mul else mem);
      if free.None? {
        return Ok(None);
      }
      return Ok(Some(Issued(RS(pool, free.value), st)));
    }

    /** `tick`: every station's turn, ADD pool first, then MUL, then MEM, each in index order. */
    method Tick() returns (r: Result<Actions>)
      requires Valid()
      ensures r == TickActions(State(), divide)
    {
      var afterAdd := ArithLoop(add, ADD, AddTime, NoActions());
      if afterAdd.Err? {
        return afterAdd;
      }
      var afterMul := ArithLoop(mul, MUL, MulTime, afterAdd.value);
      if afterMul.Err? {
        return afterMul;
      }
      r := MemLoop(afterMul.value);
    }

    /** One `forEach` over an arithmetic pool; the bus is free while nothing has been broadcast. */
    method ArithLoop(ss: seq<Station>, pool: Pool, executeTime: int, acc: Actions) returns (r: Result<Actions>)
      ensures r == ArithRound(ss, pool, executeTime, |ss|, acc, divide)
    {
      var updates, commit := acc.updates, acc.commit;
      var i := 0;
      while i < |ss|
        invariant 0 <= i <= |ss|
        invariant ArithRound(ss, pool, executeTime, i, acc, divide) == Ok(acc.(updates := updates, commit := commit))
      {
        var result := TickArithmetic(ss[i], executeTime, RS(pool, i), commit.None?, divide);
        if result.Err? {
          ArithRoundErr(ss, pool, executeTime, i + 1, |ss|, acc, divide);
          return Err(result.error);
        }
        match result.value {
          case ArithIdle =>
          case ArithUpdate(u) => updates := updates + [u];
          case ArithCommit(c) => commit := Some(c);
        }
        i := i + 1;
      }
      return Ok(acc.(updates := updates, commit := commit));
    }

    /** The `forEach` over the MEM pool: loads by the load rule, the rest by the store rule. */
    method MemLoop(acc: Actions) returns (r: Result<Actions>)
      requires Valid()
      ensures r == MemRound(mem, |mem|, acc, memQueue, dMem.memory[..])
    {
      var memory := dMem.memory[..];
      var updates, commit, store := acc.updates, acc.commit, acc.store;
      var i := 0;
      while i < |mem|
        invariant 0 <= i <= |mem|
        invariant MemRound(mem, i, acc, memQueue, memory) == Ok(Actions(updates, commit, store))
      {
        var first := IsBufferFirst(memQueue, i);
        if mem[i].op == LD {
          var result := TickLoad(mem[i], LoadTime, first, commit.None?, RS(MEM, i), memory);
          if result.Err? {
            MemRoundErr(mem, i + 1, |mem|, acc, memQueue, memory);
            return Err(result.error);
          }
          var action := result.value;
          if action.update.Some? {
            updates := updates + [action.update.value];
          } else {
            assert updates + [] == updates;
          }
          if action.commit.Some? {
            commit := action.commit;
          }
        } else {
          match TickStore(mem[i], StoreTime, first, RS(MEM, i)) {
            case StoreIdle =>
            case StoreUpdate(u) => updates := updates + [u];
            case StoreWrite(st) => store := Some(st);
          }
        }
        i := i + 1;
      }
      return Ok(Actions(updates, commit, store));
    }

    /** The stations of one pool. */
    function StationsOf(p: Pool): (r: seq<Station>)
      reads this
      ensures r == Stations(State(), p)
    {
      match p
      case ADD => add
      case MUL => mul
      case MEM => mem
    }

    /** Replaces station `t`. */
    method SetStation(t: RSIndex, st: Station)
      requires ValidTag(State(), t)
      modifies this
      ensures pc == old(pc) && qi == old(qi) && memQueue == old(memQueue)
      ensures add == Stations(WithStation(old(State()), t, st), ADD)
      ensures mul == Stations(WithStation(old(State()), t, st), MUL)
      ensures mem == Stations(WithStation(old(State()), t, st), MEM)
    {
      match t.pool
      case ADD => add := add[t.index := st];
      case MUL => mul := mul[t.index := st];
      case MEM => mem := mem[t.index := st];
    }

    /** Every station of a pool waiting for the broadcast tag takes the value. */
    method ForwardPool(ss: seq<Station>, c: Commit) returns (r: seq<Station>)
      ensures r == Forward(ss, c)
    {
      r := ss;
      var i := 0;
      while i < |ss|
        invariant 0 <= i <= |ss| && |r| == |ss|
        invariant forall k :: 0 <= k < i ==> r[k] == ForwardStation(ss[k], c)
        invariant forall k :: i <= k < |ss| ==> r[k] == ss[k]
      {
        var st := r[i];
        if st.qj == Some(c.tag) {
          st := st.(vj := c.data, qj := None);
        }
        if st.qk == Some(c.tag) {
          st := st.(vk := c.data, qk := None);
        }
        r := r[i := st];
        i := i + 1;
      }
    }

    /** `commitChange`: the register awaiting the tag is written, and the waiting stations take the value. */
    method CommitChange(c: Commit)
      requires Valid()
      modifies this, registerFile.registers
      ensures Valid()
      ensures State() == CommitChangeSpec(old(State()), c)
    {
      var qiIndex := FindTag(qi, c.tag);
      if qiIndex.Some? {
        qi := qi[qiIndex.value := None];
        var _ := registerFile.SetAt(qiIndex.value, c.data);
      }
      add := ForwardPool(add, c);
      mul := ForwardPool(mul, c);
      mem := ForwardPool(mem, c);
    }

    /** The issued station placed, `pc` advanced, its destination tagged (a store's too, which is register 0), a memory access queued. */
    method PlaceIssued(issueResult: Option<Issued>)
      requires Valid()
      modifies this
      ensures Valid()
      ensures State() == ApplyIssueAsWritten(old(State()), issueResult)
    {
      if issueResult.Some? && issueResult.value.tag.index < |StationsOf(issueResult.value.tag.pool)| {
        var t := issueResult.value.tag;
        pc := pc + 1;
        SetStation(t, issueResult.value.station.(remainingTime := None));
        var d := issueResult.value.station.dest;
        if d.Some? && 0 <= d.value < |qi| {
          qi := qi[d.value := Some(t)];
        }
        if t.pool == MEM {
          memQueue := memQueue + [t.index];
        }
      }
    }

    /** The broadcasting station freed, `commitChange`, and the queue shifted for a MEM station. */
    method Broadcast(commit: Option<Commit>)
      requires Valid()
      modifies this, registerFile.registers
      ensures Valid()
      ensures State() == ApplyBroadcast(old(State()), commit)
    {
      if commit.Some? && commit.value.tag.index < |StationsOf(commit.value.tag.pool)| {
        var t := commit.value.tag;
        SetStation(t, StationsOf(t.pool)[t.index].(busy := false));
        CommitChange(commit.value);
      }
      if commit.Some? && commit.value.tag.pool == MEM {
        memQueue := Shift(memQueue);
      }
    }

    /** `update.forEach`: each station's cycles left, and its address when given. */
    method ApplyUpdateList(updates: seq<Update>)
      requires Valid()
      modifies this
      ensures Valid()
      ensures State() == ApplyUpdates(old(State()), updates)
    {
      var i := 0;
      while i < |updates|
        invariant 0 <= i <= |updates|
        invariant Valid()
        invariant ApplyUpdates(State(), updates[i..]) == ApplyUpdates(old(State()), updates)
      {
        var u := updates[i];
        ghost var before := State();
        if u.tag.index < |StationsOf(u.tag.pool)| {
          SetStation(u.tag, Updated(StationsOf(u.tag.pool)[u.tag.index], u));
        }
        assert State() == ApplyUpdate(before, u);
        assert updates[i..][1..] == updates[i + 1..];
        i := i + 1;
      }
    }

    /** The store written, its station freed, then the queue shifted; an empty queue throws. */
    method StoreAndShift(store: Option<StoreAct>) returns (r: Outcome)
      requires Valid()
      modifies this, dMem.memory
      ensures Valid()
      ensures ApplyActions(old(State()), None, Actions([], None, store)) == Applied(State(), r)
    {
      if store.None? {
        return Pass;
      }
      var written := dMem.SetAt(store.value.address, Numeric(store.value.data));
      if written.Err? {
        return Fail(written.error);
      }
      var t := RS(MEM, store.value.tag.index);
      if t.index < |mem| {
        SetStation(t, mem[t.index].(busy := false));
      }
      if memQueue == [] {
        return Fail(EmptyStoreQueueError);
      }
      memQueue := memQueue[1..];
      return Pass;
    }
  }
}
