/**
 * The Tomasulo engine, as values: three pools of reservation stations (ADD,
 * MUL, MEM), the register-status table `qi` naming the station that will
 * produce each register, and the queue of MEM stations in program order.
 * One `step` issues the next instruction into a free station, lets every
 * station start, count down, or finish (at most one result goes on the common
 * data bus, and a store writes memory), and then applies all of it in the
 * order the engine does.
 */
module Tomasulo {
  import opened Wrappers
  import opened RegisterFiles
  import opened DataMemory
  import opened InstructionMemories
  import opened InstructionParse
  import opened TomasuloInstructions

  datatype Pool = ADD | MUL | MEM

  /** A station's tag: its pool and its position there. */
  datatype RSIndex = RS(pool: Pool, index: nat)

  /**
   * A reservation station: the operation, the operand values `vj`/`vk` or the
   * tags `qj`/`qk` of the stations that will produce them, the destination
   * register, the address (the offset at issue, the effective address once a
   * memory access starts) and the cycles left (`None` until it starts).
   */
  datatype Station = Station(busy: bool, op: TomaOp, vj: int, vk: int, qj: Option<RSIndex>, qk: Option<RSIndex>,
                             dest: Option<int>, address: int, remainingTime: Option<int>)

  /** A station as the constructor makes it. */
  function IdleStation(): Station {
    Station(false, ADDD, 0, 0, None, None, Some(0), 0, None)
  }

  /** The division `DIV.D` performs, supplied from outside. */
  type Divide = (int, int) -> int

  /** `getOpExecuteTime`: the cycles an operation takes once started. */
  function ExecuteTime(op: TomaOp): (t: nat)
    ensures PoolOf(op) == ADD ==> t == 2
    ensures PoolOf(op) == MEM ==> t == 2
    ensures op == MULD ==> t == 10
    ensures op == DIVD ==> t == 40
  {
    match op
    case ADDD => 2
    case SUBD => 2
    case MULD => 10
    case DIVD => 40
    case LD => 2
    case SD => 2
  }

  /** The pool that executes an operation. */
  function PoolOf(op: TomaOp): Pool {
    match op
    case ADDD => ADD
    case SUBD => ADD
    case MULD => MUL
    case DIVD => MUL
    case LD => MEM
    case SD => MEM
  }

  /** The result an arithmetic station puts on the bus. */
  function Compute(op: TomaOp, vj: int, vk: int, divide: Divide): Result<int> {
    match op
    case ADDD => Ok(vj + vk)
    case SUBD => Ok(vj - vk)
    case MULD => Ok(vj * vk)
    case DIVD => Ok(divide(vj, vk))
    case _ => Err("Invalid operation")
  }

  // ---------------------------------------------------------------------------
  // The actions a tick produces

  /** Set a station's cycles left, and its effective address when it starts a memory access. */
  datatype Update = Update(tag: RSIndex, remainingTime: int, address: Option<int>)

  /** A result on the common data bus; the station producing it becomes free. */
  datatype Commit = Commit(tag: RSIndex, data: int)

  /** A store's write to memory; the store's station becomes free. */
  datatype StoreAct = StoreAct(address: int, data: int, tag: RSIndex)

  datatype ArithAction = ArithIdle | ArithUpdate(u: Update) | ArithCommit(c: Commit)

  /**
   * `reservationTickArithmetic`: an idle station does nothing; a waiting one
   * starts once both operands are values; a running one counts down; one
   * that is done broadcasts if the bus is still free this cycle.
   */
  function ReservationTickArithmetic(rs: Station, tag: RSIndex, cbdAvailable: bool, divide: Divide)
    : Result<ArithAction>
  {
    if !rs.busy then Ok(ArithIdle)
    else
      match rs.remainingTime
      case None =>
        if rs.qj.None? && rs.qk.None? then Ok(ArithUpdate(Update(tag, ExecuteTime(rs.op) - 1, None)))
        else Ok(ArithIdle)
      case Some(t) =>
        if t <= 0 then
          if cbdAvailable then
            var data :- Compute(rs.op, rs.vj, rs.vk, divide);
            Ok(ArithCommit(Commit(tag, data)))
          else Ok(ArithIdle)
        else Ok(ArithUpdate(Update(tag, t - 1, None)))
  }

  /** What a load station does: possibly an update, possibly a broadcast, and whether it left the queue. */
  datatype LoadAction = LoadAction(update: Option<Update>, commit: Option<Commit>, haveRead: bool)

  /**
   * `reservationTickLoad`: a waiting load starts only at the head of the
   * memory queue with its base register known, fixing its address and leaving
   * the queue; when done it broadcasts the memory word if the bus is free.
   */
  function ReservationTickLoad(rs: Station, tag: RSIndex, isBufferFirst: bool, cbdAvailable: bool,
                               memory: seq<int>): Result<LoadAction>
    requires |memory| == MemorySize
  {
    if !rs.busy then Ok(LoadAction(None, None, false))
    else
      match rs.remainingTime
      case None =>
        if isBufferFirst && rs.qj.None? then
          Ok(LoadAction(Some(Update(tag, ExecuteTime(rs.op) - 1, Some(rs.vj + rs.address))), None, true))
        else Ok(LoadAction(None, None, false))
      case Some(t) =>
        if t <= 0 then
          if cbdAvailable then
            var data :- Load(memory, rs.address);
            Ok(LoadAction(None, Some(Commit(tag, data)), false))
          else Ok(LoadAction(None, None, false))
        else Ok(LoadAction(Some(Update(tag, t - 1, None)), None, false))
  }

  datatype StoreAction = StoreIdle | StoreUpdate(u: Update) | StoreWrite(st: StoreAct)

  /**
   * `reservationTickStore`: a waiting store starts only at the head of the
   * queue with its base register known; once done and with its data known it
   * writes memory (never using the bus); until then it keeps counting down.
   */
  function ReservationTickStore(rs: Station, tag: RSIndex, isBufferFirst: bool): StoreAction {
    if !rs.busy then StoreIdle
    else
      match rs.remainingTime
      case None =>
        if isBufferFirst && rs.qj.None? then StoreUpdate(Update(tag, ExecuteTime(rs.op) - 1, Some(rs.vj + rs.address)))
        else StoreIdle
      case Some(t) =>
        if t <= 0 && rs.qk.None? then StoreWrite(StoreAct(rs.address, rs.vk, tag))
        else StoreUpdate(Update(tag, t - 1, None))
  }

  /** What `tick` collects: the updates in station order, the one broadcast, the store, and whether to pop the queue. */
  datatype TickAcc = TickAcc(updates: seq<Update>, commit: Option<Commit>, store: Option<StoreAct>, pop: bool)

  function EmptyAcc(): TickAcc {
    TickAcc([], None, None, false)
  }

  /** One arithmetic station's turn; the bus is free while nothing has been broadcast. */
  function ArithStep(acc: TickAcc, rs: Station, tag: RSIndex, divide: Divide): Result<TickAcc> {
    var r :- ReservationTickArithmetic(rs, tag, acc.commit.None?, divide);
    match r
    case ArithIdle => Ok(acc)
    case ArithUpdate(u) => Ok(acc.(updates := acc.updates + [u]))
    case ArithCommit(c) => Ok(acc.(commit := Some(c)))
  }

  /** The first `n` stations of an arithmetic pool, in index order. */
  function ArithPass(ss: seq<Station>, pool: Pool, n: nat, acc: TickAcc, divide: Divide): Result<TickAcc>
    requires n <= |ss|
  {
    if n == 0 then Ok(acc)
    else
      var a :- ArithPass(ss, pool, n - 1, acc, divide);
      ArithStep(a, ss[n - 1], RS(pool, n - 1), divide)
  }

  /** An error thrown by one station ends the whole pass with it. */
  lemma {:induction false} ArithPassErr(ss: seq<Station>, pool: Pool, n: nat, m: nat, acc: TickAcc, divide: Divide)
    requires n <= m <= |ss| && ArithPass(ss, pool, n, acc, divide).Err?
    ensures ArithPass(ss, pool, m, acc, divide) == ArithPass(ss, pool, n, acc, divide)
    decreases m
  {
    if m > n {
      ArithPassErr(ss, pool, n, m - 1, acc, divide);
    }
  }

  /** `memQueue.at(0) === i`. */
  predicate IsBufferFirst(memQueue: seq<int>, i: int) {
    memQueue != [] && memQueue[0] == i
  }

  /** One MEM station's turn: a load follows the load rule, anything else the store rule. */
  function MemStep(acc: TickAcc, rs: Station, i: nat, memQueue: seq<int>, memory: seq<int>): Result<TickAcc>
    requires |memory| == MemorySize
  {
    var first := IsBufferFirst(memQueue, i);
    if rs.op == LD then
      var r :- ReservationTickLoad(rs, RS(MEM, i), first, acc.commit.None?, memory);
      Ok(TickAcc(acc.updates + (if r.update.Some? then [r.update.value] else []),
                 if r.commit.Some? then r.commit else acc.commit,
                 acc.store,
                 acc.pop || r.haveRead))
    else
      match ReservationTickStore(rs, RS(MEM, i), first)
      case StoreIdle => Ok(acc)
      case StoreUpdate(u) => Ok(acc.(updates := acc.updates + [u]))
      case StoreWrite(st) => Ok(acc.(store := Some(st), pop := true))
  }

  /** The first `n` MEM stations, in index order. */
  function MemPass(ss: seq<Station>, n: nat, acc: TickAcc, memQueue: seq<int>, memory: seq<int>): Result<TickAcc>
    requires n <= |ss| && |memory| == MemorySize
  {
    if n == 0 then Ok(acc)
    else
      var a :- MemPass(ss, n - 1, acc, memQueue, memory);
      MemStep(a, ss[n - 1], n - 1, memQueue, memory)
  }

  /** An error thrown by one MEM station ends the pass with it. */
  lemma {:induction false} MemPassErr(ss: seq<Station>, n: nat, m: nat, acc: TickAcc, memQueue: seq<int>, memory: seq<int>)
    requires n <= m <= |ss| && |memory| == MemorySize && MemPass(ss, n, acc, memQueue, memory).Err?
    ensures MemPass(ss, m, acc, memQueue, memory) == MemPass(ss, n, acc, memQueue, memory)
    decreases m
  {
    if m > n {
      MemPassErr(ss, n, m - 1, acc, memQueue, memory);
      assert MemPass(ss, m - 1, acc, memQueue, memory).Err?;
    }
  }

  // ---------------------------------------------------------------------------
  // The engine's state

  datatype TomaState = TomaState(pc: int, registers: seq<int>, memory: seq<int>, program: seq<InstToma>,
                                 add: seq<Station>, mul: seq<Station>, mem: seq<Station>,
                                 qi: seq<Option<RSIndex>>, memQueue: seq<int>)

  predicate WellSized(s: TomaState) {
    |s.registers| == RegisterFileSize && |s.memory| == MemorySize && |s.qi| == RegisterFileSize
  }

  /** The stations of one pool. */
  function Stations(s: TomaState, p: Pool): seq<Station> {
    match p
    case ADD => s.add
    case MUL => s.mul
    case MEM => s.mem
  }

  predicate ValidTag(s: TomaState, t: RSIndex) {
    t.index < |Stations(s, t.pool)|
  }

  function StationAt(s: TomaState, t: RSIndex): Station
    requires ValidTag(s, t)
  {
    Stations(s, t.pool)[t.index]
  }

  predicate Busy(s: TomaState, t: RSIndex) {
    ValidTag(s, t) && StationAt(s, t).busy
  }

  /** The state with station `t` replaced. */
  function WithStation(s: TomaState, t: RSIndex, st: Station): (r: TomaState)
    requires ValidTag(s, t)
    ensures r.pc == s.pc && r.registers == s.registers && r.memory == s.memory && r.program == s.program
    ensures r.qi == s.qi && r.memQueue == s.memQueue
    ensures forall p :: |Stations(r, p)| == |Stations(s, p)|
    ensures StationAt(r, t) == st
    ensures forall u :: ValidTag(s, u) && u != t ==> StationAt(r, u) == StationAt(s, u)
  {
    match t.pool
    case ADD => s.(add := s.add[t.index := st])
    case MUL => s.(mul := s.mul[t.index := st])
    case MEM => s.(mem := s.mem[t.index := st])
  }

  /** The state a processor starts in: every station idle, no register awaited, the queue empty. */
  function InitialState(program: seq<InstToma>, addCount: nat, mulCount: nat, memCount: nat): TomaState {
    TomaState(0, seq(RegisterFileSize, _ => 0), seq(MemorySize, _ => 0), program,
              seq(addCount, _ => IdleStation()), seq(mulCount, _ => IdleStation()), seq(memCount, _ => IdleStation()),
              seq(RegisterFileSize, _ => None), [])
  }

  // ---------------------------------------------------------------------------
  // Issue

  /** The instruction a station was filled with, once it is placed. */
  datatype Issued = Issued(tag: RSIndex, station: Station)

  /**
   * `getNextInst`: the instruction at `pc`, or nothing past the end of the
   * program; an address outside the instruction memory throws.
   */
  function NextInst(s: TomaState): (r: Result<Option<InstToma>>)
    ensures r.Ok? && r.value.Some? ==> 0 <= s.pc < |s.program| && r.value.value == s.program[s.pc]
    ensures r.Ok? && r.value.None? <==> 0 <= s.pc < AddressLimit && s.pc >= |s.program|
  {
    if 0 <= s.pc < AddressLimit && s.pc >= |s.program| then Ok(None)
    else
      var inst :- InstructionAt(s.program, Err(NoDefaultError), s.pc);
      Ok(Some(inst))
  }

  /**
   * `checkRegReady`: a register some station will produce yields that
   * station's tag and 0; any other register yields its value.
   */
  function RegReady(s: TomaState, reg: Option<int>): Result<(Option<RSIndex>, int)>
    requires WellSized(s)
  {
    var r := if reg.Some? then reg.value else -1;
    if 0 <= r < |s.qi| && s.qi[r].Some? then Ok((s.qi[r], 0))
    else
      var v :- Read(s.registers, r);
      Ok((None, v))
  }

  /** `findIndex((rs) => !rs.busy)`: the lowest free station. */
  function FirstFree(ss: seq<Station>): (r: Option<nat>)
    ensures r.Some? ==> r.value < |ss| && !ss[r.value].busy && forall k :: 0 <= k < r.value ==> ss[k].busy
    ensures r.None? ==> forall k :: 0 <= k < |ss| ==> ss[k].busy
  {
    if ss == [] then None
    else if !ss[0].busy then Some(0)
    else
      match FirstFree(ss[1..])
      case None => None
      case Some(k) => Some(k + 1)
  }

  /** The immediate of a memory instruction (the assembler always gives one). */
  function ImmOf(inst: InstToma): int {
    if inst.immediate.Some? then inst.immediate.value else 0
  }

  /** The station an instruction fills: busy, not started, with its operands read at issue. */
  function IssueStation(s: TomaState, inst: InstToma): Result<Station>
    requires WellSized(s)
  {
    if inst.kind == LD then
      var (qj, vj) :- RegReady(s, inst.rs.0);
      Ok(Station(true, LD, vj, 0, qj, None, inst.rd, ImmOf(inst), None))
    else if inst.kind == SD then
      var (qj, vj) :- RegReady(s, inst.rs.0);
      var (qk, vk) :- RegReady(s, inst.rs.1);
      Ok(Station(true, SD, vj, vk, qj, qk, None, ImmOf(inst), None))
    else
      var (qj, vj) :- RegReady(s, inst.rs.0);
      var (qk, vk) :- RegReady(s, inst.rs.1);
      Ok(Station(true, inst.kind, vj, vk, qj, qk, inst.rd, 0, None))
  }

  /**
   * `issue`: the next instruction, its operands read, placed in the lowest
   * free station of its pool; nothing when the program is over or the pool
   * is full.
   */
  function IssueSpec(s: TomaState): Result<Option<Issued>>
    requires WellSized(s)
  {
    var next :- NextInst(s);
    if next.None? then Ok(None)
    else
      var inst := next.value;
      var st :- IssueStation(s, inst);
      var pool := PoolOf(inst.kind);
      match FirstFree(Stations(s, pool))
      case None => Ok(None)
      case Some(i) => Ok(Some(Issued(RS(pool, i), st)))
  }

  // ---------------------------------------------------------------------------
  // Tick

  /** `tick`: the ADD pool, then the MUL pool, then the MEM pool, each in index order. */
  function TickSpec(s: TomaState, divide: Divide): Result<TickAcc>
    requires WellSized(s)
  {
    var a :- ArithPass(s.add, ADD, |s.add|, EmptyAcc(), divide);
    var b :- ArithPass(s.mul, MUL, |s.mul|, a, divide);
    MemPass(s.mem, |s.mem|, b, s.memQueue, s.memory)
  }

  // ---------------------------------------------------------------------------
  // updateState

  /** The issued station placed, `pc` advanced, its destination tagged (unless it is `$0`), a memory access queued. */
  function ApplyIssue(s: TomaState, iss: Option<Issued>): (r: TomaState)
    ensures r.registers == s.registers && r.memory == s.memory && r.program == s.program && |r.qi| == |s.qi|
  {
    if iss.None? || !ValidTag(s, iss.value.tag) then s
    else
      var t := iss.value.tag;
      var s1 := WithStation(s, t, iss.value.station.(remainingTime := None)).(pc := s.pc + 1);
      var d := iss.value.station.dest;
      var s2 := if d.Some? && d.value != 0 && 0 <= d.value < |s.qi| then s1.(qi := s1.qi[d.value := Some(t)]) else s1;
      if t.pool == MEM then s2.(memQueue := s2.memQueue + [t.index]) else s2
  }

  /** `qi.findIndex`: the first register awaiting `t`. */
  function FindTag(qi: seq<Option<RSIndex>>, t: RSIndex): (r: Option<nat>)
    ensures r.Some? ==> r.value < |qi| && qi[r.value] == Some(t) && forall k :: 0 <= k < r.value ==> qi[k] != Some(t)
    ensures r.None? ==> forall k :: 0 <= k < |qi| ==> qi[k] != Some(t)
  {
    if qi == [] then None
    else if qi[0] == Some(t) then Some(0)
    else
      match FindTag(qi[1..], t)
      case None => None
      case Some(k) => Some(k + 1)
  }

  /** A station waiting for the broadcast tag takes the value instead. */
  function ForwardStation(st: Station, c: Commit): (r: Station)
    ensures r.qj != Some(c.tag) && r.qk != Some(c.tag)
    ensures r.qj == (if st.qj == Some(c.tag) then None else st.qj) && r.qk == (if st.qk == Some(c.tag) then None else st.qk)
    ensures r.vj == (if st.qj == Some(c.tag) then c.data else st.vj) && r.vk == (if st.qk == Some(c.tag) then c.data else st.vk)
    ensures r == st.(qj := r.qj, qk := r.qk, vj := r.vj, vk := r.vk)
  {
    var st1 := if st.qj == Some(c.tag) then st.(vj := c.data, qj := None) else st;
    if st1.qk == Some(c.tag) then st1.(vk := c.data, qk := None) else st1
  }

  function Forward(ss: seq<Station>, c: Commit): (r: seq<Station>)
    ensures |r| == |ss| && forall k :: 0 <= k < |ss| ==> r[k] == ForwardStation(ss[k], c)
  {
    seq(|ss|, k requires 0 <= k < |ss| => ForwardStation(ss[k], c))
  }

  /**
   * `commitChange`: the first register awaiting the tag is written and no
   * longer awaits it, and every station waiting for the tag takes the value.
   */
  function CommitChangeSpec(s: TomaState, c: Commit): (r: TomaState)
    requires WellSized(s)
    ensures WellSized(r)
  {
    var s1 :=
      match FindTag(s.qi, c.tag)
      case None => s
      case Some(k) =>
        var w := Write(s.registers, k, c.data);
        s.(qi := s.qi[k := None], registers := if w.Ok? then w.value else s.registers);
    s1.(add := Forward(s1.add, c), mul := Forward(s1.mul, c), mem := Forward(s1.mem, c))
  }

  /** The broadcasting station freed, then its result delivered. */
  function ApplyCommit(s: TomaState, c: Option<Commit>): (r: TomaState)
    requires WellSized(s)
    ensures WellSized(r)
  {
    if c.None? || !ValidTag(s, c.value.tag) then s
    else CommitChangeSpec(WithStation(s, c.value.tag, StationAt(s, c.value.tag).(busy := false)), c.value)
  }

  /** A station with an update applied: its cycles left, and its address when the update gives one. */
  function Updated(st: Station, u: Update): Station {
    st.(remainingTime := Some(u.remainingTime), address := if u.address.Some? then u.address.value else st.address)
  }

  function ApplyUpdate(s: TomaState, u: Update): (r: TomaState)
    ensures r.registers == s.registers && r.memory == s.memory && r.qi == s.qi && r.memQueue == s.memQueue
    ensures r.pc == s.pc && r.program == s.program
    ensures forall p :: |Stations(r, p)| == |Stations(s, p)|
  {
    if !ValidTag(s, u.tag) then s else WithStation(s, u.tag, Updated(StationAt(s, u.tag), u))
  }

  /** The updates, in the order they were collected. */
  function ApplyUpdates(s: TomaState, us: seq<Update>): (r: TomaState)
    ensures r.registers == s.registers && r.memory == s.memory && r.qi == s.qi && r.memQueue == s.memQueue
    ensures r.pc == s.pc && r.program == s.program
    ensures forall p :: |Stations(r, p)| == |Stations(s, p)|
    decreases |us|
  {
    if us == [] then s else ApplyUpdates(ApplyUpdate(s, us[0]), us[1..])
  }

  /** The store written to memory, then its station freed; an address outside memory throws. */
  function ApplyStore(s: TomaState, st: Option<StoreAct>): Result<TomaState>
    requires WellSized(s)
  {
    if st.None? then Ok(s)
    else
      var memory :- Store(s.memory, st.value.address, Numeric(st.value.data));
      var s1 := s.(memory := memory);
      var t := RS(MEM, st.value.tag.index);
      if !ValidTag(s1, t) then Ok(s1)
      else Ok(WithStation(s1, t, StationAt(s1, t).(busy := false)))
  }

  const EmptyQueueError: string := "Mem queue is empty, which should not happen"

  /** The state after `updateState`, and whether it threw. */
  datatype Applied = Applied(state: TomaState, outcome: Outcome)

  /** The state after a step, and what the step returned: whether the engine is finished, or the error it threw. */
  datatype StepResult = StepResult(state: TomaState, result: Result<bool>)

  /** `isFinished`: no station busy and no register awaited. */
  predicate IsFinished(s: TomaState) {
    (forall k :: 0 <= k < |s.add| ==> !s.add[k].busy)
    && (forall k :: 0 <= k < |s.mul| ==> !s.mul[k].busy)
    && (forall k :: 0 <= k < |s.mem| ==> !s.mem[k].busy)
    && (forall r :: 0 <= r < |s.qi| ==> s.qi[r].None?)
  }

  /**
   * `updateState` with the actions of one step: the issue, the broadcast,
   * the updates, the store, then the queue pop. A store to an address outside
   * memory throws with the first three already applied.
   */
  function UpdateStateSpec(s: TomaState, iss: Option<Issued>, acts: TickAcc): Applied
    requires WellSized(s)
  {
    var s1 := ApplyIssue(s, iss);
    var s2 := ApplyCommit(s1, acts.commit);
    var s3 := ApplyUpdates(s2, acts.updates);
    match ApplyStore(s3, acts.store)
    case Err(e) => Applied(s3, Fail(e))
    case Ok(s4) =>
      if !acts.pop then Applied(s4, Pass)
      else if s4.memQueue == [] then Applied(s4, Fail(EmptyQueueError))
      else Applied(s4.(memQueue := s4.memQueue[1..]), Pass)
  }

  /** `step`: issue and tick both look at the state before the step; then `updateState`. */
  function StepSpec(s: TomaState, divide: Divide): StepResult
    requires WellSized(s)
  {
    match IssueSpec(s)
    case Err(e) => StepResult(s, Err(e))
    case Ok(iss) =>
      match TickSpec(s, divide)
      case Err(e) => StepResult(s, Err(e))
      case Ok(acts) =>
        var a := UpdateStateSpec(s, iss, acts);
        StepResult(a.state, if a.outcome.Fail? then Err(a.outcome.error) else Ok(IsFinished(a.state)))
  }

  // ---------------------------------------------------------------------------
  // The processor

  /**
   * `TomasuloProcessor`: the reservation stations, the register-status table
   * and the memory queue as fields, over a register file and a data memory of
   * its own. Each method does what the function of the same name above
   * describes to the state `State()`.
   */
  class TomasuloProcessor {
    const iMem: InstructionMemory<InstToma>
    const dMem: Memory
    const registerFile: RegisterFile
    var pc: int
    var add: seq<Station>
    var mul: seq<Station>
    var mem: seq<Station>
    var qi: seq<Option<RSIndex>>
    var memQueue: seq<int>
    const divide: Divide

    ghost predicate Valid()
      reads this, registerFile, dMem
    {
      registerFile.Valid() && dMem.Valid() && registerFile.registers != dMem.memory
      && |qi| == RegisterFileSize
    }

    ghost function State(): (r: TomaState)
      reads this, registerFile, registerFile.registers, dMem, dMem.memory, iMem
      ensures Valid() ==> WellSized(r)
    {
      TomaState(pc, registerFile.registers[..], dMem.memory[..], iMem.instructions, add, mul, mem, qi, memQueue)
    }

    /** A processor with `addCount`, `mulCount` and `memCount` idle stations (3, 2 and 3 by default). */
    constructor(iMem: InstructionMemory<InstToma>, addCount: nat, mulCount: nat, memCount: nat, divide: Divide)
      ensures Valid() && fresh(registerFile) && fresh(registerFile.registers) && fresh(dMem) && fresh(dMem.memory)
      ensures this.iMem == iMem && this.divide == divide
      ensures State() == InitialState(iMem.instructions, addCount, mulCount, memCount)
    {
      this.iMem := iMem;
      dMem := new Memory();
      registerFile := new RegisterFile();
      pc := 0;
      add := seq(addCount, _ => IdleStation());
      mul := seq(mulCount, _ => IdleStation());
      mem := seq(memCount, _ => IdleStation());
      qi := seq(RegisterFileSize, _ => None);
      memQueue := [];
      this.divide := divide;
    }

    /** `step`: issue, tick, then apply; the result says whether the engine is finished. */
    method Step() returns (r: Result<bool>)
      requires Valid()
      modifies this, registerFile.registers, dMem.memory
      ensures Valid()
      ensures StepSpec(old(State()), divide) == StepResult(State(), r)
    {
      var issueResult := Issue();
      if issueResult.Err? {
        return Err(issueResult.error);
      }
      var acts := Tick();
      if acts.Err? {
        return Err(acts.error);
      }
      var outcome := UpdateState(issueResult.value, acts.value);
      if outcome.Fail? {
        return Err(outcome.error);
      }
      var finished := IsFinishedNow();
      return Ok(finished);
    }

    /** `isFinished`. */
    method IsFinishedNow() returns (r: bool)
      requires Valid()
      ensures r == IsFinished(State())
    {
      r := (forall k :: 0 <= k < |add| ==> !add[k].busy)
        && (forall k :: 0 <= k < |mul| ==> !mul[k].busy)
        && (forall k :: 0 <= k < |mem| ==> !mem[k].busy)
        && (forall k :: 0 <= k < |qi| ==> qi[k].None?);
    }

    /** `checkRegReady`. */
    method CheckRegReady(reg: Option<int>) returns (r: Result<(Option<RSIndex>, int)>)
      requires Valid()
      ensures r == RegReady(State(), reg)
    {
      var index := if reg.Some? then reg.value else -1;
      if 0 <= index < |qi| && qi[index].Some? {
        return Ok((qi[index], 0));
      }
      var v := registerFile.GetAt(index);
      if v.Err? {
        return Err(v.error);
      }
      return Ok((None, v.value));
    }

    /** `issue`: reads the next instruction and its operands, then looks for a free station. */
    method Issue() returns (r: Result<Option<Issued>>)
      requires Valid()
      ensures r == IssueSpec(State())
    {
      if 0 <= pc < AddressLimit && pc >= |iMem.instructions| {
        return Ok(None);
      }
      var next := iMem.GetInstructionAt(pc);
      if next.Err? {
        return Err(next.error);
      }
      var inst := next.value;
      var st: Station;
      var a := CheckRegReady(inst.rs.0);
      if a.Err? {
        return Err(a.error);
      }
      var (qj, vj) := a.value;
      if inst.kind == LD {
        st := Station(true, LD, vj, 0, qj, None, inst.rd, ImmOf(inst), None);
      } else {
        var b := CheckRegReady(inst.rs.1);
        if b.Err? {
          return Err(b.error);
        }
        var (qk, vk) := b.value;
        if inst.kind == SD {
          st := Station(true, SD, vj, vk, qj, qk, None, ImmOf(inst), None);
        } else {
          st := Station(true, inst.kind, vj, vk, qj, qk, inst.rd, 0, None);
        }
      }
      var pool := PoolOf(inst.kind);
      var free := FirstFree(if pool == ADD then add else if pool == MUL then mul else mem);
      if free.None? {
        return Ok(None);
      }
      return Ok(Some(Issued(RS(pool, free.value), st)));
    }

    /** `tick`: every station's turn, ADD pool first, then MUL, then MEM, each in index order. */
    method Tick() returns (r: Result<TickAcc>)
      requires Valid()
      ensures r == TickSpec(State(), divide)
    {
      var afterAdd := ArithLoop(add, ADD, EmptyAcc());
      if afterAdd.Err? {
        return afterAdd;
      }
      var afterMul := ArithLoop(mul, MUL, afterAdd.value);
      if afterMul.Err? {
        return afterMul;
      }
      r := MemLoop(afterMul.value);
    }

    /** One `forEach` over an arithmetic pool; the bus is free while nothing has been broadcast. */
    method ArithLoop(ss: seq<Station>, pool: Pool, acc: TickAcc) returns (r: Result<TickAcc>)
      ensures r == ArithPass(ss, pool, |ss|, acc, divide)
    {
      var updates, commit := acc.updates, acc.commit;
      var i := 0;
      while i < |ss|
        invariant 0 <= i <= |ss|
        invariant ArithPass(ss, pool, i, acc, divide) == Ok(acc.(updates := updates, commit := commit))
      {
        var result := ReservationTickArithmetic(ss[i], RS(pool, i), commit.None?, divide);
        if result.Err? {
          ArithPassErr(ss, pool, i + 1, |ss|, acc, divide);
          return Err(result.error);
        }
        match result.value {
          case ArithIdle =>
          case ArithUpdate(u) => updates := updates + [u];
          case ArithCommit(c) => commit := Some(c);
        }
        i := i + 1;
      }
      return Ok(acc.(updates := updates, commit := commit));
    }

    /** The `forEach` over the MEM pool: loads by the load rule, the rest by the store rule. */
    method MemLoop(acc: TickAcc) returns (r: Result<TickAcc>)
      requires Valid()
      ensures r == MemPass(mem, |mem|, acc, memQueue, dMem.memory[..])
    {
      var memory := dMem.memory[..];
      var updates, commit, store, pop := acc.updates, acc.commit, acc.store, acc.pop;
      var i := 0;
      while i < |mem|
        invariant 0 <= i <= |mem|
        invariant MemPass(mem, i, acc, memQueue, memory) == Ok(TickAcc(updates, commit, store, pop))
      {
        var first := IsBufferFirst(memQueue, i);
        if mem[i].op == LD {
          var result := ReservationTickLoad(mem[i], RS(MEM, i), first, commit.None?, memory);
          if result.Err? {
            MemPassErr(mem, i + 1, |mem|, acc, memQueue, memory);
            return Err(result.error);
          }
          var action := result.value;
          if action.haveRead {
            pop := true;
          }
          if action.update.Some? {
            updates := updates + [action.update.value];
          } else {
            assert updates + [] == updates;
          }
          if action.commit.Some? {
            commit := action.commit;
          }
        } else {
          match ReservationTickStore(mem[i], RS(MEM, i), first) {
            case StoreIdle =>
            case StoreUpdate(u) => updates := updates + [u];
            case StoreWrite(st) =>
              store := Some(st);
              pop := true;
          }
        }
        i := i + 1;
      }
      return Ok(TickAcc(updates, commit, store, pop));
    }

    /** The stations of one pool. */
    function StationsOf(p: Pool): (r: seq<Station>)
      reads this
      ensures r == Stations(State(), p)
    {
      match p
      case ADD => add
      case MUL => mul
      case MEM => mem
    }

    /** Replaces station `t`. */
    method SetStation(t: RSIndex, st: Station)
      requires ValidTag(State(), t)
      modifies this
      ensures pc == old(pc) && qi == old(qi) && memQueue == old(memQueue)
      ensures add == Stations(WithStation(old(State()), t, st), ADD)
      ensures mul == Stations(WithStation(old(State()), t, st), MUL)
      ensures mem == Stations(WithStation(old(State()), t, st), MEM)
    {
      match t.pool
      case ADD => add := add[t.index := st];
      case MUL => mul := mul[t.index := st];
      case MEM => mem := mem[t.index := st];
    }

    /** Every station of a pool waiting for the broadcast tag takes the value. */
    method ForwardPool(ss: seq<Station>, c: Commit) returns (r: seq<Station>)
      ensures r == Forward(ss, c)
    {
      r := ss;
      var i := 0;
      while i < |ss|
        invariant 0 <= i <= |ss| && |r| == |ss|
        invariant forall k :: 0 <= k < i ==> r[k] == ForwardStation(ss[k], c)
        invariant forall k :: i <= k < |ss| ==> r[k] == ss[k]
      {
        var st := r[i];
        if st.qj == Some(c.tag) {
          st := st.(vj := c.data, qj := None);
        }
        if st.qk == Some(c.tag) {
          st := st.(vk := c.data, qk := None);
        }
        r := r[i := st];
        i := i + 1;
      }
    }

    /** `commitChange`: the register awaiting the tag is written, and the waiting stations take the value. */
    method CommitChange(c: Commit)
      requires Valid()
      modifies this, registerFile.registers
      ensures Valid()
      ensures State() == CommitChangeSpec(old(State()), c)
    {
      var qiIndex := FindTag(qi, c.tag);
      if qiIndex.Some? {
        qi := qi[qiIndex.value := None];
        var _ := registerFile.SetAt(qiIndex.value, c.data);
      }
      add := ForwardPool(add, c);
      mul := ForwardPool(mul, c);
      mem := ForwardPool(mem, c);
    }

    /** `updateState`: the issue, the broadcast, the updates, the store, then the queue pop. */
    method UpdateState(issueResult: Option<Issued>, acts: TickAcc) returns (r: Outcome)
      requires Valid()
      modifies this, registerFile.registers, dMem.memory
      ensures Valid()
      ensures UpdateStateSpec(old(State()), issueResult, acts) == Applied(State(), r)
    {
      PlaceIssued(issueResult);
      Broadcast(acts.commit);
      ApplyUpdateList(acts.updates);
      r := StoreAndPop(acts.store, acts.pop);
    }

    /** The issued station placed, `pc` advanced, its destination tagged, a memory access queued. */
    method PlaceIssued(issueResult: Option<Issued>)
      requires Valid()
      modifies this
      ensures Valid()
      ensures State() == ApplyIssue(old(State()), issueResult)
    {
      if issueResult.Some? && issueResult.value.tag.index < |StationsOf(issueResult.value.tag.pool)| {
        var t := issueResult.value.tag;
        pc := pc + 1;
        SetStation(t, issueResult.value.station.(remainingTime := None));
        var d := issueResult.value.station.dest;
        if d.Some? && d.value != 0 && 0 <= d.value < |qi| {
          qi := qi[d.value := Some(t)];
        }
        if t.pool == MEM {
          memQueue := memQueue + [t.index];
        }
      }
    }

    /** The broadcasting station freed, then `commitChange`. */
    method Broadcast(commit: Option<Commit>)
      requires Valid()
      modifies this, registerFile.registers
      ensures Valid()
      ensures State() == ApplyCommit(old(State()), commit)
    {
      if commit.Some? && commit.value.tag.index < |StationsOf(commit.value.tag.pool)| {
        var t := commit.value.tag;
        SetStation(t, StationsOf(t.pool)[t.index].(busy := false));
        CommitChange(commit.value);
      }
    }

    /** `update.forEach`: each station's cycles left, and its address when given. */
    method ApplyUpdateList(updates: seq<Update>)
      requires Valid()
      modifies this
      ensures Valid()
      ensures State() == ApplyUpdates(old(State()), updates)
    {
      var i := 0;
      while i < |updates|
        invariant 0 <= i <= |updates|
        invariant Valid()
        invariant ApplyUpdates(State(), updates[i..]) == ApplyUpdates(old(State()), updates)
      {
        var u := updates[i];
        ghost var before := State();
        if u.tag.index < |StationsOf(u.tag.pool)| {
          SetStation(u.tag, Updated(StationsOf(u.tag.pool)[u.tag.index], u));
        }
        assert State() == ApplyUpdate(before, u);
        assert updates[i..][1..] == updates[i + 1..];
        i := i + 1;
      }
    }

    /** The store written and its station freed, then the queue popped. */
    method StoreAndPop(store: Option<StoreAct>, pop: bool) returns (r: Outcome)
      requires Valid()
      modifies this, dMem.memory
      ensures Valid()
      ensures var a := UpdateStateSpec(old(State()), None, TickAcc([], None, store, pop));
        a == Applied(State(), r)
    {
      if store.Some? {
        var written := dMem.SetAt(store.value.address, Numeric(store.value.data));
        if written.Err? {
          return Fail(written.error);
        }
        var t := RS(MEM, store.value.tag.index);
        if t.index < |mem| {
          SetStation(t, mem[t.index].(busy := false));
        }
      }
      if pop {
        if memQueue == [] {
          return Fail(EmptyQueueError);
        }
        memQueue := memQueue[1..];
      }
      return Pass;
    }
  }
}
