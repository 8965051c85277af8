/**
 * What one step of the first Tomasulo engine guarantees: the bus goes to the
 * first station that can broadcast (ADD pool, then MUL, then MEM, each in
 * index order), a load may start and broadcast at once, each pool starts
 * its stations with its own latency, the memory queue is shifted once per
 * MEM broadcast and once per store, and issue works as in the later engine.
 * It also shows the flaw of the issue step as written (a store tags register
 * 0) and proves the invariant that the corrected step keeps.
 */
module LegacyTomasuloProperties {
  import opened Wrappers
  import opened RegisterFiles
  import opened DataMemory
  import opened InstructionMemories
  import opened TomasuloInstructions
  import opened Tomasulo
  import opened LegacyTomasulo
  import TP = TomasuloProperties

  // ---------------------------------------------------------------------------
  // The bus

  /** A running arithmetic station whose count would reach 0: it broadcasts if the bus is free. */
  predicate ArithFinishing(st: Station) {
    st.busy && st.remainingTime.Some? && st.remainingTime.value - 1 <= 0
  }

  /**
   * A load that broadcasts if the bus is free: a running one whose count
   * would reach 0, or one starting now, since a load takes one cycle.
   */
  predicate LoadFinishing(st: Station, i: nat, memQueue: seq<int>) {
    st.busy && st.op == LD
    && if st.remainingTime.None? then IsBufferFirst(memQueue, i) && st.qj.None? && LoadTime - 1 <= 0
       else st.remainingTime.value - 1 <= 0
  }

  /** The address a load reads: computed from its base when it starts in this step, else the one it recorded. */
  function LoadAddress(st: Station): int {
    if st.remainingTime.None? then st.vj + st.address else st.address
  }

  /** The lowest index below `n` of an arithmetic station that would broadcast. */
  function FirstArith(ss: seq<Station>, n: nat): (r: Option<nat>)
    requires n <= |ss|
    ensures r.Some? ==> r.value < n && ArithFinishing(ss[r.value]) && forall k :: 0 <= k < r.value ==> !ArithFinishing(ss[k])
    ensures r.None? ==> forall k :: 0 <= k < n ==> !ArithFinishing(ss[k])
  {
    if n == 0 then None
    else
      match FirstArith(ss, n - 1)
      case Some(k) => Some(k)
      case None => if ArithFinishing(ss[n - 1]) then Some(n - 1) else None
  }

  /** The lowest index below `n` of a load that would broadcast. */
  function FirstLoad(ss: seq<Station>, n: nat, memQueue: seq<int>): (r: Option<nat>)
    requires n <= |ss|
    ensures r.Some? ==> (r.value < n && LoadFinishing(ss[r.value], r.value, memQueue)
      && forall k :: 0 <= k < r.value ==> !LoadFinishing(ss[k], k, memQueue))
    ensures r.None? ==> forall k :: 0 <= k < n ==> !LoadFinishing(ss[k], k, memQueue)
  {
    if n == 0 then None
    else
      match FirstLoad(ss, n - 1, memQueue)
      case Some(k) => Some(k)
      case None => if LoadFinishing(ss[n - 1], n - 1, memQueue) then Some(n - 1) else None
  }

  /** A station that would broadcast this step if the bus were free. */
  predicate WantsBus(s: TomaState, t: RSIndex) {
    ValidTag(s, t)
    && if t.pool == MEM then LoadFinishing(StationAt(s, t), t.index, s.memQueue) else ArithFinishing(StationAt(s, t))
  }

  /** The station that gets the bus: the first in the ADD pool, else in MUL, else the first load. */
  function BusWinner(s: TomaState): Option<RSIndex> {
    match FirstArith(s.add, |s.add|)
    case Some(k) => Some(RS(ADD, k))
    case None =>
      match FirstArith(s.mul, |s.mul|)
      case Some(k) => Some(RS(MUL, k))
      case None =>
        match FirstLoad(s.mem, |s.mem|, s.memQueue)
        case Some(k) => Some(RS(MEM, k))
        case None => None
  }

  /** The bus winner wants the bus and comes before every other station that does. */
  lemma BusWinnerFirst(s: TomaState)
    ensures BusWinner(s).Some? <==> exists t :: WantsBus(s, t)
    ensures BusWinner(s).Some? ==> WantsBus(s, BusWinner(s).value)
    ensures BusWinner(s).Some? ==> forall t :: WantsBus(s, t) ==> TP.NoLater(BusWinner(s).value, t)
  {
    var w := BusWinner(s);
    if w.Some? {
      assert StationAt(s, w.value) == Stations(s, w.value.pool)[w.value.index];
      assert WantsBus(s, w.value);
    }
    forall t | WantsBus(s, t)
      ensures w.Some? && TP.NoLater(w.value, t)
    {
      assert Stations(s, t.pool)[t.index] == StationAt(s, t);
    }
  }

  /** A station that starts counting in this step, with the update it gets. */
  predicate ArithStarts(st: Station) {
    st.busy && st.remainingTime.None? && st.qj.None? && st.qk.None?
  }

  /** A store that starts in this step: not started, at the head of the queue, its base known. */
  predicate StoreStarts(st: Station, i: nat, memQueue: seq<int>) {
    st.busy && st.op != LD && st.remainingTime.None? && IsBufferFirst(memQueue, i) && st.qj.None?
  }

  /** One arithmetic station's turn. */
  lemma ArithTurnShape(acc: Actions, st: Station, executeTime: int, tag: RSIndex, divide: Divide)
    requires ArithTurn(acc, st, executeTime, tag, divide).Ok?
    ensures var a := ArithTurn(acc, st, executeTime, tag, divide).value;
      a.store == acc.store && (ArithStarts(st) ==> a.updates == acc.updates + [Update(tag, executeTime - 1, None)])
      && (forall u :: u in acc.updates ==> u in a.updates)
    ensures var a := ArithTurn(acc, st, executeTime, tag, divide).value;
      if acc.commit.None? && ArithFinishing(st) then
        Compute(st.op, st.vj, st.vk, divide).Ok? && a.commit == Some(Commit(tag, Compute(st.op, st.vj, st.vk, divide).value))
      else a.commit == acc.commit
  {
  }

  /**
   * An arithmetic pass: the bus goes to its first station that would
   * broadcast unless it was already taken; every station that starts gets
   * the pass's latency minus one; no store is reported.
   */
  lemma {:induction false} ArithRoundShape(ss: seq<Station>, pool: Pool, executeTime: int, n: nat, acc: Actions,
                                           divide: Divide)
    requires n <= |ss| && ArithRound(ss, pool, executeTime, n, acc, divide).Ok?
    ensures var a := ArithRound(ss, pool, executeTime, n, acc, divide).value;
      a.store == acc.store && (forall u :: u in acc.updates ==> u in a.updates)
      && forall k :: 0 <= k < n && ArithStarts(ss[k]) ==> Update(RS(pool, k), executeTime - 1, None) in a.updates
    ensures var a := ArithRound(ss, pool, executeTime, n, acc, divide).value;
      var k := FirstArith(ss, n);
      if acc.commit.None? && k.Some? then
        Compute(ss[k.value].op, ss[k.value].vj, ss[k.value].vk, divide).Ok?
        && a.commit == Some(Commit(RS(pool, k.value), Compute(ss[k.value].op, ss[k.value].vj, ss[k.value].vk, divide).value))
      else a.commit == acc.commit
  {
    if n > 0 {
      ArithRoundShape(ss, pool, executeTime, n - 1, acc, divide);
      var a := ArithRound(ss, pool, executeTime, n - 1, acc, divide).value;
      ArithTurnShape(a, ss[n - 1], executeTime, RS(pool, n - 1), divide);
    }
  }

  /** One MEM station's turn. */
  lemma MemTurnShape(acc: Actions, st: Station, i: nat, memQueue: seq<int>, memory: seq<int>)
    requires |memory| == MemorySize && MemTurn(acc, st, i, memQueue, memory).Ok?
    ensures var a := MemTurn(acc, st, i, memQueue, memory).value;
      (forall u :: u in acc.updates ==> u in a.updates)
      && (StoreStarts(st, i, memQueue) ==> a.updates == acc.updates + [Update(RS(MEM, i), StoreTime - 1, Some(st.vj + st.address))])
    ensures var a := MemTurn(acc, st, i, memQueue, memory).value;
      if acc.commit.None? && LoadFinishing(st, i, memQueue) then
        Load(memory, LoadAddress(st)).Ok? && a.commit == Some(Commit(RS(MEM, i), Load(memory, LoadAddress(st)).value))
      else a.commit == acc.commit
    ensures var a := MemTurn(acc, st, i, memQueue, memory).value;
      a.store == if TP.StoreWrites(st) then Some(StoreAct(st.address, st.vk, RS(MEM, i))) else acc.store
  {
  }

  /**
   * The MEM pass: the bus goes to its first load that would broadcast unless
   * it was already taken, the store reported is the last writing store's,
   * and every store that starts gets the store latency minus one.
   */
  lemma {:induction false} MemRoundShape(ss: seq<Station>, n: nat, acc: Actions, memQueue: seq<int>, memory: seq<int>)
    requires n <= |ss| && |memory| == MemorySize && MemRound(ss, n, acc, memQueue, memory).Ok?
    ensures var a := MemRound(ss, n, acc, memQueue, memory).value;
      (forall u :: u in acc.updates ==> u in a.updates)
      && forall k :: 0 <= k < n && StoreStarts(ss[k], k, memQueue) ==>
           Update(RS(MEM, k), StoreTime - 1, Some(ss[k].vj + ss[k].address)) in a.updates
    ensures var a := MemRound(ss, n, acc, memQueue, memory).value;
      var k := FirstLoad(ss, n, memQueue);
      if acc.commit.None? && k.Some? then
        Load(memory, LoadAddress(ss[k.value])).Ok?
        && a.commit == Some(Commit(RS(MEM, k.value), Load(memory, LoadAddress(ss[k.value])).value))
      else a.commit == acc.commit
    ensures var k := TP.LastStore(ss, n);
      MemRound(ss, n, acc, memQueue, memory).value.store ==
        if k.Some? then Some(StoreAct(ss[k.value].address, ss[k.value].vk, RS(MEM, k.value))) else acc.store
  {
    if n > 0 {
      MemRoundShape(ss, n - 1, acc, memQueue, memory);
      MemTurnShape(MemRound(ss, n - 1, acc, memQueue, memory).value, ss[n - 1], n - 1, memQueue, memory);
    }
  }

  /**
   * At most one result goes on the bus: the bus winner's. An arithmetic
   * station broadcasts its operation's result and a load the memory word at
   * its address, which a load starting in this step computes from its base.
   */
  lemma TickCommit(s: TomaState, divide: Divide)
    requires WellSized(s) && TickActions(s, divide).Ok?
    ensures var c := TickActions(s, divide).value.commit;
      (c.Some? <==> BusWinner(s).Some?) && (c.Some? ==> c.value.tag == BusWinner(s).value && ValidTag(s, c.value.tag))
    ensures var c := TickActions(s, divide).value.commit;
      c.Some? && c.value.tag.pool != MEM ==>
        ValidTag(s, c.value.tag)
        && Compute(StationAt(s, c.value.tag).op, StationAt(s, c.value.tag).vj, StationAt(s, c.value.tag).vk, divide)
           == Ok(c.value.data)
    ensures var c := TickActions(s, divide).value.commit;
      c.Some? && c.value.tag.pool == MEM ==>
        ValidTag(s, c.value.tag) && StationAt(s, c.value.tag).op == LD
        && Load(s.memory, LoadAddress(StationAt(s, c.value.tag))) == Ok(c.value.data)
  {
    var a := ArithRound(s.add, ADD, AddTime, |s.add|, NoActions(), divide).value;
    ArithRoundShape(s.add, ADD, AddTime, |s.add|, NoActions(), divide);
    var b := ArithRound(s.mul, MUL, MulTime, |s.mul|, a, divide).value;
    ArithRoundShape(s.mul, MUL, MulTime, |s.mul|, a, divide);
    MemRoundShape(s.mem, |s.mem|, b, s.memQueue, s.memory);
  }

  /** Stores never use the bus: the station that broadcasts is never a store. */
  lemma CommitNotStore(s: TomaState, divide: Divide)
    requires WellSized(s) && TickActions(s, divide).Ok? && TickActions(s, divide).value.commit.Some?
    ensures var c := TickActions(s, divide).value.commit.value;
      Busy(s, c.tag) && StationAt(s, c.tag).op != SD
  {
    TickCommit(s, divide);
  }

  /** The store `tick` reports is the last writing store's: its address and its data operand. */
  lemma TickStore(s: TomaState, divide: Divide)
    requires WellSized(s) && TickActions(s, divide).Ok?
    ensures var k := TP.LastStore(s.mem, |s.mem|);
      TickActions(s, divide).value.store ==
        if k.Some? then Some(StoreAct(s.mem[k.value].address, s.mem[k.value].vk, RS(MEM, k.value))) else None
  {
    var a := ArithRound(s.add, ADD, AddTime, |s.add|, NoActions(), divide).value;
    ArithRoundShape(s.add, ADD, AddTime, |s.add|, NoActions(), divide);
    var b := ArithRound(s.mul, MUL, MulTime, |s.mul|, a, divide).value;
    ArithRoundShape(s.mul, MUL, MulTime, |s.mul|, a, divide);
    MemRoundShape(s.mem, |s.mem|, b, s.memQueue, s.memory);
  }

  /**
   * The latencies `tick` hands out: a station of the ADD pool that starts
   * has 1 cycle left, one of the MUL pool (division included) 9, and a store
   * 1, with its effective address fixed.
   */
  lemma TickStarts(s: TomaState, divide: Divide)
    requires WellSized(s) && TickActions(s, divide).Ok?
    ensures var us := TickActions(s, divide).value.updates;
      forall k :: 0 <= k < |s.add| && ArithStarts(s.add[k]) ==> Update(RS(ADD, k), 1, None) in us
    ensures var us := TickActions(s, divide).value.updates;
      forall k :: 0 <= k < |s.mul| && ArithStarts(s.mul[k]) ==> Update(RS(MUL, k), 9, None) in us
    ensures var us := TickActions(s, divide).value.updates;
      forall k :: 0 <= k < |s.mem| && StoreStarts(s.mem[k], k, s.memQueue) ==>
        Update(RS(MEM, k), 1, Some(s.mem[k].vj + s.mem[k].address)) in us
  {
    var a := ArithRound(s.add, ADD, AddTime, |s.add|, NoActions(), divide).value;
    ArithRoundShape(s.add, ADD, AddTime, |s.add|, NoActions(), divide);
    var b := ArithRound(s.mul, MUL, MulTime, |s.mul|, a, divide).value;
    ArithRoundShape(s.mul, MUL, MulTime, |s.mul|, a, divide);
    MemRoundShape(s.mem, |s.mem|, b, s.memQueue, s.memory);
  }

  // ---------------------------------------------------------------------------
  // Issue

  /** An issued station as the first engine makes it: a store's destination is 0. */
  function WithStoreDest(iss: Option<Issued>): Option<Issued> {
    if iss.Some? && iss.value.station.op == SD then Some(iss.value.(station := iss.value.station.(dest := Some(0))))
    else iss
  }

  /** Issue is the later engine's, except that a store's destination is 0 instead of none. */
  lemma IssueLikeLater(s: TomaState)
    requires WellSized(s)
    ensures IssueAction(s).Err? <==> Tomasulo.IssueSpec(s).Err?
    ensures IssueAction(s).Ok? ==> IssueAction(s).value == WithStoreDest(Tomasulo.IssueSpec(s).value)
  {
  }

  /**
   * What `issue` returns: the instruction at `pc`, in the lowest free
   * station of its operation's pool, busy and not started, with its operands
   * read from `qi` or the registers; a store's destination is 0.
   */
  lemma IssueFacts(s: TomaState)
    requires WellSized(s) && IssueAction(s).Ok? && IssueAction(s).value.Some?
    ensures var iss := IssueAction(s).value.value; var inst := s.program[s.pc];
      0 <= s.pc < |s.program| && ValidTag(s, iss.tag) && !StationAt(s, iss.tag).busy
      && (forall k :: 0 <= k < iss.tag.index ==> Stations(s, iss.tag.pool)[k].busy)
      && iss.tag.pool == PoolOf(inst.kind) && iss.station.op == inst.kind && iss.station.busy
      && iss.station.remainingTime.None?
      && iss.station.dest == (if inst.kind == SD then Some(0) else inst.rd)
      && RegReady(s, inst.rs.0) == Ok((iss.station.qj, iss.station.vj))
      && (inst.kind != LD ==> RegReady(s, inst.rs.1) == Ok((iss.station.qk, iss.station.vk)))
  {
    IssueLikeLater(s);
    TP.IssueFacts(s);
  }

  /**
   * Nothing issues exactly when the program has run out (which is not an
   * error) or every station of the next instruction's pool is busy.
   */
  lemma IssueNone(s: TomaState)
    requires WellSized(s) && IssueAction(s).Ok?
    ensures IssueAction(s).value.None? <==>
      (0 <= s.pc < AddressLimit && s.pc >= |s.program|)
      || (0 <= s.pc < |s.program| && forall k :: 0 <= k < |Stations(s, PoolOf(s.program[s.pc].kind))| ==>
                                               Stations(s, PoolOf(s.program[s.pc].kind))[k].busy)
  {
    IssueLikeLater(s);
    TP.IssueNone(s);
  }

  // ---------------------------------------------------------------------------
  // The queue and `pc` over a step

  /** The queue after issue and the broadcast: the issued MEM station appended, the head shifted if a MEM station broadcast. */
  function QueueBeforeStore(s: TomaState, iss: Option<Issued>, acts: Actions): seq<int> {
    var q0 := s.memQueue + (if iss.Some? && iss.value.tag.pool == MEM then [iss.value.tag.index] else []);
    if acts.commit.Some? && acts.commit.value.tag.pool == MEM then Shift(q0) else q0
  }

  /**
   * As written, placing an issued station is the corrected placement with
   * register 0 also tagged when the destination is 0, as a store's is.
   */
  lemma IssueAsWrittenTagsZero(s: TomaState, iss: Option<Issued>)
    ensures var r := ApplyIssue(s, iss);
      ApplyIssueAsWritten(s, iss) ==
        if iss.Some? && ValidTag(s, iss.value.tag) && iss.value.station.dest == Some(0) && |s.qi| > 0
        then r.(qi := r.qi[0 := Some(iss.value.tag)]) else r
  {
  }

  /**
   * A step whose issued station, if any, does not have destination 0 is the
   * same as written and corrected.
   */
  lemma StepAgreesUnlessZeroDest(s: TomaState, divide: Divide)
    requires WellSized(s)
    requires IssueAction(s).Ok? && IssueAction(s).value.Some? ==> IssueAction(s).value.value.station.dest != Some(0)
    ensures StepOutcome(s, divide) == StepOutcomeCorrected(s, divide)
  {
    if IssueAction(s).Ok? {
      IssueAsWrittenTagsZero(s, IssueAction(s).value);
    }
  }

  /** Placing an issued station appends it to the queue if it is a MEM station, and advances `pc`. */
  lemma IssuePhaseQueue(s: TomaState, iss: Option<Issued>)
    requires WellSized(s) && (iss.Some? ==> ValidTag(s, iss.value.tag) && iss.value.station.remainingTime.None?)
    ensures var r := ApplyIssueAsWritten(s, iss);
      r.memory == s.memory && r.pc == s.pc + (if iss.Some? then 1 else 0)
      && r.memQueue == s.memQueue + (if iss.Some? && iss.value.tag.pool == MEM then [iss.value.tag.index] else [])
      && forall t :: ValidTag(s, t) ==> ValidTag(r, t)
  {
    IssueAsWrittenTagsZero(s, iss);
    if iss.Some? {
      TP.ApplyIssueShape(s, iss.value);
    }
  }

  /** The broadcast leaves memory and `pc` alone and shifts the queue if a MEM station broadcast. */
  lemma BroadcastPhaseQueue(s: TomaState, c: Option<Commit>)
    requires WellSized(s) && (c.Some? ==> ValidTag(s, c.value.tag))
    ensures var r := ApplyBroadcast(s, c);
      r.memory == s.memory && r.pc == s.pc
      && r.memQueue == if c.Some? && c.value.tag.pool == MEM then Shift(s.memQueue) else s.memQueue
  {
    if c.Some? {
      TP.ApplyCommitShape(s, c.value);
    }
  }

  /** The three phases before the store, for any issued station and any actions whose broadcast names a station. */
  lemma ActionsBeforeStore(s: TomaState, iss: Option<Issued>, acts: Actions)
    requires WellSized(s) && (iss.Some? ==> ValidTag(s, iss.value.tag) && iss.value.station.remainingTime.None?)
    requires acts.commit.Some? ==> ValidTag(s, acts.commit.value.tag)
    ensures var s3 := ApplyUpdates(ApplyBroadcast(ApplyIssueAsWritten(s, iss), acts.commit), acts.updates);
      s3.memory == s.memory && s3.memQueue == QueueBeforeStore(s, iss, acts)
      && s3.pc == s.pc + (if iss.Some? then 1 else 0)
  {
    IssuePhaseQueue(s, iss);
    BroadcastPhaseQueue(ApplyIssueAsWritten(s, iss), acts.commit);
  }

  /** The store frees a station and writes memory: neither the queue nor `pc` moves. */
  lemma StorePhaseQueue(s: TomaState, st: StoreAct)
    requires WellSized(s) && ApplyStore(s, Some(st)).Ok?
    ensures ApplyStore(s, Some(st)).value.memQueue == s.memQueue && ApplyStore(s, Some(st)).value.pc == s.pc
  {
  }

  /**
   * `updateState` of the first engine: the queue, after the issued MEM
   * station is appended and the head shifted for a MEM broadcast, is shifted
   * once more by a store, and a store finding it empty throws; `pc` advances
   * exactly when an instruction issued.
   */
  lemma ActionsQueue(s: TomaState, iss: Option<Issued>, acts: Actions)
    requires WellSized(s) && (iss.Some? ==> ValidTag(s, iss.value.tag) && iss.value.station.remainingTime.None?)
    requires acts.commit.Some? ==> ValidTag(s, acts.commit.value.tag)
    ensures var a := ApplyActions(s, iss, acts); var q := QueueBeforeStore(s, iss, acts);
      (acts.store.None? ==> a.outcome == Pass && a.state.memQueue == q)
      && (acts.store.Some? && 0 <= acts.store.value.address < MemorySize ==>
            if q == [] then a.outcome == Fail(EmptyStoreQueueError) else a.outcome == Pass && a.state.memQueue == q[1..])
      && (acts.store.Some? && !(0 <= acts.store.value.address < MemorySize) ==> a.outcome.Fail? && a.state.memQueue == q)
    ensures ApplyActions(s, iss, acts).state.pc == s.pc + (if iss.Some? then 1 else 0)
  {
    ActionsBeforeStore(s, iss, acts);
    var s3 := ApplyUpdates(ApplyBroadcast(ApplyIssueAsWritten(s, iss), acts.commit), acts.updates);
    if acts.store.Some? && ApplyStore(s3, acts.store).Ok? {
      StorePhaseQueue(s3, acts.store.value);
    }
  }

  /** A whole step that issues and ticks without error moves the queue and `pc` as `ActionsQueue` says. */
  lemma StepQueue(s: TomaState, divide: Divide)
    requires WellSized(s) && IssueAction(s).Ok? && TickActions(s, divide).Ok?
    ensures var acts := TickActions(s, divide).value; var iss := IssueAction(s).value;
      StepOutcome(s, divide) == ApplyActions(s, iss, acts)
      && StepOutcomeCorrected(s, divide) == ApplyActionsCorrected(s, iss, acts)
      && (iss.Some? ==> ValidTag(s, iss.value.tag) && iss.value.station.remainingTime.None?)
      && (acts.commit.Some? ==> ValidTag(s, acts.commit.value.tag))
  {
    var iss := IssueAction(s).value;
    if iss.Some? {
      IssueFacts(s);
    }
    TickCommit(s, divide);
  }

  // ---------------------------------------------------------------------------
  // The producer invariant, and how issue as written breaks it

  /**
   * Every register awaiting a result names a busy station that writes that
   * register and is not a store, so it will broadcast the value.
   */
  ghost predicate Producers(s: TomaState) {
    forall r :: 0 <= r < |s.qi| && s.qi[r].Some? ==>
      Busy(s, s.qi[r].value) && StationAt(s, s.qi[r].value).dest == Some(r) && StationAt(s, s.qi[r].value).op != SD
  }

  /** A busy station sits in the pool of its operation. */
  ghost predicate PoolsShaped(s: TomaState) {
    forall t :: Busy(s, t) ==> PoolOf(StationAt(s, t).op) == t.pool
  }

  ghost predicate LegacyInv(s: TomaState) {
    WellSized(s) && Producers(s) && PoolsShaped(s)
  }

  /** A fresh processor, with two idle stations per pool and nothing awaited, satisfies the invariant. */
  lemma InitialLegacyInv(program: seq<InstToma>)
    ensures LegacyInv(InitialState(program, StationsPerPool, StationsPerPool, StationsPerPool))
  {
  }

  /** What an issued station is: a free slot filled with a busy station of its pool, not started; a store's destination is 0. */
  ghost predicate IssueOk(s: TomaState, iss: Issued) {
    ValidTag(s, iss.tag) && !StationAt(s, iss.tag).busy && iss.station.busy && iss.station.remainingTime.None?
    && PoolOf(iss.station.op) == iss.tag.pool && (iss.station.op == SD ==> iss.station.dest == Some(0))
  }

  lemma IssueActionOk(s: TomaState)
    requires WellSized(s) && IssueAction(s).Ok? && IssueAction(s).value.Some?
    ensures IssueOk(s, IssueAction(s).value.value)
  {
    IssueFacts(s);
  }

  /**
   * As written, issuing a store tags register 0 with the store's station.
   * A store never broadcasts (`CommitNotStore`), so an instruction that
   * later reads register 0 takes the store's tag and waits for a value that
   * never comes, and the invariant no longer holds.
   */
  lemma StoreTagsRegisterZero(s: TomaState)
    requires LegacyInv(s) && IssueAction(s).Ok? && IssueAction(s).value.Some?
    requires 0 <= s.pc < |s.program| && s.program[s.pc].kind == SD
    ensures var iss := IssueAction(s).value.value; var r := ApplyIssueAsWritten(s, Some(iss));
      WellSized(r) && ValidTag(r, iss.tag) && r.qi[0] == Some(iss.tag) && StationAt(r, iss.tag).op == SD
      && RegReady(r, Some(0)) == Ok((Some(iss.tag), 0)) && !Producers(r)
  {
    var iss := IssueAction(s).value.value;
    IssueFacts(s);
    var r := ApplyIssueAsWritten(s, Some(iss));
    assert StationAt(r, iss.tag) == iss.station;
    assert r.qi[0] == Some(iss.tag);
  }

  /** The corrected issue step keeps the invariant: register 0, and so every store, is never tagged. */
  lemma IssueKeepsInv(s: TomaState, iss: Issued, r: TomaState)
    requires LegacyInv(s) && IssueOk(s, iss) && TP.IssuedState(s, iss, r)
    ensures LegacyInv(r)
  {
    forall k | 0 <= k < |r.qi| && r.qi[k].Some?
      ensures Busy(r, r.qi[k].value) && StationAt(r, r.qi[k].value).dest == Some(k) && StationAt(r, r.qi[k].value).op != SD
    {
      if r.qi[k] != s.qi[k] {
        assert r.qi[k] == Some(iss.tag);
      } else {
        assert Busy(s, s.qi[k].value);
      }
    }
    forall t | Busy(r, t)
      ensures PoolOf(StationAt(r, t).op) == t.pool
    {
      if t != iss.tag {
        assert Busy(s, t);
      }
    }
  }

  /** The issue phase keeps the invariant and leaves every busy station as it was. */
  lemma IssuePhaseInv(s: TomaState, iss: Option<Issued>)
    requires LegacyInv(s) && (iss.Some? ==> IssueOk(s, iss.value))
    ensures var r := ApplyIssue(s, iss);
      LegacyInv(r) && forall t :: Busy(s, t) ==> ValidTag(r, t) && StationAt(r, t) == StationAt(s, t)
  {
    if iss.Some? {
      TP.ApplyIssueShape(s, iss.value);
      IssueKeepsInv(s, iss.value, ApplyIssue(s, iss));
    }
  }

  /** Under the invariant a tag sits in at most one register slot: its station's destination. */
  lemma TagSlotUnique(s: TomaState, t: RSIndex)
    requires LegacyInv(s)
    ensures forall k :: 0 <= k < |s.qi| && s.qi[k] == Some(t) ==> FindTag(s.qi, t) == Some(k)
  {
    forall k | 0 <= k < |s.qi| && s.qi[k] == Some(t)
      ensures FindTag(s.qi, t) == Some(k)
    {
      var j := FindTag(s.qi, t).value;
      assert StationAt(s, t).dest == Some(j);
    }
  }

  /** The broadcast frees its station and clears the one register that awaited it; no station changes operation. */
  lemma CommitKeepsInv(s: TomaState, c: Commit, r: TomaState)
    requires LegacyInv(s) && ValidTag(s, c.tag) && TP.CommittedState(s, c, r)
    ensures LegacyInv(r) && forall t :: ValidTag(s, t) ==> ValidTag(r, t) && StationAt(r, t).op == StationAt(s, t).op
  {
    TagSlotUnique(s, c.tag);
    forall t | ValidTag(s, t)
      ensures StationAt(r, t).op == StationAt(s, t).op && StationAt(r, t).dest == StationAt(s, t).dest
      ensures StationAt(r, t).busy == (StationAt(s, t).busy && t != c.tag)
    {
      TP.ForwardKeeps(StationAt(s, t), c);
      TP.ForwardKeeps(StationAt(s, t).(busy := false), c);
    }
    forall k | 0 <= k < |r.qi| && r.qi[k].Some?
      ensures Busy(r, r.qi[k].value) && StationAt(r, r.qi[k].value).dest == Some(k) && StationAt(r, r.qi[k].value).op != SD
    {
      assert r.qi[k] == s.qi[k] && s.qi[k] != Some(c.tag);
      assert Busy(s, s.qi[k].value);
    }
    forall t | Busy(r, t)
      ensures PoolOf(StationAt(r, t).op) == t.pool
    {
      assert Busy(s, t);
    }
  }

  /** The broadcast phase, with or without a broadcast, keeps the invariant and every station's operation. */
  lemma BroadcastPhaseInv(s: TomaState, c: Option<Commit>)
    requires LegacyInv(s) && (c.Some? ==> ValidTag(s, c.value.tag))
    ensures var r := ApplyBroadcast(s, c);
      LegacyInv(r) && forall t :: ValidTag(s, t) ==> ValidTag(r, t) && StationAt(r, t).op == StationAt(s, t).op
  {
    if c.Some? {
      TP.ApplyCommitShape(s, c.value);
      var r0 := ApplyCommit(s, c);
      CommitKeepsInv(s, c.value, r0);
      QueueIrrelevant(r0, Shift(r0.memQueue));
    }
  }

  /** Updates change only the cycles left and the address of stations. */
  lemma {:induction false} UpdatesKeepRoles(s: TomaState, us: seq<Update>)
    ensures var r := ApplyUpdates(s, us);
      forall t :: ValidTag(s, t) ==>
        ValidTag(r, t) && StationAt(r, t).busy == StationAt(s, t).busy && StationAt(r, t).op == StationAt(s, t).op
        && StationAt(r, t).dest == StationAt(s, t).dest
    decreases |us|
  {
    if us != [] {
      var s1 := ApplyUpdate(s, us[0]);
      UpdatesKeepRoles(s1, us[1..]);
      assert forall t :: ValidTag(s, t) ==> ValidTag(s1, t);
    }
  }

  lemma UpdatesKeepInv(s: TomaState, us: seq<Update>)
    requires LegacyInv(s)
    ensures LegacyInv(ApplyUpdates(s, us))
  {
    var r := ApplyUpdates(s, us);
    UpdatesKeepRoles(s, us);
    assert forall t :: ValidTag(r, t) ==> ValidTag(s, t);
  }

  /** Freeing a store's station and writing memory keeps the invariant, since no register awaits a store. */
  lemma StoreKeepsInv(s: TomaState, st: StoreAct)
    requires LegacyInv(s) && ApplyStore(s, Some(st)).Ok?
    requires ValidTag(s, RS(MEM, st.tag.index)) ==> StationAt(s, RS(MEM, st.tag.index)).op == SD
    ensures LegacyInv(ApplyStore(s, Some(st)).value)
  {
    var r := ApplyStore(s, Some(st)).value;
    forall k | 0 <= k < |r.qi| && r.qi[k].Some?
      ensures Busy(r, r.qi[k].value) && StationAt(r, r.qi[k].value).dest == Some(k) && StationAt(r, r.qi[k].value).op != SD
    {
      assert Busy(s, s.qi[k].value);
    }
    forall u | Busy(r, u)
      ensures PoolOf(StationAt(r, u).op) == u.pool
    {
      assert Busy(s, u);
    }
  }

  /**
   * The phases of `updateState` keep the invariant for any issued station
   * that `issue` could return, any broadcast from a station that is not a
   * store and any store reported by a busy store station.
   */
  lemma ActionsKeepInv(s: TomaState, iss: Option<Issued>, acts: Actions)
    requires LegacyInv(s) && (iss.Some? ==> IssueOk(s, iss.value))
    requires acts.commit.Some? ==> ValidTag(s, acts.commit.value.tag)
    requires acts.store.Some? ==>
      Busy(s, RS(MEM, acts.store.value.tag.index)) && StationAt(s, RS(MEM, acts.store.value.tag.index)).op == SD
    ensures LegacyInv(ApplyActionsCorrected(s, iss, acts).state)
  {
    var s1 := ApplyIssue(s, iss);
    IssuePhaseInv(s, iss);
    var s2 := ApplyBroadcast(s1, acts.commit);
    BroadcastPhaseInv(s1, acts.commit);
    var s3 := ApplyUpdates(s2, acts.updates);
    UpdatesKeepInv(s2, acts.updates);
    UpdatesKeepRoles(s2, acts.updates);
    if acts.store.Some? && ApplyStore(s3, acts.store).Ok? {
      StoreKeepsInv(s3, acts.store.value);
      var s4 := ApplyStore(s3, acts.store).value;
      if s4.memQueue != [] {
        QueueIrrelevant(s4, s4.memQueue[1..]);
      }
    }
  }

  /** The invariant does not mention the memory queue. */
  lemma QueueIrrelevant(s: TomaState, q: seq<int>)
    requires LegacyInv(s)
    ensures LegacyInv(s.(memQueue := q))
    ensures forall t :: ValidTag(s, t) ==> ValidTag(s.(memQueue := q), t) && StationAt(s.(memQueue := q), t) == StationAt(s, t)
  {
    assert forall t :: ValidTag(s, t) ==> StationAt(s.(memQueue := q), t) == StationAt(s, t);
  }

  /** The store `tick` reports comes from a busy MEM station running a store. */
  lemma StoreStationIsStore(s: TomaState, divide: Divide)
    requires LegacyInv(s) && TickActions(s, divide).Ok? && TickActions(s, divide).value.store.Some?
    ensures var k := TickActions(s, divide).value.store.value.tag.index;
      Busy(s, RS(MEM, k)) && StationAt(s, RS(MEM, k)).op == SD
  {
    TickStore(s, divide);
    var k := TP.LastStore(s.mem, |s.mem|).value;
    assert StationAt(s, RS(MEM, k)) == s.mem[k];
  }

  /**
   * The corrected step keeps the invariant, whether or not it throws: every
   * register awaiting a result names a busy station that will broadcast it.
   */
  lemma StepKeepsInv(s: TomaState, divide: Divide)
    requires LegacyInv(s)
    ensures LegacyInv(StepOutcomeCorrected(s, divide).state)
  {
    if IssueAction(s).Ok? && TickActions(s, divide).Ok? {
      var iss := IssueAction(s).value;
      var acts := TickActions(s, divide).value;
      StepQueue(s, divide);
      if iss.Some? {
        IssueActionOk(s);
      }
      if acts.store.Some? {
        StoreStationIsStore(s, divide);
      }
      ActionsKeepInv(s, iss, acts);
    }
  }
}
