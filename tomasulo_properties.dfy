/**
 * What one Tomasulo step guarantees: the shape of what `tick` collects (the
 * updates follow each station's own rule, one broadcast chosen in pool and
 * index order, the store, the queue pop), in-order issue with operands read
 * at issue, and the tag invariant every step preserves.
 */
module TomasuloProperties {
  import opened Wrappers
  import opened RegisterFiles
  import opened DataMemory
  import opened TomasuloInstructions
  import opened InstructionMemories
  import opened Tomasulo

  // ---------------------------------------------------------------------------
  // The updates a tick collects

  function OptSeq<T>(o: Option<T>): seq<T> {
    if o.Some? then [o.value] else []
  }

  /** The update an arithmetic station asks for; it does not depend on the bus. */
  function ArithWants(st: Station, tag: RSIndex): Option<Update> {
    match ReservationTickArithmetic(st, tag, false, (a, b) => 0)
    case Ok(ArithUpdate(u)) => Some(u)
    case _ => None
  }

  /** The update a MEM station asks for; it does not depend on the bus. */
  function MemWants(st: Station, i: nat, memQueue: seq<int>, memory: seq<int>): Option<Update>
    requires |memory| == MemorySize
  {
    if st.op == LD then
      match ReservationTickLoad(st, RS(MEM, i), IsBufferFirst(memQueue, i), false, memory)
      case Ok(a) => a.update
      case _ => None
    else
      match ReservationTickStore(st, RS(MEM, i), IsBufferFirst(memQueue, i))
      case StoreUpdate(u) => Some(u)
      case _ => None
  }

  /** The updates of the first `n` stations of an arithmetic pool, in index order. */
  function PoolUpdates(ss: seq<Station>, pool: Pool, n: nat): seq<Update>
    requires n <= |ss|
  {
    if n == 0 then [] else PoolUpdates(ss, pool, n - 1) + OptSeq(ArithWants(ss[n - 1], RS(pool, n - 1)))
  }

  /** The updates of the first `n` MEM stations, in index order. */
  function MemUpdates(ss: seq<Station>, n: nat, memQueue: seq<int>, memory: seq<int>): seq<Update>
    requires n <= |ss| && |memory| == MemorySize
  {
    if n == 0 then [] else MemUpdates(ss, n - 1, memQueue, memory) + OptSeq(MemWants(ss[n - 1], n - 1, memQueue, memory))
  }

  /** A station that has finished counting down and waits for the bus. */
  predicate ArithReady(st: Station) {
    st.busy && st.remainingTime.Some? && st.remainingTime.value <= 0
  }

  /** A station of `pool` that waits for the bus; in the MEM pool only a finished load does. */
  predicate BusReady(st: Station, pool: Pool) {
    ArithReady(st) && (pool == MEM ==> st.op == LD)
  }

  /** A finished store whose data is known: it writes memory this step. */
  predicate StoreWrites(st: Station) {
    ArithReady(st) && st.op != LD && st.qk.None?
  }

  /** A load at the head of the queue whose base register is known: it starts and leaves the queue. */
  predicate LoadStarts(st: Station, i: nat, memQueue: seq<int>) {
    st.busy && st.op == LD && st.remainingTime.None? && IsBufferFirst(memQueue, i) && st.qj.None?
  }

  /** The lowest index below `n` of a station of `pool` waiting for the bus. */
  function FirstReady(ss: seq<Station>, pool: Pool, n: nat): (r: Option<nat>)
    requires n <= |ss|
    ensures r.Some? ==> r.value < n && BusReady(ss[r.value], pool) && forall k :: 0 <= k < r.value ==> !BusReady(ss[k], pool)
    ensures r.None? ==> forall k :: 0 <= k < n ==> !BusReady(ss[k], pool)
  {
    if n == 0 then None
    else
      match FirstReady(ss, pool, n - 1)
      case Some(k) => Some(k)
      case None => if BusReady(ss[n - 1], pool) then Some(n - 1) else None
  }

  /** The highest index below `n` whose store writes. */
  function LastStore(ss: seq<Station>, n: nat): (r: Option<nat>)
    requires n <= |ss|
    ensures r.Some? ==> r.value < n && StoreWrites(ss[r.value]) && forall k :: r.value < k < n ==> !StoreWrites(ss[k])
    ensures r.None? ==> forall k :: 0 <= k < n ==> !StoreWrites(ss[k])
  {
    if n == 0 then None
    else if StoreWrites(ss[n - 1]) then Some(n - 1)
    else LastStore(ss, n - 1)
  }

  /** One arithmetic station's turn adds exactly the update its rule asks for, whatever the bus. */
  lemma ArithStepUpdates(acc: TickAcc, st: Station, tag: RSIndex, divide: Divide)
    requires ArithStep(acc, st, tag, divide).Ok?
    ensures var a := ArithStep(acc, st, tag, divide).value;
      a.updates == acc.updates + OptSeq(ArithWants(st, tag)) && a.store == acc.store && a.pop == acc.pop
    ensures var a := ArithStep(acc, st, tag, divide).value;
      if acc.commit.None? && ArithReady(st) then
        a.commit.Some? && a.commit.value.tag == tag && Compute(st.op, st.vj, st.vk, divide) == Ok(a.commit.value.data)
      else a.commit == acc.commit
  {
  }

  /**
   * An arithmetic pass: its updates are the stations' own, in index order,
   * and the bus goes to the lowest-index finished station unless it was
   * already taken.
   */
  lemma {:induction false} ArithPassShape(ss: seq<Station>, pool: Pool, n: nat, acc: TickAcc, divide: Divide)
    requires n <= |ss| && pool != MEM && ArithPass(ss, pool, n, acc, divide).Ok?
    ensures var a := ArithPass(ss, pool, n, acc, divide).value;
      a.updates == acc.updates + PoolUpdates(ss, pool, n) && a.store == acc.store && a.pop == acc.pop
    ensures var a := ArithPass(ss, pool, n, acc, divide).value;
      var k := FirstReady(ss, pool, n);
      if acc.commit.None? && k.Some? then
        a.commit.Some? && a.commit.value.tag == RS(pool, k.value)
        && Compute(ss[k.value].op, ss[k.value].vj, ss[k.value].vk, divide) == Ok(a.commit.value.data)
      else a.commit == acc.commit
  {
    if n > 0 {
      ArithPassShape(ss, pool, n - 1, acc, divide);
      var a := ArithPass(ss, pool, n - 1, acc, divide).value;
      ArithStepUpdates(a, ss[n - 1], RS(pool, n - 1), divide);
    }
  }

  /** One MEM station's turn. */
  lemma MemStepShape(acc: TickAcc, st: Station, i: nat, memQueue: seq<int>, memory: seq<int>)
    requires |memory| == MemorySize && MemStep(acc, st, i, memQueue, memory).Ok?
    ensures var a := MemStep(acc, st, i, memQueue, memory).value;
      a.updates == acc.updates + OptSeq(MemWants(st, i, memQueue, memory))
    ensures var a := MemStep(acc, st, i, memQueue, memory).value;
      if acc.commit.None? && BusReady(st, MEM) then
        a.commit.Some? && a.commit.value.tag == RS(MEM, i) && Load(memory, st.address) == Ok(a.commit.value.data)
      else a.commit == acc.commit
    ensures var a := MemStep(acc, st, i, memQueue, memory).value;
      a.store == (if StoreWrites(st) then Some(StoreAct(st.address, st.vk, RS(MEM, i))) else acc.store)
    ensures var a := MemStep(acc, st, i, memQueue, memory).value;
      a.pop == (acc.pop || LoadStarts(st, i, memQueue) || StoreWrites(st))
  {
  }

  /** The MEM pass collects the MEM stations' own updates, in index order. */
  lemma {:induction false} MemPassUpdates(ss: seq<Station>, n: nat, acc: TickAcc, memQueue: seq<int>, memory: seq<int>)
    requires n <= |ss| && |memory| == MemorySize && MemPass(ss, n, acc, memQueue, memory).Ok?
    ensures MemPass(ss, n, acc, memQueue, memory).value.updates == acc.updates + MemUpdates(ss, n, memQueue, memory)
  {
    if n > 0 {
      MemPassUpdates(ss, n - 1, acc, memQueue, memory);
      MemStepShape(MemPass(ss, n - 1, acc, memQueue, memory).value, ss[n - 1], n - 1, memQueue, memory);
    }
  }

  /** In the MEM pass the bus goes to the lowest-index finished load, unless it was already taken. */
  lemma {:induction false} MemPassCommit(ss: seq<Station>, n: nat, acc: TickAcc, memQueue: seq<int>, memory: seq<int>)
    requires n <= |ss| && |memory| == MemorySize && MemPass(ss, n, acc, memQueue, memory).Ok?
    ensures var a := MemPass(ss, n, acc, memQueue, memory).value;
      var k := FirstReady(ss, MEM, n);
      if acc.commit.None? && k.Some? then
        a.commit.Some? && a.commit.value.tag == RS(MEM, k.value) && Load(memory, ss[k.value].address) == Ok(a.commit.value.data)
      else a.commit == acc.commit
  {
    if n > 0 {
      MemPassCommit(ss, n - 1, acc, memQueue, memory);
      MemStepShape(MemPass(ss, n - 1, acc, memQueue, memory).value, ss[n - 1], n - 1, memQueue, memory);
    }
  }

  /** The store a MEM pass reports is the last writing store's. */
  lemma {:induction false} MemPassStore(ss: seq<Station>, n: nat, acc: TickAcc, memQueue: seq<int>, memory: seq<int>)
    requires n <= |ss| && |memory| == MemorySize && MemPass(ss, n, acc, memQueue, memory).Ok?
    ensures var k := LastStore(ss, n);
      MemPass(ss, n, acc, memQueue, memory).value.store ==
        if k.Some? then Some(StoreAct(ss[k.value].address, ss[k.value].vk, RS(MEM, k.value))) else acc.store
  {
    if n > 0 {
      MemPassStore(ss, n - 1, acc, memQueue, memory);
      MemStepShape(MemPass(ss, n - 1, acc, memQueue, memory).value, ss[n - 1], n - 1, memQueue, memory);
    }
  }

  /** The MEM pass pops the queue iff some load starts or some store writes. */
  lemma {:induction false} MemPassPop(ss: seq<Station>, n: nat, acc: TickAcc, memQueue: seq<int>, memory: seq<int>)
    requires n <= |ss| && |memory| == MemorySize && MemPass(ss, n, acc, memQueue, memory).Ok?
    ensures MemPass(ss, n, acc, memQueue, memory).value.pop ==
      (acc.pop || exists k :: 0 <= k < n && (LoadStarts(ss[k], k, memQueue) || StoreWrites(ss[k])))
  {
    if n > 0 {
      MemPassPop(ss, n - 1, acc, memQueue, memory);
      MemStepShape(MemPass(ss, n - 1, acc, memQueue, memory).value, ss[n - 1], n - 1, memQueue, memory);
      if LoadStarts(ss[n - 1], n - 1, memQueue) || StoreWrites(ss[n - 1]) {
        assert 0 <= n - 1 < n;
      }
    }
  }

  /** The station that gets the bus: the first finished one in the ADD pool, else in MUL, else the first finished load. */
  function BusWinner(s: TomaState): Option<RSIndex> {
    match FirstReady(s.add, ADD, |s.add|)
    case Some(k) => Some(RS(ADD, k))
    case None =>
      match FirstReady(s.mul, MUL, |s.mul|)
      case Some(k) => Some(RS(MUL, k))
      case None =>
        match FirstReady(s.mem, MEM, |s.mem|)
        case Some(k) => Some(RS(MEM, k))
        case None => None
  }

  /** A station that asks for the bus this step. */
  predicate WantsBus(s: TomaState, t: RSIndex) {
    ValidTag(s, t) && BusReady(StationAt(s, t), t.pool)
  }

  function PoolRank(p: Pool): nat {
    match p
    case ADD => 0
    case MUL => 1
    case MEM => 2
  }

  /** `a` comes no later than `b` in the order `tick` visits stations. */
  predicate NoLater(a: RSIndex, b: RSIndex) {
    PoolRank(a.pool) < PoolRank(b.pool) || (a.pool == b.pool && a.index <= b.index)
  }

  /** The bus winner asks for the bus and comes before every other station that does. */
  lemma BusWinnerFirst(s: TomaState)
    ensures BusWinner(s).Some? <==> exists t :: WantsBus(s, t)
    ensures BusWinner(s).Some? ==> WantsBus(s, BusWinner(s).value)
    ensures BusWinner(s).Some? ==> forall t :: WantsBus(s, t) ==> NoLater(BusWinner(s).value, t)
  {
    var w := BusWinner(s);
    if w.Some? {
      assert StationAt(s, w.value) == Stations(s, w.value.pool)[w.value.index];
      assert WantsBus(s, w.value);
    }
    forall t | WantsBus(s, t)
      ensures w.Some? && NoLater(w.value, t)
    {
      assert Stations(s, t.pool)[t.index] == StationAt(s, t);
    }
  }

  /** `tick` collects the stations' own updates, ADD pool first, then MUL, then MEM. */
  lemma TickUpdates(s: TomaState, divide: Divide)
    requires WellSized(s) && TickSpec(s, divide).Ok?
    ensures TickSpec(s, divide).value.updates == PoolUpdates(s.add, ADD, |s.add|) + PoolUpdates(s.mul, MUL, |s.mul|)
                                                 + MemUpdates(s.mem, |s.mem|, s.memQueue, s.memory)
  {
    var a := ArithPass(s.add, ADD, |s.add|, EmptyAcc(), divide).value;
    ArithPassShape(s.add, ADD, |s.add|, EmptyAcc(), divide);
    assert a.updates == PoolUpdates(s.add, ADD, |s.add|);
    var b := ArithPass(s.mul, MUL, |s.mul|, a, divide).value;
    ArithPassShape(s.mul, MUL, |s.mul|, a, divide);
    MemPassUpdates(s.mem, |s.mem|, b, s.memQueue, s.memory);
  }

  /**
   * At most one result goes on the bus: the bus winner's, which is its
   * operation's result for an arithmetic station and the memory word for a load.
   */
  lemma TickCommit(s: TomaState, divide: Divide)
    requires WellSized(s) && TickSpec(s, divide).Ok?
    ensures var c := TickSpec(s, divide).value.commit;
      (c.Some? <==> BusWinner(s).Some?) && (c.Some? ==> c.value.tag == BusWinner(s).value)
    ensures var c := TickSpec(s, divide).value.commit;
      c.Some? && c.value.tag.pool != MEM ==>
        ValidTag(s, c.value.tag)
        && Compute(StationAt(s, c.value.tag).op, StationAt(s, c.value.tag).vj, StationAt(s, c.value.tag).vk, divide)
           == Ok(c.value.data)
    ensures var c := TickSpec(s, divide).value.commit;
      c.Some? && c.value.tag.pool == MEM ==>
        ValidTag(s, c.value.tag) && Load(s.memory, StationAt(s, c.value.tag).address) == Ok(c.value.data)
  {
    var a := ArithPass(s.add, ADD, |s.add|, EmptyAcc(), divide).value;
    ArithPassShape(s.add, ADD, |s.add|, EmptyAcc(), divide);
    var b := ArithPass(s.mul, MUL, |s.mul|, a, divide).value;
    ArithPassShape(s.mul, MUL, |s.mul|, a, divide);
    MemPassCommit(s.mem, |s.mem|, b, s.memQueue, s.memory);
  }

  /** The store `tick` reports is the last writing store's: its address and its data operand. */
  lemma TickStore(s: TomaState, divide: Divide)
    requires WellSized(s) && TickSpec(s, divide).Ok?
    ensures var k := LastStore(s.mem, |s.mem|);
      TickSpec(s, divide).value.store ==
        if k.Some? then Some(StoreAct(s.mem[k.value].address, s.mem[k.value].vk, RS(MEM, k.value))) else None
  {
    var a := ArithPass(s.add, ADD, |s.add|, EmptyAcc(), divide).value;
    ArithPassShape(s.add, ADD, |s.add|, EmptyAcc(), divide);
    var b := ArithPass(s.mul, MUL, |s.mul|, a, divide).value;
    ArithPassShape(s.mul, MUL, |s.mul|, a, divide);
    MemPassStore(s.mem, |s.mem|, b, s.memQueue, s.memory);
  }

  /** `tick` asks for a queue pop iff a load starts or a store writes. */
  lemma TickPop(s: TomaState, divide: Divide)
    requires WellSized(s) && TickSpec(s, divide).Ok?
    ensures TickSpec(s, divide).value.pop <==>
      exists k :: 0 <= k < |s.mem| && (LoadStarts(s.mem[k], k, s.memQueue) || StoreWrites(s.mem[k]))
  {
    var a := ArithPass(s.add, ADD, |s.add|, EmptyAcc(), divide).value;
    ArithPassShape(s.add, ADD, |s.add|, EmptyAcc(), divide);
    var b := ArithPass(s.mul, MUL, |s.mul|, a, divide).value;
    ArithPassShape(s.mul, MUL, |s.mul|, a, divide);
    MemPassPop(s.mem, |s.mem|, b, s.memQueue, s.memory);
  }

  // ---------------------------------------------------------------------------
  // The tag invariant

  /** A tag an operand waits on names a busy station that will write a register. */
  ghost predicate LiveProducer(s: TomaState, q: Option<RSIndex>) {
    q.Some? ==> Busy(s, q.value) && StationAt(s, q.value).dest.Some?
  }

  /** Every tag in `qi` names a busy station whose destination is that register; so no tag sits in two slots. */
  ghost predicate TagsLive(s: TomaState) {
    forall r :: 0 <= r < |s.qi| && s.qi[r].Some? ==> Busy(s, s.qi[r].value) && StationAt(s, s.qi[r].value).dest == Some(r)
  }

  /** Every tag a busy station waits on names a live producer. */
  ghost predicate OperandsLive(s: TomaState) {
    forall t :: Busy(s, t) ==> LiveProducer(s, StationAt(s, t).qj) && LiveProducer(s, StationAt(s, t).qk)
  }

  /**
   * A busy station sits in the pool of its operation; a store writes no
   * register; a load waits on no data register; and a station runs only with
   * its base operand (and, unless it is a store, both operands) known.
   */
  ghost predicate ShapeOk(st: Station, pool: Pool) {
    PoolOf(st.op) == pool && (st.op == SD ==> st.dest.None?) && (st.op == LD ==> st.qk.None?)
    && (st.remainingTime.Some? ==> st.qj.None? && (st.op != SD ==> st.qk.None?))
  }

  ghost predicate StationsShaped(s: TomaState) {
    forall t :: Busy(s, t) ==> ShapeOk(StationAt(s, t), t.pool)
  }

  /** A MEM station that must be in the queue: one not started, or a started store (which leaves at its write). */
  predicate Queued(st: Station) {
    st.busy && (st.remainingTime.None? || st.op == SD)
  }

  /**
   * The memory queue holds distinct busy MEM stations, all of them not
   * started except that a started store may be at the head, and it holds
   * every MEM station that must be queued.
   */
  ghost predicate QueueOk(s: TomaState) {
    var q := s.memQueue;
    (forall k :: 0 <= k < |q| ==>
       0 <= q[k] < |s.mem| && s.mem[q[k]].busy && (s.mem[q[k]].remainingTime.None? || (k == 0 && s.mem[q[k]].op == SD)))
    && (forall j, k :: 0 <= j < k < |q| ==> q[j] != q[k])
    && (forall i :: 0 <= i < |s.mem| && Queued(s.mem[i]) ==> i in q)
  }

  ghost predicate CoreInv(s: TomaState) {
    WellSized(s) && TagsLive(s) && OperandsLive(s) && StationsShaped(s)
  }

  ghost predicate Inv(s: TomaState) {
    CoreInv(s) && QueueOk(s)
  }

  /** The stations of a fresh processor are idle, so the invariant holds from the start. */
  lemma InitialInv(program: seq<InstToma>, addCount: nat, mulCount: nat, memCount: nat)
    ensures Inv(InitialState(program, addCount, mulCount, memCount))
  {
  }

  /** What `issue` returns: a station of the right pool that was free, filled and not started. */
  lemma IssueFacts(s: TomaState)
    requires WellSized(s) && IssueSpec(s).Ok? && IssueSpec(s).value.Some?
    ensures var iss := IssueSpec(s).value.value; var inst := s.program[s.pc];
      0 <= s.pc < |s.program| && ValidTag(s, iss.tag) && !StationAt(s, iss.tag).busy
      && iss.tag.pool == PoolOf(inst.kind) && iss.station.op == inst.kind && iss.station.busy
      && iss.station.remainingTime.None?
      && (inst.kind == SD ==> iss.station.dest.None?) && (inst.kind == LD ==> iss.station.qk.None?)
      && (inst.kind != SD ==> iss.station.dest == inst.rd)
      && RegReady(s, inst.rs.0) == Ok((iss.station.qj, iss.station.vj))
      && (inst.kind != LD ==> RegReady(s, inst.rs.1) == Ok((iss.station.qk, iss.station.vk)))
      && forall k :: 0 <= k < iss.tag.index ==> Stations(s, iss.tag.pool)[k].busy
  {
  }

  /**
   * Nothing issues exactly when the program has run out (which is not an
   * error) or every station of the next instruction's pool is busy.
   */
  lemma IssueNone(s: TomaState)
    requires WellSized(s) && IssueSpec(s).Ok?
    ensures IssueSpec(s).value.None? <==>
      (0 <= s.pc < AddressLimit && s.pc >= |s.program|)
      || (0 <= s.pc < |s.program| && forall k :: 0 <= k < |Stations(s, PoolOf(s.program[s.pc].kind))| ==>
                                               Stations(s, PoolOf(s.program[s.pc].kind))[k].busy)
  {
  }

  /** Past the end of the program `issue` does nothing and does not throw. */
  lemma IssuePastEnd(s: TomaState)
    requires WellSized(s) && 0 <= s.pc < AddressLimit && s.pc >= |s.program|
    ensures IssueSpec(s) == Ok(None)
  {
  }

  /** An operand read at issue is a value, or the tag `qi` holds for it. */
  lemma RegReadyFacts(s: TomaState, reg: Option<int>)
    requires WellSized(s) && RegReady(s, reg).Ok?
    ensures var (q, v) := RegReady(s, reg).value;
      reg.Some? && 0 <= reg.value < RegisterFileSize
      && (q.Some? ==> q == s.qi[reg.value] && v == 0)
      && (q.None? ==> s.qi[reg.value].None? && Read(s.registers, reg.value) == Ok(v))
  {
  }

  /** What an issued station is: a free slot filled with a busy, shaped, not started station whose operands wait on live producers. */
  ghost predicate IssueOk(s: TomaState, iss: Issued) {
    ValidTag(s, iss.tag) && !StationAt(s, iss.tag).busy && iss.station.busy && iss.station.remainingTime.None?
    && ShapeOk(iss.station, iss.tag.pool) && LiveProducer(s, iss.station.qj) && LiveProducer(s, iss.station.qk)
  }

  lemma IssueSpecOk(s: TomaState)
    requires Inv(s) && IssueSpec(s).Ok? && IssueSpec(s).value.Some?
    ensures IssueOk(s, IssueSpec(s).value.value)
  {
    var inst := s.program[s.pc];
    IssueFacts(s);
    RegReadyFacts(s, inst.rs.0);
    if inst.kind != LD {
      RegReadyFacts(s, inst.rs.1);
    }
  }

  /** The state after placing `iss`, described station by station. */
  ghost predicate IssuedState(s: TomaState, iss: Issued, r: TomaState)
    requires ValidTag(s, iss.tag)
  {
    r.registers == s.registers && r.memory == s.memory && r.program == s.program && r.pc == s.pc + 1
    && (forall p :: |Stations(r, p)| == |Stations(s, p)|)
    && StationAt(r, iss.tag) == iss.station
    && (forall t :: ValidTag(s, t) && t != iss.tag ==> StationAt(r, t) == StationAt(s, t))
    && |r.qi| == |s.qi|
    && (forall k :: 0 <= k < |s.qi| ==> r.qi[k] == if iss.station.dest == Some(k) && k != 0 then Some(iss.tag) else s.qi[k])
    && r.memQueue == if iss.tag.pool == MEM then s.memQueue + [iss.tag.index] else s.memQueue
  }

  lemma ApplyIssueShape(s: TomaState, iss: Issued)
    requires ValidTag(s, iss.tag) && iss.station.remainingTime.None?
    ensures IssuedState(s, iss, ApplyIssue(s, Some(iss)))
  {
  }

  lemma IssueKeepsTags(s: TomaState, iss: Issued, r: TomaState)
    requires Inv(s) && IssueOk(s, iss) && IssuedState(s, iss, r)
    ensures TagsLive(r)
  {
    forall k | 0 <= k < |r.qi| && r.qi[k].Some?
      ensures Busy(r, r.qi[k].value) && StationAt(r, r.qi[k].value).dest == Some(k)
    {
      if r.qi[k] != s.qi[k] {
        assert r.qi[k] == Some(iss.tag);
      } else {
        assert Busy(s, s.qi[k].value);
      }
    }
  }

  lemma IssueKeepsOperands(s: TomaState, iss: Issued, r: TomaState)
    requires Inv(s) && IssueOk(s, iss) && IssuedState(s, iss, r)
    ensures OperandsLive(r)
  {
    forall t | Busy(r, t)
      ensures LiveProducer(r, StationAt(r, t).qj) && LiveProducer(r, StationAt(r, t).qk)
    {
      var st := StationAt(r, t);
      if t != iss.tag {
        assert Busy(s, t);
      }
      if st.qj.Some? {
        assert Busy(s, st.qj.value);
      }
      if st.qk.Some? {
        assert Busy(s, st.qk.value);
      }
    }
  }

  lemma IssueKeepsShapes(s: TomaState, iss: Issued, r: TomaState)
    requires Inv(s) && IssueOk(s, iss) && IssuedState(s, iss, r)
    ensures StationsShaped(r)
  {
    forall t | Busy(r, t)
      ensures ShapeOk(StationAt(r, t), t.pool)
    {
      if t != iss.tag {
        assert Busy(s, t);
      }
    }
  }

  lemma IssueKeepsQueue(s: TomaState, iss: Issued, r: TomaState)
    requires Inv(s) && IssueOk(s, iss) && IssuedState(s, iss, r)
    ensures QueueOk(r)
  {
    var q := r.memQueue;
    forall k | 0 <= k < |q|
      ensures 0 <= q[k] < |r.mem| && r.mem[q[k]].busy && (r.mem[q[k]].remainingTime.None? || (k == 0 && r.mem[q[k]].op == SD))
    {
      if k < |s.memQueue| {
        assert q[k] == s.memQueue[k];
        assert StationAt(r, RS(MEM, q[k])) == StationAt(s, RS(MEM, q[k]));
      } else {
        assert q[k] == iss.tag.index && StationAt(r, iss.tag) == iss.station;
      }
    }
    forall j, k | 0 <= j < k < |q|
      ensures q[j] != q[k]
    {
      if k == |s.memQueue| {
        assert q[j] == s.memQueue[j];
        assert s.mem[q[j]].busy;
      }
    }
    forall i | 0 <= i < |r.mem| && Queued(r.mem[i])
      ensures i in q
    {
      if RS(MEM, i) == iss.tag {
        assert q[|q| - 1] == i;
      } else {
        assert StationAt(r, RS(MEM, i)) == StationAt(s, RS(MEM, i));
        assert i in s.memQueue;
      }
    }
  }

  /** Issue keeps the invariant. */
  lemma IssuePhase(s: TomaState)
    requires Inv(s) && IssueSpec(s).Ok?
    ensures Inv(ApplyIssue(s, IssueSpec(s).value))
  {
    if IssueSpec(s).value.Some? {
      var iss := IssueSpec(s).value.value;
      IssueSpecOk(s);
      var r := ApplyIssue(s, Some(iss));
      ApplyIssueShape(s, iss);
      IssueKeepsTags(s, iss, r);
      IssueKeepsOperands(s, iss, r);
      IssueKeepsShapes(s, iss, r);
      IssueKeepsQueue(s, iss, r);
    }
  }

  /** The broadcast comes from a busy, finished station that is not a store. */
  ghost predicate CommitOk(s: TomaState, c: Commit) {
    Busy(s, c.tag) && ArithReady(StationAt(s, c.tag)) && StationAt(s, c.tag).op != SD
  }

  lemma TickCommitOk(s: TomaState, divide: Divide)
    requires Inv(s) && TickSpec(s, divide).Ok? && TickSpec(s, divide).value.commit.Some?
    ensures CommitOk(s, TickSpec(s, divide).value.commit.value)
  {
    TickCommit(s, divide);
    BusWinnerFirst(s);
  }

  /** The state after a broadcast, described station by station. */
  ghost predicate CommittedState(s: TomaState, c: Commit, r: TomaState)
    requires ValidTag(s, c.tag)
  {
    WellSized(r) && r.memQueue == s.memQueue && r.memory == s.memory && r.program == s.program && r.pc == s.pc
    && (forall p :: |Stations(r, p)| == |Stations(s, p)|)
    && (forall t :: ValidTag(s, t) ==>
          StationAt(r, t) == ForwardStation(if t == c.tag then StationAt(s, t).(busy := false) else StationAt(s, t), c))
    && r.qi == match FindTag(s.qi, c.tag) case None => s.qi case Some(k) => s.qi[k := None]
  }

  lemma ForwardKeeps(st: Station, c: Commit)
    ensures var f := ForwardStation(st, c);
      f.busy == st.busy && f.op == st.op && f.dest == st.dest && f.remainingTime == st.remainingTime
      && f.address == st.address
      && f.qj == (if st.qj == Some(c.tag) then None else st.qj) && f.qk == (if st.qk == Some(c.tag) then None else st.qk)
  {
  }

  /**
   * `commitChange`: the first register awaiting the tag takes the value (`$0`
   * stays 0) and no longer awaits it; a superseded tag, awaited by no
   * register, writes none. Afterwards no station waits for the tag.
   */
  lemma CommitWrites(s: TomaState, c: Commit)
    requires WellSized(s)
    ensures var r := CommitChangeSpec(s, c);
      (forall k :: 0 <= k < |s.qi| ==> s.qi[k] != Some(c.tag)) ==> r.registers == s.registers && r.qi == s.qi
    ensures var r := CommitChangeSpec(s, c);
      forall k :: 0 <= k < |s.qi| && s.qi[k] == Some(c.tag) && (forall j :: 0 <= j < k ==> s.qi[j] != Some(c.tag)) ==>
        r.qi == s.qi[k := None] && r.registers == (if k == 0 then s.registers else s.registers[k := c.data])
    ensures var r := CommitChangeSpec(s, c);
      forall t :: ValidTag(r, t) ==> StationAt(r, t).qj != Some(c.tag) && StationAt(r, t).qk != Some(c.tag)
  {
    var r := CommitChangeSpec(s, c);
    forall k | 0 <= k < |s.qi| && s.qi[k] == Some(c.tag) && (forall j :: 0 <= j < k ==> s.qi[j] != Some(c.tag))
      ensures r.qi == s.qi[k := None] && r.registers == (if k == 0 then s.registers else s.registers[k := c.data])
    {
      assert FindTag(s.qi, c.tag) == Some(k);
    }
  }

  lemma ApplyCommitShape(s: TomaState, c: Commit)
    requires WellSized(s) && ValidTag(s, c.tag)
    ensures CommittedState(s, c, ApplyCommit(s, Some(c)))
  {
    var s0 := WithStation(s, c.tag, StationAt(s, c.tag).(busy := false));
    var r := ApplyCommit(s, Some(c));
    assert r == CommitChangeSpec(s0, c);
    forall t | ValidTag(s, t)
      ensures StationAt(r, t) == ForwardStation(if t == c.tag then StationAt(s, t).(busy := false) else StationAt(s, t), c)
    {
      assert StationAt(r, t) == ForwardStation(StationAt(s0, t), c);
    }
  }

  /** Under the invariant a tag sits in at most one register slot: its station's destination. */
  lemma TagSlotUnique(s: TomaState, t: RSIndex)
    requires Inv(s)
    ensures forall k :: 0 <= k < |s.qi| && s.qi[k] == Some(t) ==> FindTag(s.qi, t) == Some(k)
  {
    forall k | 0 <= k < |s.qi| && s.qi[k] == Some(t)
      ensures FindTag(s.qi, t) == Some(k)
    {
      var j := FindTag(s.qi, t).value;
      assert StationAt(s, t).dest == Some(j);
    }
  }

  /** A broadcast clears exactly the register slots that waited for it. */
  lemma CommitQi(s: TomaState, c: Commit, r: TomaState)
    requires Inv(s) && CommitOk(s, c) && CommittedState(s, c, r)
    ensures |r.qi| == |s.qi|
    ensures forall k :: 0 <= k < |r.qi| ==> r.qi[k] == if s.qi[k] == Some(c.tag) then None else s.qi[k]
  {
    TagSlotUnique(s, c.tag);
  }

  lemma CommitKeepsTags(s: TomaState, c: Commit, r: TomaState)
    requires Inv(s) && CommitOk(s, c) && CommittedState(s, c, r)
    ensures TagsLive(r)
  {
    CommitQi(s, c, r);
    forall k | 0 <= k < |r.qi| && r.qi[k].Some?
      ensures Busy(r, r.qi[k].value) && StationAt(r, r.qi[k].value).dest == Some(k)
    {
      var t := s.qi[k].value;
      assert Busy(s, t);
      ForwardKeeps(StationAt(s, t), c);
    }
  }

  lemma CommitKeepsOperands(s: TomaState, c: Commit, r: TomaState)
    requires Inv(s) && CommitOk(s, c) && CommittedState(s, c, r)
    ensures OperandsLive(r)
  {
    forall t | Busy(r, t)
      ensures LiveProducer(r, StationAt(r, t).qj) && LiveProducer(r, StationAt(r, t).qk)
    {
      var st := StationAt(s, t);
      ForwardKeeps(st, c);
      ForwardKeeps(st.(busy := false), c);
      assert Busy(s, t);
      var f := StationAt(r, t);
      if f.qj.Some? {
        assert Busy(s, f.qj.value);
        ForwardKeeps(StationAt(s, f.qj.value), c);
      }
      if f.qk.Some? {
        assert Busy(s, f.qk.value);
        ForwardKeeps(StationAt(s, f.qk.value), c);
      }
    }
  }

  lemma CommitKeepsShapes(s: TomaState, c: Commit, r: TomaState)
    requires Inv(s) && CommitOk(s, c) && CommittedState(s, c, r)
    ensures StationsShaped(r)
  {
    forall t | Busy(r, t)
      ensures ShapeOk(StationAt(r, t), t.pool)
    {
      var st := StationAt(s, t);
      ForwardKeeps(st, c);
      ForwardKeeps(st.(busy := false), c);
      assert Busy(s, t);
    }
  }

  lemma CommitKeepsQueue(s: TomaState, c: Commit, r: TomaState)
    requires Inv(s) && CommitOk(s, c) && CommittedState(s, c, r)
    ensures QueueOk(r)
  {
    var q := r.memQueue;
    forall k | 0 <= k < |q|
      ensures 0 <= q[k] < |r.mem| && r.mem[q[k]].busy && (r.mem[q[k]].remainingTime.None? || (k == 0 && r.mem[q[k]].op == SD))
    {
      var t := RS(MEM, q[k]);
      assert StationAt(s, t) == s.mem[q[k]];
      ForwardKeeps(StationAt(s, t), c);
      ForwardKeeps(StationAt(s, t).(busy := false), c);
      assert StationAt(r, t) == r.mem[q[k]];
    }
    forall i | 0 <= i < |r.mem| && Queued(r.mem[i])
      ensures i in q
    {
      var t := RS(MEM, i);
      assert StationAt(s, t) == s.mem[i];
      ForwardKeeps(StationAt(s, t), c);
      ForwardKeeps(StationAt(s, t).(busy := false), c);
      assert StationAt(r, t) == r.mem[i];
    }
  }

  /** A broadcast keeps the invariant. */
  lemma CommitPhase(s: TomaState, c: Commit)
    requires Inv(s) && CommitOk(s, c)
    ensures Inv(ApplyCommit(s, Some(c)))
  {
    var r := ApplyCommit(s, Some(c));
    ApplyCommitShape(s, c);
    CommitKeepsTags(s, c, r);
    CommitKeepsOperands(s, c, r);
    CommitKeepsShapes(s, c, r);
    CommitKeepsQueue(s, c, r);
  }

  // ---------------------------------------------------------------------------
  // The updates of a step

  /** The update station `t` asks for in state `s`. */
  ghost function WantsAt(s: TomaState, t: RSIndex): Option<Update>
    requires WellSized(s) && ValidTag(s, t)
  {
    if t.pool == MEM then MemWants(s.mem[t.index], t.index, s.memQueue, s.memory) else ArithWants(StationAt(s, t), t)
  }

  /**
   * An arithmetic station asks for an update when it starts (both operands
   * known: the whole latency less one) or while it counts down; never once
   * it has finished.
   */
  lemma ArithWantsFacts(st: Station, tag: RSIndex)
    ensures ArithWants(st, tag).Some? ==> var u := ArithWants(st, tag).value;
      u.tag == tag && st.busy && !ArithReady(st) && u.address.None?
      && (st.remainingTime.None? ==> st.qj.None? && st.qk.None? && u.remainingTime == ExecuteTime(st.op) - 1)
      && (st.remainingTime.Some? ==> u.remainingTime == st.remainingTime.value - 1)
    ensures st.busy && st.remainingTime.Some? && st.remainingTime.value > 0 ==> ArithWants(st, tag).Some?
  {
  }

  /**
   * A MEM station asks for an update when it starts (only at the head of the
   * queue, with its base known, fixing its address) or while it counts down;
   * never a finished load and never a store that writes.
   */
  lemma MemWantsFacts(st: Station, i: nat, memQueue: seq<int>, memory: seq<int>)
    requires |memory| == MemorySize
    ensures MemWants(st, i, memQueue, memory).Some? ==> var u := MemWants(st, i, memQueue, memory).value;
      u.tag == RS(MEM, i) && st.busy && !BusReady(st, MEM) && !StoreWrites(st)
      && (st.remainingTime.None? ==>
            IsBufferFirst(memQueue, i) && st.qj.None? && u.address == Some(st.vj + st.address)
            && u.remainingTime == ExecuteTime(st.op) - 1)
      && (st.remainingTime.Some? ==> u.address.None? && u.remainingTime == st.remainingTime.value - 1)
    ensures LoadStarts(st, i, memQueue) ==> MemWants(st, i, memQueue, memory).Some?
  {
  }

  lemma {:induction false} PoolUpdatesIn(ss: seq<Station>, pool: Pool, n: nat)
    requires n <= |ss|
    ensures forall u :: u in PoolUpdates(ss, pool, n) <==>
      u.tag.pool == pool && u.tag.index < n && ArithWants(ss[u.tag.index], u.tag) == Some(u)
  {
    if n > 0 {
      PoolUpdatesIn(ss, pool, n - 1);
      ArithWantsFacts(ss[n - 1], RS(pool, n - 1));
    }
  }

  lemma {:induction false} MemUpdatesIn(ss: seq<Station>, n: nat, memQueue: seq<int>, memory: seq<int>)
    requires n <= |ss| && |memory| == MemorySize
    ensures forall u :: u in MemUpdates(ss, n, memQueue, memory) <==>
      u.tag.pool == MEM && u.tag.index < n && MemWants(ss[u.tag.index], u.tag.index, memQueue, memory) == Some(u)
  {
    if n > 0 {
      MemUpdatesIn(ss, n - 1, memQueue, memory);
      MemWantsFacts(ss[n - 1], n - 1, memQueue, memory);
    }
  }

  /** The updates of a tick are exactly the ones the stations ask for, one per station at most. */
  lemma TickUpdatesIn(s: TomaState, divide: Divide)
    requires WellSized(s) && TickSpec(s, divide).Ok?
    ensures forall u :: u in TickSpec(s, divide).value.updates <==> ValidTag(s, u.tag) && WantsAt(s, u.tag) == Some(u)
  {
    TickUpdates(s, divide);
    PoolUpdatesIn(s.add, ADD, |s.add|);
    PoolUpdatesIn(s.mul, MUL, |s.mul|);
    MemUpdatesIn(s.mem, |s.mem|, s.memQueue, s.memory);
  }

  /** Applying a list in which station `t` has at most the one update `w`. */
  lemma {:induction false} ApplyUpdatesAt(s: TomaState, us: seq<Update>, t: RSIndex, w: Option<Update>)
    requires ValidTag(s, t) && (w.Some? ==> w.value.tag == t)
    requires forall u :: u in us && u.tag == t ==> w == Some(u)
    ensures StationAt(ApplyUpdates(s, us), t) ==
      if w.Some? && w.value in us then Updated(StationAt(s, t), w.value) else StationAt(s, t)
    decreases |us|
  {
    if us != [] {
      var s1 := ApplyUpdate(s, us[0]);
      assert ApplyUpdates(s, us) == ApplyUpdates(s1, us[1..]);
      assert forall u :: u in us[1..] ==> u in us;
      ApplyUpdatesAt(s1, us[1..], t, w);
      if us[0].tag == t {
        assert StationAt(s1, t) == Updated(StationAt(s, t), us[0]);
      } else {
        assert StationAt(s1, t) == StationAt(s, t);
        assert w.Some? && w.value in us ==> w.value in us[1..];
      }
    }
  }

  /** After the updates of a tick, each station has had the update it asked for in the state before the step. */
  lemma UpdatesAt(s: TomaState, divide: Divide, s2: TomaState)
    requires WellSized(s) && TickSpec(s, divide).Ok? && forall p :: |Stations(s2, p)| == |Stations(s, p)|
    ensures forall t :: ValidTag(s, t) ==>
      StationAt(ApplyUpdates(s2, TickSpec(s, divide).value.updates), t) ==
        if WantsAt(s, t).Some? then Updated(StationAt(s2, t), WantsAt(s, t).value) else StationAt(s2, t)
  {
    var us := TickSpec(s, divide).value.updates;
    TickUpdatesIn(s, divide);
    forall t | ValidTag(s, t)
      ensures StationAt(ApplyUpdates(s2, us), t) ==
        if WantsAt(s, t).Some? then Updated(StationAt(s2, t), WantsAt(s, t).value) else StationAt(s2, t)
    {
      if t.pool == MEM {
        MemWantsFacts(s.mem[t.index], t.index, s.memQueue, s.memory);
      } else {
        ArithWantsFacts(StationAt(s, t), t);
      }
      ApplyUpdatesAt(s2, us, t, WantsAt(s, t));
    }
  }
}
