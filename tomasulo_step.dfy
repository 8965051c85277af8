/**
 * A whole step of the Tomasulo engine: the invariant of the properties
 * module holds after every step, the queue pop never fails, and the
 * step-level properties of the engine (in-order issue, one broadcast
 * per step, loads and stores leaving the queue when they start and write).
 */
module TomasuloStep {
  import opened Wrappers
  import opened RegisterFiles
  import opened DataMemory
  import opened TomasuloInstructions
  import opened InstructionMemories
  import opened Tomasulo
  import opened TomasuloProperties

  /** The state once the issued station is placed and the broadcast delivered. */
  ghost function AfterCommit(s: TomaState, divide: Divide): TomaState
    requires WellSized(s) && IssueSpec(s).Ok? && TickSpec(s, divide).Ok?
  {
    ApplyCommit(ApplyIssue(s, IssueSpec(s).value), TickSpec(s, divide).value.commit)
  }

  /** The state once the updates of the tick are applied as well. */
  ghost function AfterUpdates(s: TomaState, divide: Divide): (r: TomaState)
    requires WellSized(s) && IssueSpec(s).Ok? && TickSpec(s, divide).Ok?
    ensures WellSized(r)
  {
    ApplyUpdates(AfterCommit(s, divide), TickSpec(s, divide).value.updates)
  }

  /** `a` is `b` with perhaps some awaited operands delivered. */
  ghost predicate Forwarded(a: Station, b: Station) {
    a.busy == b.busy && a.op == b.op && a.dest == b.dest && a.remainingTime == b.remainingTime
    && a.address == b.address && (a.qj == b.qj || a.qj.None?) && (a.qk == b.qk || a.qk.None?)
  }

  /** The station `issue` fills this step, if any. */
  predicate IssuedAt(s: TomaState, t: RSIndex)
    requires WellSized(s)
  {
    IssueSpec(s).Ok? && IssueSpec(s).value.Some? && IssueSpec(s).value.value.tag == t
  }

  /** The station that broadcasts this step, if any. */
  predicate CommitsAt(s: TomaState, divide: Divide, t: RSIndex)
    requires WellSized(s)
  {
    TickSpec(s, divide).Ok? && TickSpec(s, divide).value.commit.Some? && TickSpec(s, divide).value.commit.value.tag == t
  }

  /** The broadcasting station is a finished one waiting for the bus, and it is not the one being issued. */
  lemma CommitFacts(s: TomaState, divide: Divide)
    requires Inv(s) && IssueSpec(s).Ok? && TickSpec(s, divide).Ok? && TickSpec(s, divide).value.commit.Some?
    ensures var t := TickSpec(s, divide).value.commit.value.tag;
      CommitOk(s, TickSpec(s, divide).value.commit.value) && BusReady(StationAt(s, t), t.pool) && !IssuedAt(s, t)
  {
    TickCommitOk(s, divide);
    TickCommit(s, divide);
    BusWinnerFirst(s);
    if IssueSpec(s).value.Some? {
      IssueSpecOk(s);
    }
  }

  /** The broadcast reaches the station issued in the same step: issue is applied first. */
  lemma IssuedGetsBroadcast(s: TomaState, divide: Divide)
    requires Inv(s) && IssueSpec(s).Ok? && TickSpec(s, divide).Ok?
    requires IssueSpec(s).value.Some? && TickSpec(s, divide).value.commit.Some?
    ensures var iss := IssueSpec(s).value.value;
      ValidTag(AfterCommit(s, divide), iss.tag)
      && StationAt(AfterCommit(s, divide), iss.tag) == ForwardStation(iss.station, TickSpec(s, divide).value.commit.value)
  {
    var iss := IssueSpec(s).value.value;
    var c := TickSpec(s, divide).value.commit.value;
    IssueSpecOk(s);
    ApplyIssueShape(s, iss);
    CommitFacts(s, divide);
    var s1 := ApplyIssue(s, Some(iss));
    ApplyCommitShape(s1, c);
  }

  /** Issue and broadcast keep the invariant. */
  lemma Phase12Inv(s: TomaState, divide: Divide)
    requires Inv(s) && IssueSpec(s).Ok? && TickSpec(s, divide).Ok?
    ensures Inv(AfterCommit(s, divide))
  {
    var iss := IssueSpec(s).value;
    var s1 := ApplyIssue(s, iss);
    IssuePhase(s);
    var c := TickSpec(s, divide).value.commit;
    if c.Some? {
      CommitFacts(s, divide);
      if iss.Some? {
        IssueSpecOk(s);
        ApplyIssueShape(s, iss.value);
        assert StationAt(s1, c.value.tag) == StationAt(s, c.value.tag);
      }
      CommitPhase(s1, c.value);
    }
  }

  /** The pools and the queue once issue and broadcast are applied. */
  lemma Phase12Queue(s: TomaState, divide: Divide)
    requires Inv(s) && IssueSpec(s).Ok? && TickSpec(s, divide).Ok?
    ensures var s2 := AfterCommit(s, divide);
      var iss := IssueSpec(s).value;
      (forall p :: |Stations(s2, p)| == |Stations(s, p)|) && s2.memory == s.memory
      && s2.memQueue == (if iss.Some? && iss.value.tag.pool == MEM then s.memQueue + [iss.value.tag.index] else s.memQueue)
  {
    var iss := IssueSpec(s).value;
    if iss.Some? {
      IssueSpecOk(s);
      ApplyIssueShape(s, iss.value);
    }
    var c := TickSpec(s, divide).value.commit;
    if c.Some? {
      CommitFacts(s, divide);
      ApplyCommitShape(ApplyIssue(s, iss), c.value);
    }
  }

  /** Station `t` once issue and broadcast are applied, in terms of the state before the step. */
  lemma Phase12At(s: TomaState, divide: Divide, t: RSIndex)
    requires Inv(s) && IssueSpec(s).Ok? && TickSpec(s, divide).Ok? && ValidTag(s, t)
    ensures ValidTag(AfterCommit(s, divide), t)
    ensures IssuedAt(s, t) ==> Forwarded(StationAt(AfterCommit(s, divide), t), IssueSpec(s).value.value.station)
    ensures CommitsAt(s, divide, t) ==> !StationAt(AfterCommit(s, divide), t).busy
    ensures !IssuedAt(s, t) && !CommitsAt(s, divide, t) ==> Forwarded(StationAt(AfterCommit(s, divide), t), StationAt(s, t))
  {
    var iss := IssueSpec(s).value;
    var s1 := ApplyIssue(s, iss);
    var c := TickSpec(s, divide).value.commit;
    Phase12Queue(s, divide);
    if iss.Some? {
      IssueSpecOk(s);
      ApplyIssueShape(s, iss.value);
    }
    assert StationAt(s1, t) == if IssuedAt(s, t) then iss.value.station else StationAt(s, t);
    if c.Some? {
      CommitFacts(s, divide);
      ApplyCommitShape(s1, c.value);
      ForwardKeeps(StationAt(s1, t), c.value);
      ForwardKeeps(StationAt(s1, t).(busy := false), c.value);
    }
  }

  /** A station with the update it asks for in `s` applied, if it asks for one. */
  ghost function Wanted(s: TomaState, t: RSIndex, st: Station): Station
    requires WellSized(s) && ValidTag(s, t)
  {
    if WantsAt(s, t).Some? then Updated(st, WantsAt(s, t).value) else st
  }

  /** A station that asks for an update is busy, is not waiting for the bus and is not the one being issued. */
  lemma WantsFacts(s: TomaState, divide: Divide, t: RSIndex)
    requires Inv(s) && IssueSpec(s).Ok? && TickSpec(s, divide).Ok? && ValidTag(s, t) && WantsAt(s, t).Some?
    ensures StationAt(s, t).busy && !IssuedAt(s, t) && !CommitsAt(s, divide, t)
    ensures StationAt(s, t).qj.None? && (StationAt(s, t).op != SD ==> StationAt(s, t).qk.None?)
    ensures WantsAt(s, t).value.tag == t
  {
    if t.pool == MEM {
      MemWantsFacts(s.mem[t.index], t.index, s.memQueue, s.memory);
    } else {
      ArithWantsFacts(StationAt(s, t), t);
    }
    if IssueSpec(s).value.Some? {
      IssueSpecOk(s);
    }
    if TickSpec(s, divide).value.commit.Some? {
      CommitFacts(s, divide);
    }
  }

  /** Station `t` once the updates are applied as well. */
  lemma Phase3At(s: TomaState, divide: Divide, t: RSIndex)
    requires Inv(s) && IssueSpec(s).Ok? && TickSpec(s, divide).Ok? && ValidTag(s, t)
    ensures ValidTag(AfterUpdates(s, divide), t)
    ensures IssuedAt(s, t) ==> Forwarded(StationAt(AfterUpdates(s, divide), t), IssueSpec(s).value.value.station)
    ensures CommitsAt(s, divide, t) ==> !StationAt(AfterUpdates(s, divide), t).busy
    ensures !IssuedAt(s, t) && !CommitsAt(s, divide, t) ==>
      Forwarded(StationAt(AfterUpdates(s, divide), t), Wanted(s, t, StationAt(s, t)))
  {
    var s2 := AfterCommit(s, divide);
    Phase12Queue(s, divide);
    Phase12At(s, divide, t);
    UpdatesAt(s, divide, s2);
    if WantsAt(s, t).Some? {
      WantsFacts(s, divide, t);
    }
  }

  /** Two states with the same register table whose stations agree on who is busy, what they write and what they await. */
  ghost predicate SameLinks(a: TomaState, b: TomaState) {
    a.qi == b.qi && (forall p :: |Stations(a, p)| == |Stations(b, p)|)
    && forall t :: ValidTag(b, t) ==>
      StationAt(a, t).busy == StationAt(b, t).busy && StationAt(a, t).dest == StationAt(b, t).dest
      && StationAt(a, t).qj == StationAt(b, t).qj && StationAt(a, t).qk == StationAt(b, t).qk
  }

  lemma SameLinksKeep(a: TomaState, b: TomaState)
    requires SameLinks(a, b) && TagsLive(b) && OperandsLive(b)
    ensures TagsLive(a) && OperandsLive(a)
  {
    forall t | Busy(a, t)
      ensures LiveProducer(a, StationAt(a, t).qj) && LiveProducer(a, StationAt(a, t).qk)
    {
      assert Busy(b, t);
    }
  }

  lemma UpdatesKeepLinks(s: TomaState, divide: Divide)
    requires Inv(s) && IssueSpec(s).Ok? && TickSpec(s, divide).Ok?
    ensures TagsLive(AfterUpdates(s, divide)) && OperandsLive(AfterUpdates(s, divide))
  {
    var s2 := AfterCommit(s, divide);
    Phase12Inv(s, divide);
    Phase12Queue(s, divide);
    UpdatesAt(s, divide, s2);
    SameLinksKeep(AfterUpdates(s, divide), s2);
  }

  lemma UpdatesKeepShapes(s: TomaState, divide: Divide)
    requires Inv(s) && IssueSpec(s).Ok? && TickSpec(s, divide).Ok?
    ensures StationsShaped(AfterUpdates(s, divide))
  {
    var s2 := AfterCommit(s, divide);
    var s3 := AfterUpdates(s, divide);
    Phase12Inv(s, divide);
    Phase12Queue(s, divide);
    UpdatesAt(s, divide, s2);
    forall t | Busy(s3, t)
      ensures ShapeOk(StationAt(s3, t), t.pool)
    {
      if WantsAt(s, t).Some? {
        WantsFacts(s, divide, t);
        Phase12At(s, divide, t);
      }
    }
  }

  /** Issue, broadcast and updates keep the invariant on the stations and the register table. */
  lemma UpdatesKeepCore(s: TomaState, divide: Divide)
    requires Inv(s) && IssueSpec(s).Ok? && TickSpec(s, divide).Ok?
    ensures CoreInv(AfterUpdates(s, divide))
  {
    UpdatesKeepLinks(s, divide);
    UpdatesKeepShapes(s, divide);
  }

  // ---------------------------------------------------------------------------
  // The store and the queue

  /** A store that writes is a started store at the head of the queue. */
  lemma StoreAtHead(s: TomaState, i: nat)
    requires Inv(s) && i < |s.mem| && StoreWrites(s.mem[i])
    ensures IsBufferFirst(s.memQueue, i) && s.mem[i].op == SD && s.mem[i].dest.None?
  {
    assert StationAt(s, RS(MEM, i)) == s.mem[i];
    assert Busy(s, RS(MEM, i));
    var k :| 0 <= k < |s.memQueue| && s.memQueue[k] == i;
  }

  /** The memory write of a step comes from the store at the head of the queue. */
  lemma StoreFacts(s: TomaState, divide: Divide)
    requires Inv(s) && IssueSpec(s).Ok? && TickSpec(s, divide).Ok? && TickSpec(s, divide).value.store.Some?
    ensures var st := TickSpec(s, divide).value.store.value; var i := st.tag.index;
      st.tag == RS(MEM, i) && i < |s.mem| && StoreWrites(s.mem[i]) && IsBufferFirst(s.memQueue, i)
      && s.mem[i].op == SD && s.mem[i].dest.None?
  {
    TickStore(s, divide);
    var k := LastStore(s.mem, |s.mem|).value;
    StoreAtHead(s, k);
  }

  /** The state after the store, if it did not throw. */
  ghost function AfterStore(s: TomaState, divide: Divide): Result<TomaState>
    requires WellSized(s) && IssueSpec(s).Ok? && TickSpec(s, divide).Ok?
  {
    ApplyStore(AfterUpdates(s, divide), TickSpec(s, divide).value.store)
  }

  /** The store changes memory and frees its station, nothing else. */
  lemma StorePhaseShape(s: TomaState, divide: Divide)
    requires Inv(s) && IssueSpec(s).Ok? && TickSpec(s, divide).Ok? && AfterStore(s, divide).Ok?
    ensures var s3 := AfterUpdates(s, divide); var s4 := AfterStore(s, divide).value;
      var st := TickSpec(s, divide).value.store;
      WellSized(s4) && s4.qi == s3.qi && s4.memQueue == s3.memQueue && s4.pc == s3.pc && s4.program == s3.program
      && (forall p :: |Stations(s4, p)| == |Stations(s3, p)|)
      && forall t :: ValidTag(s3, t) ==>
           StationAt(s4, t) == if st.Some? && t == st.value.tag then StationAt(s3, t).(busy := false) else StationAt(s3, t)
  {
    var st := TickSpec(s, divide).value.store;
    if st.Some? {
      StoreFacts(s, divide);
    }
    ApplyStoreShape(AfterUpdates(s, divide), st);
  }

  /** `ApplyStore` on any state: memory changes and the store's MEM station is freed, nothing else. */
  lemma ApplyStoreShape(s3: TomaState, st: Option<StoreAct>)
    requires WellSized(s3) && ApplyStore(s3, st).Ok?
    requires st.Some? ==> st.value.tag == RS(MEM, st.value.tag.index)
    ensures var s4 := ApplyStore(s3, st).value;
      WellSized(s4) && s4.qi == s3.qi && s4.memQueue == s3.memQueue && s4.pc == s3.pc && s4.program == s3.program
      && (forall p :: |Stations(s4, p)| == |Stations(s3, p)|)
      && forall t :: ValidTag(s3, t) ==>
           StationAt(s4, t) == if st.Some? && t == st.value.tag then StationAt(s3, t).(busy := false) else StationAt(s3, t)
  {
  }

  /** `b` is `a` with station `t` freed. */
  ghost predicate Freed(a: TomaState, t: RSIndex, b: TomaState)
    requires ValidTag(a, t)
  {
    b.qi == a.qi && |b.registers| == |a.registers| && |b.memory| == |a.memory|
    && (forall p :: |Stations(b, p)| == |Stations(a, p)|)
    && forall u :: ValidTag(a, u) ==> StationAt(b, u) == if u == t then StationAt(a, t).(busy := false) else StationAt(a, u)
  }

  /** Freeing a station that writes no register leaves no dangling tag. */
  lemma FreeKeepsCore(a: TomaState, t: RSIndex, b: TomaState)
    requires CoreInv(a) && ValidTag(a, t) && StationAt(a, t).dest.None? && Freed(a, t, b)
    ensures CoreInv(b)
  {
    forall u | Busy(b, u)
      ensures LiveProducer(b, StationAt(b, u).qj) && LiveProducer(b, StationAt(b, u).qk)
    {
      assert Busy(a, u);
    }
  }

  /** Before the store, the store's station is still the busy store of the state before the step. */
  lemma StoreStation(s: TomaState, divide: Divide)
    requires Inv(s) && IssueSpec(s).Ok? && TickSpec(s, divide).Ok? && TickSpec(s, divide).value.store.Some?
    ensures var t := TickSpec(s, divide).value.store.value.tag;
      ValidTag(AfterUpdates(s, divide), t) && StationAt(AfterUpdates(s, divide), t).dest.None?
  {
    var t := TickSpec(s, divide).value.store.value.tag;
    StoreFacts(s, divide);
    assert StationAt(s, t) == s.mem[t.index];
    MemWantsFacts(s.mem[t.index], t.index, s.memQueue, s.memory);
    if IssueSpec(s).value.Some? {
      IssueSpecOk(s);
    }
    if TickSpec(s, divide).value.commit.Some? {
      CommitFacts(s, divide);
    }
    Phase3At(s, divide, t);
  }

  /** The store keeps the invariant on the stations and the register table. */
  lemma StoreKeepsCore(s: TomaState, divide: Divide)
    requires Inv(s) && IssueSpec(s).Ok? && TickSpec(s, divide).Ok? && AfterStore(s, divide).Ok?
    ensures CoreInv(AfterStore(s, divide).value)
  {
    var s3 := AfterUpdates(s, divide);
    var s4 := AfterStore(s, divide).value;
    var st := TickSpec(s, divide).value.store;
    UpdatesKeepCore(s, divide);
    StorePhaseShape(s, divide);
    if st.Some? {
      StoreStation(s, divide);
      FreeKeepsCore(s3, st.value.tag, s4);
    }
  }

  /** The station that writes memory this step, if any. */
  predicate StoresAt(s: TomaState, divide: Divide, t: RSIndex)
    requires WellSized(s)
  {
    TickSpec(s, divide).Ok? && TickSpec(s, divide).value.store.Some? && TickSpec(s, divide).value.store.value.tag == t
  }

  /** MEM station `i` after the store, in terms of the state before the step. */
  lemma MemAt(s: TomaState, divide: Divide, i: nat)
    requires Inv(s) && IssueSpec(s).Ok? && TickSpec(s, divide).Ok? && AfterStore(s, divide).Ok? && i < |s.mem|
    ensures i < |AfterStore(s, divide).value.mem|
    ensures var st4 := AfterStore(s, divide).value.mem[i]; var t := RS(MEM, i);
      (IssuedAt(s, t) ==> Forwarded(st4, IssueSpec(s).value.value.station))
      && (CommitsAt(s, divide, t) || StoresAt(s, divide, t) ==> !st4.busy)
      && (!IssuedAt(s, t) && !CommitsAt(s, divide, t) && !StoresAt(s, divide, t) ==> Forwarded(st4, Wanted(s, t, s.mem[i])))
  {
    var t := RS(MEM, i);
    assert StationAt(s, t) == s.mem[i];
    StorePhaseShape(s, divide);
    Phase3At(s, divide, t);
    var s4 := AfterStore(s, divide).value;
    assert StationAt(s4, t) == s4.mem[i];
    if StoresAt(s, divide, t) {
      StoreFacts(s, divide);
      MemWantsFacts(s.mem[i], i, s.memQueue, s.memory);
      if IssueSpec(s).value.Some? {
        IssueSpecOk(s);
      }
    }
  }

  /** Under the invariant the station that stores is exactly the one whose store writes. */
  lemma StoresIff(s: TomaState, divide: Divide, i: nat)
    requires Inv(s) && IssueSpec(s).Ok? && TickSpec(s, divide).Ok? && i < |s.mem|
    ensures StoresAt(s, divide, RS(MEM, i)) <==> StoreWrites(s.mem[i])
  {
    TickStore(s, divide);
    if StoreWrites(s.mem[i]) {
      StoreAtHead(s, i);
      StoreAtHead(s, LastStore(s.mem, |s.mem|).value);
    }
  }

  /** The queue-relevant fate of one MEM station, from what each phase did to it. */
  lemma FateOfStation(st: Station, st4: Station, i: nat, mq: seq<int>, memory: seq<int>, issued: bool, issStation: Station,
                      commits: bool, stores: bool)
    requires |memory| == MemorySize
    requires issued ==> Forwarded(st4, issStation) && issStation.busy && issStation.remainingTime.None? && !st.busy
    requires commits || stores ==> !st4.busy
    requires commits ==> BusReady(st, MEM)
    requires stores <==> StoreWrites(st)
    requires st.busy ==> st.op == LD || st.op == SD
    requires !issued && !commits && !stores ==>
      var w := MemWants(st, i, mq, memory); Forwarded(st4, if w.Some? then Updated(st, w.value) else st)
    ensures issued ==> Queued(st4) && st4.remainingTime.None?
    ensures !issued && Queued(st4) ==> Queued(st)
    ensures !issued && Queued(st) && !LoadStarts(st, i, mq) && !StoreWrites(st) ==> Queued(st4)
    ensures !issued && st.busy && st.remainingTime.None? && !IsBufferFirst(mq, i) ==> st4.busy && st4.remainingTime.None?
    ensures LoadStarts(st, i, mq) || StoreWrites(st) ==> !Queued(st4)
  {
    MemWantsFacts(st, i, mq, memory);
  }

  /** What happens this step to MEM station `i`, as far as the queue is concerned. */
  lemma MemFate(s: TomaState, divide: Divide, i: nat)
    requires Inv(s) && IssueSpec(s).Ok? && TickSpec(s, divide).Ok? && AfterStore(s, divide).Ok? && i < |s.mem|
    ensures i < |AfterStore(s, divide).value.mem|
    ensures FateAt(s, IssuedMem(s), AfterStore(s, divide).value, i)
  {
    var t := RS(MEM, i);
    var st := s.mem[i];
    assert StationAt(s, t) == st;
    MemAt(s, divide, i);
    StoresIff(s, divide, i);
    var iss := IssueSpec(s).value;
    var issued := IssuedAt(s, t);
    assert IssuedMem(s) == Some(i) <==> issued;
    if iss.Some? {
      IssueSpecOk(s);
    }
    assert st.busy ==> ShapeOk(st, MEM);
    var commits := CommitsAt(s, divide, t);
    if commits {
      CommitFacts(s, divide);
    }
    FateOfStation(st, AfterStore(s, divide).value.mem[i], i, s.memQueue, s.memory, issued,
                  if iss.Some? then iss.value.station else st, commits, StoresAt(s, divide, t));
  }

  /** The queue after the store: the old queue, then the issued MEM station. */
  lemma QueueAfterStore(s: TomaState, divide: Divide)
    requires Inv(s) && IssueSpec(s).Ok? && TickSpec(s, divide).Ok? && AfterStore(s, divide).Ok?
    ensures var iss := IssueSpec(s).value;
      AfterStore(s, divide).value.memQueue ==
        if iss.Some? && iss.value.tag.pool == MEM then s.memQueue + [iss.value.tag.index] else s.memQueue
    ensures forall p :: |Stations(AfterStore(s, divide).value, p)| == |Stations(s, p)|
    ensures var iss := IssueSpec(s).value;
      iss.Some? && iss.value.tag.pool == MEM ==> iss.value.tag.index !in s.memQueue && IssuedAt(s, RS(MEM, iss.value.tag.index))
  {
    Phase12Queue(s, divide);
    StorePhaseShape(s, divide);
    var iss := IssueSpec(s).value;
    if iss.Some? {
      IssueSpecOk(s);
      assert StationAt(s, iss.value.tag) == Stations(s, iss.value.tag.pool)[iss.value.tag.index];
    }
  }

  /** A pop is asked for only when the head of the queue starts a load or writes a store. */
  lemma PopAtHead(s: TomaState, divide: Divide)
    requires Inv(s) && IssueSpec(s).Ok? && TickSpec(s, divide).Ok?
    ensures TickSpec(s, divide).value.pop <==>
      s.memQueue != [] && s.memQueue[0] < |s.mem|
      && (LoadStarts(s.mem[s.memQueue[0]], s.memQueue[0], s.memQueue) || StoreWrites(s.mem[s.memQueue[0]]))
  {
    TickPop(s, divide);
    if TickSpec(s, divide).value.pop {
      var k :| 0 <= k < |s.mem| && (LoadStarts(s.mem[k], k, s.memQueue) || StoreWrites(s.mem[k]));
      if StoreWrites(s.mem[k]) {
        StoreAtHead(s, k);
      }
    }
  }

  /** The state after the queue pop (when there is something to pop). */
  ghost function Popped(s: TomaState, pop: bool): TomaState {
    if pop && s.memQueue != [] then s.(memQueue := s.memQueue[1..]) else s
  }

  /** The MEM station issued this step, if any. */
  function IssuedMem(s: TomaState): Option<nat>
    requires WellSized(s)
  {
    var iss := IssueSpec(s);
    if iss.Ok? && iss.value.Some? && iss.value.value.tag.pool == MEM then Some(iss.value.value.tag.index) else None
  }

  /** A station at the head that leaves the queue this step. */
  predicate Leaves(s: TomaState, i: nat)
    requires i < |s.mem|
  {
    LoadStarts(s.mem[i], i, s.memQueue) || StoreWrites(s.mem[i])
  }

  /** What the step does to MEM station `i`, as far as the queue is concerned. */
  ghost predicate FateAt(s: TomaState, issued: Option<nat>, r: TomaState, i: nat)
    requires i < |s.mem| && i < |r.mem|
  {
    var st4 := r.mem[i]; var st := s.mem[i];
    && (issued == Some(i) ==> Queued(st4) && st4.remainingTime.None?)
    && (issued != Some(i) && Queued(st4) ==> Queued(st))
    && (issued != Some(i) && Queued(st) && !Leaves(s, i) ==> Queued(st4))
    && (issued != Some(i) && st.busy && st.remainingTime.None? && !IsBufferFirst(s.memQueue, i) ==>
          st4.busy && st4.remainingTime.None?)
    && (Leaves(s, i) ==> !Queued(st4))
  }

  ghost predicate Fates(s: TomaState, issued: Option<nat>, r: TomaState) {
    |r.mem| == |s.mem| && forall i :: 0 <= i < |s.mem| ==> FateAt(s, issued, r, i)
  }

  lemma MemSizeAfterStore(s: TomaState, divide: Divide)
    requires Inv(s) && IssueSpec(s).Ok? && TickSpec(s, divide).Ok? && AfterStore(s, divide).Ok?
    ensures |AfterStore(s, divide).value.mem| == |s.mem|
  {
    QueueAfterStore(s, divide);
    assert Stations(AfterStore(s, divide).value, MEM) == AfterStore(s, divide).value.mem;
  }

  lemma AllFates(s: TomaState, divide: Divide)
    requires Inv(s) && IssueSpec(s).Ok? && TickSpec(s, divide).Ok? && AfterStore(s, divide).Ok?
    ensures Fates(s, IssuedMem(s), AfterStore(s, divide).value)
  {
    MemSizeAfterStore(s, divide);
    forall i | 0 <= i < |s.mem| {
      MemFate(s, divide, i);
    }
  }

  /** The facts about the queue before the pop that the lemmas below share. */
  ghost predicate PopSetting(s: TomaState, issued: Option<nat>, pop: bool, r: TomaState) {
    QueueOk(s) && Fates(s, issued, r)
    && r.memQueue == s.memQueue + (if issued.Some? then [issued.value] else [])
    && (issued.Some? ==> issued.value < |s.mem| && issued.value !in s.memQueue)
    && (pop <==> s.memQueue != [] && s.memQueue[0] < |s.mem| && Leaves(s, s.memQueue[0]))
  }

  lemma PopEntries(s: TomaState, issued: Option<nat>, pop: bool, r: TomaState)
    requires PopSetting(s, issued, pop, r)
    ensures var q := Popped(r, pop).memQueue;
      forall k :: 0 <= k < |q| ==>
        0 <= q[k] < |r.mem| && r.mem[q[k]].busy && (r.mem[q[k]].remainingTime.None? || (k == 0 && r.mem[q[k]].op == SD))
  {
    var mq := s.memQueue;
    var q := Popped(r, pop).memQueue;
    forall k | 0 <= k < |q|
      ensures 0 <= q[k] < |r.mem| && r.mem[q[k]].busy && (r.mem[q[k]].remainingTime.None? || (k == 0 && r.mem[q[k]].op == SD))
    {
      var j := if pop then k + 1 else k;
      assert q[k] == r.memQueue[j];
      if j < |mq| {
        assert FateAt(s, issued, r, mq[j]);
        if j > 0 {
          assert mq[0] != mq[j];
        }
      } else {
        assert FateAt(s, issued, r, q[k]);
      }
    }
  }

  lemma PopComplete(s: TomaState, issued: Option<nat>, pop: bool, r: TomaState)
    requires PopSetting(s, issued, pop, r)
    ensures forall i :: 0 <= i < |r.mem| && Queued(r.mem[i]) ==> i in Popped(r, pop).memQueue
  {
    var mq := s.memQueue;
    var q := Popped(r, pop).memQueue;
    if pop {
      assert FateAt(s, issued, r, mq[0]);
    }
    forall i | 0 <= i < |r.mem| && Queued(r.mem[i])
      ensures i in q
    {
      assert FateAt(s, issued, r, i);
      if issued != Some(i) {
        var k :| 0 <= k < |mq| && mq[k] == i;
        assert r.memQueue[k] == i;
        if pop {
          assert k != 0;
          assert q[k - 1] == i;
        }
      } else {
        assert r.memQueue[|r.memQueue| - 1] == i;
        if pop {
          assert q[|q| - 1] == i;
        }
      }
    }
  }

  /**
   * The queue invariant after the pop, from what happened to each station:
   * the old queue with the new MEM station appended, less its head when the
   * head started a load or wrote a store.
   */
  lemma QueueFromFates(s: TomaState, issued: Option<nat>, pop: bool, r: TomaState)
    requires PopSetting(s, issued, pop, r)
    ensures pop ==> r.memQueue != []
    ensures QueueOk(Popped(r, pop))
  {
    PopEntries(s, issued, pop, r);
    PopComplete(s, issued, pop, r);
    assert forall j, k :: 0 <= j < k < |r.memQueue| ==> r.memQueue[j] != r.memQueue[k];
  }

  // ---------------------------------------------------------------------------
  // A whole step

  /** The step's store goes to an address outside memory, which throws. */
  ghost predicate StoreThrows(s: TomaState, divide: Divide)
    requires WellSized(s)
  {
    IssueSpec(s).Ok? && TickSpec(s, divide).Ok? && AfterStore(s, divide).Err?
  }

  /** `updateState` in the terms of the phases above. */
  lemma UpdateStatePhases(s: TomaState, divide: Divide)
    requires WellSized(s) && IssueSpec(s).Ok? && TickSpec(s, divide).Ok?
    ensures var a := UpdateStateSpec(s, IssueSpec(s).value, TickSpec(s, divide).value);
      var pop := TickSpec(s, divide).value.pop;
      match AfterStore(s, divide)
      case Err(e) => a == Applied(AfterUpdates(s, divide), Fail(e))
      case Ok(s4) =>
        a == if pop && s4.memQueue == [] then Applied(s4, Fail(EmptyQueueError)) else Applied(Popped(s4, pop), Pass)
  {
  }

  /**
   * The only exception `updateState` can throw from a state satisfying the
   * invariant is a store outside memory: the queue is never empty when a load
   * starts or a store writes.
   */
  lemma PopNeverFails(s: TomaState, divide: Divide)
    requires Inv(s) && IssueSpec(s).Ok? && TickSpec(s, divide).Ok?
    ensures UpdateStateSpec(s, IssueSpec(s).value, TickSpec(s, divide).value).outcome.Fail? ==> StoreThrows(s, divide)
  {
    UpdateStatePhases(s, divide);
    if AfterStore(s, divide).Ok? {
      PopAtHead(s, divide);
      QueueAfterStore(s, divide);
    }
  }

  /** The queue invariant holds once the queue is popped. */
  lemma FinalQueue(s: TomaState, divide: Divide)
    requires Inv(s) && IssueSpec(s).Ok? && TickSpec(s, divide).Ok? && AfterStore(s, divide).Ok?
    ensures QueueOk(Popped(AfterStore(s, divide).value, TickSpec(s, divide).value.pop))
  {
    var s4 := AfterStore(s, divide).value;
    var pop := TickSpec(s, divide).value.pop;
    AllFates(s, divide);
    QueueAfterStore(s, divide);
    PopAtHead(s, divide);
    var issued := IssuedMem(s);
    assert s4.memQueue == s.memQueue + (if issued.Some? then [issued.value] else []);
    assert pop <==> s.memQueue != [] && s.memQueue[0] < |s.mem| && Leaves(s, s.memQueue[0]);
    assert PopSetting(s, issued, pop, s4);
    QueueFromFates(s, issued, pop, s4);
  }

  /** The pop touches only the queue. */
  lemma PoppedInv(r: TomaState, pop: bool)
    requires CoreInv(r) && QueueOk(Popped(r, pop))
    ensures Inv(Popped(r, pop))
  {
    assert SameLinks(Popped(r, pop), r);
    SameLinksKeep(Popped(r, pop), r);
  }

  /** Issue, tick and `updateState` together keep the invariant whenever the store does not throw. */
  lemma UpdateKeepsInv(s: TomaState, divide: Divide)
    requires Inv(s) && IssueSpec(s).Ok? && TickSpec(s, divide).Ok? && AfterStore(s, divide).Ok?
    ensures Inv(UpdateStateSpec(s, IssueSpec(s).value, TickSpec(s, divide).value).state)
  {
    UpdateStatePhases(s, divide);
    PopNeverFails(s, divide);
    StoreKeepsCore(s, divide);
    FinalQueue(s, divide);
    PoppedInv(AfterStore(s, divide).value, TickSpec(s, divide).value.pop);
  }

  /**
   * Every step keeps the invariant, except one whose store throws; that one
   * still keeps the invariant on the stations and the register table. A step
   * whose issue or tick throws changes nothing.
   */
  lemma StepKeepsInv(s: TomaState, divide: Divide)
    requires Inv(s)
    ensures !StoreThrows(s, divide) ==> Inv(StepSpec(s, divide).state)
    ensures StoreThrows(s, divide) ==> CoreInv(StepSpec(s, divide).state) && StepSpec(s, divide).result.Err?
    ensures IssueSpec(s).Err? || TickSpec(s, divide).Err? ==> StepSpec(s, divide).state == s && StepSpec(s, divide).result.Err?
  {
    if IssueSpec(s).Ok? && TickSpec(s, divide).Ok? {
      UpdateStatePhases(s, divide);
      if AfterStore(s, divide).Ok? {
        UpdateKeepsInv(s, divide);
      } else {
        UpdatesKeepCore(s, divide);
      }
    }
  }

  // ---------------------------------------------------------------------------
  // What one step does

  /** A step whose issue, tick and store do not throw ends in the popped state and reports whether it is finished. */
  lemma StepOutcome(s: TomaState, divide: Divide)
    requires Inv(s) && IssueSpec(s).Ok? && TickSpec(s, divide).Ok? && !StoreThrows(s, divide)
    ensures var r := Popped(AfterStore(s, divide).value, TickSpec(s, divide).value.pop);
      StepSpec(s, divide) == StepResult(r, Ok(IsFinished(r)))
  {
    UpdateStatePhases(s, divide);
    PopNeverFails(s, divide);
  }

  /** Station `t` after a step: the issued one waits, the winner and the store are freed, every other one took its own update. */
  lemma StepStation(s: TomaState, divide: Divide, t: RSIndex)
    requires Inv(s) && IssueSpec(s).Ok? && TickSpec(s, divide).Ok? && !StoreThrows(s, divide) && ValidTag(s, t)
    ensures ValidTag(StepSpec(s, divide).state, t)
    ensures var st := StationAt(StepSpec(s, divide).state, t);
      (IssuedAt(s, t) ==> Forwarded(st, IssueSpec(s).value.value.station))
      && (CommitsAt(s, divide, t) || StoresAt(s, divide, t) ==> !st.busy)
      && (!IssuedAt(s, t) && !CommitsAt(s, divide, t) && !StoresAt(s, divide, t) ==>
            Forwarded(st, Wanted(s, t, StationAt(s, t))))
  {
    StepOutcome(s, divide);
    StorePhaseShape(s, divide);
    Phase3At(s, divide, t);
    var st := TickSpec(s, divide).value.store;
    if StoresAt(s, divide, t) {
      StoreFacts(s, divide);
      assert StationAt(s, t) == s.mem[t.index];
      MemWantsFacts(s.mem[t.index], t.index, s.memQueue, s.memory);
      if IssueSpec(s).value.Some? {
        IssueSpecOk(s);
      }
    }
    var r := StepSpec(s, divide).state;
    assert StationAt(r, t) == StationAt(AfterStore(s, divide).value, t);
  }

  /**
   * In-order issue: `pc` moves on by one exactly when an instruction issued,
   * and the issued station has not started by the end of the step.
   */
  lemma StepIssue(s: TomaState, divide: Divide)
    requires Inv(s) && IssueSpec(s).Ok? && TickSpec(s, divide).Ok? && !StoreThrows(s, divide)
    ensures StepSpec(s, divide).state.pc == if IssueSpec(s).value.Some? then s.pc + 1 else s.pc
    ensures IssueSpec(s).value.Some? ==> var t := IssueSpec(s).value.value.tag;
      ValidTag(StepSpec(s, divide).state, t)
      && StationAt(StepSpec(s, divide).state, t).busy && StationAt(StepSpec(s, divide).state, t).remainingTime.None?
  {
    StepOutcome(s, divide);
    StorePhaseShape(s, divide);
    var iss := IssueSpec(s).value;
    if iss.Some? {
      IssueSpecOk(s);
      ApplyIssueShape(s, iss.value);
      StepStation(s, divide, iss.value.tag);
    }
  }

  /** A broadcast leaves every register slot naming another station as it was. */
  lemma CommitKeepsOtherSlot(s: TomaState, c: Commit, k: int)
    requires Inv(s) && CommitOk(s, c) && 0 <= k < |s.qi| && s.qi[k].Some? && s.qi[k] != Some(c.tag)
    ensures ApplyCommit(s, Some(c)).qi[k] == s.qi[k]
  {
    ApplyCommitShape(s, c);
    CommitQi(s, c, ApplyCommit(s, Some(c)));
  }

  /** After issue and broadcast, the issued instruction's destination names the new station. */
  lemma Phase12Renames(s: TomaState, divide: Divide)
    requires Inv(s) && IssueSpec(s).Ok? && TickSpec(s, divide).Ok? && IssueSpec(s).value.Some?
    requires var d := IssueSpec(s).value.value.station.dest; d.Some? && 0 < d.value < RegisterFileSize
    ensures AfterCommit(s, divide).qi[IssueSpec(s).value.value.station.dest.value] == Some(IssueSpec(s).value.value.tag)
  {
    var iss := IssueSpec(s).value.value;
    var d := iss.station.dest.value;
    IssueSpecOk(s);
    ApplyIssueShape(s, iss);
    var s1 := ApplyIssue(s, Some(iss));
    assert s1.qi[d] == Some(iss.tag);
    var c := TickSpec(s, divide).value.commit;
    if c.Some? {
      CommitFacts(s, divide);
      IssuePhase(s);
      assert StationAt(s1, c.value.tag) == StationAt(s, c.value.tag);
      CommitKeepsOtherSlot(s1, c.value, d);
    }
  }

  /**
   * The tag-superseding rule: after issuing an instruction that writes
   * register `d` (not `$0`), the register table names the new station for
   * `d`, whatever the broadcast of the same step.
   */
  lemma StepRenames(s: TomaState, divide: Divide)
    requires Inv(s) && IssueSpec(s).Ok? && TickSpec(s, divide).Ok? && !StoreThrows(s, divide)
    requires IssueSpec(s).value.Some?
    requires var d := IssueSpec(s).value.value.station.dest; d.Some? && 0 < d.value < RegisterFileSize
    ensures var iss := IssueSpec(s).value.value; var d := iss.station.dest.value;
      |StepSpec(s, divide).state.qi| == RegisterFileSize && StepSpec(s, divide).state.qi[d] == Some(iss.tag)
  {
    Phase12Renames(s, divide);
    StepOutcome(s, divide);
    StorePhaseShape(s, divide);
  }

  /**
   * A station that wanted the bus but lost it gets no update: it still
   * waits, finished, for a later step.
   */
  lemma StepLoserRetries(s: TomaState, divide: Divide, t: RSIndex)
    requires Inv(s) && IssueSpec(s).Ok? && TickSpec(s, divide).Ok? && !StoreThrows(s, divide)
    requires WantsBus(s, t) && !CommitsAt(s, divide, t)
    ensures ValidTag(StepSpec(s, divide).state, t)
    ensures BusReady(StationAt(StepSpec(s, divide).state, t), t.pool)
    ensures StationAt(StepSpec(s, divide).state, t).remainingTime == StationAt(s, t).remainingTime
  {
    StepStation(s, divide, t);
    if t.pool == MEM {
      MemWantsFacts(s.mem[t.index], t.index, s.memQueue, s.memory);
    } else {
      ArithWantsFacts(StationAt(s, t), t);
    }
    if IssueSpec(s).value.Some? {
      IssueSpecOk(s);
    }
    if TickSpec(s, divide).value.store.Some? {
      StoreFacts(s, divide);
    }
  }

  /**
   * The memory queue after a step: the issued MEM station joins the tail,
   * and the head leaves exactly when it started a load or wrote a store.
   */
  lemma StepQueue(s: TomaState, divide: Divide)
    requires Inv(s) && IssueSpec(s).Ok? && TickSpec(s, divide).Ok? && !StoreThrows(s, divide)
    ensures var q := s.memQueue + (if IssuedMem(s).Some? then [IssuedMem(s).value] else []);
      var leaves := s.memQueue != [] && s.memQueue[0] < |s.mem| && Leaves(s, s.memQueue[0]);
      StepSpec(s, divide).state.memQueue == if leaves then q[1..] else q
  {
    StepOutcome(s, divide);
    QueueAfterStore(s, divide);
    PopAtHead(s, divide);
  }

  // ---------------------------------------------------------------------------
  // Termination

  /** Idle stations do nothing in a tick. */
  lemma {:induction false} ArithPassIdle(ss: seq<Station>, pool: Pool, n: nat, acc: TickAcc, divide: Divide)
    requires n <= |ss| && forall k :: 0 <= k < |ss| ==> !ss[k].busy
    ensures ArithPass(ss, pool, n, acc, divide) == Ok(acc)
  {
    if n > 0 {
      ArithPassIdle(ss, pool, n - 1, acc, divide);
    }
  }

  lemma {:induction false} MemPassIdle(ss: seq<Station>, n: nat, acc: TickAcc, memQueue: seq<int>, memory: seq<int>)
    requires n <= |ss| && |memory| == MemorySize && forall k :: 0 <= k < |ss| ==> !ss[k].busy
    ensures MemPass(ss, n, acc, memQueue, memory) == Ok(acc)
  {
    if n > 0 {
      MemPassIdle(ss, n - 1, acc, memQueue, memory);
      assert acc.updates + [] == acc.updates;
    }
  }

  /**
   * Once the program has run out and the engine is finished, a step changes
   * nothing and reports that it is finished, so running on is harmless.
   */
  lemma FinishedIsFixpoint(s: TomaState, divide: Divide)
    requires WellSized(s) && IsFinished(s) && 0 <= s.pc < AddressLimit && s.pc >= |s.program|
    ensures StepSpec(s, divide) == StepResult(s, Ok(true))
  {
    IssuePastEnd(s);
    ArithPassIdle(s.add, ADD, |s.add|, EmptyAcc(), divide);
    ArithPassIdle(s.mul, MUL, |s.mul|, EmptyAcc(), divide);
    MemPassIdle(s.mem, |s.mem|, EmptyAcc(), s.memQueue, s.memory);
    assert TickSpec(s, divide) == Ok(EmptyAcc());
    assert ApplyUpdates(s, []) == s;
  }
}
