/** Safety of the out-of-order core over whole runs. */
module PipelineSafety {
  import opened Options
  import opened Pipeline
  import opened PipelineInvariant
  import opened PipelineProof
  import opened FrontEndProof
  import opened PipelineInduction
  import Mshr

  // ----- every run keeps the invariant -----

  lemma InvariantKeptInUnits()
    ensures KeptByAlu(Invariant) && KeptByMul(Invariant) && KeptByLsu(Invariant)
  {
    forall c, i | Invariant(c) && 0 <= i < |c.alus| && c.alus[i].Some?
      ensures Invariant(AluDone(c, i))
    {
      AluDoneKeeps(c, i);
    }
    forall c, i | Invariant(c) && 0 <= i < |c.muls| && c.muls[i].third.Some?
      ensures Invariant(MulDone(c, i))
    {
      MulDoneKeeps(c, i);
    }
    forall c | Invariant(c) && Drained(c.muls) ensures Invariant(Shift(c)) { ShiftKeeps(c); }
    forall c, i | Invariant(c) && 0 <= i < |c.lsus| && LsuReady(c, i)
      ensures Invariant(LsuDone(c, i))
    {
      LsuDoneKeeps(c, i);
    }
  }

  lemma InvariantKeptInSchedule()
    ensures KeptByFireAlu(Invariant) && KeptByFireMul(Invariant) && KeptByFireLsu(Invariant)
  {
    forall c, i, u | Invariant(c) && 0 <= i < |c.sq| && AluWants(c.sq[i]) && 0 <= u < |c.alus| && c.alus[u].None?
      ensures Invariant(FireAlu(c, i, u)) { FireAluKeeps(c, i, u); }
    forall c, i, u | Invariant(c) && 0 <= i < |c.sq| && MulWants(c.sq[i]) && 0 <= u < |c.muls| && c.muls[u].first.None?
      ensures Invariant(FireMul(c, i, u)) { FireMulKeeps(c, i, u); }
    forall c, i, u, l1, id: nat | Invariant(c) && 0 <= i < |c.sq| && LsuWants(c.sq, c.sq[i]) && 0 <= u < |c.lsus| &&
                                  c.lsus[u].Idle? && Issues(c, i, l1, id)
      ensures Invariant(FireLsu(c, i, u, l1, id)) { FireLsuKeeps(c, i, u); }
  }

  lemma InvariantKeptInOrder()
    ensures KeptByRetire(Invariant) && KeptByFrontEnd(Invariant) && KeptByClock(Invariant)
  {
    forall c | Invariant(c) && HeadReady(c) ensures Invariant(RetireHead(c)) { RetireKeeps(c); }
    forall c | Invariant(c) && CanDispatch(c) ensures Invariant(DispatchOne(c)) { DispatchKeeps(c); }
    forall c | Invariant(c) && c.rest != [] && !c.stalled ensures Invariant(FetchOne(c)) { FetchKeeps(c); }
    forall c | Invariant(c) ensures Invariant(AtEof(c)) { EofKeeps(c); }
    forall c | Invariant(c) ensures Invariant(TickCache(c)) { TickCacheKeeps(c); }
  }

  lemma InvariantKept()
    ensures Kept(Invariant) && KeptByClock(Invariant)
  {
    InvariantKeptInUnits();
    InvariantKeptInSchedule();
    InvariantKeptInOrder();
  }

  lemma FetchSplits(fetched: seq<Inst>, rest: seq<Record>, program: seq<Record>, inst: Inst)
    requires Splits(fetched, rest, program) && rest != [] && inst.rec == rest[0]
    ensures Splits(fetched + [inst], rest[1..], program)
  {
    assert program[|fetched|..][0] == program[|fetched|];
  }

  lemma ProgramKept(program: seq<Record>)
    ensures Kept((c: Core) => Of(c, program)) && KeptByClock((c: Core) => Of(c, program))
  {
    forall c | Of(c, program) && c.rest != [] ensures Of(FetchOne(c), program) {
      FetchSplits(c.fetched, c.rest, program, Inst(c.dyn + 1, c.rest[0]));
    }
  }

  /** c is a core of any size running the program, after any number of cycles in which sync gates
      held fetch back in any way. */
  ghost predicate Reachable(c: Core, program: seq<Record>) {
    exists cfg, rob: nat, alus: nat, muls: nat, lsus: nat, mshrs: nat, opens: seq<nat> ::
      c == Run(Start(cfg, program, rob, alus, muls, lsus, mshrs), opens)
  }

  lemma ReachableInvariant(c: Core, program: seq<Record>)
    requires Reachable(c, program)
    ensures Invariant(c) && Of(c, program)
  {
    var cfg, rob: nat, alus: nat, muls: nat, lsus: nat, mshrs: nat, opens: seq<nat> :|
      c == Run(Start(cfg, program, rob, alus, muls, lsus, mshrs), opens);
    StartInvariant(cfg, program, rob, alus, muls, lsus, mshrs);
    InvariantKept();
    RunKeeps(Invariant, Start(cfg, program, rob, alus, muls, lsus, mshrs), opens);
    ProgramKept(program);
    RunKeeps((c: Core) => Of(c, program), Start(cfg, program, rob, alus, muls, lsus, mshrs), opens);
  }

  // ----- one stream, in order -----

  lemma StreamInOrder(c: Core, program: seq<Record>)
    requires Stream(c) && Of(c, program)
    ensures |c.retired| + c.rob.count + |c.dispq| == |c.fetched| <= |program|
    ensures forall k :: 0 <= k < |c.retired| ==> c.retired[k] == Inst(k + 1, program[k])
    ensures var n := |c.retired| + c.rob.count;
      forall k :: 0 <= k < |c.dispq| ==> c.dispq[k] == Inst(n + k + 1, program[n + k])
    ensures c.rest == program[|c.fetched|..] && c.dyn == |c.fetched|
  {
  }

  /** Exactly once, in order: at every moment the retired instructions are the first of the program,
      numbered 1, 2, 3, ..., the dispatch queue holds the last fetched, and the reorder buffer what lies between. */
  lemma InOrderRetirement(c: Core, program: seq<Record>)
    requires Reachable(c, program)
    ensures |c.retired| + c.rob.count + |c.dispq| == |c.fetched| <= |program|
    ensures forall k :: 0 <= k < |c.retired| ==> c.retired[k] == Inst(k + 1, program[k])
    ensures var n := |c.retired| + c.rob.count;
      forall k :: 0 <= k < |c.dispq| ==> c.dispq[k] == Inst(n + k + 1, program[n + k])
    ensures c.rest == program[|c.fetched|..] && c.dyn == |c.fetched|
  {
    ReachableInvariant(c, program);
    StreamInOrder(c, program);
  }

  // ----- reorder buffer slots -----

  /** The slot lies among the count slots that start at head, cyclically. */
  predicate InWindow(rob: Rob, slot: nat) {
    && slot < |rob.entries|
    && (if slot >= rob.head then slot - rob.head else slot + |rob.entries| - rob.head) < rob.count
  }

  lemma WindowHolds(c: Core, k: nat)
    requires Reorder(c) && Oldest(c) <= k < Next(c)
    ensures InWindow(c.rob, Slot(k, |c.rob.entries|))
  {
    SlotBelow(Oldest(c), |c.rob.entries|);
    SlotAhead(Oldest(c), k - Oldest(c), |c.rob.entries|);
  }

  /** A scheduling queue entry points at the live slot of its own instruction, not ready yet, whether or
      not the buffer has wrapped around. */
  lemma SlotIsLive(c: Core, program: seq<Record>, e: SchedEntry)
    requires Reachable(c, program) && e in c.sq
    ensures InWindow(c.rob, e.slot) && c.rob.entries[e.slot] == RobEntry(false, e.tag, e.inst)
  {
    ReachableInvariant(c, program);
    EntrySlot(c, e);
  }

  /** No two entries point at the same slot. */
  lemma SlotsDistinct(c: Core, program: seq<Record>, e: SchedEntry, f: SchedEntry)
    requires Reachable(c, program) && e in c.sq && f in c.sq && e.slot == f.slot
    ensures e == f
  {
    ReachableInvariant(c, program);
    EntrySlot(c, e);
    EntrySlot(c, f);
  }

  lemma EntrySlot(c: Core, e: SchedEntry)
    requires Invariant(c) && e in c.sq
    ensures InWindow(c.rob, e.slot) && c.rob.entries[e.slot] == RobEntry(false, e.tag, e.inst)
    ensures forall f :: f in c.sq && f.tag == e.tag ==> f == e
  {
    assert Good(c, e);
    assert Filled(c.rob, c.sq, c.fetched, e.tag - 257);
    WindowHolds(c, e.tag - 257);
  }

  // ----- renaming -----

  /** Instruction i is the youngest of the first n that writes r. */
  predicate YoungestWriter(log: seq<Inst>, n: nat, r: Reg, i: nat) {
    && i < n <= |log| && log[i].rec.dest == Some(r)
    && forall j :: i < j < n ==> log[j].rec.dest != Some(r)
  }

  lemma {:induction false} YoungestTag(log: seq<Inst>, n: nat, r: Reg, i: nat)
    requires YoungestWriter(log, n, r, i)
    ensures WriterTag(log, n, r) == Tag(i)
  {
    if i < n - 1 { YoungestTag(log, n - 1, r, i); }
  }

  lemma WriterInQueue(c: Core, i: nat)
    requires Waiting(c) && Completed(c) && i < Next(c) 
    ensures Tag(i) !in c.done <==> exists f :: f in c.sq && f.tag == Tag(i) && f.inst == c.fetched[i]
  {
    if Tag(i) !in c.done {
      var f :| f in c.sq && f.tag == Tag(i);
      assert Good(c, f);
    }
  }

  lemma OperandRight(c: Core, e: SchedEntry, reg: Option<Reg>, src: Operand, i: nat)
    requires Completed(c) && reg.Some? && e.tag >= 257 && e.tag - 257 <= Next(c)
    requires src == Renamed(c.fetched, e.tag - 257, reg, c.sq)
    requires YoungestWriter(c.fetched, e.tag - 257, reg.value, i)
    ensures src.tag == Tag(i) && (src.ready <==> Tag(i) in c.done)
  {
    YoungestTag(c.fetched, e.tag - 257, reg.value, i);
  }

  lemma WaitsFor(c: Core, e: SchedEntry, r: Reg, i: nat)
    requires Waiting(c) && Completed(c) && Good(c, e) &&
      (forall k :: 0 <= k < |c.fetched| ==> c.fetched[k].dyn == k + 1)
    requires e.inst.dyn >= 1 && YoungestWriter(c.fetched, e.inst.dyn - 1, r, i)
    ensures e.inst.rec.src1 == Some(r) ==> e.src1.tag == Tag(i) && (e.src1.ready <==> Tag(i) in c.done)
    ensures e.inst.rec.src2 == Some(r) ==> e.src2.tag == Tag(i) && (e.src2.ready <==> Tag(i) in c.done)
    ensures Tag(i) < e.tag && i < Next(c)
  {
    if e.inst.rec.src1 == Some(r) { OperandRight(c, e, Some(r), e.src1, i); }
    if e.inst.rec.src2 == Some(r) { OperandRight(c, e, Some(r), e.src2, i); }
  }

  /** An operand that is not ready waits for exactly the youngest older writer of its register, which is
      older and still in the queue; it becomes ready exactly when that writer writes back. */
  lemma WaitsForYoungestWriter(c: Core, program: seq<Record>, e: SchedEntry, r: Reg, i: nat)
    requires Reachable(c, program) && e in c.sq && e.inst.dyn >= 1
    requires YoungestWriter(c.fetched, e.inst.dyn - 1, r, i)
    ensures e.inst.rec.src1 == Some(r) ==> e.src1.tag == Tag(i) && (e.src1.ready <==> Tag(i) in c.done)
    ensures e.inst.rec.src2 == Some(r) ==> e.src2.tag == Tag(i) && (e.src2.ready <==> Tag(i) in c.done)
    ensures Tag(i) < e.tag
    ensures Tag(i) !in c.done <==> exists f :: f in c.sq && f.tag == Tag(i) && f.inst == c.fetched[i]
  {
    ReachableInvariant(c, program);
    assert Good(c, e);
    WaitsFor(c, e, r, i);
    WriterInQueue(c, i);
  }

  /** None of the first n instructions writes r. */
  predicate Unwritten(log: seq<Inst>, n: nat, r: Reg) {
    n <= |log| && forall j :: 0 <= j < n ==> log[j].rec.dest != Some(r)
  }

  lemma {:induction false} NoWriterSeed(log: seq<Inst>, n: nat, r: Reg)
    requires Unwritten(log, n, r)
    ensures WriterTag(log, n, r) == r + 1
  {
    if n > 0 { NoWriterSeed(log, n - 1, r); }
  }

  lemma AliasRight(c: Core, r: Reg, i: nat)
    requires Aliases(c) && Waiting(c) && Completed(c) && YoungestWriter(c.fetched, Next(c), r, i)
    ensures |c.rat| == 256 && c.rat[r].tag == Tag(i) && (c.rat[r].ready <==> Tag(i) in c.done)
    ensures !c.rat[r].ready <==> exists f :: f in c.sq && f.tag == c.rat[r].tag && f.inst == c.fetched[i]
  {
    YoungestTag(c.fetched, Next(c), r, i);
    WriterInQueue(c, i);
  }

  lemma AliasSeed(c: Core, r: Reg)
    requires Aliases(c) && Waiting(c) && Unwritten(c.fetched, Next(c), r)
    ensures |c.rat| == 256 && c.rat[r] == Operand(r + 1, true)
  {
    NoWriterSeed(c.fetched, Next(c), r);
    forall e | e in c.sq ensures e.tag != r + 1 { assert Good(c, e); }
  }

  /** The alias table names, for every register, the youngest dispatched instruction that writes it, and calls
      it ready exactly when it has written back; until then it is in the scheduling queue under that tag. */
  lemma AliasTableRight(c: Core, program: seq<Record>, r: Reg, i: nat)
    requires Reachable(c, program) && YoungestWriter(c.fetched, |c.retired| + c.rob.count, r, i)
    ensures |c.rat| == 256 && c.rat[r].tag == Tag(i) && (c.rat[r].ready <==> Tag(i) in c.done)
    ensures !c.rat[r].ready <==> exists f :: f in c.sq && f.tag == c.rat[r].tag && f.inst == c.fetched[i]
  {
    ReachableInvariant(c, program);
    AliasRight(c, r, i);
  }

  /** A register that no dispatched instruction writes keeps its ready seed. */
  lemma AliasTableSeed(c: Core, program: seq<Record>, r: Reg)
    requires Reachable(c, program) && Unwritten(c.fetched, |c.retired| + c.rob.count, r)
    ensures |c.rat| == 256 && c.rat[r] == Operand(r + 1, true)
  {
    ReachableInvariant(c, program);
    AliasSeed(c, r);
  }

  /** An instruction in a functional unit: the youngest older writer of each source has written back. */
  lemma RenamingRight(c: Core, program: seq<Record>, e: SchedEntry, r: Reg, i: nat)
    requires Reachable(c, program) && e in c.sq && e.busy && e.inst.dyn >= 1
    requires e.inst.rec.src1 == Some(r) || e.inst.rec.src2 == Some(r)
    requires YoungestWriter(c.fetched, e.inst.dyn - 1, r, i)
    ensures Tag(i) in c.done
  {
    ReachableInvariant(c, program);
    WaitsForYoungestWriter(c, program, e, r, i);
  }

  // ----- functional units -----

  /** No unit keeps a pointer to an erased entry, no two point at the same one, and every entry marked
      busy is in a unit of its kind. */
  lemma NoDanglingPointer(c: Core, program: seq<Record>)
    requires Reachable(c, program)
    ensures forall p :: Pointing(c, p).Some? ==> Executing(c.sq, Pointing(c, p).value, p)
    ensures forall p, q :: Pointing(c, p).Some? && Pointing(c, p) == Pointing(c, q) ==> p == q
    ensures forall e :: e in c.sq && e.busy ==> exists p :: Pointing(c, p) == Some(e.tag) && Suits(p, e.inst.rec.op)
    ensures forall u :: 0 <= u < |c.lsus| && c.lsus[u].Serving? ==> Mshr.Peek(c.l1.table, c.lsus[u].id).Some?
  {
    ReachableInvariant(c, program);
    forall e | e in c.sq && e.busy ensures exists p :: Pointing(c, p) == Some(e.tag) && Suits(p, e.inst.rec.op) {
      assert Held(c, e.tag);
      var p :| Pointing(c, p) == Some(e.tag);
      var f := Pointee(c, p, e.tag);
      EntryUnique(c.sq, e, f);
    }
  }

  // ----- memory order -----

  /** A store is with the cache only when every older load and store has completed, and a load only when
      every older store has. */
  lemma MemoryOrder(c: Core, program: seq<Record>, e: SchedEntry, i: nat)
    requires Reachable(c, program) && e in c.sq && e.busy && i + 1 < e.inst.dyn && i < |c.fetched|
    requires (e.inst.rec.op.Load? && c.fetched[i].rec.op.Store?) ||
      (e.inst.rec.op.Store? && (c.fetched[i].rec.op.Load? || c.fetched[i].rec.op.Store?))
    ensures Tag(i) in c.done && !Pending(c.sq, Tag(i))
  {
    ReachableInvariant(c, program);
    assert Good(c, e);
    OlderMemoryDone(c, e, i);
  }

  lemma OlderMemoryDone(c: Core, e: SchedEntry, i: nat)
    requires Waiting(c) && Completed(c) && Disciplined(c.sq) && e in c.sq && e.busy && Good(c, e)
    requires i < Next(c) && Tag(i) < e.tag && Blocks(c.fetched[i].rec.op, e.inst.rec.op)
    ensures Tag(i) in c.done && !Pending(c.sq, Tag(i))
  {
    forall f | f in c.sq ensures f.tag != Tag(i) { assert Good(c, f); }
  }

  /** e is a store in flight, and no memory operation in the queue is older. */
  predicate OldestStore(sq: Queue, e: SchedEntry) {
    && e in sq && e.busy && e.inst.rec.op.Store?
    && forall f :: f in sq && f.inst.dyn <= e.inst.dyn ==> f == e || !f.inst.rec.op.Memory()
  }

  lemma BusyStoreIsOldest(c: Core, e: SchedEntry)
    requires Waiting(c) && Stream(c) && Disciplined(c.sq) && e in c.sq && e.busy && e.inst.rec.op.Store?
    ensures OldestStore(c.sq, e)
  {
    assert Good(c, e);
    forall f | f in c.sq && f.inst.dyn <= e.inst.dyn ensures f == e || !f.inst.rec.op.Memory() {
      assert Good(c, f);
      if f.tag == e.tag { EntryUnique(c.sq, e, f); }
    }
  }

  /** The guard that lets only one store fire in a cycle never acts: while a store is in flight the
      disambiguation walk offers nothing at all, so no load or store is issued. */
  lemma StoreBreakNeverNeeded(c: Core, n: nat, stored: bool, e: SchedEntry)
    requires Invariant(c) && e in c.sq && e.busy && e.inst.rec.op.Store?
    ensures PickLsu(c.sq) == |c.sq| && FireLsus(c, n, stored) == c
  {
    BusyStoreIsOldest(c, e);
    NothingBesideStore(c.sq, e);
  }

  lemma NothingBesideStore(sq: Queue, e: SchedEntry)
    requires OldestStore(sq, e)
    ensures PickLsu(sq) == |sq|
  {
    forall f | f in sq ensures !LsuWants(sq, f) {
      if f.inst.dyn > e.inst.dyn && f.inst.rec.op.Memory() { assert Blocks(e.inst.rec.op, f.inst.rec.op); }
    }
  }

  // ----- branch mispredictions -----

  lemma StreamYoungest(c: Core, k: nat)
    requires Stream(c) && |c.retired| <= k < |c.fetched| && c.fetched[k].Mispredict()
    ensures k == |c.fetched| - 1 && c.stalled
  {
  }

  /** A mispredicted branch in flight is the youngest instruction, and fetch waits for it. */
  lemma MispredictIsYoungest(c: Core, program: seq<Record>, k: nat)
    requires Reachable(c, program) && |c.retired| <= k < |c.fetched| && c.fetched[k].Mispredict()
    ensures k == |c.fetched| - 1 && c.stalled
  {
    ReachableInvariant(c, program);
    StreamYoungest(c, k);
  }

  predicate Quiet(c: Core) {
    && c.sq == [] && c.dispq == [] && c.rob.count == 0 && !c.stalled
    && (forall u :: 0 <= u < |c.alus| ==> c.alus[u].None?)
    && (forall u :: 0 <= u < |c.muls| ==> c.muls[u] == MulUnit(None, None, None))
    && (forall u :: 0 <= u < |c.lsus| ==> c.lsus[u].Idle?)
  }

  lemma NoEntryNoPointer(c: Core)
    requires Units(c) && c.sq == []
    ensures forall u :: 0 <= u < |c.alus| ==> c.alus[u].None?
    ensures forall u :: 0 <= u < |c.muls| ==> c.muls[u] == MulUnit(None, None, None)
    ensures forall u :: 0 <= u < |c.lsus| ==> c.lsus[u].Idle?
  {
    forall p ensures Pointing(c, p).None? {}
    forall u | 0 <= u < |c.alus| ensures c.alus[u].None? { assert Pointing(c, InAlu(u)).None?; }
    forall u | 0 <= u < |c.muls| ensures c.muls[u] == MulUnit(None, None, None) {
      assert Pointing(c, InMul(u, 0)).None? && Pointing(c, InMul(u, 1)).None? && Pointing(c, InMul(u, 2)).None?;
    }
    forall u | 0 <= u < |c.lsus| ensures c.lsus[u].Idle? { assert Pointing(c, InLsu(u)).None?; }
  }

  /** Retiring a mispredicted branch finds the whole machine empty, and flushing the alias table changes
      nothing: there is no wrong-path state to repair. */
  lemma {:induction false} RecoveryIsClean(c: Core)
    requires Invariant(c)
    ensures Retire(c).1 ==> Quiet(Retire(c).0) && Retire(c).0.rat == c.rat
    decreases c.rob.count
  {
    if HeadReady(c) {
      RetireKeeps(c);
      if c.rob.entries[c.rob.head].inst.Mispredict() {
        FlushIsClean(c);
        NoEntryNoPointer(RetireHead(c));
      } else {
        RecoveryIsClean(RetireHead(c));
      }
    }
  }
}
