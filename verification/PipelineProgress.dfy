/** The core drains: whatever the gates at fetch do, as long as they do not stay shut for ever, every
    finite program retires completely. */
module PipelineProgress {
  import opened Options
  import opened Sums
  import opened Pipeline
  import opened PipelineInvariant
  import opened PipelineProof
  import opened FrontEndProof
  import opened PipelineInduction
  import opened PipelineSafety
  import Mshr

  // ----- what is left to do -----

  function EntryCost(e: SchedEntry): nat { if e.busy then 0 else 5 }

  function AluCost(p: Pointer): nat { if p.Some? then 2 else 0 }

  function MulCost(u: MulUnit): nat {
    (if u.first.Some? then 4 else 0) + (if u.second.Some? then 3 else 0) + (if u.third.Some? then 2 else 0)
  }

  function LsuCost(u: LsuUnit): nat { if u.Serving? then 2 else 0 }

  /** Bounds the moves left until everything has retired. */
  function Effort(c: Core): nat {
    8 * |c.rest| + 7 * |c.dispq| + c.rob.count + (if c.eof then 0 else 1)
    + Sum(c.sq, EntryCost) + Sum(c.alus, AluCost) + Sum(c.muls, MulCost) + Sum(c.lsus, LsuCost)
  }

  lemma {:induction false} SumWoken(sq: Queue, tag: nat)
    ensures Sum(Wake(sq, tag), EntryCost) == Sum(sq, EntryCost)
  {
    if sq != [] {
      assert Wake(sq, tag)[1..] == Wake(sq[1..], tag);
      SumWoken(sq[1..], tag);
    }
  }

  /** A busy entry that leaves the queue does not change what is left to issue. */
  lemma SumSettled(sq: Queue, e: SchedEntry)
    requires Sorted(sq) && e in sq && e.busy
    ensures Sum(Settled(sq, e.tag), EntryCost) == Sum(sq, EntryCost)
  {
    var p := SettledAt(sq, e.tag);
    var w := Wake(sq, e.tag);
    EntryUnique(sq, e, sq[p]);
    SumWoken(sq, e.tag);
    SumAt(w, p, EntryCost);
    SumAppend(w[..p], w[p + 1..], EntryCost);
    assert Settled(sq, e.tag) == w[..p] + w[p + 1..];
  }

  lemma WritebackEffort(c: Core, q: Place, tag: nat)
    requires Sorted(c.sq) && Pointers(c) && Pointing(c, q) == Some(tag)
    ensures Effort(Writeback(c, tag)) == Effort(c)
  {
    var e := Pointee(c, q, tag);
    SumSettled(c.sq, e);
  }

  lemma AluDoneEffort(c: Core, i: nat)
    requires Invariant(c) && i < |c.alus| && c.alus[i].Some?
    ensures Effort(AluDone(c, i)) < Effort(c)
  {
    WritebackEffort(c, InAlu(i), c.alus[i].value);
    SumUpdate(c.alus, i, None, AluCost);
  }

  lemma MulDoneEffort(c: Core, i: nat)
    requires Invariant(c) && i < |c.muls| && c.muls[i].third.Some?
    ensures Effort(MulDone(c, i)) < Effort(c)
  {
    WritebackEffort(c, InMul(i, 2), c.muls[i].third.value);
    SumUpdate(c.muls, i, c.muls[i].(third := None), MulCost);
  }

  lemma LsuDoneEffort(c: Core, i: nat)
    requires Invariant(c) && i < |c.lsus| && c.lsus[i].Serving?
    ensures Effort(LsuDone(c, i)) < Effort(c)
  {
    WritebackEffort(c, InLsu(i), c.lsus[i].tag);
    SumUpdate(c.lsus, i, Idle, LsuCost);
  }

  lemma FiredEffort(sq: Queue, i: nat)
    requires i < |sq| && !sq[i].busy
    ensures Sum(Fired(sq, i), EntryCost) + 5 == Sum(sq, EntryCost)
  {
    SumUpdate(sq, i, sq[i].(busy := true), EntryCost);
  }

  lemma FireAluEffort(c: Core, i: nat, u: nat)
    requires i < |c.sq| && !c.sq[i].busy && u < |c.alus| && c.alus[u].None?
    ensures Effort(FireAlu(c, i, u)) < Effort(c)
  {
    FiredEffort(c.sq, i);
    SumUpdate(c.alus, u, Some(c.sq[i].tag), AluCost);
  }

  lemma FireMulEffort(c: Core, i: nat, u: nat)
    requires i < |c.sq| && !c.sq[i].busy && u < |c.muls| && c.muls[u].first.None?
    ensures Effort(FireMul(c, i, u)) < Effort(c)
  {
    FiredEffort(c.sq, i);
    SumUpdate(c.muls, u, c.muls[u].(first := Some(c.sq[i].tag)), MulCost);
  }

  lemma FireLsuEffort(c: Core, i: nat, u: nat, l1: Mshr.Cache, id: nat)
    requires i < |c.sq| && !c.sq[i].busy && u < |c.lsus| && c.lsus[u].Idle?
    ensures Effort(FireLsu(c, i, u, l1, id)) < Effort(c)
  {
    FiredEffort(c.sq, i);
    SumUpdate(c.lsus, u, Serving(c.sq[i].tag, c.sq[i].inst.rec.op.Load?, id), LsuCost);
  }

  lemma DispatchEffort(c: Core)
    requires CanDispatch(c)
    ensures Effort(DispatchOne(c)) < Effort(c)
  {
    SumAppend(c.sq, [Entry(c)], EntryCost);
    SumOne(Entry(c), EntryCost);
  }

  lemma {:induction false} ShiftCost(muls: seq<MulUnit>)
    requires Drained(muls)
    ensures ShiftAll(muls) == muls || Sum(ShiftAll(muls), MulCost) < Sum(muls, MulCost)
  {
    var s := ShiftAll(muls);
    if muls != [] {
      var rest := muls[1..];
      ShiftCost(rest);
      assert s[1..] == ShiftAll(rest);
      assert s == [s[0]] + s[1..] && muls == [muls[0]] + rest;
    }
  }

  // ----- every move is progress -----

  type Measure = Core -> nat

  /** Every move keeps Q and lowers E; moving multipliers that are empty and meeting the end of the
      trace again change nothing. */
  ghost predicate LowersInUnits(Q: Property, E: Measure) {
    && (forall c, i {:trigger AluDone(c, i)} :: Q(c) && 0 <= i < |c.alus| && c.alus[i].Some? ==>
          Q(AluDone(c, i)) && E(AluDone(c, i)) < E(c))
    && (forall c, i {:trigger MulDone(c, i)} :: Q(c) && 0 <= i < |c.muls| && c.muls[i].third.Some? ==>
          Q(MulDone(c, i)) && E(MulDone(c, i)) < E(c))
    && (forall c {:trigger Shift(c)} :: Q(c) && Drained(c.muls) ==>
      Q(Shift(c)) && (Shift(c) == c || E(Shift(c)) < E(c)))
    && (forall c, i {:trigger LsuDone(c, i)} :: Q(c) && 0 <= i < |c.lsus| && LsuReady(c, i) ==>
          Q(LsuDone(c, i)) && E(LsuDone(c, i)) < E(c))
  }

  ghost predicate LowersInSchedule(Q: Property, E: Measure) {
    && (forall c, i, u {:trigger FireAlu(c, i, u)} ::
          Q(c) && 0 <= i < |c.sq| && AluWants(c.sq[i]) && 0 <= u < |c.alus| && c.alus[u].None? ==>
            Q(FireAlu(c, i, u)) && E(FireAlu(c, i, u)) < E(c))
    && (forall c, i, u {:trigger FireMul(c, i, u)} ::
          Q(c) && 0 <= i < |c.sq| && MulWants(c.sq[i]) && 0 <= u < |c.muls| && c.muls[u].first.None? ==>
            Q(FireMul(c, i, u)) && E(FireMul(c, i, u)) < E(c))
    && (forall c, i, u, l1, id: nat {:trigger FireLsu(c, i, u, l1, id)} ::
          Q(c) && 0 <= i < |c.sq| && LsuWants(c.sq, c.sq[i]) && 0 <= u < |c.lsus| && c.lsus[u].Idle? &&
            Issues(c, i, l1, id) ==>
            Q(FireLsu(c, i, u, l1, id)) && E(FireLsu(c, i, u, l1, id)) < E(c))
  }

  ghost predicate LowersInOrder(Q: Property, E: Measure) {
    && (forall c {:trigger RetireHead(c)} :: Q(c) && HeadReady(c) ==> Q(RetireHead(c)) && E(RetireHead(c)) < E(c))
    && (forall c {:trigger DispatchOne(c)} :: Q(c) && CanDispatch(c) ==> Q(DispatchOne(c)) && E(DispatchOne(c)) < E(c))
    && (forall c {:trigger FetchOne(c)} :: Q(c) && c.rest != [] && !c.stalled ==>
      Q(FetchOne(c)) && E(FetchOne(c)) < E(c))
    && (forall c {:trigger AtEof(c)} :: Q(c) ==> Q(AtEof(c)) && (c.eof || E(AtEof(c)) < E(c)))
  }

  ghost predicate Lowers(Q: Property, E: Measure) {
    LowersInUnits(Q, E) && LowersInSchedule(Q, E) && LowersInOrder(Q, E)
  }

  lemma InvariantLowersInUnits()
    ensures LowersInUnits(Invariant, Effort)
  {
    forall c, i | Invariant(c) && 0 <= i < |c.alus| && c.alus[i].Some?
      ensures Invariant(AluDone(c, i)) && Effort(AluDone(c, i)) < Effort(c)
    {
      AluDoneKeeps(c, i);
      AluDoneEffort(c, i);
    }
    forall c, i | Invariant(c) && 0 <= i < |c.muls| && c.muls[i].third.Some?
      ensures Invariant(MulDone(c, i)) && Effort(MulDone(c, i)) < Effort(c)
    {
      MulDoneKeeps(c, i);
      MulDoneEffort(c, i);
    }
    forall c, i | Invariant(c) && 0 <= i < |c.lsus| && LsuReady(c, i)
      ensures Invariant(LsuDone(c, i)) && Effort(LsuDone(c, i)) < Effort(c)
    {
      LsuDoneKeeps(c, i);
      LsuDoneEffort(c, i);
    }
    forall c | Invariant(c) && Drained(c.muls)
      ensures Invariant(Shift(c)) && (Shift(c) == c || Effort(Shift(c)) < Effort(c))
    {
      ShiftKeeps(c);
      ShiftEffort(c);
    }
  }

  lemma ShiftEffort(c: Core)
    requires Drained(c.muls)
    ensures Shift(c) == c || Effort(Shift(c)) < Effort(c)
  {
    ShiftCost(c.muls);
  }

  lemma InvariantLowersInSchedule()
    ensures LowersInSchedule(Invariant, Effort)
  {
    forall c, i, u | Invariant(c) && 0 <= i < |c.sq| && AluWants(c.sq[i]) && 0 <= u < |c.alus| && c.alus[u].None?
      ensures Invariant(FireAlu(c, i, u)) && Effort(FireAlu(c, i, u)) < Effort(c)
    {
      FireAluKeeps(c, i, u);
      FireAluEffort(c, i, u);
    }
    forall c, i, u | Invariant(c) && 0 <= i < |c.sq| && MulWants(c.sq[i]) && 0 <= u < |c.muls| && c.muls[u].first.None?
      ensures Invariant(FireMul(c, i, u)) && Effort(FireMul(c, i, u)) < Effort(c)
    {
      FireMulKeeps(c, i, u);
      FireMulEffort(c, i, u);
    }
    forall c, i, u, l1, id: nat | Invariant(c) && 0 <= i < |c.sq| && LsuWants(c.sq, c.sq[i]) && 0 <= u < |c.lsus| &&
                                  c.lsus[u].Idle? && Issues(c, i, l1, id)
      ensures Invariant(FireLsu(c, i, u, l1, id)) && Effort(FireLsu(c, i, u, l1, id)) < Effort(c)
    {
      FireLsuKeeps(c, i, u);
      FireLsuEffort(c, i, u, l1, id);
    }
  }

  lemma RetireEffort(c: Core)
    requires HeadReady(c)
    ensures Effort(RetireHead(c)) < Effort(c)
  {
  }

  lemma FetchEffort(c: Core)
    requires c.rest != []
    ensures Effort(FetchOne(c)) < Effort(c)
  {
  }

  lemma EofEffort(c: Core)
    ensures c.eof || Effort(AtEof(c)) < Effort(c)
  {
  }

  lemma InvariantLowersInOrder()
    ensures LowersInOrder(Invariant, Effort)
  {
    forall c | Invariant(c) && HeadReady(c) ensures Invariant(RetireHead(c)) && Effort(RetireHead(c)) < Effort(c) {
      RetireKeeps(c);
      RetireEffort(c);
    }
    forall c | Invariant(c) && CanDispatch(c) ensures Invariant(DispatchOne(c)) && Effort(DispatchOne(c)) < Effort(c) {
      DispatchKeeps(c);
      DispatchEffort(c);
    }
    forall c | Invariant(c) && c.rest != [] && !c.stalled
      ensures Invariant(FetchOne(c)) && Effort(FetchOne(c)) < Effort(c)
    {
      FetchKeeps(c);
      FetchEffort(c);
    }
    forall c | Invariant(c) ensures Invariant(AtEof(c)) && (c.eof || Effort(AtEof(c)) < Effort(c)) {
      EofKeeps(c);
      EofEffort(c);
    }
  }

  /** d is z, or is closer to the end than z. */
  predicate Moved(Q: Property, E: Measure, z: Core, d: Core) { Q(d) && (d == z || E(d) < E(z)) }

  lemma MovedInUnits(Q: Property, E: Measure, z: Core)
    requires LowersInUnits(Q, E)
    ensures var P := d => Moved(Q, E, z, d); KeptByAlu(P) && KeptByMul(P) && KeptByLsu(P)
  {
  }

  lemma MovedInSchedule(Q: Property, E: Measure, z: Core)
    requires LowersInSchedule(Q, E)
    ensures var P := d => Moved(Q, E, z, d); KeptByFireAlu(P) && KeptByFireMul(P) && KeptByFireLsu(P)
  {
  }

  lemma MovedKept(Q: Property, E: Measure, z: Core)
    requires Lowers(Q, E)
    ensures Kept(d => Moved(Q, E, z, d))
  {
    MovedInUnits(Q, E, z);
    MovedInSchedule(Q, E, z);
  }

  // ----- a cycle that moves nothing -----

  lemma {:induction false} StillAlus(Q: Property, E: Measure, c: Core, i: nat)
    requires Lowers(Q, E) && Q(c) && i <= |c.alus| && ExecAlus(c, i) == c
    ensures forall u :: i <= u < |c.alus| ==> c.alus[u].None?
    decreases |c.alus| - i
  {
    if i < |c.alus| {
      if c.alus[i].Some? {
        var z := AluDone(c, i);
        MovedKept(Q, E, z);
        AluStage(d => Moved(Q, E, z, d), z, i + 1);
      } else {
        StillAlus(Q, E, c, i + 1);
      }
    }
  }

  lemma {:induction false} StillLsus(Q: Property, E: Measure, c: Core, i: nat)
    requires Lowers(Q, E) && Q(c) && i <= |c.lsus| && ExecLsus(c, i) == c
    ensures forall u :: i <= u < |c.lsus| ==> !LsuReady(c, u)
    decreases |c.lsus| - i
  {
    if i < |c.lsus| {
      if LsuReady(c, i) {
        var z := LsuDone(c, i);
        MovedKept(Q, E, z);
        LsuStage(d => Moved(Q, E, z, d), z, i + 1);
      } else {
        StillLsus(Q, E, c, i + 1);
      }
    }
  }

  /** A shift that changes nothing shifted nothing. */
  lemma StillShift(c: Core)
    requires Shift(c) == c && Drained(c.muls)
    ensures forall u :: 0 <= u < |c.muls| ==> c.muls[u] == MulUnit(None, None, None)
  {
    forall u | 0 <= u < |c.muls| ensures c.muls[u] == MulUnit(None, None, None) {
      assert Shift(c).muls[u] == ShiftUnit(c.muls[u]);
      assert c.muls[u].third.None?;
    }
  }

  /** Going from z through b to z moved nothing. */
  lemma Returned(Q: Property, E: Measure, z: Core, b: Core)
    requires Moved(Q, E, z, b) && Moved(Q, E, b, z)
    ensures b == z
  {
  }

  lemma LaterMoved(Q: Property, E: Measure, z: Core, b: Core, d: Core)
    requires Moved(Q, E, z, b) && Moved(Q, E, b, d)
    ensures Moved(Q, E, z, d)
  {
  }

  lemma AlusMoved(Q: Property, E: Measure, c: Core)
    requires Lowers(Q, E) && Q(c)
    ensures Moved(Q, E, c, ExecAlus(c, 0))
  {
    MovedKept(Q, E, c);
    AluStage(d => Moved(Q, E, c, d), c, 0);
  }

  lemma MulsMoved(Q: Property, E: Measure, c: Core)
    requires Lowers(Q, E) && Q(c)
    ensures Moved(Q, E, c, ExecMuls(c, 0)) && Drained(ExecMuls(c, 0).muls)
  {
    MovedKept(Q, E, c);
    MulStage(d => Moved(Q, E, c, d), c, 0);
  }

  lemma LsusMoved(Q: Property, E: Measure, c: Core)
    requires Lowers(Q, E) && Q(c)
    ensures Moved(Q, E, c, ExecLsus(c, 0))
  {
    MovedKept(Q, E, c);
    LsuStage(d => Moved(Q, E, c, d), c, 0);
  }

  /** If the units come back to c, none of them moved. */
  lemma ExecChain(Q: Property, E: Measure, c: Core)
    requires Lowers(Q, E) && Q(c) && Exec(c) == c
    ensures ExecAlus(c, 0) == c && ExecMuls(c, 0) == c && Shift(c) == c && ExecLsus(c, 0) == c && Drained(c.muls)
  {
    var a := ExecAlus(c, 0);
    var b := ExecMuls(a, 0);
    AlusMoved(Q, E, c);
    MulsMoved(Q, E, a);
    assert Moved(Q, E, b, Shift(b));
    LsusMoved(Q, E, Shift(b));
    LaterMoved(Q, E, a, b, Shift(b));
    LaterMoved(Q, E, a, Shift(b), c);
    Returned(Q, E, c, a);
    LaterMoved(Q, E, b, Shift(b), c);
    Returned(Q, E, c, b);
    Returned(Q, E, c, Shift(b));
  }

  lemma StillExec(Q: Property, E: Measure, c: Core)
    requires Lowers(Q, E) && Q(c) && Exec(c) == c
    ensures forall u :: 0 <= u < |c.alus| ==> c.alus[u].None?
    ensures forall u :: 0 <= u < |c.muls| ==> c.muls[u] == MulUnit(None, None, None)
    ensures forall u :: 0 <= u < |c.lsus| ==> !LsuReady(c, u)
  {
    ExecChain(Q, E, c);
    StillAlus(Q, E, c, 0);
    StillShift(c);
    StillLsus(Q, E, c, 0);
  }

  lemma StillFireAlu(Q: Property, E: Measure, c: Core, n: nat)
    requires Lowers(Q, E) && Q(c) && n >= 1 && FireAlus(c, n) == c && |c.alus| >= 1 && c.alus[0].None?
    ensures forall e :: e in c.sq ==> !AluWants(e)
  {
    var i, u := PickAlu(c.sq), IdleAlu(c.alus);
    if i < |c.sq| {
      var z := FireAlu(c, i, u);
      MovedKept(Q, E, z);
      FireAluStage(d => Moved(Q, E, z, d), z, n - 1);
    }
  }

  lemma StillFireMul(Q: Property, E: Measure, c: Core, n: nat)
    requires Lowers(Q, E) && Q(c) && n >= 1 && FireMuls(c, n) == c && |c.muls| >= 1 && c.muls[0].first.None?
    ensures forall e :: e in c.sq ==> !MulWants(e)
  {
    var i, u := PickMul(c.sq), IdleMul(c.muls);
    if i < |c.sq| {
      var z := FireMul(c, i, u);
      MovedKept(Q, E, z);
      FireMulStage(d => Moved(Q, E, z, d), z, n - 1);
    }
  }

  lemma StillFireLsu(Q: Property, E: Measure, c: Core, n: nat)
    requires Lowers(Q, E) && Q(c) && n >= 1 && FireLsus(c, n, false) == c && |c.lsus| >= 1 && c.lsus[0].Idle?
    requires c.l1.Valid() && !Mshr.Full(c.l1.table)
    ensures forall e :: e in c.sq ==> !LsuWants(c.sq, e)
  {
    var i, u := PickLsu(c.sq), IdleLsu(c.lsus);
    if i < |c.sq| {
      var rec := c.sq[i].inst.rec;
      var (l1, id) := Mshr.Issue(c.l1, rec.op.Load?, rec.block, rec.latency);
      Mshr.IssueMeans(c.l1, rec.op.Load?, rec.block, rec.latency);
      assert Issues(c, i, l1, id.value);
      var z := FireLsu(c, i, u, l1, id.value);
      LsuFiresMoved(Q, E, z, n - 1, rec.op.Store?);
    }
  }

  lemma LsuFiresMoved(Q: Property, E: Measure, z: Core, n: nat, stored: bool)
    requires Lowers(Q, E) && Q(z)
    ensures Moved(Q, E, z, FireLsus(z, n, stored))
  {
    MovedKept(Q, E, z);
    FireLsuStage(d => Moved(Q, E, z, d), z, n, stored);
  }

  /** At least one of everything. */
  predicate Equipped(c: Core) {
    && c.cfg.width >= 1 && c.cfg.schedCap >= 1 && c.cfg.dispCap >= 1 && |c.rob.entries| >= 1
    && |c.alus| >= 1 && |c.muls| >= 1 && |c.lsus| >= 1 && |c.l1.table| >= 1
  }

  predicate Resting(c: Core) {
    && (forall u :: 0 <= u < |c.alus| ==> c.alus[u].None?)
    && (forall u :: 0 <= u < |c.muls| ==> c.muls[u] == MulUnit(None, None, None))
    && (forall u :: 0 <= u < |c.lsus| ==> c.lsus[u].Idle?)
  }

  /** With the units at rest no entry is busy and no request is outstanding. */
  lemma RestingQueue(c: Core)
    requires Units(c) && Requests(c) && Resting(c)
    ensures forall e :: e in c.sq ==> !e.busy
    ensures |c.l1.table| >= 1 ==> !Mshr.Full(c.l1.table)
  {
    forall e | e in c.sq ensures !e.busy { NobodyHeld(c, e.tag); }
    if |c.l1.table| >= 1 {
      var id := if c.l1.table[0].Miss? then c.l1.table[0].id else 0;
      assert Mshr.Peek(c.l1.table, id).None?;
    }
  }

  lemma NobodyHeld(c: Core, tag: nat)
    requires Resting(c)
    ensures !Held(c, tag)
  {
  }

  lemma OldestWriter(c: Core, e: SchedEntry, reg: Option<Reg>)
    requires e in c.sq && Good(c, e) && forall f :: f in c.sq ==> f.tag >= e.tag
    ensures Renamed(c.fetched, e.tag - 257, reg, c.sq).ready
  {
    if reg.Some? { WriterWrites(c.fetched, e.tag - 257, reg.value); }
  }

  lemma OldestFirst(c: Core, f: SchedEntry)
    requires Waiting(c) && Stream(c) && c.sq != [] && f in c.sq
    ensures f.tag >= c.sq[0].tag && f.inst.dyn >= c.sq[0].inst.dyn
  {
    assert Good(c, f) && Good(c, c.sq[0]);
  }

  /** The oldest instruction in the queue always has its operands and never waits for an older memory
      operation. */
  lemma OldestCanGo(c: Core)
    requires Waiting(c) && Stream(c) && c.sq != []
    ensures c.sq[0].src1.ready && c.sq[0].src2.ready && !Ambiguous(c.sq, c.sq[0])
  {
    var e := c.sq[0];
    assert Good(c, e);
    forall f | f in c.sq ensures f.tag >= e.tag && f.inst.dyn >= e.inst.dyn { OldestFirst(c, f); }
    OldestWriter(c, e, e.inst.rec.src1);
    OldestWriter(c, e, e.inst.rec.src2);
  }

  lemma RetireMoved(Q: Property, E: Measure, c: Core)
    requires Lowers(Q, E) && Q(c)
    ensures Moved(Q, E, c, Retire(c).0)
  {
    MovedKept(Q, E, c);
    RetireStage(d => Moved(Q, E, c, d), c);
  }

  lemma StillRetire(Q: Property, E: Measure, c: Core)
    requires Lowers(Q, E) && Q(c) && Retire(c).0 == c
    ensures !HeadReady(c)
  {
    if HeadReady(c) && !c.rob.entries[c.rob.head].inst.Mispredict() { RetireMoved(Q, E, RetireHead(c)); }
  }

  lemma ExecMoved(Q: Property, E: Measure, c: Core)
    requires Lowers(Q, E) && Q(c)
    ensures Moved(Q, E, c, Exec(c))
  {
    MovedKept(Q, E, c);
    ExecStage(d => Moved(Q, E, c, d), c);
  }

  lemma ScheduleMoved(Q: Property, E: Measure, c: Core)
    requires Lowers(Q, E) && Q(c)
    ensures Moved(Q, E, c, Schedule(c))
  {
    MovedKept(Q, E, c);
    ScheduleStage(d => Moved(Q, E, c, d), c);
  }

  lemma DispatchMoved(Q: Property, E: Measure, c: Core, n: nat)
    requires Lowers(Q, E) && Q(c)
    ensures Moved(Q, E, c, Dispatch(c, n))
  {
    MovedKept(Q, E, c);
    DispatchStage(d => Moved(Q, E, c, d), c, n);
  }

  lemma FetchMoved(Q: Property, E: Measure, c: Core, open: nat)
    requires Lowers(Q, E) && Q(c)
    ensures Moved(Q, E, c, Fetch(c, open))
  {
    MovedKept(Q, E, c);
    if !c.stalled && !c.eof { FetchStage(d => Moved(Q, E, c, d), c, c.cfg.width, open); }
  }

  lemma FrontEndMoved(Q: Property, E: Measure, c: Core, open: nat)
    requires Lowers(Q, E) && Q(c)
    ensures Moved(Q, E, c, FrontEnd(c, open))
  {
    DispatchMoved(Q, E, c, c.cfg.width);
    FetchMoved(Q, E, Dispatch(c, c.cfg.width), open);
  }

  lemma StagesMoved(Q: Property, E: Measure, c: Core, open: nat)
    requires Lowers(Q, E) && Q(c)
    ensures Moved(Q, E, c, Stages(c, open))
  {
    MovedKept(Q, E, c);
    StagesKeep(d => Moved(Q, E, c, d), c, open);
  }

  /** A cycle that changes nothing: each stage, on its own, changes nothing. */
  lemma StagesChain(Q: Property, E: Measure, c: Core, open: nat)
    requires Lowers(Q, E) && Q(c) && Stages(c, open) == c
    ensures !HeadReady(c) && Exec(c) == c && Schedule(c) == c && FrontEnd(c, open) == c
  {
    var (d, mispredict) := Retire(c);
    RetireMoved(Q, E, c);
    if !mispredict {
      ExecMoved(Q, E, d);
      var e := Exec(d);
      ScheduleMoved(Q, E, e);
      var f := Schedule(e);
      FrontEndMoved(Q, E, f, open);
      LaterMoved(Q, E, e, f, c);
      LaterMoved(Q, E, d, e, c);
      Returned(Q, E, c, d);
      Returned(Q, E, c, e);
      Returned(Q, E, c, f);
    }
    StillRetire(Q, E, c);
  }

  lemma FrontEndChain(Q: Property, E: Measure, c: Core, open: nat)
    requires Lowers(Q, E) && Q(c) && FrontEnd(c, open) == c
    ensures Dispatch(c, c.cfg.width) == c && Fetch(c, open) == c
  {
    var d := Dispatch(c, c.cfg.width);
    DispatchMoved(Q, E, c, c.cfg.width);
    FetchMoved(Q, E, d, open);
    Returned(Q, E, c, d);
  }

  lemma ScheduleChain(Q: Property, E: Measure, c: Core)
    requires Lowers(Q, E) && Q(c) && Schedule(c) == c
    ensures FireAlus(c, FreeAlus(c.alus)) == c && FireMuls(c, FreeMuls(c.muls)) == c &&
      FireLsus(c, FreeLsus(c.lsus), false) == c
  {
    var d := FireAlus(c, FreeAlus(c.alus));
    AluFiresMoved(Q, E, c, FreeAlus(c.alus));
    var e := FireMuls(d, FreeMuls(d.muls));
    MulFiresMoved(Q, E, d, FreeMuls(d.muls));
    LsuFiresMoved(Q, E, e, FreeLsus(e.lsus), false);
    LaterMoved(Q, E, d, e, c);
    Returned(Q, E, c, d);
    Returned(Q, E, c, e);
  }

  lemma AluFiresMoved(Q: Property, E: Measure, z: Core, n: nat)
    requires Lowers(Q, E) && Q(z)
    ensures Moved(Q, E, z, FireAlus(z, n))
  {
    MovedKept(Q, E, z);
    FireAluStage(d => Moved(Q, E, z, d), z, n);
  }

  lemma MulFiresMoved(Q: Property, E: Measure, z: Core, n: nat)
    requires Lowers(Q, E) && Q(z)
    ensures Moved(Q, E, z, FireMuls(z, n))
  {
    MovedKept(Q, E, z);
    FireMulStage(d => Moved(Q, E, z, d), z, n);
  }

  lemma StillDispatch(Q: Property, E: Measure, c: Core, n: nat)
    requires Lowers(Q, E) && Q(c) && Dispatch(c, n) == c && n >= 1
    ensures !CanDispatch(c)
  {
    if CanDispatch(c) { DispatchMoved(Q, E, DispatchOne(c), n - 1); }
  }

  lemma StillFetch(Q: Property, E: Measure, c: Core, open: nat)
    requires Lowers(Q, E) && Q(c) && Fetch(c, open) == c && c.cfg.width >= 1 && |c.dispq| < c.cfg.dispCap && !c.stalled
    ensures c.eof || open == 0
  {
    if !c.eof && open > 0 && c.rest != [] {
      var d := FetchOne(c);
      MovedKept(Q, E, d);
      if !d.stalled { FetchStage(z => Moved(Q, E, d, z), d, c.cfg.width - 1, open - 1); }
    }
  }

  /** Something outstanding at the cache is not ready. */
  predicate Expecting(c: Core) { exists s :: s in c.l1.table && s.Miss? && !s.ready }

  lemma NotReadyExpecting(c: Core, u: nat)
    requires Requests(c) && u < |c.lsus| && c.lsus[u].Serving? && !LsuReady(c, u)
    ensures Expecting(c)
  {
    var i := Mshr.SlotOf(c.l1.table, c.lsus[u].id);
    assert Mshr.Peek(c.l1.table, c.lsus[u].id).Some?;
    assert c.l1.table[i] in c.l1.table;
  }

  /** When the units are at rest the scheduling queue is empty, or it would have issued its oldest entry. */
  lemma StillQueue(c: Core)
    requires Invariant(c) && Equipped(c) && Resting(c) && Schedule(c) == c
    requires Lowers(Invariant, Effort)
    ensures c.sq == []
  {
    ScheduleChain(Invariant, Effort, c);
    RestingQueue(c);
    StillFireAlu(Invariant, Effort, c, FreeAlus(c.alus));
    StillFireMul(Invariant, Effort, c, FreeMuls(c.muls));
    StillFireLsu(Invariant, Effort, c, FreeLsus(c.lsus));
    if c.sq != [] { OldestWanted(c); }
  }

  lemma OldestWanted(c: Core)
    requires Waiting(c) && Stream(c) && c.sq != [] && !c.sq[0].busy
    ensures c.sq[0] in c.sq && (AluWants(c.sq[0]) || MulWants(c.sq[0]) || LsuWants(c.sq, c.sq[0]))
  {
    OldestCanGo(c);
  }

  lemma HeadWritten(c: Core)
    requires Reorder(c) && c.sq == [] && c.rob.count > 0
    ensures HeadReady(c)
  {
    assert Filled(c.rob, c.sq, c.fetched, Oldest(c));
  }

  /** Nothing is in flight. */
  predicate Empty(c: Core) { c.dispq == [] && c.rob.count == 0 && c.sq == [] }

  lemma EmptyMachine(c: Core, open: nat)
    requires Invariant(c) && Equipped(c) && c.sq == [] && !HeadReady(c) && FrontEnd(c, open) == c
    requires Lowers(Invariant, Effort)
    ensures Empty(c) && (c.eof || open == 0)
  {
    if c.rob.count > 0 { HeadWritten(c); }
    FrontEndChain(Invariant, Effort, c, open);
    StillDispatch(Invariant, Effort, c, c.cfg.width);
    SlotBelow(Next(c), |c.rob.entries|);
    StillFetch(Invariant, Effort, c, open);
  }

  lemma AllLower()
    ensures Lowers(Invariant, Effort)
  {
    InvariantLowersInUnits();
    InvariantLowersInSchedule();
    InvariantLowersInOrder();
  }

  /** A cycle that changes nothing: the program is done, the cache still owes data, or a gate holds fetch. */
  lemma StillCycle(c: Core, open: nat)
    requires Invariant(c) && Equipped(c) && Stages(c, open) == c
    ensures Expecting(c) || (Empty(c) && (c.eof || open == 0))
  {
    AllLower();
    StagesChain(Invariant, Effort, c, open);
    StillExec(Invariant, Effort, c);
    if u :| 0 <= u < |c.lsus| && c.lsus[u].Serving? {
      NotReadyExpecting(c, u);
    } else {
      StillQueue(c);
      EmptyMachine(c, open);
    }
  }

  // ----- draining -----

  function Debt(c: Core): nat { Mshr.Wait(c.l1.table, c.l1.now) }

  /** From (e, w) to (e', w'): less effort, or the same effort and data that is closer; with fetch shut
      perhaps neither, but never back. */
  predicate Progress(e: nat, w: nat, e': nat, w': nat, open: nat) {
    e' < e || (e' == e && (w' < w || (open == 0 && w' <= w)))
  }

  lemma ClockEffort(c: Core)
    ensures Effort(TickCache(c)) == Effort(c) && Debt(TickCache(c)) <= Debt(c)
    ensures Expecting(c) ==> Debt(TickCache(c)) < Debt(c)
  {
    Mshr.TickLowersWait(c.l1.table, c.l1.now);
  }

  lemma StagesEffort(c: Core, open: nat)
    requires Invariant(c)
    ensures Stages(c, open) == c || Effort(Stages(c, open)) < Effort(c)
  {
    AllLower();
    StagesMoved(Invariant, Effort, c, open);
  }

  /** Every cycle of an unfinished core moves an instruction on or brings outstanding data closer; only a
      gate at fetch can make it idle. */
  lemma TickProgress(c: Core, open: nat)
    requires Invariant(c) && Equipped(c) && !Finished(c)
    ensures Progress(Effort(c), Debt(c), Effort(Tick(c, open)), Debt(Tick(c, open)), open)
  {
    StagesEffort(c, open);
    ClockEffort(Stages(c, open));
    if Stages(c, open) == c { StillCycle(c, open); }
  }

  /** Large enough, and at the end of the trace only when it has been read. */
  predicate Furnished(c: Core) { Equipped(c) && (c.eof ==> c.rest == []) }

  ghost predicate Fit(c: Core) { Invariant(c) && Furnished(c) }

  lemma FurnishedKeptInUnits()
    ensures KeptByAlu(Furnished) && KeptByMul(Furnished) && KeptByLsu(Furnished)
  {
  }

  lemma FurnishedKeptInSchedule()
    ensures KeptByFireAlu(Furnished) && KeptByFireMul(Furnished) && KeptByFireLsu(Furnished)
  {
  }

  lemma FurnishedKept()
    ensures Kept(Furnished) && KeptByClock(Furnished)
  {
    FurnishedKeptInUnits();
    FurnishedKeptInSchedule();
  }

  lemma FitKept()
    ensures Kept(Fit) && KeptByClock(Fit)
  {
    InvariantKept();
    FurnishedKept();
    BothKept(Invariant, Furnished, Fit);
  }

  /** The gate is open in cycle j, which is i or later. */
  predicate OpensAt(gate: nat -> nat, i: nat, j: nat) { i <= j && gate(j) >= 1 }

  /** No gate stays shut for ever. */
  ghost predicate Fair(gate: nat -> nat) { forall i: nat :: OpensLater(gate, i) }

  ghost predicate OpensLater(gate: nat -> nat, i: nat) { exists j: nat :: OpensAt(gate, i, j) }

  /** n cycles, with gate(i), gate(i + 1), ... records let through. */
  function Cycles(c: Core, gate: nat -> nat, i: nat, n: nat): Core { Repeat(Tick, c, gate, i, n) }

  function Repeat(step: (Core, nat) -> Core, c: Core, gate: nat -> nat, i: nat, n: nat): Core
    decreases n
  {
    if n == 0 then c else Repeat(step, step(c, gate(i)), gate, i + 1, n - 1)
  }

  lemma {:induction false} OneMore(step: (Core, nat) -> Core, c: Core, gate: nat -> nat, i: nat, n: nat)
    ensures Repeat(step, c, gate, i, n + 1) == step(Repeat(step, c, gate, i, n), gate(i + n))
    decreases n
  {
    if n > 0 { OneMore(step, step(c, gate(i)), gate, i + 1, n - 1); }
  }

  /** A cycle of a core in Q stays in Q and makes progress; when the core has finished there is less to
      do or it stays finished. */
  ghost predicate Advances(Q: Property, E: Measure, D: Measure) {
    forall c, open: nat {:trigger Tick(c, open)} :: Q(c) ==>
      var d := Tick(c, open);
      && Q(d)
      && Progress(E(c), D(c), E(d), D(d), if Finished(c) then 0 else open)
      && (Finished(c) ==> E(d) < E(c) || Finished(d))
  }

  lemma {:induction false} Drain(Q: Property, E: Measure, D: Measure, c: Core, gate: nat -> nat, i: nat, j: nat)
      returns (n: nat)
    requires Advances(Q, E, D) && Q(c) && Fair(gate) && OpensAt(gate, i, j)
    ensures Finished(Cycles(c, gate, i, n)) && Q(Cycles(c, gate, i, n))
    decreases E(c), D(c), j - i
  {
    if Finished(c) {
      n := 0;
    } else {
      var k := LaterOpening(gate, i, j);
      var m := Drain(Q, E, D, Tick(c, gate(i)), gate, i + 1, k);
      n := m + 1;
      CyclesNext(c, gate, i, m);
    }
  }

  lemma LaterOpening(gate: nat -> nat, i: nat, j: nat) returns (k: nat)
    requires Fair(gate) && OpensAt(gate, i, j)
    ensures OpensAt(gate, i + 1, k) && (i < j ==> k == j)
  {
    k := j;
    if i == j {
      assert OpensLater(gate, i + 1);
      k :| OpensAt(gate, i + 1, k);
    }
  }

  lemma CyclesNext(c: Core, gate: nat -> nat, i: nat, n: nat)
    ensures Cycles(c, gate, i, n + 1) == Cycles(Tick(c, gate(i)), gate, i + 1, n)
  {
  }

  lemma FitAdvances()
    ensures Advances(Fit, Effort, Debt)
  {
    FitKept();
    forall c, open: nat | Fit(c)
      ensures var d := Tick(c, open);
        && Fit(d)
        && Progress(Effort(c), Debt(c), Effort(d), Debt(d), if Finished(c) then 0 else open)
        && (Finished(c) ==> Effort(d) < Effort(c) || Finished(d))
    {
      TickKeeps(Fit, c, open);
      if Finished(c) { FinishedStays(c, open); } else { TickProgress(c, open); }
    }
  }

  lemma FinishedStays(c: Core, open: nat)
    requires Invariant(c) && Finished(c)
    ensures Progress(Effort(c), Debt(c), Effort(Tick(c, open)), Debt(Tick(c, open)), 0)
    ensures Effort(Tick(c, open)) < Effort(c) || Finished(Tick(c, open))
  {
    StagesEffort(c, open);
    ClockEffort(Stages(c, open));
  }

  lemma StartFit(cfg: Config, program: seq<Record>, rob: nat, alus: nat, muls: nat, lsus: nat, mshrs: nat)
    requires Equipped(Start(cfg, program, rob, alus, muls, lsus, mshrs))
    ensures Fit(Start(cfg, program, rob, alus, muls, lsus, mshrs))
  {
    StartInvariant(cfg, program, rob, alus, muls, lsus, mshrs);
  }

  lemma {:induction false} CyclesOf(c: Core, gate: nat -> nat, i: nat, n: nat, program: seq<Record>)
    requires Of(c, program)
    ensures Of(Cycles(c, gate, i, n), program)
    decreases n
  {
    if n > 0 {
      ProgramKept(program);
      TickKeeps((d: Core) => Of(d, program), c, gate(i));
      CyclesOf(Tick(c, gate(i)), gate, i + 1, n - 1, program);
    }
  }

  /** A core with at least one of everything, started on any program and with gates that do not stay shut
      for ever, finishes in finitely many cycles, having retired the whole program in order. */
  lemma CoreDrains(cfg: Config, program: seq<Record>, rob: nat, alus: nat, muls: nat, lsus: nat, mshrs: nat,
                   gate: nat -> nat)
    returns (n: nat)
    requires Equipped(Start(cfg, program, rob, alus, muls, lsus, mshrs)) && Fair(gate)
    ensures var d := Cycles(Start(cfg, program, rob, alus, muls, lsus, mshrs), gate, 0, n);
      && Finished(d) && |d.retired| == |program|
      && forall k :: 0 <= k < |program| ==> d.retired[k] == Inst(k + 1, program[k])
  {
    var c := Start(cfg, program, rob, alus, muls, lsus, mshrs);
    StartFit(cfg, program, rob, alus, muls, lsus, mshrs);
    FitAdvances();
    assert OpensLater(gate, 0);
    var j: nat :| OpensAt(gate, 0, j);
    n := Drain(Fit, Effort, Debt, c, gate, 0, j);
    StartInvariant(cfg, program, rob, alus, muls, lsus, mshrs);
    CyclesOf(c, gate, 0, n, program);
    FinishedRetired(Cycles(c, gate, 0, n), program);
  }

  lemma FinishedRetired(d: Core, program: seq<Record>)
    requires Fit(d) && Finished(d) && Of(d, program)
    ensures |d.retired| == |program| && forall k :: 0 <= k < |program| ==> d.retired[k] == Inst(k + 1, program[k])
  {
  }
}
