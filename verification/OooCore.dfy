/** The out-of-order core in place: its tables as arrays and lists, its stages as loops, each proved
    against the functions of module Pipeline. */
module OooCore {
  import opened Options
  import opened Pipeline
  import opened PipelineInvariant
  import opened PipelineInduction
  import opened PipelineSafety
  import opened PipelineProgress
  import Mshr
  import Ring
  import T = PipelineTiming

  /** Circular indices step modulo the capacity. */
  lemma Wraps(i: nat, cap: nat)
    requires i < cap
    ensures (i + 1) % cap == Advance(i, cap)
  {
    Ring.ModOnce(i + 1, cap);
  }

  class ReorderBuffer {
    const entries: array<RobEntry>
    var head: nat
    var tail: nat
    var count: nat

    predicate Valid()
      reads this
    {
      entries.Length > 0 ==> head < entries.Length && tail < entries.Length
    }

    function View(): Rob
      reads this, entries
    {
      Rob(entries[..], head, tail, count)
    }

    constructor (capacity: nat, blank: RobEntry)
      ensures Valid() && fresh(entries) && View() == Rob(seq(capacity, _ => blank), 0, 0, 0)
    {
      entries := new RobEntry[capacity](_ => blank);
      head, tail, count := 0, 0, 0;
      new;
      assert entries[..] == seq(capacity, _ => blank);
    }

    /** The caller has checked that the buffer is not full. */
    method Allocate(e: RobEntry) returns (slot: nat)
      requires Valid() && count < entries.Length
      modifies this, entries
      ensures Valid() && slot == old(tail)
      ensures View() == Rob(old(entries[..])[slot := e], old(head), Advance(old(tail), entries.Length), old(count) + 1)
    {
      slot := tail;
      entries[slot] := e;
      Wraps(tail, entries.Length);
      tail := (tail + 1) % entries.Length;
      count := count + 1;
    }

    method RetireHead()
      requires Valid() && 0 < count <= entries.Length
      modifies this
      ensures Valid() && View() == old(View()).(head := Advance(old(head), entries.Length), count := old(count) - 1)
    {
      Wraps(head, entries.Length);
      head := (head + 1) % entries.Length;
      count := count - 1;
    }

    method MarkReady(slot: nat)
      requires slot < entries.Length
      modifies entries
      ensures View() == old(View()).(entries := SetReady(old(entries[..]), slot))
    {
      entries[slot] := entries[slot].(ready := true);
    }
  }

  class AliasTable {
    const entries: array<Operand>
    var nextTag: nat

    predicate Valid() { entries.Length == 256 }

    constructor ()
      ensures Valid() && fresh(entries) && nextTag == 257
      ensures entries[..] == seq(256, i requires 0 <= i < 256 => Operand(i + 1, true))
    {
      entries := new Operand[256](i requires 0 <= i < 256 => Operand(i + 1, true));
      nextTag := 257;
    }

    method Lookup(reg: Option<Reg>) returns (r: Operand)
      requires Valid()
      ensures r == Read(entries[..], reg)
    {
      if reg.None? { return Operand(0, true); }
      return entries[reg.value];
    }

    method Claim(reg: Option<Reg>, tag: nat)
      requires Valid()
      modifies entries
      ensures entries[..] == WriteUse(old(entries[..]), reg, tag)
    {
      if reg.Some? { entries[reg.value] := Operand(tag, false); }
    }

    method Complete(reg: Option<Reg>, tag: nat)
      requires Valid()
      modifies entries
      ensures entries[..] == MarkComplete(old(entries[..]), reg, tag)
    {
      if reg.Some? && entries[reg.value].tag == tag { entries[reg.value] := Operand(tag, true); }
    }

    method FlushToReady()
      modifies entries
      ensures entries[..] == Flush(old(entries[..]))
    {
      for i := 0 to entries.Length
        invariant forall j :: 0 <= j < i ==> entries[j] == old(entries[j]).(ready := true)
        invariant forall j :: i <= j < entries.Length ==> entries[j] == old(entries[j])
      {
        entries[i] := entries[i].(ready := true);
      }
    }

    method AllocateTag() returns (tag: nat)
      modifies this
      ensures tag == old(nextTag) && nextTag == tag + 1
    {
      tag := nextTag;
      nextTag := nextTag + 1;
    }
  }

  class SchedulingQueue {
    var entries: Queue

    constructor ()
      ensures entries == []
    {
      entries := [];
    }

    method PushBack(e: SchedEntry)
      modifies this
      ensures entries == old(entries) + [e]
    {
      entries := entries + [e];
    }

    /** Following a pointer into the list: the entry with this tag. */
    method Locate(tag: nat) returns (i: nat)
      ensures i == Position(entries, tag)
    {
      i := 0;
      while i < |entries| && entries[i].tag != tag
        invariant i <= |entries|
        invariant forall j :: 0 <= j < i ==> entries[j].tag != tag
      {
        i := i + 1;
      }
    }

    method EraseByTag(tag: nat) returns (found: bool)
      modifies this
      ensures entries == Erase(old(entries), tag)
      ensures found == (Position(old(entries), tag) < |old(entries)|)
    {
      var i := Locate(tag);
      found := i < |entries|;
      if found { entries := entries[..i] + entries[i + 1..]; }
    }

    method WakeDependents(tag: nat)
      modifies this
      ensures entries == Wake(old(entries), tag)
    {
      var i := 0;
      while i < |entries|
        invariant i <= |entries| == |old(entries)|
        invariant forall j :: 0 <= j < i ==> entries[j] == Woken(old(entries)[j], tag)
        invariant forall j :: i <= j < |entries| ==> entries[j] == old(entries)[j]
      {
        var e := entries[i];
        if e.src1.tag == tag { e := e.(src1 := e.src1.(ready := true)); }
        if e.src2.tag == tag { e := e.(src2 := e.src2.(ready := true)); }
        entries := entries[i := e];
        i := i + 1;
      }
    }

    method MarkBusy(i: nat)
      requires i < |entries|
      modifies this
      ensures entries == Fired(old(entries), i)
    {
      entries := entries[i := entries[i].(busy := true)];
    }
  }

  // ----- what the stages rely on -----

  predicate InProgramOrder(sq: Queue) { forall i, j :: 0 <= i < j < |sq| ==> sq[i].inst.dyn < sq[j].inst.dyn }

  /** What the code takes for granted: indices in range, pointers that point at something. */
  ghost predicate Safe(c: Core) {
    && |c.rat| == 256 && c.rob.count <= |c.rob.entries|
    && InProgramOrder(c.sq)
    && (forall i :: 0 <= i < |c.sq| ==> c.sq[i].slot < |c.rob.entries|)
    && (forall p :: Pointing(c, p).Some? ==> Position(c.sq, Pointing(c, p).value) < |c.sq|)
  }

  /** Q is kept by every move and makes each of them safe. */
  ghost predicate Supports(Q: Property) { Kept(Q) && KeptByClock(Q) && forall c :: Q(c) ==> Safe(c) }

  lemma InvariantSafe(c: Core)
    requires Invariant(c)
    ensures Safe(c)
  {
    InOrderBySequence(c);
    forall i | 0 <= i < |c.sq| ensures c.sq[i].slot < |c.rob.entries| { assert Good(c, c.sq[i]); }
    forall p | Pointing(c, p).Some? ensures Position(c.sq, Pointing(c, p).value) < |c.sq| {
      var e :| e in c.sq && e.tag == Pointing(c, p).value;
    }
  }

  lemma InOrderBySequence(c: Core)
    requires Waiting(c) && Stream(c)
    ensures InProgramOrder(c.sq)
  {
    forall i, j | 0 <= i < j < |c.sq| ensures c.sq[i].inst.dyn < c.sq[j].inst.dyn {
      assert Good(c, c.sq[i]) && Good(c, c.sq[j]);
    }
  }

  // ----- the core -----

  /** OooCore. The trace reader is the sequence of records still unread, and open says how many times in a cycle
      it answers before its sync gate is shut. */
  class Processor {
    const cfg: Config
    var rest: seq<Record>
    var dispq: seq<Inst>
    const sq: SchedulingQueue
    const rob: ReorderBuffer
    const rat: AliasTable
    const alu: array<Pointer>
    const mul: array<MulUnit>
    const lsu: array<LsuUnit>
    const l1: Mshr.AsyncCache
    var eof: bool
    var inMispred: bool
    var dynCount: nat
    ghost var fetched: seq<Inst>
    ghost var retired: seq<Inst>
    ghost var done: seq<nat>
    ghost var inputs: seq<(nat, nat)>

    /** An invariant of every move, such as the one of PipelineInvariant. */
    ghost const keeps: Property

    ghost function View(): Core
      reads this, sq, rob, rob.entries, rat, rat.entries, alu, mul, lsu, l1, l1.file.table
    {
      Core(cfg, rest, dispq, sq.entries, rob.View(), rat.entries[..], rat.nextTag, alu[..], mul[..], lsu[..], l1.View(),
           eof, inMispred, dynCount, fetched, retired, done, inputs)
    }

    ghost function Footprint(): set<object> {
      {this, sq, rob, rob.entries, rat, rat.entries, alu, mul, lsu, l1, l1.file.table}
    }

    ghost predicate Valid()
      reads Footprint()
    {
      Supports(keeps) && keeps(View()) && rob.Valid() && rat.Valid()
    }

    constructor (cfg: Config, program: seq<Record>, robEntries: nat, alus: nat, muls: nat, lsus: nat, mshrs: nat,
                 ghost kept: Property)
      requires Supports(kept) && kept(Start(cfg, program, robEntries, alus, muls, lsus, mshrs))
      ensures Valid() && fresh(Footprint()) && keeps == kept
      ensures View() == Start(cfg, program, robEntries, alus, muls, lsus, mshrs)
    {
      this.cfg := cfg;
      rest, dispq := program, [];
      sq := new SchedulingQueue();
      rob := new ReorderBuffer(robEntries, RobEntry(false, 0, Inst(0, Record(Alu, None, None, None, 0, false, 0))));
      rat := new AliasTable();
      alu := new Pointer[alus](_ => None);
      mul := new MulUnit[muls](_ => MulUnit(None, None, None));
      lsu := new LsuUnit[lsus](_ => Idle);
      l1 := new Mshr.AsyncCache(mshrs);
      eof, inMispred, dynCount := false, false, 0;
      fetched, retired, done, inputs := [], [], [], [];
      keeps := kept;
      new;
      ghost var s := Start(cfg, program, robEntries, alus, muls, lsus, mshrs);
      assert alu[..] == s.alus && mul[..] == s.muls && lsu[..] == s.lsus;
      assert rob.View() == s.rob && rat.entries[..] == s.rat && l1.View() == s.l1;
      assert View() == s;
    }

    // ----- retire -----

    /** stage_state_update: retire from the head while it is ready, up to and including a mispredicted
        branch. Training the predictor and notifying the sync sink are not part of this model. */
    method StageStateUpdate() returns (mispredRetired: bool)
      requires Valid()
      modifies Footprint()
      ensures Valid() && (View(), mispredRetired) == Retire(old(View()))
    {
      while rob.count > 0 && rob.entries[rob.head].ready
        invariant Valid() && Retire(View()) == Retire(old(View()))
        decreases rob.count
      {
        ghost var c := View();
        var mispredict := RetireOne();
        assert keeps(RetireHead(c));
        if mispredict { return true; }
      }
      return false;
    }

    method RetireOne() returns (mispredict: bool)
      requires rob.Valid() && rob.count <= rob.entries.Length && HeadReady(View())
      modifies this`inMispred, this`retired, rob, rat.entries
      ensures rob.Valid() && View() == RetireHead(old(View())) &&
        mispredict == old(rob.entries[rob.head]).inst.Mispredict()
    {
      var head := rob.entries[rob.head];
      mispredict := head.inst.Mispredict();
      if mispredict {
        rat.FlushToReady();
        inMispred := false;
      }
      rob.RetireHead();
      retired := retired + [head.inst];
    }

    // ----- execute -----

    /** The pointer named tag points at an entry, and that at a slot. */
    ghost predicate Writable(tag: nat)
      reads sq
    {
      && rat.Valid() && Position(sq.entries, tag) < |sq.entries|
      && sq.entries[Position(sq.entries, tag)].slot < rob.entries.Length
    }

    /** Writeback of the entry a unit points at: alias table, reorder buffer, dependents, queue. */
    method WriteBack(tag: nat)
      requires Writable(tag)
      modifies this`done, this`inputs, sq, rob.entries, rat.entries
      ensures View() == Writeback(old(View()), tag)
    {
      var i := sq.Locate(tag);
      var e := sq.entries[i];
      rat.Complete(e.inst.rec.dest, tag);
      rob.MarkReady(e.slot);
      sq.WakeDependents(tag);
      var found := sq.EraseByTag(tag);
      done := done + [tag];
      inputs := inputs + [(e.src1.tag, e.src2.tag)];
    }

    method ExecAluUnits()
      requires Valid()
      modifies Footprint()
      ensures Valid() && View() == ExecAlus(old(View()), 0)
    {
      ghost var target := ExecAlus(View(), 0);
      for u := 0 to alu.Length
        invariant Valid() && ExecAlus(View(), u) == target
      {
        ExecAlusStep(View(), u, target);
        if alu[u].Some? {
          StepAlu(u);
        }
      }
    }

    method FinishAlu(u: nat)
      requires u < alu.Length && alu[u].Some? && Writable(alu[u].value)
      modifies this`done, this`inputs, sq, rob.entries, rat.entries, alu
      ensures View() == AluDone(old(View()), u)
    {
      WriteBack(alu[u].value);
      alu[u] := None;
    }

    method StepAlu(u: nat)
      requires Valid() && u < alu.Length && alu[u].Some?
      modifies Footprint()
      ensures Valid() && View() == AluDone(old(View()), u)
    {
      assert Pointing(View(), InAlu(u)) == alu[u];
      FinishAlu(u);
      assert keeps(AluDone(old(View()), u));
    }

    method ExecMulUnits()
      requires Valid()
      modifies Footprint()
      ensures Valid() && View() == ExecMuls(old(View()), 0)
    {
      ghost var target := ExecMuls(View(), 0);
      for u := 0 to mul.Length
        invariant Valid() && ExecMuls(View(), u) == target
      {
        ExecMulsStep(View(), u, target);
        if mul[u].third.Some? {
          StepMul(u);
        }
      }
    }

    method FinishMul(u: nat)
      requires u < mul.Length && mul[u].third.Some? && Writable(mul[u].third.value)
      modifies this`done, this`inputs, sq, rob.entries, rat.entries, mul
      ensures View() == MulDone(old(View()), u)
    {
      WriteBack(mul[u].third.value);
      mul[u] := mul[u].(third := None);
    }

    method StepMul(u: nat)
      requires Valid() && u < mul.Length && mul[u].third.Some?
      modifies Footprint()
      ensures Valid() && View() == MulDone(old(View()), u)
    {
      assert Pointing(View(), InMul(u, 2)) == mul[u].third;
      FinishMul(u);
      assert keeps(MulDone(old(View()), u));
    }

    method ShiftMulUnits()
      modifies mul
      ensures View() == Shift(old(View()))
    {
      for u := 0 to mul.Length
        invariant forall v :: 0 <= v < u ==> mul[v] == ShiftUnit(old(mul[v]))
        invariant forall v :: u <= v < mul.Length ==> mul[v] == old(mul[v])
      {
        mul[u] := mul[u].(third := mul[u].second);
        mul[u] := mul[u].(second := mul[u].first);
        mul[u] := mul[u].(first := None);
      }
      assert mul[..] == ShiftAll(old(mul[..]));
    }

    method ExecLsuUnits()
      requires Valid()
      modifies Footprint()
      ensures Valid() && View() == ExecLsus(old(View()), 0)
    {
      ghost var target := ExecLsus(View(), 0);
      for u := 0 to lsu.Length
        invariant Valid() && ExecLsus(View(), u) == target
      {
        ExecLsusStep(View(), u, target);
        PollLsu(u);
      }
    }

    /** A load/store unit whose request is ready finishes. */
    method PollLsu(u: nat)
      requires Valid() && u < lsu.Length
      modifies Footprint()
      ensures Valid() && View() == if LsuReady(old(View()), u) then LsuDone(old(View()), u) else old(View())
    {
      if lsu[u].Serving? {
        var ticket := l1.PeekAt(lsu[u].id);
        if ticket.Some? && ticket.value.ready { StepLsu(u); }
      }
    }

    method FinishLsu(u: nat)
      requires u < lsu.Length && lsu[u].Serving? && Writable(lsu[u].tag)
      modifies this`done, this`inputs, sq, rob.entries, rat.entries, lsu, l1.file.table
      ensures View() == LsuDone(old(View()), u)
    {
      WriteBack(lsu[u].tag);
      l1.Complete(lsu[u].id);
      lsu[u] := Idle;
    }

    method StepLsu(u: nat)
      requires Valid() && u < lsu.Length && LsuReady(View(), u)
      modifies Footprint()
      ensures Valid() && View() == LsuDone(old(View()), u)
    {
      assert Pointing(View(), InLsu(u)) == Some(lsu[u].tag);
      FinishLsu(u);
      assert keeps(LsuDone(old(View()), u));
    }

    method StageExec()
      requires Valid()
      modifies Footprint()
      ensures Valid() && View() == Exec(old(View()))
    {
      ghost var c := View();
      ExecAluUnits();
      ExecMulUnits();
      assert Drained(mul[..]) by { MulStage(keeps, ExecAlus(c, 0), 0); }
      ShiftMulUnits();
      assert keeps(Shift(ExecMuls(ExecAlus(c, 0), 0)));
      ExecLsuUnits();
    }

    // ----- schedule -----

    /** The oldest entry that has its operands, is not in a unit and satisfies want; the queue's length
        when there is none. */
    method PickOldest(want: Opcode -> bool) returns (k: nat)
      requires InProgramOrder(sq.entries)
      ensures k <= |sq.entries|
      ensures k < |sq.entries| ==> Ready(sq.entries[k]) && want(sq.entries[k].inst.rec.op)
      ensures forall j :: 0 <= j < k ==> !(Ready(sq.entries[j]) && want(sq.entries[j].inst.rec.op))
    {
      var n := |sq.entries|;
      k := n;
      for i := 0 to n
        invariant k == n || k < i
        invariant k < n ==> Ready(sq.entries[k]) && want(sq.entries[k].inst.rec.op)
        invariant forall j :: 0 <= j < i && j < k ==> !(Ready(sq.entries[j]) && want(sq.entries[j].inst.rec.op))
      {
        var e := sq.entries[i];
        if Ready(e) && want(e.inst.rec.op) && (k == n || e.inst.dyn < sq.entries[k].inst.dyn) { k := i; }
      }
    }

    /** The disambiguation walk. */
    method Overtakes(i: nat) returns (ambiguous: bool)
      requires i < |sq.entries|
      ensures ambiguous == Ambiguous(sq.entries, sq.entries[i])
      ensures sq.entries[i].inst.rec.op.Memory() ==> ambiguous == !T.MayAccess(sq.entries, sq.entries[i])
    {
      var e := sq.entries[i];
      if e.inst.rec.op.Memory() { T.WalkMeans(sq.entries, e); }
      for j := 0 to |sq.entries|
        invariant forall l :: 0 <= l < j ==>
          !(sq.entries[l].inst.dyn < e.inst.dyn && Blocks(sq.entries[l].inst.rec.op, e.inst.rec.op))
      {
        var other := sq.entries[j];
        if j != i && other.inst.dyn < e.inst.dyn && Blocks(other.inst.rec.op, e.inst.rec.op) {
          assert other in sq.entries;
          return true;
        }
      }
      return false;
    }

    method PickMemory() returns (k: nat)
      requires InProgramOrder(sq.entries)
      ensures k == PickLsu(sq.entries)
    {
      var n := |sq.entries|;
      k := n;
      for i := 0 to n
        invariant k == n || k < i
        invariant k < n ==> LsuWants(sq.entries, sq.entries[k])
        invariant forall j :: 0 <= j < i && j < k ==> !LsuWants(sq.entries, sq.entries[j])
      {
        var e := sq.entries[i];
        if Ready(e) && e.inst.rec.op.Memory() {
          var ambiguous := Overtakes(i);
          if !ambiguous && (k == n || e.inst.dyn < sq.entries[k].inst.dyn) { k := i; }
        }
      }
    }

    method CountFreeAlus() returns (n: nat)
      ensures n == FreeAlus(alu[..])
    {
      n := 0;
      for i := 0 to alu.Length
        invariant n == FreeAlus(alu[..i])
      {
        assert alu[..i + 1][..i] == alu[..i];
        if alu[i].None? { n := n + 1; }
      }
      assert alu[..alu.Length] == alu[..];
    }

    method CountFreeMuls() returns (n: nat)
      ensures n == FreeMuls(mul[..])
    {
      n := 0;
      for i := 0 to mul.Length
        invariant n == FreeMuls(mul[..i])
      {
        assert mul[..i + 1][..i] == mul[..i];
        if mul[i].first.None? { n := n + 1; }
      }
      assert mul[..mul.Length] == mul[..];
    }

    method CountFreeLsus() returns (n: nat)
      ensures n == FreeLsus(lsu[..])
    {
      n := 0;
      for i := 0 to lsu.Length
        invariant n == FreeLsus(lsu[..i])
      {
        assert lsu[..i + 1][..i] == lsu[..i];
        if lsu[i].Idle? { n := n + 1; }
      }
      assert lsu[..lsu.Length] == lsu[..];
    }

    method IdleAluUnit() returns (u: nat)
      ensures u == IdleAlu(alu[..])
    {
      u := 0;
      while u < alu.Length && alu[u].Some?
        invariant u <= alu.Length && forall v :: 0 <= v < u ==> alu[v].Some?
      {
        u := u + 1;
      }
    }

    method IdleMulUnit() returns (u: nat)
      ensures u == IdleMul(mul[..])
    {
      u := 0;
      while u < mul.Length && mul[u].first.Some?
        invariant u <= mul.Length && forall v :: 0 <= v < u ==> mul[v].first.Some?
      {
        u := u + 1;
      }
    }

    method IdleLsuUnit() returns (u: nat)
      ensures u == IdleLsu(lsu[..])
    {
      u := 0;
      while u < lsu.Length && lsu[u].Serving?
        invariant u <= lsu.Length && forall v :: 0 <= v < u ==> lsu[v].Serving?
      {
        u := u + 1;
      }
    }

    method FillAlu(k: nat, u: nat)
      requires Valid() && k < |sq.entries| && AluWants(sq.entries[k]) && u < alu.Length && alu[u].None?
      modifies Footprint()
      ensures Valid() && View() == FireAlu(old(View()), k, u)
    {
      alu[u] := Some(sq.entries[k].tag);
      sq.MarkBusy(k);
      assert View() == FireAlu(old(View()), k, u) && keeps(FireAlu(old(View()), k, u));
    }

    method FillMul(k: nat, u: nat)
      requires Valid() && k < |sq.entries| && MulWants(sq.entries[k]) && u < mul.Length && mul[u].first.None?
      modifies Footprint()
      ensures Valid() && View() == FireMul(old(View()), k, u)
    {
      mul[u] := mul[u].(first := Some(sq.entries[k].tag));
      sq.MarkBusy(k);
      assert View() == FireMul(old(View()), k, u) && keeps(FireMul(old(View()), k, u));
    }

    method ScheduleAlu() returns (fired: bool)
      requires Valid()
      modifies Footprint()
      ensures Valid()
      ensures var c := old(View()); fired == (PickAlu(c.sq) < |c.sq| && IdleAlu(c.alus) < |c.alus|)
      ensures View() == if fired then FireAlu(old(View()), PickAlu(old(sq.entries)), IdleAlu(old(alu[..])))
        else old(View())
    {
      var k := PickOldest((op: Opcode) => op.Alu? || op.Branch?);
      assert k == PickAlu(sq.entries);
      if k == |sq.entries| { return false; }
      var u := IdleAluUnit();
      if u == alu.Length { return false; }
      FillAlu(k, u);
      return true;
    }

    method ScheduleAlus()
      requires Valid()
      modifies Footprint()
      ensures Valid() && View() == FireAlus(old(View()), FreeAlus(old(View()).alus))
    {
      var n := CountFreeAlus();
      FillAluUnits(n);
    }

    method FillAluUnits(avail: nat)
      requires Valid()
      modifies Footprint()
      ensures Valid() && View() == FireAlus(old(View()), avail)
    {
      ghost var target := FireAlus(View(), avail);
      var n := avail;
      while n > 0
        invariant Valid() && FireAlus(View(), n) == target
      {
        ghost var c := View();
        var fired := ScheduleAlu();
        FireAlusStep(c, n, target);
        if !fired { return; }
        n := n - 1;
      }
    }

    method ScheduleMul() returns (fired: bool)
      requires Valid()
      modifies Footprint()
      ensures Valid()
      ensures var c := old(View()); fired == (PickMul(c.sq) < |c.sq| && IdleMul(c.muls) < |c.muls|)
      ensures View() == if fired then FireMul(old(View()), PickMul(old(sq.entries)), IdleMul(old(mul[..])))
        else old(View())
    {
      var k := PickOldest((op: Opcode) => op.Mul?);
      assert k == PickMul(sq.entries);
      if k == |sq.entries| { return false; }
      var u := IdleMulUnit();
      if u == mul.Length { return false; }
      FillMul(k, u);
      return true;
    }

    method ScheduleMuls()
      requires Valid()
      modifies Footprint()
      ensures Valid() && View() == FireMuls(old(View()), FreeMuls(old(View()).muls))
    {
      var n := CountFreeMuls();
      FillMulUnits(n);
    }

    method FillMulUnits(avail: nat)
      requires Valid()
      modifies Footprint()
      ensures Valid() && View() == FireMuls(old(View()), avail)
    {
      ghost var target := FireMuls(View(), avail);
      var n := avail;
      while n > 0
        invariant Valid() && FireMuls(View(), n) == target
      {
        ghost var c := View();
        var fired := ScheduleMul();
        FireMulsStep(c, n, target);
        if !fired { return; }
        n := n - 1;
      }
    }

    /** Occupies unit u and issues the request; gives the unit back if the cache refuses. */
    method SendToCache(k: nat, u: nat) returns (sent: bool)
      requires k < |sq.entries| && u < lsu.Length && lsu[u].Idle?
      modifies sq, lsu, l1, l1.file.table
      ensures sent == Sent(old(View()), k).1.Some?
      ensures View() == if sent then var (cache, id) := Sent(old(View()), k);
        FireLsu(old(View()), k, u, cache, id.value)
                        else old(View())
    {
      var rec := sq.entries[k].inst.rec;
      lsu[u] := Serving(sq.entries[k].tag, rec.op.Load?, 0);
      var id := l1.IssueRequest(rec.op.Load?, rec.block, rec.latency);
      sent := id.Some?;
      if sent {
        lsu[u] := Serving(sq.entries[k].tag, rec.op.Load?, id.value);
        sq.MarkBusy(k);
        ghost var (cache, some) := Sent(old(View()), k);
        ghost var d := FireLsu(old(View()), k, u, cache, some.value);
        assert l1.View() == d.l1 && lsu[..] == d.lsus && sq.entries == d.sq;
      } else {
        lsu[u] := Idle;
        assert lsu[..] == old(lsu[..]);
      }
    }

    /** One attempt to send the oldest unambiguous load or store to the cache. */
    method ScheduleLsu(stored: bool) returns (fired: bool, store: bool)
      requires Valid()
      modifies Footprint()
      ensures Valid() && fired == CanFireLsu(old(View()), stored)
      ensures fired ==> View() == LsuFired(old(View()))
      ensures fired ==> store == old(View()).sq[PickLsu(old(View()).sq)].inst.rec.op.Store?
      ensures !fired ==> View() == old(View())
    {
      fired, store := false, false;
      var k := PickMemory();
      if k == |sq.entries| { return; }
      store := sq.entries[k].inst.rec.op.Store?;
      if store && stored { return; }
      if !store {
        var full := l1.file.IsFull();
        if full { return; }
      }
      var u := IdleLsuUnit();
      if u == lsu.Length { return; }
      ghost var c := View();
      fired := SendToCache(k, u);
      if fired { assert Issues(c, k, l1.View(), Sent(c, k).1.value) && keeps(LsuFired(c)); }
    }

    method ScheduleLsus()
      requires Valid()
      modifies Footprint()
      ensures Valid() && View() == FireLsus(old(View()), FreeLsus(old(View()).lsus), false)
    {
      ghost var target := FireLsus(View(), FreeLsus(View().lsus), false);
      var n := CountFreeLsus();
      var stored := false;
      while n > 0
        invariant Valid() && FireLsus(View(), n, stored) == target
      {
        FireLsusStep(View(), n, stored, target);
        var fired, store := ScheduleLsu(stored);
        if !fired { break; }
        stored := stored || store;
        n := n - 1;
      }
    }

    method StageSchedule()
      requires Valid()
      modifies Footprint()
      ensures Valid() && View() == Schedule(old(View()))
    {
      ScheduleAlus();
      ScheduleMuls();
      ScheduleLsus();
    }

    // ----- dispatch -----

    method DispatchHead()
      requires rob.Valid() && rat.Valid() && CanDispatch(View())
      modifies this`dispq, rat, rat.entries, rob, rob.entries, sq
      ensures rob.Valid() && View() == DispatchOne(old(View()))
    {
      var inst := dispq[0];
      dispq := dispq[1..];
      var tag := rat.AllocateTag();
      var src1 := rat.Lookup(inst.rec.src1);
      var src2 := rat.Lookup(inst.rec.src2);
      var slot := rob.Allocate(RobEntry(false, tag, inst));
      rat.Claim(inst.rec.dest, tag);
      sq.PushBack(SchedEntry(inst, src1, src2, tag, slot, false));
      ghost var d := DispatchOne(old(View()));
      assert dispq == d.dispq && rat.nextTag == d.nextTag && rat.entries[..] == d.rat;
      assert rob.View() == d.rob && sq.entries == d.sq;
    }

    method StepDispatch()
      requires Valid() && CanDispatch(View())
      modifies Footprint()
      ensures Valid() && View() == DispatchOne(old(View()))
    {
      DispatchHead();
      assert keeps(DispatchOne(old(View())));
    }

    method StageDispatch()
      requires Valid()
      modifies Footprint()
      ensures Valid() && View() == Dispatch(old(View()), cfg.width)
    {
      ghost var target := Dispatch(View(), cfg.width);
      var dispatched := 0;
      while dispq != []
        invariant Valid() && dispatched <= cfg.width
        invariant Dispatch(View(), cfg.width - dispatched) == target
        decreases cfg.width - dispatched
      {
        DispatchStep(View(), cfg.width - dispatched, target);
        if dispatched >= cfg.width { break; }
        if |sq.entries| >= cfg.schedCap { break; }
        if rob.count == rob.entries.Length { break; }
        StepDispatch();
        dispatched := dispatched + 1;
      }
    }

    // ----- fetch -----

    method FetchRecord()
      requires rest != []
      modifies this`rest, this`dynCount, this`dispq, this`fetched, this`inMispred
      ensures View() == FetchOne(old(View()))
    {
      var rec := rest[0];
      rest := rest[1..];
      dynCount := dynCount + 1;
      var inst := Inst(dynCount, rec);
      dispq := dispq + [inst];
      fetched := fetched + [inst];
      if inst.Mispredict() { inMispred := true; }
    }

    method StepFetch()
      requires Valid() && rest != [] && !inMispred
      modifies Footprint()
      ensures Valid() && View() == FetchOne(old(View()))
    {
      FetchRecord();
      assert keeps(FetchOne(old(View())));
    }

    method StageFetch(open: nat)
      requires Valid()
      modifies Footprint()
      ensures Valid() && View() == Fetch(old(View()), open)
    {
      if inMispred || eof { return; }
      ghost var target := FetchUpTo(View(), cfg.width, open);
      var i := 0;
      while i < cfg.width
        invariant Valid() && i <= cfg.width && i <= open && !inMispred
        invariant FetchUpTo(View(), cfg.width - i, open - i) == target
      {
        FetchStep(View(), cfg.width - i, open - i, target);
        if |dispq| >= cfg.dispCap { break; }
        if i == open { break; }
        if rest == [] {
          StepEof();
          return;
        }
        StepFetch();
        if inMispred { return; }
        i := i + 1;
      }
    }

    method StepEof()
      requires Valid() && rest == []
      modifies Footprint()
      ensures Valid() && View() == AtEof(old(View()))
    {
      eof := true;
      assert View() == AtEof(old(View())) && keeps(AtEof(old(View())));
    }

    // ----- a cycle -----

    /** One cycle; false when nothing is left. Statistics and the watchdog are not part of this model. */
    method TickOnce(open: nat) returns (more: bool)
      requires Valid()
      modifies Footprint()
      ensures Valid() && View() == Tick(old(View()), open) && more == !Finished(View())
    {
      RunStages(open);
      ClockCache();
      more := !(eof && dispq == [] && rob.count == 0 && sq.entries == []);
    }

    /** What the cycle does to effort and debt. */
    method TickMeasured(open: nat, ghost effort: Measure, ghost debt: Measure) returns (more: bool)
      requires Valid() && Advances(keeps, effort, debt)
      modifies Footprint()
      ensures Valid() && View() == Tick(old(View()), open) && more == !Finished(View())
      ensures Below(effort(View()), debt(View()), effort(old(View())), debt(old(View())), more && open > 0)
    {
      ghost var c := View();
      more := TickOnce(open);
      StepDown(keeps, effort, debt, c, open, View());
    }

    /** Cycle n of a run from start. */
    method TickCounted(gate: nat -> nat, n: nat, ghost start: Core, ghost effort: Measure, ghost debt: Measure)
        returns (more: bool)
      requires Valid() && Advances(keeps, effort, debt) && After(start, gate, n, View())
      modifies Footprint()
      ensures Valid() && After(start, gate, n + 1, View()) && more == !Finished(View())
      ensures Below(effort(View()), debt(View()), effort(old(View())), debt(old(View())), more && gate(n) > 0)
    {
      more := TickMeasured(gate(n), effort, debt);
      CycleMore(start, gate, n, old(View()), View());
    }

    /** run without a cycle cap: it terminates if no sync gate stays shut for ever. n is the number of cycles
        it took. */
    method RunToEnd(gate: nat -> nat, ghost effort: Measure, ghost debt: Measure) returns (n: nat)
      requires Valid() && Advances(keeps, effort, debt) && Fair(gate)
      modifies Footprint()
      ensures Valid() && Finished(View()) && After(old(View()), gate, n, View())
    {
      var more := true;
      n := 0;
      ghost var start := View();
      ghost var next := NextOpening(gate, 0);
      ghost var e, d := effort(View()), debt(View());
      while more
        invariant Valid() && (more || Finished(View())) && OpensAt(gate, n, next)
        invariant After(start, gate, n, View()) && e == effort(View()) && d == debt(View())
        decreases e, d, if more then 1 else 0, next - n
      {
        more := TickCounted(gate, n, start, effort, debt);
        e, d := effort(View()), debt(View());
        if n == next { next := NextOpening(gate, n + 1); }
        n := n + 1;
      }
    }

    method ClockCache()
      requires Valid()
      modifies Footprint()
      ensures Valid() && View() == TickCache(old(View()))
    {
      l1.TickOnce();
      assert View() == TickCache(old(View())) && keeps(TickCache(old(View())));
    }

    method RunStages(open: nat)
      requires Valid()
      modifies Footprint()
      ensures Valid() && View() == Stages(old(View()), open)
    {
      var mispredRetired := StageStateUpdate();
      if !mispredRetired { RunOn(open); }
    }

    method RunOn(open: nat)
      requires Valid()
      modifies Footprint()
      ensures Valid() && View() == FrontEnd(Schedule(Exec(old(View()))), open)
    {
      StageExec();
      StageSchedule();
      StageDispatch();
      StageFetch(open);
    }
  }

  lemma ExecAlusStep(c: Core, u: nat, target: Core)
    requires u < |c.alus| && ExecAlus(c, u) == target
    ensures ExecAlus(if c.alus[u].Some? then AluDone(c, u) else c, u + 1) == target
  {
  }

  lemma ExecMulsStep(c: Core, u: nat, target: Core)
    requires u < |c.muls| && ExecMuls(c, u) == target
    ensures ExecMuls(if c.muls[u].third.Some? then MulDone(c, u) else c, u + 1) == target
  {
  }

  lemma ExecLsusStep(c: Core, u: nat, target: Core)
    requires u < |c.lsus| && ExecLsus(c, u) == target
    ensures ExecLsus(if LsuReady(c, u) then LsuDone(c, u) else c, u + 1) == target
  {
  }

  lemma DispatchStep(c: Core, n: nat, target: Core)
    requires Dispatch(c, n) == target
    ensures if n == 0 || !CanDispatch(c) then c == target else Dispatch(DispatchOne(c), n - 1) == target
  {
  }

  lemma FetchStep(c: Core, n: nat, open: nat, target: Core)
    requires n > 0 && FetchUpTo(c, n, open) == target
    ensures if |c.dispq| >= c.cfg.dispCap then c == target
            else if open == 0 then c == target
            else if c.rest == [] then AtEof(c) == target
            else if FetchOne(c).stalled then FetchOne(c) == target
            else FetchUpTo(FetchOne(c), n - 1, open - 1) == target
  {
  }

  lemma FireAlusStep(c: Core, n: nat, target: Core)
    requires n > 0 && FireAlus(c, n) == target
    ensures if PickAlu(c.sq) < |c.sq| && IdleAlu(c.alus) < |c.alus|
      then FireAlus(FireAlu(c, PickAlu(c.sq), IdleAlu(c.alus)), n - 1) == target
            else c == target
  {
  }

  lemma FireMulsStep(c: Core, n: nat, target: Core)
    requires n > 0 && FireMuls(c, n) == target
    ensures if PickMul(c.sq) < |c.sq| && IdleMul(c.muls) < |c.muls|
      then FireMuls(FireMul(c, PickMul(c.sq), IdleMul(c.muls)), n - 1) == target
            else c == target
  {
  }

  lemma FireLsusStep(c: Core, n: nat, stored: bool, target: Core)
    requires n > 0 && FireLsus(c, n, stored) == target
    ensures if CanFireLsu(c, stored)
      then FireLsus(LsuFired(c), n - 1, stored || c.sq[PickLsu(c.sq)].inst.rec.op.Store?) == target
            else c == target
  {
  }

  /** (e', w') is not above (e, w), and below it when strict. */
  predicate Below(e': nat, w': nat, e: nat, w: nat, strict: bool) {
    e' < e || (e' == e && (w' < w || (w' == w && !strict)))
  }

  /** What a cycle lowers. */
  lemma StepDown(Q: Property, E: Measure, D: Measure, c: Core, open: nat, d: Core)
    requires Advances(Q, E, D) && Q(c) && d == Tick(c, open)
    ensures Below(E(d), D(d), E(c), D(c), !Finished(d) && open > 0)
  {
    assert Progress(E(c), D(c), E(d), D(d), if Finished(c) then 0 else open);
  }

  /** c is what n cycles make of start. */
  predicate After(start: Core, gate: nat -> nat, n: nat, c: Core) { c == Cycles(start, gate, 0, n) }

  lemma CycleMore(start: Core, gate: nat -> nat, n: nat, c: Core, d: Core)
    requires After(start, gate, n, c) && d == Tick(c, gate(n))
    ensures After(start, gate, n + 1, d)
  {
    OneMore(Tick, start, gate, 0, n);
  }

  lemma NextOpening(gate: nat -> nat, i: nat) returns (j: nat)
    requires Fair(gate)
    ensures OpensAt(gate, i, j)
  {
    assert OpensLater(gate, i);
    j :| OpensAt(gate, i, j);
  }

  lemma FitSafe(c: Core)
    requires Fit(c)
    ensures Safe(c)
  {
    InvariantSafe(c);
  }

  lemma FitSupports()
    ensures Supports(Fit)
  {
    FitKept();
    forall c | Fit(c) ensures Safe(c) { FitSafe(c); }
  }

  /** A core with at least one of everything, made and run on any program, with sync gates that do not stay shut
      for ever: it stops, and has retired the program, each instruction once and in order. */
  method Simulate(cfg: Config, program: seq<Record>, rob: nat, alus: nat, muls: nat, lsus: nat, mshrs: nat,
                  gate: nat -> nat)
      returns (p: Processor, cycles: nat)
    requires Equipped(Start(cfg, program, rob, alus, muls, lsus, mshrs)) && Fair(gate)
    ensures fresh(p.Footprint()) && Finished(p.View())
    ensures After(Start(cfg, program, rob, alus, muls, lsus, mshrs), gate, cycles, p.View())
    ensures |p.retired| == |program| && forall k :: 0 <= k < |program| ==> p.retired[k] == Inst(k + 1, program[k])
  {
    StartFit(cfg, program, rob, alus, muls, lsus, mshrs);
    FitSupports();
    FitAdvances();
    p, cycles := MakeAndRun(cfg, program, rob, alus, muls, lsus, mshrs, gate, Fit, Effort, Debt);
    CyclesRetire(cfg, program, rob, alus, muls, lsus, mshrs, gate, cycles, p.View());
  }

  method MakeAndRun(cfg: Config, program: seq<Record>, rob: nat, alus: nat, muls: nat, lsus: nat, mshrs: nat,
                    gate: nat -> nat, ghost kept: Property, ghost effort: Measure, ghost debt: Measure)
      returns (p: Processor, cycles: nat)
    requires Supports(kept) && Advances(kept, effort, debt) && Fair(gate)
    requires kept(Start(cfg, program, rob, alus, muls, lsus, mshrs))
    ensures fresh(p.Footprint()) && Finished(p.View()) && kept(p.View())
    ensures After(Start(cfg, program, rob, alus, muls, lsus, mshrs), gate, cycles, p.View())
  {
    p := new Processor(cfg, program, rob, alus, muls, lsus, mshrs, kept);
    cycles := p.RunToEnd(gate, effort, debt);
  }

  lemma CyclesRetire(cfg: Config, program: seq<Record>, rob: nat, alus: nat, muls: nat, lsus: nat, mshrs: nat,
                     gate: nat -> nat,
                     n: nat, d: Core)
    requires Fit(d) && Finished(d) && d == Cycles(Start(cfg, program, rob, alus, muls, lsus, mshrs), gate, 0, n)
    ensures |d.retired| == |program| && forall k :: 0 <= k < |program| ==> d.retired[k] == Inst(k + 1, program[k])
  {
    StartInvariant(cfg, program, rob, alus, muls, lsus, mshrs);
    CyclesOf(Start(cfg, program, rob, alus, muls, lsus, mshrs), gate, 0, n, program);
    FinishedRetired(d, program);
  }
}
