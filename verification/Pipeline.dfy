/** One out-of-order core, cycle by cycle: reorder buffer, alias table, scheduling queue, functional
    units and the five stages that move instructions through them. */
module Pipeline {
  import opened Options
  import Mshr

  datatype Opcode = Alu | Mul | Load | Store | Branch
  {
    predicate Memory() { Load? || Store? }
  }

  type Reg = r: nat | r < 256

  /** A trace record after classification. The two oracles of the model travel with it: wrong is
      whether the predictor will guess this branch wrongly, latency what its cache access will take. */
  datatype Record = Record(op: Opcode, dest: Option<Reg>, src1: Option<Reg>, src2: Option<Reg>,
                           block: nat, wrong: bool, latency: nat)

  datatype Inst = Inst(dyn: nat, rec: Record)
  {
    predicate Mispredict() { rec.op.Branch? && rec.wrong }
  }

  /** A RatEntry or SrcOperand: the tag of a value and whether it has been produced. */
  datatype Operand = Operand(tag: nat, ready: bool)

  datatype RobEntry = RobEntry(ready: bool, tag: nat, inst: Inst)

  datatype Rob = Rob(entries: seq<RobEntry>, head: nat, tail: nat, count: nat)

  datatype SchedEntry = SchedEntry(inst: Inst, src1: Operand, src2: Operand, tag: nat, slot: nat, busy: bool)

  type Queue = seq<SchedEntry>

  // A unit points at a scheduling queue entry; entries never move, and their tag names them.

  type Pointer = Option<nat>

  datatype MulUnit = MulUnit(first: Pointer, second: Pointer, third: Pointer)

  datatype LsuUnit = Idle | Serving(tag: nat, load: bool, id: nat)

  datatype Config = Config(width: nat, schedCap: nat, dispCap: nat)

  /** fetched, retired, done and inputs record what happened so far: instructions in fetch and retire
      order, tags in the order of their writebacks, and the source tags each of those carried. */
  datatype Core = Core(
    cfg: Config, rest: seq<Record>, dispq: seq<Inst>, sq: Queue, rob: Rob, rat: seq<Operand>, nextTag: nat,
    alus: seq<Pointer>, muls: seq<MulUnit>, lsus: seq<LsuUnit>, l1: Mshr.Cache,
    eof: bool, stalled: bool, dyn: nat,
    fetched: seq<Inst>, retired: seq<Inst>, done: seq<nat>, inputs: seq<(nat, nat)>)

  function Start(cfg: Config, program: seq<Record>, rob: nat, alus: nat, muls: nat, lsus: nat, mshrs: nat): Core {
    var blank := RobEntry(false, 0, Inst(0, Record(Alu, None, None, None, 0, false, 0)));
    Core(cfg, program, [], [], Rob(seq(rob, _ => blank), 0, 0, 0),
         seq(256, i requires 0 <= i < 256 => Operand(i + 1, true)), 257,
         seq(alus, _ => None), seq(muls, _ => MulUnit(None, None, None)), seq(lsus, _ => Idle),
         Mshr.Cache(seq(mshrs, _ => Mshr.Free), 0, 1), false, false, 0, [], [], [], [])
  }

  // ----- reorder buffer -----

  /** Rob steps its indices modulo the capacity; see Wraps in module OooCore. */
  function Advance(i: nat, cap: nat): nat { if i + 1 < cap then i + 1 else 0 }

  function SetReady(entries: seq<RobEntry>, slot: nat): (r: seq<RobEntry>)
    ensures |r| == |entries|
  {
    if slot < |entries| then entries[slot := entries[slot].(ready := true)] else entries
  }

  // ----- alias table -----

  function Read(rat: seq<Operand>, reg: Option<Reg>): Operand {
    if reg.None? || reg.value >= |rat| then Operand(0, true) else rat[reg.value]
  }

  function WriteUse(rat: seq<Operand>, reg: Option<Reg>, tag: nat): (r: seq<Operand>)
    ensures |r| == |rat|
  {
    if reg.None? || reg.value >= |rat| then rat else rat[reg.value := Operand(tag, false)]
  }

  function MarkComplete(rat: seq<Operand>, reg: Option<Reg>, tag: nat): (r: seq<Operand>)
    ensures |r| == |rat|
  {
    if reg.None? || reg.value >= |rat| || rat[reg.value].tag != tag then rat
    else rat[reg.value := Operand(tag, true)]
  }

  function Flush(rat: seq<Operand>): (r: seq<Operand>)
    ensures |r| == |rat|
  {
    seq(|rat|, i requires 0 <= i < |rat| => rat[i].(ready := true))
  }

  // ----- scheduling queue -----

  function Position(sq: Queue, tag: nat): (i: nat)
    ensures i <= |sq|
    ensures i < |sq| ==> sq[i].tag == tag
    ensures forall j :: 0 <= j < i ==> sq[j].tag != tag
  {
    Find(sq, (e: SchedEntry) => e.tag == tag, 0)
  }

  function Hear(src: Operand, tag: nat): Operand { if src.tag == tag then Operand(tag, true) else src }

  function Woken(e: SchedEntry, tag: nat): SchedEntry { e.(src1 := Hear(e.src1, tag), src2 := Hear(e.src2, tag)) }

  function Wake(sq: Queue, tag: nat): (r: Queue)
    ensures |r| == |sq|
  {
    seq(|sq|, i requires 0 <= i < |sq| => Woken(sq[i], tag))
  }

  function Erase(sq: Queue, tag: nat): Queue {
    var i := Position(sq, tag);
    if i < |sq| then sq[..i] + sq[i + 1..] else sq
  }

  // ----- retire -----

  predicate HeadReady(c: Core) {
    c.rob.count > 0 && c.rob.head < |c.rob.entries| && c.rob.entries[c.rob.head].ready
  }

  /** A mispredicted branch flushes the alias table and lets fetch go on. */
  function RetireHead(c: Core): Core
    requires HeadReady(c)
  {
    var inst := c.rob.entries[c.rob.head].inst;
    var d := c.(rob := c.rob.(head := Advance(c.rob.head, |c.rob.entries|), count := c.rob.count - 1),
                retired := c.retired + [inst]);
    if inst.Mispredict() then d.(rat := Flush(c.rat), stalled := false) else d
  }

  /** Also tells whether a mispredicted branch was retired, which ends the cycle. */
  function Retire(c: Core): (Core, bool)
    decreases c.rob.count
  {
    if !HeadReady(c) then (c, false)
    else if c.rob.entries[c.rob.head].inst.Mispredict() then (RetireHead(c), true)
    else Retire(RetireHead(c))
  }

  // ----- execute -----

  /** The writeback of the entry a unit points at. A pointer to an erased entry would be undefined
      behaviour in the program; here it does nothing, and NoDanglingPointer shows there is none. */
  function Writeback(c: Core, tag: nat): Core {
    var i := Position(c.sq, tag);
    if i == |c.sq| then c
    else c.(rat := MarkComplete(c.rat, c.sq[i].inst.rec.dest, tag),
            rob := c.rob.(entries := SetReady(c.rob.entries, c.sq[i].slot)),
            sq := Erase(Wake(c.sq, tag), tag),
            done := c.done + [tag],
            inputs := c.inputs + [(c.sq[i].src1.tag, c.sq[i].src2.tag)])
  }

  function AluDone(c: Core, i: nat): Core
    requires i < |c.alus| && c.alus[i].Some?
  {
    Writeback(c, c.alus[i].value).(alus := c.alus[i := None])
  }

  function ExecAlus(c: Core, i: nat): Core
    requires i <= |c.alus|
    decreases |c.alus| - i
  {
    if i == |c.alus| then c else ExecAlus(if c.alus[i].Some? then AluDone(c, i) else c, i + 1)
  }

  function MulDone(c: Core, i: nat): Core
    requires i < |c.muls| && c.muls[i].third.Some?
  {
    Writeback(c, c.muls[i].third.value).(muls := c.muls[i := c.muls[i].(third := None)])
  }

  function ExecMuls(c: Core, i: nat): Core
    requires i <= |c.muls|
    decreases |c.muls| - i
  {
    if i == |c.muls| then c else ExecMuls(if c.muls[i].third.Some? then MulDone(c, i) else c, i + 1)
  }

  function ShiftUnit(u: MulUnit): MulUnit { MulUnit(None, u.first, u.second) }

  function ShiftAll(muls: seq<MulUnit>): (r: seq<MulUnit>)
    ensures |r| == |muls| && forall i :: 0 <= i < |muls| ==> r[i] == ShiftUnit(muls[i])
  {
    seq(|muls|, i requires 0 <= i < |muls| => ShiftUnit(muls[i]))
  }

  function Shift(c: Core): Core { c.(muls := ShiftAll(c.muls)) }

  predicate LsuReady(c: Core, i: nat)
    requires i < |c.lsus|
  {
    c.lsus[i].Serving? &&
    var t := Mshr.Peek(c.l1.table, c.lsus[i].id);
    t.Some? && t.value.ready
  }

  function LsuDone(c: Core, i: nat): Core
    requires i < |c.lsus| && c.lsus[i].Serving?
  {
    Writeback(c, c.lsus[i].tag).(lsus := c.lsus[i := Idle],
                                 l1 := c.l1.(table := Mshr.Release(c.l1.table, c.lsus[i].id)))
  }

  function ExecLsus(c: Core, i: nat): Core
    requires i <= |c.lsus|
    decreases |c.lsus| - i
  {
    if i == |c.lsus| then c else ExecLsus(if LsuReady(c, i) then LsuDone(c, i) else c, i + 1)
  }

  function Exec(c: Core): Core { ExecLsus(Shift(ExecMuls(ExecAlus(c, 0), 0)), 0) }

  // ----- schedule -----

  predicate Ready(e: SchedEntry) { !e.busy && e.src1.ready && e.src2.ready }

  /** Whether an older operation in the queue keeps a younger one from the cache. */
  predicate Blocks(older: Opcode, younger: Opcode) {
    (younger.Load? && older.Store?) || (younger.Store? && older.Memory())
  }

  predicate Ambiguous(sq: Queue, e: SchedEntry) {
    exists f :: f in sq && f.inst.dyn < e.inst.dyn && Blocks(f.inst.rec.op, e.inst.rec.op)
  }

  function Fired(sq: Queue, i: nat): (r: Queue)
    requires i < |sq|
    ensures |r| == |sq|
  {
    sq[i := sq[i].(busy := true)]
  }

  function FreeAlus(alus: seq<Pointer>): nat { Number(alus, (p: Pointer) => p.None?) }

  function FreeMuls(muls: seq<MulUnit>): nat { Number(muls, (u: MulUnit) => u.first.None?) }

  function FreeLsus(lsus: seq<LsuUnit>): nat { Number(lsus, (u: LsuUnit) => u.Idle?) }

  predicate AluWants(e: SchedEntry) { Ready(e) && (e.inst.rec.op.Alu? || e.inst.rec.op.Branch?) }

  predicate MulWants(e: SchedEntry) { Ready(e) && e.inst.rec.op.Mul? }

  predicate LsuWants(sq: Queue, e: SchedEntry) { Ready(e) && e.inst.rec.op.Memory() && !Ambiguous(sq, e) }

  // The queue is in program order, so the oldest candidate is the first one.

  function PickAlu(sq: Queue): nat { Find(sq, e => AluWants(e), 0) }

  function PickMul(sq: Queue): nat { Find(sq, e => MulWants(e), 0) }

  function PickLsu(sq: Queue): nat { Find(sq, e => LsuWants(sq, e), 0) }

  // The first unit that can take another instruction.

  function IdleAlu(alus: seq<Pointer>): nat { Find(alus, (p: Pointer) => p.None?, 0) }

  function IdleMul(muls: seq<MulUnit>): nat { Find(muls, (u: MulUnit) => u.first.None?, 0) }

  function IdleLsu(lsus: seq<LsuUnit>): nat { Find(lsus, (u: LsuUnit) => u.Idle?, 0) }

  function FireAlu(c: Core, i: nat, u: nat): Core
    requires i < |c.sq| && u < |c.alus|
  {
    c.(sq := Fired(c.sq, i), alus := c.alus[u := Some(c.sq[i].tag)])
  }

  function FireAlus(c: Core, n: nat): Core
    decreases n
  {
    var i, u := PickAlu(c.sq), IdleAlu(c.alus);
    if n == 0 || i == |c.sq| || u == |c.alus| then c else FireAlus(FireAlu(c, i, u), n - 1)
  }

  function FireMul(c: Core, i: nat, u: nat): Core
    requires i < |c.sq| && u < |c.muls|
  {
    c.(sq := Fired(c.sq, i), muls := c.muls[u := c.muls[u].(first := Some(c.sq[i].tag))])
  }

  function FireMuls(c: Core, n: nat): Core
    decreases n
  {
    var i, u := PickMul(c.sq), IdleMul(c.muls);
    if n == 0 || i == |c.sq| || u == |c.muls| then c else FireMuls(FireMul(c, i, u), n - 1)
  }

  function FireLsu(c: Core, i: nat, u: nat, l1: Mshr.Cache, id: nat): Core
    requires i < |c.sq| && u < |c.lsus|
  {
    c.(sq := Fired(c.sq, i), lsus := c.lsus[u := Serving(c.sq[i].tag, c.sq[i].inst.rec.op.Load?, id)], l1 := l1)
  }

  /** What the cache makes of the request of entry k. */
  function Sent(c: Core, k: nat): (Mshr.Cache, Option<nat>)
    requires k < |c.sq|
  {
    var rec := c.sq[k].inst.rec;
    Mshr.Issue(c.l1, rec.op.Load?, rec.block, rec.latency)
  }

  /** At most one store fires in a cycle; a full MSHR or a refused request ends the attempt. */
  predicate CanFireLsu(c: Core, stored: bool) {
    var i, u := PickLsu(c.sq), IdleLsu(c.lsus);
    && i < |c.sq| && u < |c.lsus|
    && !(c.sq[i].inst.rec.op.Store? && stored) && !(c.sq[i].inst.rec.op.Load? && Mshr.Full(c.l1.table))
    && Sent(c, i).1.Some?
  }

  function LsuFired(c: Core): Core
    requires CanFireLsu(c, false) || CanFireLsu(c, true)
  {
    var i, u := PickLsu(c.sq), IdleLsu(c.lsus);
    FireLsu(c, i, u, Sent(c, i).0, Sent(c, i).1.value)
  }

  function FireLsus(c: Core, n: nat, stored: bool): Core
    decreases n
  {
    if n == 0 || !CanFireLsu(c, stored) then c
    else FireLsus(LsuFired(c), n - 1, stored || c.sq[PickLsu(c.sq)].inst.rec.op.Store?)
  }

  function Schedule(c: Core): Core {
    var d := FireAlus(c, FreeAlus(c.alus));
    var e := FireMuls(d, FreeMuls(d.muls));
    FireLsus(e, FreeLsus(e.lsus), false)
  }

  // ----- dispatch -----

  predicate CanDispatch(c: Core) {
    c.dispq != [] && |c.sq| < c.cfg.schedCap && c.rob.count < |c.rob.entries| && c.rob.tail < |c.rob.entries|
  }

  /** Sources are renamed before the destination takes its fresh tag. */
  function DispatchOne(c: Core): Core
    requires CanDispatch(c)
  {
    var inst, tag := c.dispq[0], c.nextTag;
    c.(dispq := c.dispq[1..],
       nextTag := tag + 1,
       rob := Rob(c.rob.entries[c.rob.tail := RobEntry(false, tag, inst)], c.rob.head,
                  Advance(c.rob.tail, |c.rob.entries|), c.rob.count + 1),
       rat := WriteUse(c.rat, inst.rec.dest, tag),
       sq := c.sq + [SchedEntry(inst, Read(c.rat, inst.rec.src1), Read(c.rat, inst.rec.src2), tag, c.rob.tail, false)])
  }

  function Dispatch(c: Core, n: nat): Core
    decreases n
  {
    if n == 0 || !CanDispatch(c) then c else Dispatch(DispatchOne(c), n - 1)
  }

  // ----- fetch -----

  function FetchOne(c: Core): Core
    requires c.rest != []
  {
    var inst := Inst(c.dyn + 1, c.rest[0]);
    c.(rest := c.rest[1..], dyn := c.dyn + 1, dispq := c.dispq + [inst], fetched := c.fetched + [inst],
       stalled := c.stalled || inst.Mispredict())
  }

  /** open is how many times the reader answers, with a record or with the end of the trace, before a sync gate
      holds it back; a gate after the last record holds back the end. */
  function FetchUpTo(c: Core, n: nat, open: nat): Core
    decreases n
  {
    if n == 0 || |c.dispq| >= c.cfg.dispCap then c
    else if open == 0 then c
    else if c.rest == [] then c.(eof := true)
    else
      var d := FetchOne(c);
      if d.stalled then d else FetchUpTo(d, n - 1, open - 1)
  }

  function Fetch(c: Core, open: nat): Core {
    if c.stalled || c.eof then c else FetchUpTo(c, c.cfg.width, open)
  }

  // ----- a cycle -----

  function TickCache(c: Core): Core {
    c.(l1 := Mshr.Cache(Mshr.Tick(c.l1.table, c.l1.now + 1), c.l1.now + 1, c.l1.nextId))
  }

  function FrontEnd(c: Core, open: nat): Core { Fetch(Dispatch(c, c.cfg.width), open) }

  /** Stages run in reverse order; retiring a mispredicted branch skips all the others. */
  function Stages(c: Core, open: nat): Core {
    var (d, mispredict) := Retire(c);
    if mispredict then d else FrontEnd(Schedule(Exec(d)), open)
  }

  function Tick(c: Core, open: nat): Core { TickCache(Stages(c, open)) }

  predicate Finished(c: Core) { c.eof && c.dispq == [] && c.rob.count == 0 && c.sq == [] }

  /** One cycle for each element of opens. */
  function Run(c: Core, opens: seq<nat>): Core
    decreases |opens|
  {
    if opens == [] then c else Run(Tick(c, opens[0]), opens[1..])
  }
}
