/** What is true of the out-of-order core between any two moves. Instructions are numbered from 0
    in fetch order; k is such a number. */
module PipelineInvariant {
  import opened Options
  import opened Pipeline
  import Mshr

  /** Tags are handed out in program order, after the 256 seeds of the alias table. */
  function Tag(k: nat): nat { 257 + k }

  /** The reorder buffer slot of instruction k. */
  function Slot(k: nat, cap: nat): nat { if k == 0 then 0 else Advance(Slot(k - 1, cap), cap) }

  /** The tag of the youngest of the first n instructions that writes r, or r's seed. */
  function WriterTag(log: seq<Inst>, n: nat, r: Reg): nat
    requires n <= |log|
  {
    if n == 0 then r + 1
    else if log[n - 1].rec.dest == Some(r) then Tag(n - 1)
    else WriterTag(log, n - 1, r)
  }

  /** The instruction with this tag has not written back yet. */
  predicate Pending(sq: Queue, tag: nat) { exists e :: e in sq && e.tag == tag }

  function Current(sq: Queue, tag: nat): Operand { Operand(tag, !Pending(sq, tag)) }

  /** What a register read by instruction n must wait for, given the first n instructions. */
  function Renamed(log: seq<Inst>, n: nat, reg: Option<Reg>, sq: Queue): Operand
    requires n <= |log|
  {
    if reg.None? then Operand(0, true) else Current(sq, WriterTag(log, n, reg.value))
  }

  /** Number of the oldest instruction in the reorder buffer, and of the next one to enter it. */
  function Oldest(c: Core): nat { |c.retired| }

  function Next(c: Core): nat { |c.retired| + c.rob.count }

  // ----- the parts of the invariant -----

  /** Every instruction fetched is retired, in the reorder buffer or in the dispatch queue, in order;
      a mispredicted branch that is not retired is the youngest instruction and holds fetch. */
  predicate Stream(c: Core) {
    && Next(c) + |c.dispq| == |c.fetched|
    && c.retired == c.fetched[..Oldest(c)] && c.dispq == c.fetched[Next(c)..]
    && c.dyn == |c.fetched| && (forall k :: 0 <= k < |c.fetched| ==> c.fetched[k].dyn == k + 1)
    && c.nextTag == Tag(Next(c))
    && (forall k :: Oldest(c) <= k < |c.fetched| - 1 ==> !c.fetched[k].Mispredict())
    && (c.stalled <==> Oldest(c) < |c.fetched| && c.fetched[|c.fetched| - 1].Mispredict())
  }

  /** Live slots hold the instructions in order and are ready exactly when written back. */
  predicate Reorder(c: Core) {
    && c.rob.count <= |c.rob.entries| && Next(c) <= |c.fetched|
    && c.rob.head == Slot(Oldest(c), |c.rob.entries|) && c.rob.tail == Slot(Next(c), |c.rob.entries|)
    && forall k {:trigger Filled(c.rob, c.sq, c.fetched, k)} :: Oldest(c) <= k < Next(c) ==>
      Filled(c.rob, c.sq, c.fetched, k)
  }

  /** The slot of instruction k holds it, ready exactly when it has written back. */
  predicate Filled(rob: Rob, sq: Queue, log: seq<Inst>, k: nat)
    requires k < |log|
  {
    && Slot(k, |rob.entries|) < |rob.entries|
    && rob.entries[Slot(k, |rob.entries|)] == RobEntry(!Pending(sq, Tag(k)), Tag(k), log[k])
  }

  predicate Sorted(sq: Queue) { forall i, j :: 0 <= i < j < |sq| ==> sq[i].tag < sq[j].tag }

  /** The entry is instruction k with the sources program order gives it. */
  predicate Named(c: Core, e: SchedEntry, k: nat) {
    && e.tag == Tag(k) && Oldest(c) <= k < Next(c) <= |c.fetched|
    && e.inst == c.fetched[k] && e.slot == Slot(k, |c.rob.entries|)
    && e.src1 == Renamed(c.fetched, k, e.inst.rec.src1, c.sq)
    && e.src2 == Renamed(c.fetched, k, e.inst.rec.src2, c.sq)
  }

  predicate Good(c: Core, e: SchedEntry) { e.tag >= 257 && Named(c, e, e.tag - 257) }

  predicate Waiting(c: Core) {
    && Sorted(c.sq)
    && forall e {:trigger Good(c, e)} :: e in c.sq ==> Good(c, e)
  }

  predicate Aliases(c: Core) {
    && |c.rat| == 256 && Next(c) <= |c.fetched|
    && forall r :: 0 <= r < 256 ==> c.rat[r] == Current(c.sq, WriterTag(c.fetched, Next(c), r))
  }

  /** Entries in a unit had their sources, and memory operations did not overtake. */
  predicate Disciplined(sq: Queue) {
    && (forall e :: e in sq && e.busy ==> e.src1.ready && e.src2.ready)
    && (forall e, f :: e in sq && f in sq && e.tag < f.tag && f.busy ==> !Blocks(e.inst.rec.op, f.inst.rec.op))
  }

  /** Places in the units that can point at an entry. */
  datatype Place = InAlu(u: nat) | InMul(u: nat, stage: nat) | InLsu(u: nat)

  function At(alus: seq<Pointer>, muls: seq<MulUnit>, lsus: seq<LsuUnit>, p: Place): Pointer {
    match p
    case InAlu(u) => if u < |alus| then alus[u] else None
    case InMul(u, stage) =>
      if u >= |muls| then None
      else if stage == 0 then muls[u].first
      else if stage == 1 then muls[u].second
      else if stage == 2 then muls[u].third
      else None
    case InLsu(u) => if u < |lsus| && lsus[u].Serving? then Some(lsus[u].tag) else None
  }

  function Pointing(c: Core, p: Place): Pointer { At(c.alus, c.muls, c.lsus, p) }

  predicate Suits(p: Place, op: Opcode) {
    match p
    case InAlu(_) => op.Alu? || op.Branch?
    case InMul(_, _) => op.Mul?
    case InLsu(_) => op.Memory()
  }

  predicate Executing(sq: Queue, tag: nat, p: Place) {
    exists e :: e in sq && e.tag == tag && e.busy && Suits(p, e.inst.rec.op)
  }

  /** Units and busy entries correspond one to one. */
  ghost predicate Units(c: Core) { Pointers(c) && Claimed(c) }

  ghost predicate Pointers(c: Core) {
    && (forall p :: Pointing(c, p).Some? ==> Executing(c.sq, Pointing(c, p).value, p))
    && (forall p, q :: Pointing(c, p).Some? && Pointing(c, p) == Pointing(c, q) ==> p == q)
  }

  ghost predicate Claimed(c: Core) {
    forall e {:trigger Held(c, e.tag)} :: e in c.sq && e.busy ==> Held(c, e.tag)
  }

  ghost predicate Held(c: Core, tag: nat) { exists p :: Pointing(c, p) == Some(tag) }

  /** Every load and store in a unit has its own outstanding request, and there are no others. */
  ghost predicate Requests(c: Core) {
    && c.l1.Valid()
    && (forall u :: 0 <= u < |c.lsus| && c.lsus[u].Serving? ==> Mshr.Peek(c.l1.table, c.lsus[u].id).Some?)
    && (forall u, v :: 0 <= u < v < |c.lsus| && c.lsus[u].Serving? && c.lsus[v].Serving? ==>
      c.lsus[u].id != c.lsus[v].id)
    && (forall id: nat :: Mshr.Peek(c.l1.table, id).Some? ==>
          exists u :: 0 <= u < |c.lsus| && c.lsus[u].Serving? && c.lsus[u].id == id)
  }

  predicate Earlier(done: seq<nat>, j: nat, tag: nat) { exists i :: 0 <= i < j && i < |done| && done[i] == tag }

  /** The producer of a register that instruction k reads completed among the first j. */
  predicate SourceEarlier(log: seq<Inst>, done: seq<nat>, j: nat, k: nat, reg: Option<Reg>)
    requires k < |log|
  {
    reg.Some? && WriterTag(log, k, reg.value) >= 257 ==> Earlier(done, j, WriterTag(log, k, reg.value))
  }

  predicate MemoryEarlier(log: seq<Inst>, done: seq<nat>, j: nat, k: nat)
    requires k < |log|
  {
    forall i :: 0 <= i < k && Blocks(log[i].rec.op, log[k].rec.op) ==> Earlier(done, j, Tag(i))
  }

  /** The j-th completion was preceded by all it depends on. */
  predicate Legal(log: seq<Inst>, done: seq<nat>, j: nat)
    requires j < |done|
  {
    && 257 <= done[j] < Tag(|log|)
    && (forall i :: 0 <= i < j ==> done[i] != done[j])
    && var k := done[j] - 257;
       && SourceEarlier(log, done, j, k, log[k].rec.src1)
       && SourceEarlier(log, done, j, k, log[k].rec.src2)
       && MemoryEarlier(log, done, j, k)
  }

  predicate Completed(c: Core) {
    && Next(c) <= |c.fetched|
    && (forall j :: 0 <= j < |c.done| ==> Legal(c.fetched, c.done, j) && c.done[j] < Tag(Next(c)))
    && (forall k :: 0 <= k < Next(c) ==> (Tag(k) in c.done <==> !Pending(c.sq, Tag(k))))
  }

  function SourceTag(log: seq<Inst>, n: nat, reg: Option<Reg>): nat
    requires n <= |log|
  {
    if reg.None? then 0 else WriterTag(log, n, reg.value)
  }

  /** Completed instructions took their operands from the writers that program order names. */
  predicate Fed(log: seq<Inst>, done: seq<nat>, inputs: seq<(nat, nat)>) {
    && |inputs| == |done|
    && forall j :: 0 <= j < |done| ==>
         && 257 <= done[j] < Tag(|log|)
         && inputs[j] == (SourceTag(log, done[j] - 257, log[done[j] - 257].rec.src1),
                          SourceTag(log, done[j] - 257, log[done[j] - 257].rec.src2))
  }

  /** The parts of the invariant that do not mention the units or the cache. */
  ghost predicate Body(c: Core) {
    && Stream(c) && Reorder(c) && Waiting(c) && Aliases(c) && Disciplined(c.sq) && Completed(c)
    && Fed(c.fetched, c.done, c.inputs)
  }

  ghost predicate Invariant(c: Core) { Body(c) && Units(c) && Requests(c) }

  /** The fetched instructions and the unread records are the program. */
  predicate Of(c: Core, program: seq<Record>) { Splits(c.fetched, c.rest, program) }

  predicate Splits(fetched: seq<Inst>, rest: seq<Record>, program: seq<Record>) {
    && |fetched| + |rest| == |program|
    && (forall k :: 0 <= k < |fetched| ==> fetched[k].rec == program[k])
    && rest == program[|fetched|..]
  }

  lemma StartInvariant(cfg: Config, program: seq<Record>, rob: nat, alus: nat, muls: nat, lsus: nat, mshrs: nat)
    ensures var c := Start(cfg, program, rob, alus, muls, lsus, mshrs); Invariant(c) && Of(c, program)
  {
    var c := Start(cfg, program, rob, alus, muls, lsus, mshrs);
    assert forall p :: Pointing(c, p).None?;
  }
}
