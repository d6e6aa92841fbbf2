/** The order in which the core completes instructions, with the source tags it gave them, computes what
    program order computes. The simulator carries no data; here every instruction gets an arbitrary
    meaning f, and f is evaluated once in program order and once in the core's order. */
module PipelineMeaning {
  import opened Options
  import opened Pipeline
  import opened PipelineInvariant
  import opened PipelineProof
  import opened PipelineSafety

  /** f(record, first source, second source, memory word) is the value an instruction produces. */
  type Meaning = (Record, int, int, int) -> int

  type Memory = map<nat, int>

  function Word(mem: Memory, block: nat): int { if block in mem then mem[block] else 0 }

  function Produce(f: Meaning, rec: Record, a: int, b: int, mem: Memory): int {
    f(rec, a, b, if rec.op.Memory() then Word(mem, rec.block) else 0)
  }

  function Store(rec: Record, v: int, mem: Memory): Memory {
    if rec.op.Store? then mem[rec.block := v] else mem
  }

  // ----- program order -----

  /** Architectural registers, memory and the results so far. */
  datatype Machine = Machine(regs: seq<int>, mem: Memory, results: seq<int>)

  function RegOf(regs: seq<int>, reg: Option<Reg>): int {
    if reg.None? || reg.value >= |regs| then 0 else regs[reg.value]
  }

  function Execute(f: Meaning, m: Machine, rec: Record): (r: Machine)
    ensures |r.regs| == |m.regs|
  {
    var v := Produce(f, rec, RegOf(m.regs, rec.src1), RegOf(m.regs, rec.src2), m.mem);
    Machine(if rec.dest.Some? && rec.dest.value < |m.regs| then m.regs[rec.dest.value := v] else m.regs,
            Store(rec, v, m.mem), m.results + [v])
  }

  /** The first n instructions, one after the other. */
  function InOrder(f: Meaning, m: Machine, log: seq<Inst>, n: nat): (r: Machine)
    requires n <= |log|
    ensures |r.regs| == |m.regs| && |r.results| == |m.results| + n
  {
    if n == 0 then m else Execute(f, InOrder(f, m, log, n - 1), log[n - 1].rec)
  }

  // ----- the core's order -----

  /** Values by tag, and memory. */
  datatype Shadow = Shadow(vals: map<nat, int>, mem: Memory)

  /** Tag 0 is no operand, 1 to 256 are the initial registers. */
  function ValueOf(s: Shadow, regs: seq<int>, tag: nat): int {
    if 1 <= tag <= |regs| then regs[tag - 1]
    else if tag in s.vals then s.vals[tag] else 0
  }

  function Complete(f: Meaning, regs: seq<int>, s: Shadow, tag: nat, rec: Record, input: (nat, nat)): Shadow {
    var v := Produce(f, rec, ValueOf(s, regs, input.0), ValueOf(s, regs, input.1), s.mem);
    Shadow(s.vals[tag := v], Store(rec, v, s.mem))
  }

  /** The first n completions: an instruction reads its operands by the tags its queue entry carried,
      and memory as it is at that moment. */
  function OutOfOrder(f: Meaning, m: Machine, log: seq<Inst>, done: seq<nat>, inputs: seq<(nat, nat)>, n: nat): Shadow
    requires n <= |done| && Fed(log, done, inputs)
  {
    if n == 0 then Shadow(map[], m.mem)
    else Complete(f, m.regs, OutOfOrder(f, m, log, done, inputs, n - 1), done[n - 1], log[done[n - 1] - 257].rec,
      inputs[n - 1])
  }

  // ----- equivalence -----

  predicate Start(m: Machine) { |m.regs| == 256 && m.results == [] }

  /** What program order computes for instruction k. */
  function Result(f: Meaning, m: Machine, log: seq<Inst>, k: nat): int
    requires k < |log| && Start(m)
  {
    InOrder(f, m, log, k + 1).results[k]
  }

  /** A register holds the result of its youngest writer. */
  lemma {:induction false} RegisterIs(f: Meaning, m: Machine, log: seq<Inst>, n: nat, r: Reg)
    requires n <= |log| && Start(m)
    ensures var w := WriterTag(log, n, r);
      InOrder(f, m, log, n).regs[r] == if w < 257 then m.regs[r] else if w - 257 < |log|
        then Result(f, m, log, w - 257) else 0
  {
    WriterWrites(log, n, r);
    if n > 0 && log[n - 1].rec.dest != Some(r) { RegisterIs(f, m, log, n - 1, r); }
  }

  lemma {:induction false} NoStoreBetween(f: Meaning, m: Machine, log: seq<Inst>, a: nat, b: nat)
    requires a <= b <= |log| && forall i :: a <= i < b ==> !log[i].rec.op.Store?
    ensures InOrder(f, m, log, a).mem == InOrder(f, m, log, b).mem
  {
    if a < b { NoStoreBetween(f, m, log, a, b - 1); }
  }

  /** Among the first j completions, the stores are those of the first k instructions. */
  predicate StoresAre(log: seq<Inst>, done: seq<nat>, j: nat, k: nat)
    requires k <= |log|
  {
    forall i :: 0 <= i < |log| && log[i].rec.op.Store? ==> (Earlier(done, j, Tag(i)) <==> i < k)
  }

  predicate AllLegal(log: seq<Inst>, done: seq<nat>) { forall j :: 0 <= j < |done| ==> Legal(log, done, j) }

  /** A younger store completes later. */
  lemma NotYet(log: seq<Inst>, done: seq<nat>, j: nat, i: nat)
    requires AllLegal(log, done) && j < |done| && Legal(log, done, j) && log[done[j] - 257].rec.op.Memory()
    requires done[j] - 257 <= i < |log| && log[i].rec.op.Store?
    ensures !Earlier(done, j, Tag(i))
  {
    forall x | 0 <= x < j ensures done[x] != Tag(i) { assert Legal(log, done, x); }
  }

  /** When a memory operation completes, the completed stores are exactly the older ones. */
  lemma StoresBefore(log: seq<Inst>, done: seq<nat>, j: nat)
    requires AllLegal(log, done) && j < |done| && Legal(log, done, j) && log[done[j] - 257].rec.op.Memory()
    ensures StoresAre(log, done, j, done[j] - 257)
  {
    var k := done[j] - 257;
    forall i | 0 <= i < |log| && log[i].rec.op.Store? ensures Earlier(done, j, Tag(i)) <==> i < k {
      if i >= k { NotYet(log, done, j, i); }
    }
  }

  lemma EarlierStep(done: seq<nat>, j: nat, tag: nat)
    requires j < |done|
    ensures Earlier(done, j + 1, tag) <==> Earlier(done, j, tag) || done[j] == tag
  {
    if Earlier(done, j + 1, tag) && done[j] != tag {
      var x :| 0 <= x < j + 1 && done[x] == tag;
    }
  }

  /** Between the store that completes now and instruction k there is no other store. */
  lemma LastStore(log: seq<Inst>, done: seq<nat>, j: nat, k: nat)
    requires AllLegal(log, done) && j < |done| && Legal(log, done, j) && log[done[j] - 257].rec.op.Store?
    requires k <= |log| && StoresAre(log, done, j + 1, k)
    ensures done[j] - 257 < k && forall i :: done[j] - 257 < i < k ==> !log[i].rec.op.Store?
  {
    var s := done[j] - 257;
    StoresBefore(log, done, j);
    EarlierStep(done, j, Tag(s));
    forall i | s < i < k ensures !log[i].rec.op.Store? {
      EarlierStep(done, j, Tag(i));
    }
  }

  lemma SameStores(log: seq<Inst>, done: seq<nat>, j: nat, k: nat)
    requires j < |done| && Legal(log, done, j) && !log[done[j] - 257].rec.op.Store?
    requires k <= |log| && StoresAre(log, done, j + 1, k)
    ensures StoresAre(log, done, j, k)
  {
    forall i | 0 <= i < |log| && log[i].rec.op.Store? ensures Earlier(done, j, Tag(i)) <==> i < k {
      EarlierStep(done, j, Tag(i));
    }
  }

  predicate ValuesAgree(f: Meaning, m: Machine, log: seq<Inst>, done: seq<nat>, s: Shadow, j: nat)
    requires Start(m) && j <= |done|
  {
    forall i :: 0 <= i < j ==>
      257 <= done[i] < Tag(|log|) && done[i] in s.vals && s.vals[done[i]] == Result(f, m, log, done[i] - 257)
  }

  /** An operand taken by its tag is the register in program order. */
  lemma OperandAgrees(f: Meaning, m: Machine, log: seq<Inst>, done: seq<nat>, s: Shadow, j: nat, k: nat,
                      reg: Option<Reg>)
    requires Start(m) && j <= |done| && k < |log| && ValuesAgree(f, m, log, done, s, j) &&
      SourceEarlier(log, done, j, k, reg)
    requires 0 !in s.vals
    ensures ValueOf(s, m.regs, SourceTag(log, k, reg)) == RegOf(InOrder(f, m, log, k).regs, reg)
  {
    if reg.Some? {
      var w := WriterTag(log, k, reg.value);
      RegisterIs(f, m, log, k, reg.value);
      WriterWrites(log, k, reg.value);
      if w >= 257 { var i :| 0 <= i < j && done[i] == w; }
    }
  }

  ghost predicate MemoryAgrees(f: Meaning, m: Machine, log: seq<Inst>, done: seq<nat>, mem: Memory, j: nat) {
    forall k :: 0 <= k <= |log| && StoresAre(log, done, j, k) ==> mem == InOrder(f, m, log, k).mem
  }

  lemma {:induction false} ValuesAndMemory(f: Meaning, m: Machine, log: seq<Inst>, done: seq<nat>,
                                           inputs: seq<(nat, nat)>, j: nat)
    requires Start(m) && AllLegal(log, done) && Fed(log, done, inputs) && j <= |done|
    ensures var s := OutOfOrder(f, m, log, done, inputs, j);
      0 !in s.vals && ValuesAgree(f, m, log, done, s, j) && MemoryAgrees(f, m, log, done, s.mem, j)
    decreases j, 0
  {
    if j == 0 { NothingStored(f, m, log, done); }
    else { OneMoreAgrees(f, m, log, done, inputs, j - 1); }
  }

  lemma OneMoreAgrees(f: Meaning, m: Machine, log: seq<Inst>, done: seq<nat>, inputs: seq<(nat, nat)>, j: nat)
    requires Start(m) && AllLegal(log, done) && Fed(log, done, inputs) && j < |done|
    ensures var s := OutOfOrder(f, m, log, done, inputs, j + 1);
      0 !in s.vals && ValuesAgree(f, m, log, done, s, j + 1) && MemoryAgrees(f, m, log, done, s.mem, j + 1)
    decreases j, 1
  {
    ValuesAndMemory(f, m, log, done, inputs, j);
    CompletionAgrees(f, m, log, done, inputs, j);
  }

  lemma NothingStored(f: Meaning, m: Machine, log: seq<Inst>, done: seq<nat>)
    ensures MemoryAgrees(f, m, log, done, m.mem, 0)
  {
    forall k | 0 <= k <= |log| && StoresAre(log, done, 0, k) ensures m.mem == InOrder(f, m, log, k).mem {
      NoStoreBetween(f, m, log, 0, k);
    }
  }

  /** One more completion produces the program-order result. */
  lemma CompletionValue(f: Meaning, m: Machine, log: seq<Inst>, done: seq<nat>, inputs: seq<(nat, nat)>, j: nat)
    requires Start(m) && AllLegal(log, done) && Fed(log, done, inputs) && j < |done|
    requires var s := OutOfOrder(f, m, log, done, inputs, j);
      0 !in s.vals && ValuesAgree(f, m, log, done, s, j) && MemoryAgrees(f, m, log, done, s.mem, j)
    ensures 257 <= done[j] < Tag(|log|)
    ensures var s, rec := OutOfOrder(f, m, log, done, inputs, j), log[done[j] - 257].rec;
      Produce(f, rec, ValueOf(s, m.regs, inputs[j].0), ValueOf(s, m.regs, inputs[j].1), s.mem) ==
        Result(f, m, log, done[j] - 257)
  {
    assert Legal(log, done, j);
    var k, s := done[j] - 257, OutOfOrder(f, m, log, done, inputs, j);
    OperandAgrees(f, m, log, done, s, j, k, log[k].rec.src1);
    OperandAgrees(f, m, log, done, s, j, k, log[k].rec.src2);
    if log[k].rec.op.Memory() { StoresBefore(log, done, j); }
  }

  lemma CompletionAgrees(f: Meaning, m: Machine, log: seq<Inst>, done: seq<nat>, inputs: seq<(nat, nat)>, j: nat)
    requires Start(m) && AllLegal(log, done) && Fed(log, done, inputs) && j < |done|
    requires var s := OutOfOrder(f, m, log, done, inputs, j);
      0 !in s.vals && ValuesAgree(f, m, log, done, s, j) && MemoryAgrees(f, m, log, done, s.mem, j)
    ensures var s := OutOfOrder(f, m, log, done, inputs, j + 1);
      0 !in s.vals && ValuesAgree(f, m, log, done, s, j + 1) && MemoryAgrees(f, m, log, done, s.mem, j + 1)
  {
    var s, t := OutOfOrder(f, m, log, done, inputs, j), OutOfOrder(f, m, log, done, inputs, j + 1);
    CompletionValue(f, m, log, done, inputs, j);
    CompletionValues(f, m, log, done, s, t, j);
    CompletionMemories(f, m, log, done, s.mem, t.mem, j);
  }

  lemma CompletionValues(f: Meaning, m: Machine, log: seq<Inst>, done: seq<nat>, s: Shadow, t: Shadow, j: nat)
    requires Start(m) && j < |done| && 257 <= done[j] < Tag(|log|)
    requires ValuesAgree(f, m, log, done, s, j) && t.vals == s.vals[done[j] := Result(f, m, log, done[j] - 257)]
    ensures ValuesAgree(f, m, log, done, t, j + 1)
  {
  }

  lemma CompletionMemories(f: Meaning, m: Machine, log: seq<Inst>, done: seq<nat>, mem: Memory, mem': Memory, j: nat)
    requires Start(m) && AllLegal(log, done) && j < |done| && 257 <= done[j] < Tag(|log|)
    requires MemoryAgrees(f, m, log, done, mem, j)
    requires mem' == Store(log[done[j] - 257].rec, Result(f, m, log, done[j] - 257), mem)
    ensures MemoryAgrees(f, m, log, done, mem', j + 1)
  {
    assert Legal(log, done, j);
    forall k | 0 <= k <= |log| && StoresAre(log, done, j + 1, k) ensures mem' == InOrder(f, m, log, k).mem {
      CompletionMemory(f, m, log, done, mem, Result(f, m, log, done[j] - 257), j, k);
    }
  }

  lemma CompletionMemory(f: Meaning, m: Machine, log: seq<Inst>, done: seq<nat>, mem: Memory, v: int, j: nat, k: nat)
    requires Start(m) && AllLegal(log, done) && j < |done| && Legal(log, done, j) &&
      v == Result(f, m, log, done[j] - 257)
    requires MemoryAgrees(f, m, log, done, mem, j)
    requires k <= |log| && StoresAre(log, done, j + 1, k)
    ensures Store(log[done[j] - 257].rec, v, mem) == InOrder(f, m, log, k).mem
  {
    var s := done[j] - 257;
    if log[s].rec.op.Store? {
      StoresBefore(log, done, j);
      LastStore(log, done, j, k);
      NoStoreBetween(f, m, log, s + 1, k);
    } else {
      SameStores(log, done, j, k);
    }
  }

  /** Whatever the instructions mean: every value the core has computed, in any reachable state, is the
      one program order computes. */
  lemma SameResults(c: Core, program: seq<Record>, f: Meaning, m: Machine, j: nat)
    requires Reachable(c, program) && Start(m) && j < |c.done|
    ensures Fed(c.fetched, c.done, c.inputs) && 257 <= c.done[j] < Tag(|c.fetched|)
    ensures var s := OutOfOrder(f, m, c.fetched, c.done, c.inputs, |c.done|);
      c.done[j] in s.vals && s.vals[c.done[j]] == Result(f, m, c.fetched, c.done[j] - 257)
  {
    ReachableInvariant(c, program);
    ValuesAndMemory(f, m, c.fetched, c.done, c.inputs, |c.done|);
  }

  lemma AllStoresDone(c: Core)
    requires Completed(c) && c.sq == [] && Next(c) == |c.fetched|
    ensures StoresAre(c.fetched, c.done, |c.done|, |c.fetched|)
  {
    forall i | 0 <= i < |c.fetched| ensures Earlier(c.done, |c.done|, Tag(i)) {
      assert Tag(i) in c.done;
      var x :| 0 <= x < |c.done| && c.done[x] == Tag(i);
    }
  }

  /** When nothing is in flight, memory and the registers the alias table names are those of program order. */
  lemma SameMachine(c: Core, program: seq<Record>, f: Meaning, m: Machine, r: Reg)
    requires Reachable(c, program) && Start(m) && c.sq == [] && c.dispq == []
    ensures Fed(c.fetched, c.done, c.inputs) && |c.rat| == 256
    ensures var s, n := OutOfOrder(f, m, c.fetched, c.done, c.inputs, |c.done|), InOrder(f, m, c.fetched, |c.fetched|);
      s.mem == n.mem && ValueOf(s, m.regs, c.rat[r].tag) == n.regs[r]
  {
    ReachableInvariant(c, program);
    ValuesAndMemory(f, m, c.fetched, c.done, c.inputs, |c.done|);
    AllStoresDone(c);
    RegistersAgree(c, f, m, r);
  }

  lemma RegistersAgree(c: Core, f: Meaning, m: Machine, r: Reg)
    requires Completed(c) && Aliases(c) && c.sq == [] && Next(c) == |c.fetched| && Start(m)
    requires Fed(c.fetched, c.done, c.inputs)
    requires ValuesAgree(f, m, c.fetched, c.done, OutOfOrder(f, m, c.fetched, c.done, c.inputs, |c.done|), |c.done|)
    ensures ValueOf(OutOfOrder(f, m, c.fetched, c.done, c.inputs, |c.done|), m.regs, c.rat[r].tag) ==
            InOrder(f, m, c.fetched, |c.fetched|).regs[r]
  {
    var w := WriterTag(c.fetched, |c.fetched|, r);
    RegisterIs(f, m, c.fetched, |c.fetched|, r);
    WriterWrites(c.fetched, |c.fetched|, r);
    if w >= 257 {
      assert Tag(w - 257) in c.done;
      var j :| 0 <= j < |c.done| && c.done[j] == w;
    }
  }
}
