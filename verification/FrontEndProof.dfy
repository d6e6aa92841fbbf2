/** Dispatch, fetch and the cache clock keep the core's invariant, and so does a whole cycle. */
module FrontEndProof {
  import opened Options
  import opened Pipeline
  import opened PipelineInvariant
  import opened PipelineProof
  import Mshr

  // ----- dispatch -----

  function Entry(c: Core): SchedEntry
    requires CanDispatch(c)
  {
    var inst := c.dispq[0];
    SchedEntry(inst, Read(c.rat, inst.rec.src1), Read(c.rat, inst.rec.src2), c.nextTag, c.rob.tail, false)
  }

  /** The queue gained an entry with a tag of its own. */
  ghost predicate Grown(sq: Queue, e: SchedEntry, s: Queue) {
    && (forall u: nat :: Pending(s, u) <==> Pending(sq, u) || u == e.tag)
    && (forall f :: f in s ==> f in sq || f == e)
  }

  lemma AppendGrown(sq: Queue, e: SchedEntry)
    ensures Grown(sq, e, sq + [e])
  {
    forall u: nat ensures Pending(sq + [e], u) <==> Pending(sq, u) || u == e.tag {
      AppendPending(sq, e, u);
    }
  }

  lemma AppendPending(sq: Queue, e: SchedEntry, u: nat)
    ensures Pending(sq + [e], u) <==> Pending(sq, u) || u == e.tag
  {
    assert e in sq + [e];
    if Pending(sq, u) {
      var f :| f in sq && f.tag == u;
      assert f in sq + [e];
    }
  }

  lemma NextNotPending(c: Core, k: nat)
    requires Waiting(c) && k >= Next(c)
    ensures !Pending(c.sq, Tag(k))
  {
    forall e | e in c.sq ensures e.tag != Tag(k) { assert Good(c, e); }
  }

  lemma OldWriter(log: seq<Inst>, n: nat, m: nat, reg: Option<Reg>, sq: Queue, e: SchedEntry, s: Queue)
    requires n <= m && n <= |log| && Grown(sq, e, s) && e.tag == Tag(m)
    ensures Renamed(log, n, reg, s) == Renamed(log, n, reg, sq)
  {
    if reg.Some? { WriterWrites(log, n, reg.value); }
  }

  lemma DispatchStream(c: Core)
    requires Stream(c) && CanDispatch(c)
    ensures c.dispq[0] == c.fetched[Next(c)] && Stream(DispatchOne(c))
  {
  }

  lemma DispatchSlot(c: Core, s: Queue, k: nat)
    requires Reorder(c) && c.rob.count < |c.rob.entries| && Next(c) < |c.fetched|
    requires CanDispatch(c) && c.dispq[0] == c.fetched[Next(c)] && c.nextTag == Tag(Next(c))
    requires Grown(c.sq, Entry(c), s) && Oldest(c) <= k <= Next(c)
    ensures Filled(DispatchOne(c).rob, s, c.fetched, k)
  {
    if k < Next(c) {
      assert Filled(c.rob, c.sq, c.fetched, k);
      SlotsDiffer(k, Next(c), |c.rob.entries|);
    }
  }

  lemma DispatchReorder(c: Core)
    requires Stream(c) && Reorder(c) && CanDispatch(c)
    ensures Reorder(DispatchOne(c))
  {
    var d := DispatchOne(c);
    AppendGrown(c.sq, Entry(c));
    forall k | Oldest(c) <= k < Next(d)
      ensures Filled(d.rob, d.sq, d.fetched, k)
    {
      DispatchSlot(c, d.sq, k);
    }
  }

  lemma DispatchGood(c: Core, e: SchedEntry, k: nat)
    requires CanDispatch(c) && Named(c, e, k) && c.nextTag == Tag(Next(c)) && Next(c) < |c.fetched|
    requires Grown(c.sq, Entry(c), DispatchOne(c).sq)
    ensures Named(DispatchOne(c), e, k)
  {
    OldWriter(c.fetched, k, Next(c), e.inst.rec.src1, c.sq, Entry(c), DispatchOne(c).sq);
    OldWriter(c.fetched, k, Next(c), e.inst.rec.src2, c.sq, Entry(c), DispatchOne(c).sq);
  }

  /** The alias table names the youngest earlier writer. */
  lemma ReadRenames(c: Core, reg: Option<Reg>)
    requires Aliases(c)
    ensures Read(c.rat, reg) == Renamed(c.fetched, Next(c), reg, c.sq)
  {
  }

  lemma DispatchNew(c: Core)
    requires Stream(c) && Reorder(c) && Aliases(c) && CanDispatch(c)
    requires Grown(c.sq, Entry(c), DispatchOne(c).sq)
    ensures Named(DispatchOne(c), Entry(c), Next(c))
  {
    DispatchStream(c);
    var rec := Entry(c).inst.rec;
    ReadRenames(c, rec.src1);
    ReadRenames(c, rec.src2);
    OldWriter(c.fetched, Next(c), Next(c), rec.src1, c.sq, Entry(c), DispatchOne(c).sq);
    OldWriter(c.fetched, Next(c), Next(c), rec.src2, c.sq, Entry(c), DispatchOne(c).sq);
  }

  lemma DispatchSorted(c: Core)
    requires Stream(c) && Waiting(c) && CanDispatch(c)
    ensures Sorted(DispatchOne(c).sq)
  {
    forall i | 0 <= i < |c.sq| ensures c.sq[i].tag < c.nextTag { assert Good(c, c.sq[i]); }
  }

  lemma DispatchWaiting(c: Core)
    requires Stream(c) && Reorder(c) && Aliases(c) && Waiting(c) && CanDispatch(c)
    ensures Waiting(DispatchOne(c))
  {
    var d := DispatchOne(c);
    DispatchSorted(c);
    AppendGrown(c.sq, Entry(c));
    DispatchNew(c);
    forall e | e in d.sq ensures Good(d, e) { DispatchedGood(c, e); }
  }

  lemma DispatchedGood(c: Core, e: SchedEntry)
    requires CanDispatch(c) && c.nextTag == Tag(Next(c)) && Next(c) < |c.fetched| && e in DispatchOne(c).sq
    requires Grown(c.sq, Entry(c), DispatchOne(c).sq) && Named(DispatchOne(c), Entry(c), Next(c))
    requires forall f {:trigger Good(c, f)} :: f in c.sq ==> Good(c, f)
    ensures Good(DispatchOne(c), e)
  {
    if e in c.sq {
      assert Good(c, e);
      DispatchGood(c, e, e.tag - 257);
    }
  }

  lemma DispatchAliases(c: Core)
    requires Stream(c) && Aliases(c) && CanDispatch(c)
    ensures Aliases(DispatchOne(c))
  {
    var d := DispatchOne(c);
    AppendGrown(c.sq, Entry(c));
    DispatchStream(c);
    forall r | 0 <= r < 256 ensures d.rat[r] == Current(d.sq, WriterTag(d.fetched, Next(d), r)) {
      WriterWrites(c.fetched, Next(c), r);
      assert c.rat[r] == Current(c.sq, WriterTag(c.fetched, Next(c), r));
    }
  }

  lemma DispatchDisciplined(c: Core)
    requires Stream(c) && Waiting(c) && Disciplined(c.sq) && CanDispatch(c)
    ensures Disciplined(DispatchOne(c).sq)
  {
    AppendGrown(c.sq, Entry(c));
    forall e | e in c.sq ensures e.tag < c.nextTag { assert Good(c, e); }
  }

  lemma DispatchCompleted(c: Core)
    requires Stream(c) && Waiting(c) && Completed(c) && CanDispatch(c)
    ensures Completed(DispatchOne(c))
  {
    AppendGrown(c.sq, Entry(c));
    NextNotPending(c, Next(c));
  }

  lemma DispatchUnits(c: Core)
    requires Units(c) && CanDispatch(c)
    ensures Units(DispatchOne(c))
  {
    var d := DispatchOne(c);
    assert forall p :: Pointing(d, p) == Pointing(c, p);
    forall p | Pointing(d, p).Some? ensures Executing(d.sq, Pointing(d, p).value, p) {
      var e :| e in c.sq && e.tag == Pointing(c, p).value && e.busy && Suits(p, e.inst.rec.op);
      assert e in d.sq;
    }
    forall e | e in d.sq && e.busy ensures Held(d, e.tag) {
      assert Held(c, e.tag);
      var p :| Pointing(c, p) == Some(e.tag);
      assert Pointing(d, p) == Some(e.tag);
    }
  }

  lemma DispatchKeeps(c: Core)
    requires Invariant(c) && CanDispatch(c)
    ensures Invariant(DispatchOne(c))
  {
    DispatchStream(c);
    DispatchReorder(c);
    DispatchWaiting(c);
    DispatchAliases(c);
    DispatchDisciplined(c);
    DispatchUnits(c);
    SameRequests(c, DispatchOne(c));
    DispatchCompleted(c);
  }

  // ----- fetch -----

  lemma FetchNamed(c: Core, e: SchedEntry, k: nat)
    requires Named(c, e, k) && c.rest != []
    ensures Named(FetchOne(c), e, k)
  {
    var more := [Inst(c.dyn + 1, c.rest[0])];
    if e.inst.rec.src1.Some? { WriterPrefix(c.fetched, more, k, e.inst.rec.src1.value); }
    if e.inst.rec.src2.Some? { WriterPrefix(c.fetched, more, k, e.inst.rec.src2.value); }
  }

  lemma FetchLegal(log: seq<Inst>, more: seq<Inst>, done: seq<nat>, j: nat)
    requires j < |done| && Legal(log, done, j)
    ensures Legal(log + more, done, j)
  {
    var k := done[j] - 257;
    var rec := log[k].rec;
    assert (log + more)[k] == log[k];
    if rec.src1.Some? { WriterPrefix(log, more, k, rec.src1.value); }
    if rec.src2.Some? { WriterPrefix(log, more, k, rec.src2.value); }
    forall i | 0 <= i < k && Blocks((log + more)[i].rec.op, rec.op) ensures Earlier(done, j, Tag(i)) {
      assert (log + more)[i] == log[i];
    }
  }

  lemma FetchStream(c: Core)
    requires Stream(c) && c.rest != [] && !c.stalled
    ensures Stream(FetchOne(c))
  {
  }

  lemma FetchCompleted(c: Core)
    requires Completed(c) && c.rest != []
    ensures Completed(FetchOne(c))
  {
    var d := FetchOne(c);
    forall j | 0 <= j < |d.done| ensures Legal(d.fetched, d.done, j) && d.done[j] < Tag(Next(d)) {
      FetchLegal(c.fetched, [Inst(c.dyn + 1, c.rest[0])], c.done, j);
    }
  }

  lemma FetchAliases(c: Core)
    requires Aliases(c) && c.rest != []
    ensures Aliases(FetchOne(c))
  {
    forall r | 0 <= r < 256 ensures c.rat[r] == Current(c.sq, WriterTag(FetchOne(c).fetched, Next(c), r)) {
      WriterPrefix(c.fetched, [Inst(c.dyn + 1, c.rest[0])], Next(c), r);
    }
  }

  lemma FetchWaiting(c: Core)
    requires Waiting(c) && c.rest != []
    ensures Waiting(FetchOne(c))
  {
    forall e | e in c.sq ensures Good(FetchOne(c), e) {
      assert Good(c, e);
      FetchNamed(c, e, e.tag - 257);
    }
  }

  lemma FetchFed(log: seq<Inst>, more: seq<Inst>, done: seq<nat>, inputs: seq<(nat, nat)>)
    requires Fed(log, done, inputs)
    ensures Fed(log + more, done, inputs)
  {
    forall j | 0 <= j < |done|
      ensures inputs[j] == (SourceTag(log + more, done[j] - 257, (log + more)[done[j] - 257].rec.src1),
                            SourceTag(log + more, done[j] - 257, (log + more)[done[j] - 257].rec.src2))
    {
      var rec := log[done[j] - 257].rec;
      if rec.src1.Some? { WriterPrefix(log, more, done[j] - 257, rec.src1.value); }
      if rec.src2.Some? { WriterPrefix(log, more, done[j] - 257, rec.src2.value); }
    }
  }

  lemma FetchReorder(c: Core)
    requires Reorder(c) && c.rest != []
    ensures Reorder(FetchOne(c))
  {
    var d := FetchOne(c);
    forall k | Oldest(c) <= k < Next(c)
      ensures Filled(d.rob, d.sq, d.fetched, k)
    {
      assert Filled(c.rob, c.sq, c.fetched, k);
    }
  }

  lemma FetchBody(c: Core)
    requires Body(c) && c.rest != [] && !c.stalled
    ensures Body(FetchOne(c))
  {
    FetchStream(c);
    FetchReorder(c);
    FetchWaiting(c);
    FetchAliases(c);
    FetchCompleted(c);
    FetchFed(c.fetched, [Inst(c.dyn + 1, c.rest[0])], c.done, c.inputs);
  }

  lemma FetchKeeps(c: Core)
    requires Invariant(c) && c.rest != [] && !c.stalled
    ensures Invariant(FetchOne(c))
  {
    FetchBody(c);
    SameUnits(c, FetchOne(c));
    SameRequests(c, FetchOne(c));
  }

  lemma EofKeeps(c: Core)
    requires Invariant(c)
    ensures Invariant(c.(eof := true))
  {
    SameUnits(c, c.(eof := true));
    SameRequests(c, c.(eof := true));
    SameBody(c, c.(eof := true));
  }

  // ----- the cache clock -----

  lemma TickCacheKeeps(c: Core)
    requires Invariant(c)
    ensures Invariant(TickCache(c))
  {
    SameBody(c, TickCache(c));
    SameUnits(c, TickCache(c));
    TickRequests(c);
  }

  lemma TickRequests(c: Core)
    requires Requests(c)
    ensures Requests(TickCache(c))
  {
    TickValid(c.l1);
    Mshr.TickMeans(c.l1.table, c.l1.now + 1);
  }

  lemma TickValid(l1: Mshr.Cache)
    requires l1.Valid()
    ensures Mshr.Cache(Mshr.Tick(l1.table, l1.now + 1), l1.now + 1, l1.nextId).Valid()
  {
    var t, t' := l1.table, Mshr.Tick(l1.table, l1.now + 1);
    Mshr.TickMeans(t, l1.now + 1);
    forall i, id: nat | 0 <= i < |t'| && Mshr.Holds(t'[i], id) ensures id < l1.nextId {
      assert Mshr.Holds(t[i], id);
    }
  }
}
