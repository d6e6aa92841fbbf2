/** Every move of the core keeps the invariant. */
module PipelineProof {
  import opened Options
  import opened Pipeline
  import opened PipelineInvariant
  import Mshr

  // ----- slots and tags -----

  lemma {:induction false} SlotAhead(k: nat, i: nat, cap: nat)
    requires Slot(k, cap) < cap && i <= cap
    ensures Slot(k + i, cap) == if Slot(k, cap) + i < cap then Slot(k, cap) + i else Slot(k, cap) + i - cap
  {
    if i > 0 { SlotAhead(k, i - 1, cap); }
  }

  lemma {:induction false} SlotBelow(k: nat, cap: nat)
    requires cap > 0
    ensures Slot(k, cap) < cap
  {
    if k > 0 { SlotBelow(k - 1, cap); }
  }

  /** Fewer than cap instructions apart, two instructions never share a slot, wrapped or not. */
  lemma SlotsDiffer(j: nat, k: nat, cap: nat)
    requires j < k < j + cap
    ensures Slot(j, cap) != Slot(k, cap)
  {
    SlotBelow(j, cap);
    SlotAhead(j, k - j, cap);
  }

  lemma {:induction false} WriterWrites(log: seq<Inst>, n: nat, r: Reg)
    requires n <= |log|
    ensures var w := WriterTag(log, n, r);
      (w >= 257 ==> w < Tag(n) && log[w - 257].rec.dest == Some(r)) && (w < 257 ==> w == r + 1)
  {
    if n > 0 && log[n - 1].rec.dest != Some(r) { WriterWrites(log, n - 1, r); }
  }

  lemma {:induction false} WriterPrefix(log: seq<Inst>, more: seq<Inst>, n: nat, r: Reg)
    requires n <= |log|
    ensures WriterTag(log + more, n, r) == WriterTag(log, n, r)
  {
    if n > 0 { WriterPrefix(log, more, n - 1, r); }
  }

  // ----- the queue after a writeback -----

  function Settled(sq: Queue, tag: nat): Queue { Erase(Wake(sq, tag), tag) }

  /** What the rest of the proof needs to know about s = Settled(sq, tag). */
  ghost predicate Settles(sq: Queue, tag: nat, s: Queue) {
    && Sorted(s)
    && (forall u: nat :: Pending(s, u) <==> Pending(sq, u) && u != tag)
    && (forall f :: f in s ==> Image(sq, tag, f))
  }

  predicate Keeps(sq: Queue, tag: nat, s: Queue) { forall e :: e in sq && e.tag != tag ==> Woken(e, tag) in s }

  predicate Image(sq: Queue, tag: nat, f: SchedEntry) { exists e :: e in sq && e.tag != tag && f == Woken(e, tag) }

  lemma SettledAt(sq: Queue, tag: nat) returns (p: nat)
    requires Sorted(sq) && Pending(sq, tag)
    ensures p < |sq| && sq[p].tag == tag && p == Position(sq, tag)
    ensures |Settled(sq, tag)| == |sq| - 1
    ensures forall i :: 0 <= i < |sq| - 1 ==> Settled(sq, tag)[i] == Woken(sq[if i < p then i else i + 1], tag)
  {
    p := Position(Wake(sq, tag), tag);
    var e :| e in sq && e.tag == tag;
    var i :| 0 <= i < |sq| && sq[i] == e;
    assert Wake(sq, tag)[i].tag == tag;
    var q := Position(sq, tag);
    assert q < |sq|;
    assert Wake(sq, tag)[q].tag == tag && Wake(sq, tag)[p].tag == tag;
    assert sq[p].tag == tag;
  }

  lemma SettledKeeps(sq: Queue, tag: nat, e: SchedEntry)
    requires Sorted(sq) && Pending(sq, tag) && e in sq && e.tag != tag
    ensures Woken(e, tag) in Settled(sq, tag)
  {
    var p := SettledAt(sq, tag);
    var i :| 0 <= i < |sq| && sq[i] == e;
    assert Settled(sq, tag)[if i < p then i else i - 1] == Woken(e, tag);
  }

  lemma SettledFrom(sq: Queue, tag: nat, f: SchedEntry) returns (e: SchedEntry)
    requires Sorted(sq) && Pending(sq, tag) && f in Settled(sq, tag)
    ensures e in sq && e.tag != tag && f == Woken(e, tag)
  {
    var p := SettledAt(sq, tag);
    var i :| 0 <= i < |sq| - 1 && Settled(sq, tag)[i] == f;
    e := sq[if i < p then i else i + 1];
  }

  lemma SettledPending(sq: Queue, tag: nat, u: nat)
    requires Sorted(sq) && Pending(sq, tag)
    ensures Pending(Settled(sq, tag), u) <==> Pending(sq, u) && u != tag
  {
    if Pending(Settled(sq, tag), u) {
      var f :| f in Settled(sq, tag) && f.tag == u;
      var e := SettledFrom(sq, tag, f);
    }
    if Pending(sq, u) && u != tag {
      var e :| e in sq && e.tag == u;
      SettledKeeps(sq, tag, e);
    }
  }

  lemma SettledSorted(sq: Queue, tag: nat)
    requires Sorted(sq) && Pending(sq, tag)
    ensures Sorted(Settled(sq, tag))
  {
    var p := SettledAt(sq, tag);
  }

  /** A writeback removes exactly its entry, and the others hear the tag. */
  lemma SettledSettles(sq: Queue, tag: nat)
    requires Sorted(sq) && Pending(sq, tag)
    ensures Settles(sq, tag, Settled(sq, tag)) && Keeps(sq, tag, Settled(sq, tag))
  {
    SettledSorted(sq, tag);
    forall u: nat ensures Pending(Settled(sq, tag), u) <==> Pending(sq, u) && u != tag { SettledPending(sq, tag, u); }
    forall e | e in sq && e.tag != tag ensures Woken(e, tag) in Settled(sq, tag) { SettledKeeps(sq, tag, e); }
    forall f | f in Settled(sq, tag) ensures Image(sq, tag, f) { var e := SettledFrom(sq, tag, f); }
  }

  // ----- writeback -----

  /** The core after e's writeback left the queue s. */
  function Wrote(c: Core, e: SchedEntry, s: Queue): Core {
    c.(rat := MarkComplete(c.rat, e.inst.rec.dest, e.tag), rob := c.rob.(entries := SetReady(c.rob.entries, e.slot)),
       sq := s, done := c.done + [e.tag], inputs := c.inputs + [(e.src1.tag, e.src2.tag)])
  }

  lemma WritebackEntry(c: Core, tag: nat) returns (e: SchedEntry)
    requires Sorted(c.sq) && Pending(c.sq, tag)
    ensures e in c.sq && e.tag == tag
    ensures Writeback(c, tag) == Wrote(c, e, Settled(c.sq, tag))
  {
    var p := SettledAt(c.sq, tag);
    e := c.sq[p];
  }

  predicate Live(c: Core, e: SchedEntry) { e in c.sq && Good(c, e) }

  lemma WroteSlot(c: Core, tag: nat, s: Queue, k: nat)
    requires Settles(c.sq, tag, s) && c.rob.count <= |c.rob.entries|
    requires Oldest(c) <= k < Next(c) && 257 + Oldest(c) <= tag < 257 + Next(c) && Next(c) <= |c.fetched|
    requires Filled(c.rob, c.sq, c.fetched, k)
    ensures Filled(c.rob.(entries := SetReady(c.rob.entries, Slot(tag - 257, |c.rob.entries|))), s, c.fetched, k)
  {
    if k < tag - 257 { SlotsDiffer(k, tag - 257, |c.rob.entries|); }
    if k > tag - 257 { SlotsDiffer(tag - 257, k, |c.rob.entries|); }
  }

  lemma WroteReorder(c: Core, e: SchedEntry, s: Queue)
    requires Reorder(c) && Live(c, e) && Settles(c.sq, e.tag, s)
    ensures Reorder(Wrote(c, e, s))
  {
    forall k | Oldest(c) <= k < Next(c)
      ensures Filled(Wrote(c, e, s).rob, s, c.fetched, k)
    {
      assert Filled(c.rob, c.sq, c.fetched, k);
      WroteSlot(c, e.tag, s, k);
    }
  }

  lemma WokenNamed(c: Core, d: Core, tag: nat, f: SchedEntry, k: nat)
    requires Settles(c.sq, tag, d.sq) && tag >= 257 && Pending(c.sq, tag)
    requires Named(c, f, k)
    requires d.fetched == c.fetched && d.retired == c.retired && d.rob.count == c.rob.count
    requires |d.rob.entries| == |c.rob.entries|
    ensures Named(d, Woken(f, tag), k)
  {
  }

  lemma WroteNamed(c: Core, e: SchedEntry, d: Core, g: SchedEntry)
    requires Waiting(c) && Live(c, e) && Settles(c.sq, e.tag, d.sq) && g in d.sq
    requires d.fetched == c.fetched && d.retired == c.retired && d.rob.count == c.rob.count
    requires |d.rob.entries| == |c.rob.entries|
    ensures Good(d, g)
  {
    assert Image(c.sq, e.tag, g);
    var f :| f in c.sq && f.tag != e.tag && g == Woken(f, e.tag);
    assert Good(c, f);
    WokenNamed(c, d, e.tag, f, f.tag - 257);
  }

  lemma WroteWaiting(c: Core, e: SchedEntry, s: Queue)
    requires Waiting(c) && Live(c, e) && Settles(c.sq, e.tag, s)
    ensures Waiting(Wrote(c, e, s))
  {
    forall g | g in s ensures Good(Wrote(c, e, s), g) {
      WroteNamed(c, e, Wrote(c, e, s), g);
    }
  }

  lemma WroteAlias(rat: seq<Operand>, sq: Queue, s: Queue, log: seq<Inst>, n: nat, e: SchedEntry, r: Reg)
    requires Settles(sq, e.tag, s) && |rat| == 256 && n <= |log|
    requires 257 <= e.tag < Tag(n) && e.inst == log[e.tag - 257]
    requires rat[r] == Current(sq, WriterTag(log, n, r))
    ensures MarkComplete(rat, e.inst.rec.dest, e.tag)[r] == Current(s, WriterTag(log, n, r))
  {
    WriterWrites(log, n, r);
  }

  lemma WroteAliases(c: Core, e: SchedEntry, s: Queue)
    requires Aliases(c) && Live(c, e) && Settles(c.sq, e.tag, s)
    ensures Aliases(Wrote(c, e, s))
  {
    forall r | 0 <= r < 256
      ensures MarkComplete(c.rat, e.inst.rec.dest, e.tag)[r] == Current(s, WriterTag(c.fetched, Next(c), r))
    {
      WroteAlias(c.rat, c.sq, s, c.fetched, Next(c), e, r);
    }
  }

  lemma WroteDisciplined(sq: Queue, tag: nat, s: Queue)
    requires Disciplined(sq) && Settles(sq, tag, s)
    ensures Disciplined(s)
  {
    forall g | g in s && g.busy ensures g.src1.ready && g.src2.ready {
      assert Image(sq, tag, g);
    }
    forall g, h | g in s && h in s && g.tag < h.tag && h.busy ensures !Blocks(g.inst.rec.op, h.inst.rec.op) {
      assert Image(sq, tag, g) && Image(sq, tag, h);
    }
  }

  lemma SourceDone(c: Core, k: nat, reg: Option<Reg>)
    requires Completed(c) && k < Next(c)
    requires Renamed(c.fetched, k, reg, c.sq).ready
    ensures SourceEarlier(c.fetched, c.done, |c.done|, k, reg)
  {
    if reg.Some? {
      var w := WriterTag(c.fetched, k, reg.value);
      WriterWrites(c.fetched, k, reg.value);
      if w >= 257 {
        assert Tag(w - 257) in c.done;
        var i :| 0 <= i < |c.done| && c.done[i] == w;
      }
    }
  }

  lemma MemoryDone(c: Core, e: SchedEntry)
    requires Waiting(c) && Completed(c) && Disciplined(c.sq) && e in c.sq && e.busy
    ensures 257 <= e.tag < Tag(|c.fetched|)
    ensures MemoryEarlier(c.fetched, c.done, |c.done|, e.tag - 257)
  {
    var k := e.tag - 257;
    assert Good(c, e);
    forall i | 0 <= i < k && Blocks(c.fetched[i].rec.op, c.fetched[k].rec.op)
      ensures Earlier(c.done, |c.done|, Tag(i))
    {
      forall f | f in c.sq ensures f.tag != Tag(i) { assert Good(c, f); }
      assert Tag(i) in c.done;
      var m :| 0 <= m < |c.done| && c.done[m] == Tag(i);
    }
  }

  lemma LegalAppend(log: seq<Inst>, done: seq<nat>, more: seq<nat>, j: nat)
    requires j < |done| && Legal(log, done, j)
    ensures Legal(log, done + more, j)
  {
    forall t | Earlier(done, j, t) ensures Earlier(done + more, j, t) {
      var i :| 0 <= i < j && done[i] == t;
      assert (done + more)[i] == t;
    }
  }

  lemma LegalLast(log: seq<Inst>, done: seq<nat>, tag: nat)
    requires 257 <= tag < Tag(|log|) && tag !in done
    requires var k := tag - 257;
      && SourceEarlier(log, done, |done|, k, log[k].rec.src1) && SourceEarlier(log, done, |done|, k, log[k].rec.src2)
      && MemoryEarlier(log, done, |done|, k)
    ensures Legal(log, done + [tag], |done|)
  {
    forall t | Earlier(done, |done|, t) ensures Earlier(done + [tag], |done|, t) {
      var i :| 0 <= i < |done| && done[i] == t;
      assert (done + [tag])[i] == t;
    }
  }

  lemma WroteLegal(c: Core, e: SchedEntry)
    requires Waiting(c) && Completed(c) && Disciplined(c.sq) && e in c.sq && e.busy
    ensures 257 <= e.tag < Tag(Next(c)) && Legal(c.fetched, c.done + [e.tag], |c.done|)
  {
    var k := e.tag - 257;
    assert Good(c, e);
    SourceDone(c, k, e.inst.rec.src1);
    SourceDone(c, k, e.inst.rec.src2);
    MemoryDone(c, e);
    assert Tag(k) !in c.done;
    LegalLast(c.fetched, c.done, e.tag);
  }

  lemma WroteCompleted(c: Core, e: SchedEntry, s: Queue)
    requires Waiting(c) && Completed(c) && Disciplined(c.sq) && e in c.sq && e.busy && Settles(c.sq, e.tag, s)
    ensures Completed(Wrote(c, e, s))
  {
    var done := c.done + [e.tag];
    WroteLegal(c, e);
    forall j | 0 <= j < |done| ensures Legal(c.fetched, done, j) && done[j] < Tag(Next(c)) {
      if j < |c.done| { LegalAppend(c.fetched, c.done, [e.tag], j); }
    }
  }

  lemma WroteExecuting(c: Core, d: Core, tag: nat, p: Place)
    requires Pointers(c) && Pointing(c, p).Some? && Pointing(c, p).value != tag && Keeps(c.sq, tag, d.sq)
    ensures Executing(d.sq, Pointing(c, p).value, p)
  {
    var e :| e in c.sq && e.tag == Pointing(c, p).value && e.busy && Suits(p, e.inst.rec.op);
    assert Woken(e, tag) in d.sq;
  }

  /** A unit hands its entry back: pointer q is cleared, the others keep theirs. */
  lemma WrotePointers(c: Core, d: Core, q: Place, tag: nat)
    requires Pointers(c) && Pointing(c, q) == Some(tag) && Keeps(c.sq, tag, d.sq)
    requires forall p :: Pointing(d, p) == if p == q then None else Pointing(c, p)
    ensures Pointers(d)
  {
    forall p | Pointing(d, p).Some? ensures Executing(d.sq, Pointing(d, p).value, p) {
      WroteExecuting(c, d, tag, p);
    }
  }

  lemma WroteClaimed(c: Core, d: Core, q: Place, tag: nat)
    requires Claimed(c) && Pointing(c, q) == Some(tag) && Settles(c.sq, tag, d.sq)
    requires forall p :: Pointing(d, p) == if p == q then None else Pointing(c, p)
    ensures Claimed(d)
  {
    forall g | g in d.sq && g.busy ensures Held(d, g.tag) {
      assert Image(c.sq, tag, g);
      var e :| e in c.sq && e.tag != tag && g == Woken(e, tag);
      assert Held(c, e.tag);
      var p :| Pointing(c, p) == Some(e.tag);
      assert Pointing(d, p) == Some(g.tag);
    }
  }

  lemma WroteRequests(c: Core, u: nat)
    requires Requests(c) && u < |c.lsus| && c.lsus[u].Serving?
    ensures Requests(c.(lsus := c.lsus[u := Idle], l1 := c.l1.(table := Mshr.Release(c.l1.table, c.lsus[u].id))))
  {
    var id, t := c.lsus[u].id, Mshr.Release(c.l1.table, c.lsus[u].id);
    Mshr.ReleaseMeans(c.l1.table, id);
    ReleaseValid(c.l1, id);
    var lsus := c.lsus[u := Idle];
    forall x: nat | Mshr.Peek(t, x).Some?
      ensures exists v :: 0 <= v < |lsus| && lsus[v].Serving? && lsus[v].id == x
    {
      assert Mshr.Peek(c.l1.table, x).Some?;
      var v :| 0 <= v < |c.lsus| && c.lsus[v].Serving? && c.lsus[v].id == x;
      assert lsus[v].Serving? && lsus[v].id == x;
    }
  }

  lemma ReleaseValid(l1: Mshr.Cache, id: nat)
    requires l1.Valid()
    ensures l1.(table := Mshr.Release(l1.table, id)).Valid()
  {
    var t := Mshr.Release(l1.table, id);
    Mshr.ReleaseMeans(l1.table, id);
    forall i, x: nat | 0 <= i < |t| && Mshr.Holds(t[i], x) ensures x < l1.nextId {
      Mshr.SlotUnique(t, x, i);
      assert Mshr.Peek(t, x).Some? && Mshr.Peek(l1.table, x).Some?;
    }
  }

  // ----- retire -----

  /** The head of the reorder buffer is the oldest instruction. */
  lemma HeadIsOldest(c: Core)
    requires Stream(c) && Reorder(c) && HeadReady(c)
    ensures Oldest(c) < Next(c) && c.rob.entries[c.rob.head].inst == c.fetched[Oldest(c)]
    ensures !Pending(c.sq, Tag(Oldest(c)))
    ensures c.fetched[Oldest(c)].Mispredict() ==> Next(c) == |c.fetched| == Oldest(c) + 1
  {
    assert Filled(c.rob, c.sq, c.fetched, Oldest(c));
  }

  lemma LonePending(c: Core)
    requires Waiting(c) && Next(c) == Oldest(c) + 1 && c.sq != []
    ensures Pending(c.sq, Tag(Oldest(c)))
  {
    assert c.sq[0] in c.sq && Good(c, c.sq[0]);
  }

  /** When a mispredicted branch retires nothing is in flight, so flushing the alias table changes nothing. */
  lemma FlushIsClean(c: Core)
    requires Stream(c) && Reorder(c) && Waiting(c) && Aliases(c) && HeadReady(c)
    requires c.rob.entries[c.rob.head].inst.Mispredict()
    ensures c.sq == [] && c.dispq == [] && c.rob.count == 1 && Flush(c.rat) == c.rat
  {
    HeadIsOldest(c);
    if c.sq != [] { LonePending(c); }
    assert forall r :: 0 <= r < 256 ==> c.rat[r].ready;
  }

  lemma RetiredReorder(c: Core)
    requires Stream(c) && Reorder(c) && HeadReady(c)
    ensures Reorder(RetireHead(c))
  {
    HeadIsOldest(c);
    var d := RetireHead(c);
    forall k | Oldest(d) <= k < Next(d)
      ensures Filled(d.rob, d.sq, d.fetched, k)
    {
      assert Filled(c.rob, c.sq, c.fetched, k);
    }
  }

  lemma RetiredStream(c: Core)
    requires Stream(c) && Reorder(c) && HeadReady(c)
    ensures Stream(RetireHead(c))
  {
    HeadIsOldest(c);
    assert c.fetched[..Oldest(c) + 1] == c.fetched[..Oldest(c)] + [c.fetched[Oldest(c)]];
  }

  lemma RetiredWaiting(c: Core)
    requires Stream(c) && Reorder(c) && HeadReady(c) && Waiting(c)
    ensures Waiting(RetireHead(c))
  {
    HeadIsOldest(c);
    forall e | e in c.sq ensures Good(RetireHead(c), e) {
      assert Good(c, e);
      assert e.tag != Tag(Oldest(c));
    }
  }

  lemma RetiredAliases(c: Core)
    requires Stream(c) && Reorder(c) && HeadReady(c) && Waiting(c) && Aliases(c)
    ensures Aliases(RetireHead(c))
  {
    if c.rob.entries[c.rob.head].inst.Mispredict() { FlushIsClean(c); }
  }

  lemma RetiredRest(c: Core)
    requires HeadReady(c) && Units(c) && Requests(c) && Completed(c) && Disciplined(c.sq)
    ensures var d := RetireHead(c);
      Units(d) && Requests(d) && Completed(d) && Disciplined(d.sq) && d.fetched == c.fetched
    ensures RetireHead(c).done == c.done && RetireHead(c).inputs == c.inputs
  {
    SameUnits(c, RetireHead(c));
  }

  lemma RetireKeeps(c: Core)
    requires Invariant(c) && HeadReady(c)
    ensures Invariant(RetireHead(c))
  {
    RetiredStream(c);
    RetiredReorder(c);
    RetiredWaiting(c);
    RetiredAliases(c);
    RetiredRest(c);
  }

  lemma SameUnits(c: Core, d: Core)
    requires Units(c) && d.sq == c.sq && forall p :: Pointing(d, p) == Pointing(c, p)
    ensures Units(d)
  {
    forall e | e in d.sq && e.busy ensures Held(d, e.tag) {
      assert Held(c, e.tag);
      var p :| Pointing(c, p) == Some(e.tag);
      assert Pointing(d, p) == Some(e.tag);
    }
  }

  // ----- a unit completes -----

  lemma SameWaiting(c: Core, d: Core)
    requires d == c.(alus := d.alus, muls := d.muls, lsus := d.lsus, l1 := d.l1, eof := d.eof) && Waiting(c)
    ensures Waiting(d)
  {
    forall e | e in d.sq ensures Good(d, e) { assert Good(c, e); }
  }

  lemma SameBody(c: Core, d: Core)
    requires d == c.(alus := d.alus, muls := d.muls, lsus := d.lsus, l1 := d.l1, eof := d.eof) && Body(c)
    ensures Body(d)
  {
    SameWaiting(c, d);
    SameOrder(c, d);
  }

  lemma SameOrder(c: Core, d: Core)
    requires d == c.(alus := d.alus, muls := d.muls, lsus := d.lsus, l1 := d.l1, eof := d.eof)
    requires Stream(c) && Reorder(c) && Aliases(c)
    ensures Stream(d) && Reorder(d) && Aliases(d)
  {
  }

  lemma WroteStream(c: Core, e: SchedEntry, s: Queue)
    requires Stream(c)
    ensures Stream(Wrote(c, e, s))
  {
  }

  lemma WroteBody(c: Core, e: SchedEntry, s: Queue)
    requires Body(c) && e in c.sq && e.busy && Settles(c.sq, e.tag, s)
    ensures Body(Wrote(c, e, s))
  {
    assert Good(c, e);
    WroteStream(c, e, s);
    WroteReorder(c, e, s);
    WroteWaiting(c, e, s);
    WroteAliases(c, e, s);
    WroteDisciplined(c.sq, e.tag, s);
    WroteCompleted(c, e, s);
    WroteFed(c, e);
  }

  lemma WroteFed(c: Core, e: SchedEntry)
    requires Fed(c.fetched, c.done, c.inputs) && Good(c, e)
    ensures Fed(c.fetched, c.done + [e.tag], c.inputs + [(e.src1.tag, e.src2.tag)])
  {
  }

  /** What a unit points at is in the queue and busy. */
  lemma Pointee(c: Core, q: Place, tag: nat) returns (e: SchedEntry)
    requires Sorted(c.sq) && Pointers(c) && Pointing(c, q) == Some(tag)
    ensures e in c.sq && e.busy && e.tag == tag && Suits(q, e.inst.rec.op)
    ensures Writeback(c, tag) == Wrote(c, e, Settled(c.sq, tag))
  {
    e :| e in c.sq && e.tag == tag && e.busy && Suits(q, e.inst.rec.op);
    var f := WritebackEntry(c, tag);
    EntryUnique(c.sq, e, f);
  }

  lemma EntryUnique(sq: Queue, e: SchedEntry, f: SchedEntry)
    requires Sorted(sq) && e in sq && f in sq && e.tag == f.tag
    ensures e == f
  {
  }

  lemma UnitDone(c: Core, d: Core, q: Place, tag: nat)
    requires Body(c) && Units(c) && Pointing(c, q) == Some(tag)
    requires d == Writeback(c, tag).(alus := d.alus, muls := d.muls, lsus := d.lsus, l1 := d.l1)
    requires forall p :: Pointing(d, p) == if p == q then None else Pointing(c, p)
    ensures Body(d) && Units(d)
  {
    var e := Pointee(c, q, tag);
    var s := Settled(c.sq, tag);
    assert Settles(c.sq, tag, s) by { SettledSettles(c.sq, tag); }
    WroteBody(c, e, s);
    SameBody(Wrote(c, e, s), d);
    UnitDoneUnits(c, d, q, tag);
  }

  lemma UnitDoneUnits(c: Core, d: Core, q: Place, tag: nat)
    requires Sorted(c.sq) && Pending(c.sq, tag) && Units(c) && Pointing(c, q) == Some(tag) && d.sq == Settled(c.sq, tag)
    requires forall p :: Pointing(d, p) == if p == q then None else Pointing(c, p)
    ensures Units(d)
  {
    assert Pointers(d) by {
      SettledSettles(c.sq, tag);
      WrotePointers(c, d, q, tag);
    }
    assert Claimed(d) by {
      SettledSettles(c.sq, tag);
      WroteClaimed(c, d, q, tag);
    }
  }

  lemma AluPlaces(c: Core, i: nat, p: Place)
    requires i < |c.alus| && c.alus[i].Some?
    ensures Pointing(AluDone(c, i), p) == if p == InAlu(i) then None else Pointing(c, p)
  {
  }

  lemma MulPlaces(c: Core, i: nat, p: Place)
    requires i < |c.muls| && c.muls[i].third.Some?
    ensures Pointing(MulDone(c, i), p) == if p == InMul(i, 2) then None else Pointing(c, p)
  {
  }

  lemma LsuPlaces(c: Core, i: nat, p: Place)
    requires i < |c.lsus| && c.lsus[i].Serving?
    ensures Pointing(LsuDone(c, i), p) == if p == InLsu(i) then None else Pointing(c, p)
  {
  }

  lemma SameRequests(c: Core, d: Core)
    requires Requests(c) && d.lsus == c.lsus && d.l1 == c.l1
    ensures Requests(d)
  {
  }

  lemma AluDoneKeeps(c: Core, i: nat)
    requires Invariant(c) && i < |c.alus| && c.alus[i].Some?
    ensures Invariant(AluDone(c, i))
  {
    forall p { AluPlaces(c, i, p); }
    UnitDone(c, AluDone(c, i), InAlu(i), c.alus[i].value);
    SameRequests(c, AluDone(c, i));
  }

  lemma MulDoneKeeps(c: Core, i: nat)
    requires Invariant(c) && i < |c.muls| && c.muls[i].third.Some?
    ensures Invariant(MulDone(c, i))
  {
    forall p { MulPlaces(c, i, p); }
    UnitDone(c, MulDone(c, i), InMul(i, 2), c.muls[i].third.value);
    SameRequests(c, MulDone(c, i));
  }

  lemma LsuDoneKeeps(c: Core, i: nat)
    requires Invariant(c) && i < |c.lsus| && c.lsus[i].Serving?
    ensures Invariant(LsuDone(c, i))
  {
    forall p { LsuPlaces(c, i, p); }
    UnitDone(c, LsuDone(c, i), InLsu(i), c.lsus[i].tag);
    WroteRequests(c, i);
    var d := c.(lsus := c.lsus[i := Idle], l1 := c.l1.(table := Mshr.Release(c.l1.table, c.lsus[i].id)));
    SameRequests(d, LsuDone(c, i));
  }

  lemma ShiftKeeps(c: Core)
    requires Invariant(c) && forall i :: 0 <= i < |c.muls| ==> c.muls[i].third.None?
    ensures Invariant(Shift(c))
  {
    var d := Shift(c);
    SameBody(c, d);
    forall p ensures Pointing(d, p) == Pointing(c, Before(p)) {}
    forall e | e in d.sq && e.busy ensures Held(d, e.tag) {
      assert Held(c, e.tag);
      var p :| Pointing(c, p) == Some(e.tag);
      assert Pointing(d, if p.InMul? then InMul(p.u, p.stage + 1) else p) == Some(e.tag);
    }
  }

  /** Where the pointer at p was before the multipliers moved on. */
  function Before(p: Place): Place {
    if p.InMul? then (if p.stage == 0 then InMul(p.u, 3) else InMul(p.u, p.stage - 1)) else p
  }

  // ----- an entry enters a unit -----

  lemma FiredPending(sq: Queue, i: nat, u: nat)
    requires i < |sq|
    ensures Pending(Fired(sq, i), u) <==> Pending(sq, u)
  {
    if Pending(sq, u) {
      var e :| e in sq && e.tag == u;
      var j :| 0 <= j < |sq| && sq[j] == e;
      assert Fired(sq, i)[j] in Fired(sq, i);
    }
    if Pending(Fired(sq, i), u) {
      var e :| e in Fired(sq, i) && e.tag == u;
      var j :| 0 <= j < |sq| && Fired(sq, i)[j] == e;
      assert sq[j] in sq;
    }
  }

  lemma FiredFrom(sq: Queue, i: nat, f: SchedEntry)
    requires i < |sq| && f in Fired(sq, i)
    ensures f in sq || f == sq[i].(busy := true)
  {
  }

  lemma FiredKeeps(sq: Queue, i: nat, e: SchedEntry)
    requires i < |sq| && e in sq
    ensures e != sq[i] ==> e in Fired(sq, i)
    ensures sq[i].(busy := true) in Fired(sq, i)
  {
    var j :| 0 <= j < |sq| && sq[j] == e;
    assert Fired(sq, i)[j] in Fired(sq, i);
    assert Fired(sq, i)[i] in Fired(sq, i);
  }

  /** s holds the same instructions as sq, whatever their busy flags. */
  ghost predicate Alike(sq: Queue, s: Queue) { forall u: nat :: Pending(s, u) <==> Pending(sq, u) }

  lemma AlikeStream(c: Core, s: Queue)
    requires Stream(c)
    ensures Stream(c.(sq := s))
  {
  }

  lemma AlikeReorder(c: Core, s: Queue)
    requires Reorder(c) && Alike(c.sq, s)
    ensures Reorder(c.(sq := s))
  {
    forall k | Oldest(c) <= k < Next(c)
      ensures Filled(c.rob, s, c.fetched, k)
    {
      assert Filled(c.rob, c.sq, c.fetched, k);
    }
  }

  lemma AlikeNamed(c: Core, s: Queue, e: SchedEntry, k: nat, b: bool)
    requires Alike(c.sq, s) && Named(c, e, k)
    ensures Named(c.(sq := s), e.(busy := b), k)
  {
  }

  lemma FiredWaiting(c: Core, i: nat)
    requires Waiting(c) && i < |c.sq| && Alike(c.sq, Fired(c.sq, i))
    ensures Waiting(c.(sq := Fired(c.sq, i)))
  {
    forall f | f in Fired(c.sq, i) ensures Good(c.(sq := Fired(c.sq, i)), f) {
      FiredFrom(c.sq, i, f);
      var e := if f in c.sq then f else c.sq[i];
      assert Good(c, e);
      AlikeNamed(c, Fired(c.sq, i), e, e.tag - 257, f.busy);
    }
  }

  lemma FiredDisciplined(sq: Queue, i: nat)
    requires Disciplined(sq) && i < |sq| && Ready(sq[i])
    requires forall e :: e in sq && e.tag < sq[i].tag ==> !Blocks(e.inst.rec.op, sq[i].inst.rec.op)
    ensures Disciplined(Fired(sq, i))
  {
    forall e | e in Fired(sq, i) && e.busy ensures e.src1.ready && e.src2.ready { FiredFrom(sq, i, e); }
    forall e, f | e in Fired(sq, i) && f in Fired(sq, i) && e.tag < f.tag && f.busy
      ensures !Blocks(e.inst.rec.op, f.inst.rec.op)
    {
      FiredFrom(sq, i, e);
      FiredFrom(sq, i, f);
    }
  }

  lemma AlikeAliases(c: Core, s: Queue)
    requires Aliases(c) && Alike(c.sq, s)
    ensures Aliases(c.(sq := s))
  {
  }

  lemma AlikeCompleted(c: Core, s: Queue)
    requires Completed(c) && Alike(c.sq, s)
    ensures Completed(c.(sq := s))
  {
  }

  lemma FiredBody(c: Core, i: nat)
    requires Body(c) && i < |c.sq| && Ready(c.sq[i])
    requires forall e :: e in c.sq && e.tag < c.sq[i].tag ==> !Blocks(e.inst.rec.op, c.sq[i].inst.rec.op)
    ensures Body(c.(sq := Fired(c.sq, i)))
  {
    var s := Fired(c.sq, i);
    forall u: nat ensures Pending(s, u) <==> Pending(c.sq, u) { FiredPending(c.sq, i, u); }
    AlikeStream(c, s);
    AlikeReorder(c, s);
    FiredWaiting(c, i);
    AlikeAliases(c, s);
    FiredDisciplined(c.sq, i);
    AlikeCompleted(c, s);
  }

  lemma FiredPointers(c: Core, d: Core, i: nat, q: Place)
    requires Pointers(c) && Sorted(c.sq) && i < |c.sq| && !c.sq[i].busy && d.sq == Fired(c.sq, i)
    requires Suits(q, c.sq[i].inst.rec.op) && Pointing(c, q).None?
    requires forall p :: Pointing(d, p) == if p == q then Some(c.sq[i].tag) else Pointing(c, p)
    ensures Pointers(d)
  {
    FiredKeeps(c.sq, i, c.sq[i]);
    forall p | Pointing(d, p).Some? ensures Executing(d.sq, Pointing(d, p).value, p) {
      FiredExecuting(c, d, i, q, p);
    }
    forall p | Pointing(c, p).Some? ensures Pointing(c, p).value != c.sq[i].tag {
      var e :| e in c.sq && e.tag == Pointing(c, p).value && e.busy;
    }
  }

  lemma FiredExecuting(c: Core, d: Core, i: nat, q: Place, p: Place)
    requires Pointers(c) && i < |c.sq| && !c.sq[i].busy && d.sq == Fired(c.sq, i)
    requires Suits(q, c.sq[i].inst.rec.op)
    requires Pointing(d, p) == if p == q then Some(c.sq[i].tag) else Pointing(c, p)
    requires Pointing(d, p).Some?
    ensures Executing(d.sq, Pointing(d, p).value, p)
  {
    FiredKeeps(c.sq, i, c.sq[i]);
    if p != q {
      var e :| e in c.sq && e.tag == Pointing(c, p).value && e.busy && Suits(p, e.inst.rec.op);
      FiredKeeps(c.sq, i, e);
    }
  }

  lemma FiredClaimed(c: Core, d: Core, i: nat, q: Place)
    requires Claimed(c) && i < |c.sq| && d.sq == Fired(c.sq, i) && Pointing(c, q).None?
    requires forall p :: Pointing(d, p) == if p == q then Some(c.sq[i].tag) else Pointing(c, p)
    ensures Claimed(d)
  {
    forall f | f in d.sq && f.busy ensures Held(d, f.tag) {
      FiredFrom(c.sq, i, f);
      if f.tag == c.sq[i].tag {
        assert Pointing(d, q) == Some(f.tag);
      } else {
        assert Held(c, f.tag);
        var p :| Pointing(c, p) == Some(f.tag);
        assert Pointing(d, p) == Some(f.tag);
      }
    }
  }

  /** The entry at i goes to the free place q. */
  lemma UnitFired(c: Core, d: Core, i: nat, q: Place)
    requires Body(c) && Units(c) && i < |c.sq| && Ready(c.sq[i])
    requires forall e :: e in c.sq && e.tag < c.sq[i].tag ==> !Blocks(e.inst.rec.op, c.sq[i].inst.rec.op)
    requires Suits(q, c.sq[i].inst.rec.op) && Pointing(c, q).None?
    requires d == c.(sq := Fired(c.sq, i), alus := d.alus, muls := d.muls, lsus := d.lsus, l1 := d.l1)
    requires forall p :: Pointing(d, p) == if p == q then Some(c.sq[i].tag) else Pointing(c, p)
    ensures Body(d) && Units(d)
  {
    FiredBody(c, i);
    SameBody(c.(sq := Fired(c.sq, i)), d);
    FiredPointers(c, d, i, q);
    FiredClaimed(c, d, i, q);
  }

  lemma FireAluPlaces(c: Core, i: nat, u: nat, p: Place)
    requires i < |c.sq| && u < |c.alus|
    ensures Pointing(FireAlu(c, i, u), p) == if p == InAlu(u) then Some(c.sq[i].tag) else Pointing(c, p)
  {
  }

  lemma FireMulPlaces(c: Core, i: nat, u: nat, p: Place)
    requires i < |c.sq| && u < |c.muls|
    ensures Pointing(FireMul(c, i, u), p) == if p == InMul(u, 0) then Some(c.sq[i].tag) else Pointing(c, p)
  {
  }

  lemma FireLsuPlaces(c: Core, i: nat, u: nat, l1: Mshr.Cache, id: nat, p: Place)
    requires i < |c.sq| && u < |c.lsus|
    ensures Pointing(FireLsu(c, i, u, l1, id), p) == if p == InLsu(u) then Some(c.sq[i].tag) else Pointing(c, p)
  {
  }

  lemma FireAluKeeps(c: Core, i: nat, u: nat)
    requires Invariant(c) && i < |c.sq| && AluWants(c.sq[i]) && u < |c.alus| && c.alus[u].None?
    ensures Invariant(FireAlu(c, i, u))
  {
    forall p { FireAluPlaces(c, i, u, p); }
    UnitFired(c, FireAlu(c, i, u), i, InAlu(u));
    SameRequests(c, FireAlu(c, i, u));
  }

  lemma FireMulKeeps(c: Core, i: nat, u: nat)
    requires Invariant(c) && i < |c.sq| && MulWants(c.sq[i]) && u < |c.muls| && c.muls[u].first.None?
    ensures Invariant(FireMul(c, i, u))
  {
    forall p { FireMulPlaces(c, i, u, p); }
    UnitFired(c, FireMul(c, i, u), i, InMul(u, 0));
    SameRequests(c, FireMul(c, i, u));
  }

  /** The disambiguation walk compares sequence numbers, which order the queue like its tags. */
  lemma Unambiguous(c: Core, e: SchedEntry, f: SchedEntry)
    requires Body(c) && e in c.sq && !Ambiguous(c.sq, e) && f in c.sq && f.tag < e.tag
    ensures !Blocks(f.inst.rec.op, e.inst.rec.op)
  {
    assert Good(c, e) && Good(c, f);
  }

  lemma FiredRequests(c: Core, u: nat, tag: nat, rec: Record)
    requires Requests(c) && u < |c.lsus| && c.lsus[u].Idle?
    requires Mshr.Issue(c.l1, rec.op.Load?, rec.block, rec.latency).1.Some?
    ensures var (l1, id) := Mshr.Issue(c.l1, rec.op.Load?, rec.block, rec.latency);
      Requests(c.(lsus := c.lsus[u := Serving(tag, rec.op.Load?, id.value)], l1 := l1))
  {
    var (l1, some) := Mshr.Issue(c.l1, rec.op.Load?, rec.block, rec.latency);
    var id := some.value;
    Mshr.IssueMeans(c.l1, rec.op.Load?, rec.block, rec.latency);
    var lsus := c.lsus[u := Serving(tag, rec.op.Load?, id)];
    forall x: nat | Mshr.Peek(l1.table, x).Some?
      ensures exists v :: 0 <= v < |lsus| && lsus[v].Serving? && lsus[v].id == x
    {
      if x == id {
        assert lsus[u].Serving? && lsus[u].id == x;
      } else {
        assert Mshr.Peek(c.l1.table, x).Some?;
        var v :| 0 <= v < |c.lsus| && c.lsus[v].Serving? && c.lsus[v].id == x;
        assert lsus[v].Serving? && lsus[v].id == x;
      }
    }
  }

  lemma FireLsuKeeps(c: Core, i: nat, u: nat)
    requires Invariant(c) && i < |c.sq| && LsuWants(c.sq, c.sq[i]) && u < |c.lsus| && c.lsus[u].Idle?
    requires var rec := c.sq[i].inst.rec; Mshr.Issue(c.l1, rec.op.Load?, rec.block, rec.latency).1.Some?
    ensures var rec := c.sq[i].inst.rec; var (l1, id) := Mshr.Issue(c.l1, rec.op.Load?, rec.block, rec.latency);
      Invariant(FireLsu(c, i, u, l1, id.value))
  {
    var rec := c.sq[i].inst.rec;
    var (l1, id) := Mshr.Issue(c.l1, rec.op.Load?, rec.block, rec.latency);
    forall p { FireLsuPlaces(c, i, u, l1, id.value, p); }
    forall f | f in c.sq && f.tag < c.sq[i].tag ensures !Blocks(f.inst.rec.op, rec.op) { Unambiguous(c, c.sq[i], f); }
    UnitFired(c, FireLsu(c, i, u, l1, id.value), i, InLsu(u));
    FiredRequests(c, u, c.sq[i].tag, rec);
    SameRequests(c.(lsus := c.lsus[u := Serving(c.sq[i].tag, rec.op.Load?, id.value)], l1 := l1),
      FireLsu(c, i, u, l1, id.value));
  }
}
