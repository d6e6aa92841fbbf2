/** When things happen in the core: what a cycle issues, how long each unit takes, and what the front end lets
    through. */
module PipelineTiming {
  import opened Options
  import opened Pipeline
  import opened PipelineInvariant
  import opened PipelineProof
  import opened PipelineInduction
  import opened PipelineSafety
  import Mshr

  // ----- issue -----

  /** The entry has its operands and is in no unit. */
  predicate Waits(e: SchedEntry) { !e.busy && e.src1.ready && e.src2.ready }

  predicate Simple(e: SchedEntry) { e.inst.rec.op.Alu? || e.inst.rec.op.Branch? }

  predicate Product(e: SchedEntry) { e.inst.rec.op.Mul? }

  /** A load waits for older stores to leave the queue, a store for older loads and stores. */
  predicate MayAccess(sq: Queue, e: SchedEntry) {
    || (e.inst.rec.op.Load? && forall f :: f in sq && f.inst.dyn < e.inst.dyn ==> !f.inst.rec.op.Store?)
    || (e.inst.rec.op.Store? &&
        forall f :: f in sq && f.inst.dyn < e.inst.dyn ==> !f.inst.rec.op.Load? && !f.inst.rec.op.Store?)
  }

  /** The disambiguation walk finds exactly that. */
  lemma WalkMeans(sq: Queue, e: SchedEntry)
    requires e.inst.rec.op.Memory()
    ensures Ambiguous(sq, e) <==> !MayAccess(sq, e)
  {
    if Ambiguous(sq, e) {
      var f :| f in sq && f.inst.dyn < e.inst.dyn && Blocks(f.inst.rec.op, e.inst.rec.op);
    }
  }

  lemma MemoryWants(sq: Queue, e: SchedEntry)
    ensures LsuWants(sq, e) <==> Waits(e) && MayAccess(sq, e)
  {
    if e.inst.rec.op.Memory() { WalkMeans(sq, e); }
  }

  /** The same entries, some of them now in a unit. */
  predicate Stirred(sq: Queue, s: Queue) {
    && |s| == |sq|
    && forall k :: 0 <= k < |sq| ==> s[k] == sq[k].(busy := s[k].busy) && (sq[k].busy ==> s[k].busy)
  }

  predicate Issued(sq: Queue, s: Queue, k: nat) { k < |sq| == |s| && !sq[k].busy && s[k].busy }

  type Class = SchedEntry -> bool

  /** Only entries of the class were issued, the older before the younger. */
  ghost predicate InTurn(sq: Queue, s: Queue, P: Class) {
    && Stirred(sq, s)
    && (forall k: nat :: Issued(sq, s, k) ==> P(sq[k]))
    && (forall i, k :: 0 <= i < k && Issued(sq, s, k) && Waits(sq[i]) && P(sq[i]) ==> s[i].busy)
  }

  lemma NothingIssued(sq: Queue, P: Class)
    ensures InTurn(sq, sq, P)
  {
    forall k | 0 <= k < |sq| ensures sq[k] == sq[k].(busy := sq[k].busy) {}
  }

  /** Issuing the first of the class and then others of it. */
  lemma TurnTaken(sq: Queue, s: Queue, P: Class, i: nat)
    requires i < |sq| && Waits(sq[i]) && P(sq[i]) && forall j :: 0 <= j < i ==> !(Waits(sq[j]) && P(sq[j]))
    requires InTurn(Fired(sq, i), s, P) && forall e, b :: P(e) ==> P(e.(busy := b))
    ensures InTurn(sq, s, P)
  {
    var t := Fired(sq, i);
    forall k | 0 <= k < |sq| ensures s[k] == sq[k].(busy := s[k].busy) && (sq[k].busy ==> s[k].busy) {
      assert s[k] == t[k].(busy := s[k].busy);
    }
    forall k: nat | Issued(sq, s, k) ensures P(sq[k]) {
      if k != i { assert Issued(t, s, k); }
    }
    forall j, k | 0 <= j < k && Issued(sq, s, k) && Waits(sq[j]) && P(sq[j]) ensures s[j].busy {
      if j != i && k != i { assert Issued(t, s, k) && Waits(t[j]); }
    }
  }

  /** What is picked is the first of its class that waits. */
  predicate First(sq: Queue, i: nat, P: Class) {
    && i <= |sq| && (i < |sq| ==> Waits(sq[i]) && P(sq[i]))
    && forall j :: 0 <= j < i ==> !(Waits(sq[j]) && P(sq[j]))
  }

  lemma PicksFirst(sq: Queue)
    ensures First(sq, PickAlu(sq), Simple) && First(sq, PickMul(sq), Product)
  {
  }

  lemma {:induction false} AlusFire(c: Core)
    ensures var d := FireAlus(c, FreeAlus(c.alus));
      && d == c.(sq := d.sq, alus := d.alus) && InTurn(c.sq, d.sq, Simple)
      && ((exists u :: 0 <= u < |d.alus| && d.alus[u].None?) ==>
            forall k :: 0 <= k < |d.sq| ==> !(Waits(d.sq[k]) && Simple(d.sq[k])))
    decreases FreeAlus(c.alus)
  {
    var n, i, u := FreeAlus(c.alus), PickAlu(c.sq), IdleAlu(c.alus);
    PicksFirst(c.sq);
    if n == 0 || i == |c.sq| || u == |c.alus| {
      NothingIssued(c.sq, Simple);
      if n == 0 { NumberNone(c.alus, (p: Pointer) => p.None?); }
    } else {
      AluFired(c, i, u);
      AlusFire(FireAlu(c, i, u));
      TurnTaken(c.sq, FireAlus(FireAlu(c, i, u), n - 1).sq, Simple, i);
    }
  }

  lemma AluFired(c: Core, i: nat, u: nat)
    requires i < |c.sq| && u < |c.alus| && c.alus[u].None?
    ensures FreeAlus(FireAlu(c, i, u).alus) == FreeAlus(c.alus) - 1 && FireAlu(c, i, u).sq == Fired(c.sq, i)
  {
    NumberUpdate(c.alus, (p: Pointer) => p.None?, u, Some(c.sq[i].tag));
  }

  lemma {:induction false} MulsFire(c: Core)
    ensures var d := FireMuls(c, FreeMuls(c.muls));
      && d == c.(sq := d.sq, muls := d.muls) && InTurn(c.sq, d.sq, Product)
      && ((exists u :: 0 <= u < |d.muls| && d.muls[u].first.None?) ==>
            forall k :: 0 <= k < |d.sq| ==> !(Waits(d.sq[k]) && Product(d.sq[k])))
    decreases FreeMuls(c.muls)
  {
    var n, i, u := FreeMuls(c.muls), PickMul(c.sq), IdleMul(c.muls);
    PicksFirst(c.sq);
    if n == 0 || i == |c.sq| || u == |c.muls| {
      NothingIssued(c.sq, Product);
      if n == 0 { NumberNone(c.muls, (m: MulUnit) => m.first.None?); }
    } else {
      MulFired(c, i, u);
      MulsFire(FireMul(c, i, u));
      TurnTaken(c.sq, FireMuls(FireMul(c, i, u), n - 1).sq, Product, i);
    }
  }

  lemma MulFired(c: Core, i: nat, u: nat)
    requires i < |c.sq| && u < |c.muls| && c.muls[u].first.None?
    ensures FreeMuls(FireMul(c, i, u).muls) == FreeMuls(c.muls) - 1 && FireMul(c, i, u).sq == Fired(c.sq, i)
  {
    NumberUpdate(c.muls, (m: MulUnit) => m.first.None?, u, c.muls[u].(first := Some(c.sq[i].tag)));
  }

  predicate SameInsts(sq: Queue, s: Queue) { |s| == |sq| && forall k :: 0 <= k < |sq| ==> s[k].inst == sq[k].inst }

  lemma AccessCarries(sq: Queue, s: Queue, e: SchedEntry)
    requires SameInsts(sq, s) && MayAccess(sq, e)
    ensures MayAccess(s, e)
  {
    forall f | f in s ensures exists g :: g in sq && g.inst == f.inst {
      var k :| 0 <= k < |s| && s[k] == f;
      assert sq[k] in sq;
    }
  }

  lemma StirredAccess(sq: Queue, s: Queue, e: SchedEntry)
    requires Stirred(sq, s)
    ensures MayAccess(s, e) <==> MayAccess(sq, e)
  {
    forall k | 0 <= k < |sq| ensures s[k].inst == sq[k].inst { assert s[k] == sq[k].(busy := s[k].busy); }
    if MayAccess(sq, e) { AccessCarries(sq, s, e); }
    if MayAccess(s, e) { AccessCarries(s, sq, e); }
  }

  function Allowed(sq: Queue): Class { e => MayAccess(sq, e) }

  predicate StoreOut(sq: Queue) { exists e :: e in sq && e.busy && e.inst.rec.op.Store? }

  /** What issuing to the cache needs of a property. */
  ghost predicate Steady(P: Property) {
    && KeptByFireLsu(P)
    && forall c {:trigger P(c)} :: P(c) ==> c.l1.Valid() && (StoreOut(c.sq) ==> PickLsu(c.sq) == |c.sq|)
  }

  lemma InvariantSteady()
    ensures Steady(Invariant)
  {
    InvariantKeptInSchedule();
    forall c | Invariant(c) ensures c.l1.Valid() && (StoreOut(c.sq) ==> PickLsu(c.sq) == |c.sq|) {
      if StoreOut(c.sq) {
        var e :| e in c.sq && e.busy && e.inst.rec.op.Store?;
        StoreBreakNeverNeeded(c, 0, false, e);
      }
    }
  }

  lemma PicksAccess(sq: Queue, s: Queue)
    requires Stirred(sq, s)
    ensures First(s, PickLsu(s), Allowed(sq))
  {
    forall e ensures LsuWants(s, e) <==> Waits(e) && MayAccess(sq, e) {
      MemoryWants(s, e);
      StirredAccess(sq, s, e);
    }
  }

  lemma StirredMore(sq: Queue, s: Queue, i: nat)
    requires Stirred(sq, s) && i < |s|
    ensures Stirred(sq, Fired(s, i))
  {
    forall k | 0 <= k < |sq| ensures Fired(s, i)[k] == sq[k].(busy := Fired(s, i)[k].busy) {
      assert s[k] == sq[k].(busy := s[k].busy);
    }
  }

  /** Why no more goes to the cache: nothing may, no unit is idle, or the registers are full. */
  lemma NoMoreAccess(P: Property, c: Core, n: nat, stored: bool)
    requires Steady(P) && P(c) && n == FreeLsus(c.lsus) && (stored ==> StoreOut(c.sq))
    requires n == 0 || !CanFireLsu(c, stored)
    ensures (exists u :: 0 <= u < |c.lsus| && c.lsus[u].Idle?) && !Mshr.Full(c.l1.table) ==> PickLsu(c.sq) == |c.sq|
  {
    var i := PickLsu(c.sq);
    if n == 0 { NumberNone(c.lsus, (l: LsuUnit) => l.Idle?); }
    else if i < |c.sq| {
      var rec := c.sq[i].inst.rec;
      Mshr.IssueMeans(c.l1, rec.op.Load?, rec.block, rec.latency);
    }
  }

  lemma LsuFires(P: Property, c: Core, stored: bool)
    requires Steady(P) && P(c) && CanFireLsu(c, stored)
    ensures var d, i := LsuFired(c), PickLsu(c.sq);
      && P(d) && FreeLsus(d.lsus) == FreeLsus(c.lsus) - 1 && d.sq == Fired(c.sq, i)
      && d == c.(sq := d.sq, lsus := d.lsus, l1 := d.l1)
      && (c.sq[i].inst.rec.op.Store? ==> StoreOut(d.sq))
  {
    var d, i, u := LsuFired(c), PickLsu(c.sq), IdleLsu(c.lsus);
    assert Issues(c, i, Sent(c, i).0, Sent(c, i).1.value);
    NumberUpdate(c.lsus, (l: LsuUnit) => l.Idle?, u, d.lsus[u]);
    assert d.sq[i] in d.sq;
  }

  /** What has been issued to the cache, and what is left. */
  ghost predicate Accessed(c: Core, d: Core, sq: Queue) {
    && d == c.(sq := d.sq, lsus := d.lsus, l1 := d.l1) && InTurn(c.sq, d.sq, Allowed(sq))
    && ((exists u :: 0 <= u < |d.lsus| && d.lsus[u].Idle?) && !Mshr.Full(d.l1.table) ==>
          forall k :: 0 <= k < |d.sq| ==> !(Waits(d.sq[k]) && MayAccess(sq, d.sq[k])))
  }

  lemma AccessedNone(P: Property, c: Core, sq: Queue, n: nat, stored: bool)
    requires Steady(P) && P(c) && Stirred(sq, c.sq) && (stored ==> StoreOut(c.sq))
    requires n == FreeLsus(c.lsus) && (n == 0 || !CanFireLsu(c, stored))
    ensures Accessed(c, c, sq)
  {
    PicksAccess(sq, c.sq);
    NothingIssued(c.sq, Allowed(sq));
    NoMoreAccess(P, c, n, stored);
  }

  lemma AccessedMore(c: Core, next: Core, d: Core, sq: Queue, i: nat)
    requires First(c.sq, i, Allowed(sq)) && i < |c.sq| && next.sq == Fired(c.sq, i)
    requires next == c.(sq := next.sq, lsus := next.lsus, l1 := next.l1) && Accessed(next, d, sq)
    ensures Accessed(c, d, sq)
  {
    TurnTaken(c.sq, d.sq, Allowed(sq), i);
  }

  lemma {:induction false} LsusFire(P: Property, c: Core, sq: Queue, stored: bool)
    requires Steady(P) && P(c) && Stirred(sq, c.sq) && (stored ==> StoreOut(c.sq))
    ensures Accessed(c, FireLsus(c, FreeLsus(c.lsus), stored), sq)
    decreases FreeLsus(c.lsus)
  {
    var n, i := FreeLsus(c.lsus), PickLsu(c.sq);
    if n == 0 || !CanFireLsu(c, stored) {
      AccessedNone(P, c, sq, n, stored);
    } else {
      var next, more := LsuFired(c), stored || c.sq[i].inst.rec.op.Store?;
      PicksAccess(sq, c.sq);
      LsuFires(P, c, stored);
      StirredMore(sq, c.sq, i);
      LsusFire(P, next, sq, more);
      AccessedMore(c, next, FireLsus(next, n - 1, more), sq, i);
    }
  }

  /** Of a class the oldest that could be issued were. */
  ghost predicate OldestIssued(sq: Queue, s: Queue, P: Class) {
    forall i: nat, k: nat :: Behind(sq, s, P, i, k) ==> s[i].busy
  }

  /** Entry k has been issued, and i of its class, which is older, could have been. */
  predicate Behind(sq: Queue, s: Queue, P: Class, i: nat, k: nat) {
    i < |sq| && Issued(sq, s, k) && P(sq[k]) && Waits(sq[i]) && P(sq[i]) && sq[i].inst.dyn < sq[k].inst.dyn
  }

  ghost predicate ByAge(sq: Queue) { forall i, k :: 0 <= i < k < |sq| ==> sq[i].inst.dyn < sq[k].inst.dyn }

  lemma QueueByAge(c: Core)
    requires Invariant(c)
    ensures ByAge(c.sq)
  {
    forall i, k | 0 <= i < k < |c.sq| ensures c.sq[i].inst.dyn < c.sq[k].inst.dyn {
      assert Good(c, c.sq[i]) && Good(c, c.sq[k]);
    }
  }

  ghost predicate Apart(P: Class, Q: Class) { forall e, b :: P(e) ==> P(e.(busy := b)) && !Q(e.(busy := b)) }

  lemma TurnOldest(sq: Queue, s: Queue, P: Class)
    requires InTurn(sq, s, P) && ByAge(sq)
    ensures OldestIssued(sq, s, P)
  {
    forall i: nat, k: nat | Behind(sq, s, P, i, k) ensures s[i].busy { assert i < k; }
  }

  lemma StirredOn(sq: Queue, a: Queue, s: Queue)
    requires Stirred(sq, a) && Stirred(a, s)
    ensures Stirred(sq, s)
  {
    forall k | 0 <= k < |sq| ensures s[k] == sq[k].(busy := s[k].busy) && (sq[k].busy ==> s[k].busy) {
      assert s[k] == a[k].(busy := s[k].busy) && a[k] == sq[k].(busy := a[k].busy);
    }
  }

  /** A turn of another class first changes nothing for this one. */
  lemma AfterOthers(sq: Queue, a: Queue, s: Queue, P: Class, Q: Class)
    requires InTurn(sq, a, Q) && Stirred(a, s) && Apart(P, Q) && OldestIssued(a, s, P)
    ensures OldestIssued(sq, s, P)
  {
    forall i: nat, k: nat | Behind(sq, s, P, i, k) ensures s[i].busy {
      Outside(sq, a, P, Q, i);
      Outside(sq, a, P, Q, k);
      assert Behind(a, s, P, i, k);
    }
  }

  lemma Outside(sq: Queue, a: Queue, P: Class, Q: Class, k: nat)
    requires InTurn(sq, a, Q) && Apart(P, Q) && k < |sq| && P(sq[k])
    ensures a[k] == sq[k]
  {
    assert sq[k].(busy := sq[k].busy) == sq[k];
    assert !Issued(sq, a, k);
  }

  /** Nor does one afterwards. */
  lemma BeforeOthers(sq: Queue, a: Queue, s: Queue, P: Class, Q: Class)
    requires Stirred(sq, a) && OldestIssued(sq, a, P) && InTurn(a, s, Q) && Apart(P, Q)
    ensures OldestIssued(sq, s, P)
  {
    forall i: nat, k: nat | Behind(sq, s, P, i, k) ensures s[i].busy {
      assert P(sq[k].(busy := a[k].busy)) && a[k] == sq[k].(busy := a[k].busy);
      Outside(a, s, P, Q, k);
      assert Behind(sq, a, P, i, k);
    }
  }

  /** Three turns of classes that are apart. */
  lemma ThreeTurns(sq: Queue, a: Queue, b: Queue, s: Queue, R: Class)
    requires InTurn(sq, a, Simple) && InTurn(a, b, Product) && InTurn(b, s, R)
    requires ByAge(sq) && ByAge(a) && ByAge(b)
    requires Apart(Simple, R) && Apart(Product, R) && Apart(R, Simple) && Apart(R, Product)
    ensures Stirred(sq, s) && OldestIssued(sq, s, Simple) && OldestIssued(sq, s, Product) && OldestIssued(sq, s, R)
    ensures forall k :: 0 <= k < |s| && Simple(s[k]) ==> s[k] == a[k]
    ensures forall k :: 0 <= k < |s| && Product(s[k]) ==> s[k] == b[k]
  {
    StirredOn(a, b, s);
    StirredOn(sq, a, s);
    StirredOn(sq, a, b);
    TurnOldest(sq, a, Simple);
    BeforeOthers(sq, a, b, Simple, Product);
    BeforeOthers(sq, b, s, Simple, R);
    TurnOldest(a, b, Product);
    BeforeOthers(a, b, s, Product, R);
    AfterOthers(sq, a, s, Product, Simple);
    TurnOldest(b, s, R);
    AfterOthers(a, b, s, R, Product);
    AfterOthers(sq, a, s, R, Simple);
    forall k | 0 <= k < |s| && Simple(s[k]) ensures s[k] == a[k] {
      assert a[k] == s[k].(busy := a[k].busy) && b[k] == s[k].(busy := b[k].busy);
      Outside(a, b, Simple, Product, k);
      Outside(b, s, Simple, R, k);
    }
    forall k | 0 <= k < |s| && Product(s[k]) ensures s[k] == b[k] {
      assert b[k] == s[k].(busy := b[k].busy);
      Outside(b, s, Product, R, k);
    }
  }

  /** What a cycle's issue comes to: nothing that could go stays while there is room, and the oldest go first. */
  ghost predicate Prompt(c: Core, d: Core) {
    && Stirred(c.sq, d.sq)
    && OldestIssued(c.sq, d.sq, Simple) && OldestIssued(c.sq, d.sq, Product) && OldestIssued(c.sq, d.sq, Allowed(c.sq))
    && ((exists u :: 0 <= u < |d.alus| && d.alus[u].None?) ==>
          forall k :: 0 <= k < |d.sq| ==> !(Waits(d.sq[k]) && Simple(d.sq[k])))
    && ((exists u :: 0 <= u < |d.muls| && d.muls[u].first.None?) ==>
          forall k :: 0 <= k < |d.sq| ==> !(Waits(d.sq[k]) && Product(d.sq[k])))
    && ((exists u :: 0 <= u < |d.lsus| && d.lsus[u].Idle?) && !Mshr.Full(d.l1.table) ==>
          forall k :: 0 <= k < |d.sq| ==> !(Waits(d.sq[k]) && MayAccess(d.sq, d.sq[k])))
  }

  /** The units are those after each class's turn, and the queue is what the three turns make of it. */
  ghost predicate InTurns(c: Core, a: Core, b: Core, d: Core) {
    && InTurn(c.sq, a.sq, Simple) && InTurn(a.sq, b.sq, Product) && InTurn(b.sq, d.sq, Allowed(c.sq))
    && ByAge(c.sq) && ByAge(a.sq) && ByAge(b.sq) && d.alus == a.alus && d.muls == b.muls
    && ((exists u :: 0 <= u < |d.alus| && d.alus[u].None?) ==>
          forall k :: 0 <= k < |a.sq| ==> !(Waits(a.sq[k]) && Simple(a.sq[k])))
    && ((exists u :: 0 <= u < |d.muls| && d.muls[u].first.None?) ==>
          forall k :: 0 <= k < |b.sq| ==> !(Waits(b.sq[k]) && Product(b.sq[k])))
    && ((exists u :: 0 <= u < |d.lsus| && d.lsus[u].Idle?) && !Mshr.Full(d.l1.table) ==>
          forall k :: 0 <= k < |d.sq| ==> !(Waits(d.sq[k]) && MayAccess(c.sq, d.sq[k])))
  }

  lemma ScheduleInTurns(c: Core) returns (a: Core, b: Core)
    requires Invariant(c)
    ensures InTurns(c, a, b, Schedule(c))
  {
    a := FireAlus(c, FreeAlus(c.alus));
    b := FireMuls(a, FreeMuls(a.muls));
    AlusFire(c);
    MulsFire(a);
    StagesByAge(c, a, b);
    StirredOn(c.sq, a.sq, b.sq);
    LsusFire(Invariant, b, c.sq, false);
  }

  lemma StagesByAge(c: Core, a: Core, b: Core)
    requires Invariant(c) && a == FireAlus(c, FreeAlus(c.alus)) && b == FireMuls(a, FreeMuls(a.muls))
    ensures ByAge(c.sq) && ByAge(a.sq) && ByAge(b.sq) && Invariant(b) && Steady(Invariant)
  {
    InvariantKeptInSchedule();
    FireAluStage(Invariant, c, FreeAlus(c.alus));
    FireMulStage(Invariant, a, FreeMuls(a.muls));
    QueueByAge(c);
    QueueByAge(a);
    QueueByAge(b);
    InvariantSteady();
  }

  lemma TurnsPrompt(c: Core, a: Core, b: Core, d: Core)
    requires InTurns(c, a, b, d)
    ensures Prompt(c, d)
  {
    ThreeTurns(c.sq, a.sq, b.sq, d.sq, Allowed(c.sq));
    forall k | 0 <= k < |d.sq| ensures MayAccess(d.sq, d.sq[k]) ==> MayAccess(c.sq, d.sq[k]) {
      StirredAccess(c.sq, d.sq, d.sq[k]);
    }
  }

  lemma SchedulePrompt(c: Core)
    requires Invariant(c)
    ensures Prompt(c, Schedule(c))
  {
    var a, b := ScheduleInTurns(c);
    TurnsPrompt(c, a, b, Schedule(c));
  }

  // ----- execution -----

  /** What the units need of a property: their pointers are good, and their requests their own. */
  ghost predicate Sound(P: Property) {
    && KeptByAlu(P) && KeptByMul(P) && KeptByLsu(P)
    && forall c {:trigger P(c)} :: P(c) ==> Pointed(c) && OwnRequests(c)
  }

  ghost predicate Pointed(c: Core) { forall p :: Pointing(c, p).Some? ==> Pending(c.sq, Pointing(c, p).value) }

  ghost predicate OwnRequests(c: Core) {
    && Mshr.WellFormed(c.l1.table)
    && forall u, v :: 0 <= u < v < |c.lsus| && c.lsus[u].Serving? && c.lsus[v].Serving? ==> c.lsus[u].id != c.lsus[v].id
  }

  lemma InvariantSound()
    ensures Sound(Invariant)
  {
    InvariantKeptInUnits();
    forall c | Invariant(c) ensures Pointed(c) && OwnRequests(c) {
      forall p | Pointing(c, p).Some? ensures Pending(c.sq, Pointing(c, p).value) {
        assert Executing(c.sq, Pointing(c, p).value, p);
      }
    }
  }

  lemma WritebackDone(c: Core, tag: nat)
    requires Pending(c.sq, tag)
    ensures Writeback(c, tag).done == c.done + [tag]
  {
  }

  predicate InAlus(alus: seq<Pointer>, i: nat, tag: nat) { exists u :: i <= u < |alus| && alus[u] == Some(tag) }

  lemma {:induction false} AlusDone(P: Property, c: Core, i: nat, tag: nat)
    requires Sound(P) && P(c) && i <= |c.alus|
    ensures var d := ExecAlus(c, i);
      && P(d) && d.muls == c.muls && d.lsus == c.lsus && d.l1 == c.l1
      && (tag in d.done <==> tag in c.done || InAlus(c.alus, i, tag))
    decreases |c.alus| - i
  {
    if i < |c.alus| {
      var d := if c.alus[i].Some? then AluDone(c, i) else c;
      if c.alus[i].Some? {
        assert Pointing(c, InAlu(i)).Some?;
        WritebackDone(c, c.alus[i].value);
      }
      AlusDone(P, d, i + 1, tag);
      AlusNext(c.alus, d.alus, i, tag);
    }
  }

  lemma AlusNext(alus: seq<Pointer>, alus': seq<Pointer>, i: nat, tag: nat)
    requires i < |alus| && (alus' == alus || alus' == alus[i := None])
    ensures InAlus(alus, i, tag) <==> alus[i] == Some(tag) || InAlus(alus', i + 1, tag)
  {
    if InAlus(alus, i, tag) {
      var u :| i <= u < |alus| && alus[u] == Some(tag);
      if u > i { assert alus'[u] == Some(tag); }
    }
    if InAlus(alus', i + 1, tag) {
      var u :| i + 1 <= u < |alus'| && alus'[u] == Some(tag);
      assert alus[u] == Some(tag);
    }
  }

  predicate InMuls(muls: seq<MulUnit>, i: nat, tag: nat) { exists u :: i <= u < |muls| && muls[u].third == Some(tag) }

  lemma {:induction false} MulsDone(P: Property, c: Core, i: nat, tag: nat)
    requires Sound(P) && P(c) && i <= |c.muls|
    ensures var d := ExecMuls(c, i);
      && P(d) && d.alus == c.alus && d.lsus == c.lsus && d.l1 == c.l1
      && |d.muls| == |c.muls| && (forall u :: 0 <= u < |c.muls| ==>
            d.muls[u].first == c.muls[u].first && d.muls[u].second == c.muls[u].second &&
            d.muls[u].third == if u < i then c.muls[u].third else None)
      && (tag in d.done <==> tag in c.done || InMuls(c.muls, i, tag))
    decreases |c.muls| - i
  {
    if i < |c.muls| {
      var d := if c.muls[i].third.Some? then MulDone(c, i) else c;
      if c.muls[i].third.Some? {
        assert Pointing(c, InMul(i, 2)).Some?;
        WritebackDone(c, c.muls[i].third.value);
      }
      MulsDone(P, d, i + 1, tag);
      MulsNext(c.muls, d.muls, i, tag);
    }
  }

  lemma MulsNext(muls: seq<MulUnit>, muls': seq<MulUnit>, i: nat, tag: nat)
    requires i < |muls| == |muls'| && forall u :: 0 <= u < |muls| && u != i ==> muls'[u] == muls[u]
    ensures InMuls(muls, i, tag) <==> muls[i].third == Some(tag) || InMuls(muls', i + 1, tag)
  {
    if InMuls(muls, i, tag) {
      var u :| i <= u < |muls| && muls[u].third == Some(tag);
      if u > i { assert muls'[u].third == Some(tag); }
    }
    if InMuls(muls', i + 1, tag) {
      var u :| i + 1 <= u < |muls'| && muls'[u].third == Some(tag);
      assert muls[u].third == Some(tag);
    }
  }

  /** The unit's request has been answered. */
  predicate Ripe(t: Mshr.Table, l: LsuUnit) {
    l.Serving? && var k := Mshr.Peek(t, l.id); k.Some? && k.value.ready
  }

  predicate InLsus(t: Mshr.Table, lsus: seq<LsuUnit>, i: nat, tag: nat) {
    exists u :: i <= u < |lsus| && Ripe(t, lsus[u]) && lsus[u].tag == tag
  }

  /** The units from i on: those that were answered are idle, the others still wait for the same. */
  predicate Polled(c: Core, d: Core, i: nat) {
    && |d.lsus| == |c.lsus|
    && forall u :: 0 <= u < |c.lsus| ==>
         (if u >= i && Ripe(c.l1.table, c.lsus[u]) then d.lsus[u].Idle?
          else d.lsus[u] == c.lsus[u] && SameTicket(c, d, c.lsus[u]))
  }

  predicate SameTicket(c: Core, d: Core, l: LsuUnit) {
    l.Serving? ==> Mshr.Peek(d.l1.table, l.id) == Mshr.Peek(c.l1.table, l.id)
  }

  lemma {:induction false} LsusDone(P: Property, c: Core, i: nat, tag: nat)
    requires Sound(P) && P(c) && i <= |c.lsus|
    ensures var d := ExecLsus(c, i);
      && P(d) && d.alus == c.alus && d.muls == c.muls && Polled(c, d, i)
      && (tag in d.done <==> tag in c.done || InLsus(c.l1.table, c.lsus, i, tag))
    decreases |c.lsus| - i
  {
    if i < |c.lsus| {
      var d := if LsuReady(c, i) then LsuDone(c, i) else c;
      if LsuReady(c, i) { LsuStep(P, c, i); }
      LsusDone(P, d, i + 1, tag);
      LsusNext(c, d, i, tag);
      PolledNext(c, d, ExecLsus(c, i), i);
    }
  }

  /** One unit is done; the requests of the others are as they were. */
  predicate Stepped(c: Core, d: Core, i: nat) {
    && i < |c.lsus| == |d.lsus|
    && (forall u :: 0 <= u < |c.lsus| && u != i ==> d.lsus[u] == c.lsus[u])
    && (if Ripe(c.l1.table, c.lsus[i]) then d.lsus[i].Idle? else d.lsus[i] == c.lsus[i] && d.l1 == c.l1)
    && (forall u :: 0 <= u < |c.lsus| && u != i ==> SameTicket(c, d, c.lsus[u]))
  }

  lemma LsuStep(P: Property, c: Core, i: nat)
    requires Sound(P) && P(c) && i < |c.lsus| && LsuReady(c, i)
    ensures var d := LsuDone(c, i);
      P(d) && Stepped(c, d, i) && d.alus == c.alus && d.muls == c.muls && d.done == c.done + [c.lsus[i].tag]
  {
    assert Pointing(c, InLsu(i)).Some?;
    WritebackDone(c, c.lsus[i].tag);
    Mshr.ReleaseMeans(c.l1.table, c.lsus[i].id);
  }

  lemma LsusNext(c: Core, d: Core, i: nat, tag: nat)
    requires Stepped(c, d, i)
    ensures InLsus(c.l1.table, c.lsus, i, tag) <==>
      (Ripe(c.l1.table, c.lsus[i]) && c.lsus[i].tag == tag) || InLsus(d.l1.table, d.lsus, i + 1, tag)
  {
    if InLsus(c.l1.table, c.lsus, i, tag) {
      var u :| i <= u < |c.lsus| && Ripe(c.l1.table, c.lsus[u]) && c.lsus[u].tag == tag;
      if u > i { assert Ripe(d.l1.table, d.lsus[u]) && d.lsus[u].tag == tag; }
    }
    if InLsus(d.l1.table, d.lsus, i + 1, tag) {
      var u :| i + 1 <= u < |d.lsus| && Ripe(d.l1.table, d.lsus[u]) && d.lsus[u].tag == tag;
      assert Ripe(c.l1.table, c.lsus[u]) && c.lsus[u].tag == tag;
    }
  }

  lemma PolledNext(c: Core, d: Core, e: Core, i: nat)
    requires Stepped(c, d, i) && Polled(d, e, i + 1)
    ensures Polled(c, e, i)
  {
    forall u | 0 <= u < |c.lsus|
      ensures if u >= i && Ripe(c.l1.table, c.lsus[u]) then e.lsus[u].Idle?
              else e.lsus[u] == c.lsus[u] && SameTicket(c, e, c.lsus[u])
    {
      assert u != i ==> d.lsus[u] == c.lsus[u] && SameTicket(c, d, c.lsus[u]);
    }
  }

  /** What a unit finishes in this cycle. */
  predicate Finishing(c: Core, tag: nat) {
    InAlus(c.alus, 0, tag) || InMuls(c.muls, 0, tag) || InLsus(c.l1.table, c.lsus, 0, tag)
  }

  lemma ExecDone(P: Property, c: Core, tag: nat)
    requires Sound(P) && P(c)
    ensures var d := Exec(c);
      && P(d) && |d.muls| == |c.muls| && Polled(c, d, 0)
      && (forall u :: 0 <= u < |c.muls| ==> d.muls[u] == MulUnit(None, c.muls[u].first, c.muls[u].second))
      && (tag in d.done <==> tag in c.done || Finishing(c, tag))
  {
    var a := ExecAlus(c, 0);
    var m := ExecMuls(a, 0);
    AlusDone(P, c, 0, tag);
    MulsDone(P, a, 0, tag);
    LsusDone(P, Shift(m), 0, tag);
  }

  // ----- the other stages leave the units alone -----

  predicate SameUnits(c: Core, d: Core) {
    d.alus == c.alus && d.muls == c.muls && d.lsus == c.lsus && d.l1 == c.l1 && d.done == c.done
  }

  lemma {:induction false} RetireUnits(c: Core)
    ensures SameUnits(c, Retire(c).0)
    decreases c.rob.count
  {
    if HeadReady(c) && !c.rob.entries[c.rob.head].inst.Mispredict() { RetireUnits(RetireHead(c)); }
  }

  lemma {:induction false} DispatchUnits(c: Core, n: nat)
    ensures SameUnits(c, Dispatch(c, n))
    decreases n
  {
    if n > 0 && CanDispatch(c) { DispatchUnits(DispatchOne(c), n - 1); }
  }

  lemma {:induction false} FetchUnits(c: Core, n: nat, open: nat)
    ensures SameUnits(c, FetchUpTo(c, n, open))
    decreases n
  {
    if n > 0 && |c.dispq| < c.cfg.dispCap && open > 0 && c.rest != [] && !FetchOne(c).stalled {
      FetchUnits(FetchOne(c), n - 1, open - 1);
    }
  }

  /** Issue fills first stages only. */
  predicate SameStages(c: Core, d: Core) {
    && d.done == c.done && |d.muls| == |c.muls|
    && forall u :: 0 <= u < |c.muls| ==> d.muls[u].second == c.muls[u].second && d.muls[u].third == c.muls[u].third
  }

  lemma {:induction false} FireAlusStages(c: Core, n: nat)
    ensures SameStages(c, FireAlus(c, n))
    decreases n
  {
    var i, u := PickAlu(c.sq), IdleAlu(c.alus);
    if n > 0 && i < |c.sq| && u < |c.alus| { FireAlusStages(FireAlu(c, i, u), n - 1); }
  }

  lemma {:induction false} FireMulsStages(c: Core, n: nat)
    ensures SameStages(c, FireMuls(c, n))
    decreases n
  {
    var i, u := PickMul(c.sq), IdleMul(c.muls);
    if n > 0 && i < |c.sq| && u < |c.muls| { FireMulsStages(FireMul(c, i, u), n - 1); }
  }

  lemma {:induction false} FireLsusStages(c: Core, n: nat, stored: bool)
    ensures SameStages(c, FireLsus(c, n, stored))
    decreases n
  {
    if n > 0 && CanFireLsu(c, stored) {
      FireLsusStages(LsuFired(c), n - 1, stored || c.sq[PickLsu(c.sq)].inst.rec.op.Store?);
    }
  }

  lemma LaterStages(c: Core, open: nat)
    ensures SameStages(c, FrontEnd(Schedule(c), open))
  {
    var a := FireAlus(c, FreeAlus(c.alus));
    var b := FireMuls(a, FreeMuls(a.muls));
    FireAlusStages(c, FreeAlus(c.alus));
    FireMulsStages(a, FreeMuls(a.muls));
    FireLsusStages(b, FreeLsus(b.lsus), false);
    var d := Schedule(c);
    DispatchUnits(d, d.cfg.width);
    var f := Dispatch(d, d.cfg.width);
    FetchUnits(f, f.cfg.width, open);
  }

  // ----- requests are answered when they are due -----

  /** Nothing is ready before it is due. */
  ghost predicate Punctual(c: Core) {
    forall id: nat :: InTime(Mshr.Peek(c.l1.table, id), c.l1.now)
  }

  predicate InTime(t: Option<Mshr.Ticket>, now: nat) { t.Some? && t.value.ready ==> t.value.due <= now }

  ghost predicate Timely(c: Core) { Invariant(c) && Punctual(c) }

  lemma ReleasePunctual(c: Core, i: nat)
    requires Invariant(c) && Punctual(c) && i < |c.lsus| && c.lsus[i].Serving?
    ensures Punctual(LsuDone(c, i))
  {
    var d := LsuDone(c, i);
    Mshr.ReleaseMeans(c.l1.table, c.lsus[i].id);
    forall id: nat ensures InTime(Mshr.Peek(d.l1.table, id), d.l1.now) {
      assert InTime(Mshr.Peek(c.l1.table, id), c.l1.now);
    }
  }

  /** A request that joins another gets the ticket that the other holds. */
  lemma JoinedTicket(l1: Mshr.Cache, block: nat, latency: nat) returns (id: nat)
    requires l1.Valid() && Mshr.SlotOn(l1.table, block) < |l1.table|
    ensures Mshr.Peek(l1.table, id) == Some(Mshr.Promised(l1, block, latency))
  {
    var i := Mshr.SlotOn(l1.table, block);
    id := l1.table[i].id;
    Mshr.SlotUnique(l1.table, id, i);
  }

  lemma IssuePunctual(c: Core, i: nat, u: nat, l1: Mshr.Cache, id: nat)
    requires c.l1.Valid() && Punctual(c) && i < |c.sq| && u < |c.lsus| && Issues(c, i, l1, id)
    ensures Punctual(FireLsu(c, i, u, l1, id))
  {
    var d, rec := FireLsu(c, i, u, l1, id), c.sq[i].inst.rec;
    Mshr.IssueMeans(c.l1, rec.op.Load?, rec.block, rec.latency);
    if Mshr.SlotOn(c.l1.table, rec.block) < |c.l1.table| {
      var x := JoinedTicket(c.l1, rec.block, rec.latency);
      assert InTime(Mshr.Peek(c.l1.table, x), c.l1.now);
    }
    forall x: nat ensures InTime(Mshr.Peek(d.l1.table, x), d.l1.now) {
      assert InTime(Mshr.Peek(c.l1.table, x), c.l1.now);
    }
  }

  lemma TimelyKeptInUnits()
    ensures KeptByAlu(Timely) && KeptByMul(Timely) && KeptByLsu(Timely)
  {
    InvariantKept();
    forall c, i | Timely(c) && 0 <= i < |c.alus| && c.alus[i].Some? ensures Timely(AluDone(c, i)) {
      assert Invariant(AluDone(c, i));
    }
    forall c, i | Timely(c) && 0 <= i < |c.muls| && c.muls[i].third.Some? ensures Timely(MulDone(c, i)) {
      assert Invariant(MulDone(c, i));
    }
    forall c | Timely(c) && Drained(c.muls) ensures Timely(Shift(c)) { assert Invariant(Shift(c)); }
    forall c, i | Timely(c) && 0 <= i < |c.lsus| && LsuReady(c, i) ensures Timely(LsuDone(c, i)) {
      assert Invariant(LsuDone(c, i));
      ReleasePunctual(c, i);
    }
  }

  lemma TimelyKeptInSchedule()
    ensures KeptByFireAlu(Timely) && KeptByFireMul(Timely) && KeptByFireLsu(Timely)
  {
    InvariantKept();
    forall c, i, u | Timely(c) && 0 <= i < |c.sq| && AluWants(c.sq[i]) && 0 <= u < |c.alus| && c.alus[u].None?
      ensures Timely(FireAlu(c, i, u)) { assert Invariant(FireAlu(c, i, u)); }
    forall c, i, u | Timely(c) && 0 <= i < |c.sq| && MulWants(c.sq[i]) && 0 <= u < |c.muls| && c.muls[u].first.None?
      ensures Timely(FireMul(c, i, u)) { assert Invariant(FireMul(c, i, u)); }
    forall c, i, u, l1, id: nat | Timely(c) && 0 <= i < |c.sq| && LsuWants(c.sq, c.sq[i]) && 0 <= u < |c.lsus| &&
                                  c.lsus[u].Idle? && Issues(c, i, l1, id)
      ensures Timely(FireLsu(c, i, u, l1, id))
    {
      assert Invariant(FireLsu(c, i, u, l1, id));
      IssuePunctual(c, i, u, l1, id);
    }
  }

  lemma TimelyKeptInOrder()
    ensures KeptByRetire(Timely) && KeptByFrontEnd(Timely)
  {
    InvariantKept();
    forall c | Timely(c) && HeadReady(c) ensures Timely(RetireHead(c)) { assert Invariant(RetireHead(c)); }
    forall c | Timely(c) && CanDispatch(c) ensures Timely(DispatchOne(c)) { assert Invariant(DispatchOne(c)); }
    forall c | Timely(c) && c.rest != [] && !c.stalled ensures Timely(FetchOne(c)) { assert Invariant(FetchOne(c)); }
    forall c | Timely(c) && c.rest == [] ensures Timely(AtEof(c)) { assert Invariant(AtEof(c)); }
  }

  /** Between cycles a request is ready exactly when it is due. */
  ghost predicate Exact(c: Core) {
    forall id: nat :: ReadyWhenDue(Mshr.Peek(c.l1.table, id), c.l1.now)
  }

  predicate ReadyWhenDue(t: Option<Mshr.Ticket>, now: nat) { t.Some? ==> (t.value.ready <==> t.value.due <= now) }

  lemma ClockExact(c: Core)
    requires Timely(c)
    ensures Timely(TickCache(c)) && Exact(TickCache(c))
  {
    var d := TickCache(c);
    InvariantKept();
    assert Invariant(d);
    Mshr.TickMeans(c.l1.table, c.l1.now + 1);
    forall id: nat
      ensures ReadyWhenDue(Mshr.Peek(d.l1.table, id), d.l1.now) && InTime(Mshr.Peek(d.l1.table, id), d.l1.now)
    {
      assert InTime(Mshr.Peek(c.l1.table, id), c.l1.now);
    }
  }

  lemma {:induction false} RunExact(c: Core, opens: seq<nat>)
    requires Timely(c) && Exact(c)
    ensures Timely(Run(c, opens)) && Exact(Run(c, opens))
    decreases |opens|
  {
    if opens != [] {
      TimelyKeptInUnits();
      TimelyKeptInSchedule();
      TimelyKeptInOrder();
      StagesKeep(Timely, c, opens[0]);
      ClockExact(Stages(c, opens[0]));
      RunExact(Tick(c, opens[0]), opens[1..]);
    }
  }

  lemma StartExact(cfg: Config, program: seq<Record>, rob: nat, alus: nat, muls: nat, lsus: nat, mshrs: nat)
    ensures var c := Start(cfg, program, rob, alus, muls, lsus, mshrs); Timely(c) && Exact(c)
  {
    var c := Start(cfg, program, rob, alus, muls, lsus, mshrs);
    StartInvariant(cfg, program, rob, alus, muls, lsus, mshrs);
    forall id: nat ensures Mshr.Peek(c.l1.table, id).None? {}
  }

  lemma ReachableExact(c: Core, program: seq<Record>)
    requires Reachable(c, program)
    ensures Timely(c) && Exact(c)
  {
    var cfg, rob: nat, alus: nat, muls: nat, lsus: nat, mshrs: nat, opens: seq<nat> :|
      c == Run(Start(cfg, program, rob, alus, muls, lsus, mshrs), opens);
    StartExact(cfg, program, rob, alus, muls, lsus, mshrs);
    RunExact(Start(cfg, program, rob, alus, muls, lsus, mshrs), opens);
  }

  // ----- what a cycle does -----

  /** A unit's request for this instruction is due. */
  predicate Due(c: Core, tag: nat) {
    exists u :: 0 <= u < |c.lsus| && c.lsus[u].Serving? && c.lsus[u].tag == tag &&
      var t := Mshr.Peek(c.l1.table, c.lsus[u].id); t.Some? && t.value.due <= c.l1.now
  }

  lemma RipeWhenDue(c: Core, tag: nat)
    requires Exact(c)
    ensures InLsus(c.l1.table, c.lsus, 0, tag) <==> Due(c, tag)
  {
    forall l: LsuUnit ensures l.Serving? ==> ReadyWhenDue(Mshr.Peek(c.l1.table, l.id), c.l1.now) {}
  }

  /** Multiplications move one stage on. */
  predicate Moves(c: Core, d: Core) {
    && |d.muls| == |c.muls|
    && forall u :: 0 <= u < |c.muls| ==> d.muls[u].second == c.muls[u].first && d.muls[u].third == c.muls[u].second
  }

  lemma CycleDone(P: Property, c: Core, open: nat, tag: nat)
    requires Sound(P) && KeptByRetire(P) && P(c) && !Retire(c).1
    ensures Moves(c, Tick(c, open)) && (tag in Tick(c, open).done <==> tag in c.done || Finishing(c, tag))
  {
    var r := Retire(c).0;
    RetireUnits(c);
    RetireStage(P, c);
    ExecDone(P, r, tag);
    LaterStages(Exec(r), open);
  }

  lemma FlushDone(c: Core, open: nat, tag: nat)
    requires Invariant(c) && Retire(c).1
    ensures Moves(c, Tick(c, open)) && (tag in Tick(c, open).done <==> tag in c.done || Finishing(c, tag))
  {
    RetireUnits(c);
    RecoveryIsClean(c);
  }

  /** In one cycle each unit does its part. An instruction in an ALU completes, a multiplication moves one stage and
      completes out of the third, a load or store completes when its request is due; and nothing else completes. */
  lemma UnitsTakeTheirTime(c: Core, program: seq<Record>, open: nat, tag: nat)
    requires Reachable(c, program)
    ensures Moves(c, Tick(c, open))
    ensures tag in Tick(c, open).done <==>
            (tag in c.done || InAlus(c.alus, 0, tag) || InMuls(c.muls, 0, tag) || Due(c, tag))
  {
    ReachableExact(c, program);
    RipeWhenDue(c, tag);
    InvariantKept();
    InvariantSound();
    if Retire(c).1 { FlushDone(c, open, tag); } else { CycleDone(Invariant, c, open, tag); }
  }

  // ----- what the cache is asked -----

  predicate Kept(t: Mshr.Table, s: Mshr.Table, x: nat) { Mshr.Peek(t, x).Some? ==> Mshr.Peek(s, x) == Mshr.Peek(t, x) }

  /** The request is for the entry's block, and due after its latency unless it has joined one that is outstanding. */
  ghost predicate Requested(t: Mshr.Table, now: nat, id: nat, rec: Record) {
    && Mshr.Peek(t, id).Some? && Mshr.Peek(t, id).value.block == rec.block
    && (Mshr.Peek(t, id).value == Mshr.Ticket(rec.block, now + rec.latency, false) || Joined(t, id))
  }

  ghost predicate Joined(t: Mshr.Table, id: nat) { exists x: nat :: x != id && Mshr.Peek(t, x) == Mshr.Peek(t, id) }

  /** Unit u has taken entry k. */
  ghost predicate Took(c: Core, d: Core, u: nat, k: nat) {
    && u < |c.lsus| == |d.lsus| && Issued(c.sq, d.sq, k) && c.lsus[u].Idle?
    && d.lsus[u].Serving? && d.lsus[u].tag == c.sq[k].tag && d.lsus[u].load == c.sq[k].inst.rec.op.Load?
    && Requested(d.l1.table, d.l1.now, d.lsus[u].id, c.sq[k].inst.rec)
  }

  /** Each unit is as it was, or has taken an entry; requests under way are not touched. */
  ghost predicate Taken(c: Core, d: Core) {
    && |d.lsus| == |c.lsus| && d.l1.now == c.l1.now && Stirred(c.sq, d.sq)
    && (forall x: nat :: Kept(c.l1.table, d.l1.table, x))
    && (forall u: nat :: u < |c.lsus| ==> d.lsus[u] == c.lsus[u] || exists k: nat :: Took(c, d, u, k))
  }

  lemma NothingTaken(c: Core)
    ensures Taken(c, c)
  {
    NothingIssued(c.sq, Simple);
  }

  lemma LsuTakes(P: Property, c: Core, stored: bool)
    requires Steady(P) && P(c) && CanFireLsu(c, stored)
    ensures Took(c, LsuFired(c), IdleLsu(c.lsus), PickLsu(c.sq)) && LsuFired(c).l1.now == c.l1.now
    ensures forall x: nat :: Kept(c.l1.table, LsuFired(c).l1.table, x)
  {
    var rec := c.sq[PickLsu(c.sq)].inst.rec;
    Mshr.IssueMeans(c.l1, rec.op.Load?, rec.block, rec.latency);
    if Mshr.SlotOn(c.l1.table, rec.block) < |c.l1.table| {
      var x := JoinedTicket(c.l1, rec.block, rec.latency);
      var id := Sent(c, PickLsu(c.sq)).1.value;
      assert Mshr.Peek(c.l1.table, id).None? && Mshr.Peek(LsuFired(c).l1.table, x) == Mshr.Peek(c.l1.table, x);
    }
  }

  lemma TookStays(c: Core, next: Core, d: Core, u: nat, k: nat)
    requires Took(c, next, u, k) && Taken(next, d) && d.lsus[u] == next.lsus[u]
    ensures Took(c, d, u, k)
  {
    var id := next.lsus[u].id;
    assert Kept(next.l1.table, d.l1.table, id);
    if Joined(next.l1.table, id) {
      var x: nat :| x != id && Mshr.Peek(next.l1.table, x) == Mshr.Peek(next.l1.table, id);
      assert Kept(next.l1.table, d.l1.table, x);
    }
    assert d.sq[k] == next.sq[k].(busy := d.sq[k].busy);
  }

  lemma {:induction false} LsusTake(P: Property, c: Core, n: nat, stored: bool)
    requires Steady(P) && P(c) && (stored ==> StoreOut(c.sq))
    ensures Taken(c, FireLsus(c, n, stored))
    decreases n
  {
    if n == 0 || !CanFireLsu(c, stored) { NothingTaken(c); }
    else {
      var i := PickLsu(c.sq);
      var next, more := LsuFired(c), stored || c.sq[i].inst.rec.op.Store?;
      LsuTakes(P, c, stored);
      LsuFires(P, c, stored);
      LsusTake(P, next, n - 1, more);
      TakenMore(c, next, FireLsus(next, n - 1, more), IdleLsu(c.lsus), i);
    }
  }

  lemma TakenMore(c: Core, next: Core, d: Core, u: nat, i: nat)
    requires Took(c, next, u, i) && Taken(next, d) && next.l1.now == c.l1.now && next.sq == Fired(c.sq, i)
    requires forall x: nat :: Kept(c.l1.table, next.l1.table, x)
    requires next.lsus == c.lsus[u := next.lsus[u]]
    ensures Taken(c, d)
  {
    NothingIssued(c.sq, Simple);
    StirredMore(c.sq, c.sq, i);
    StirredOn(c.sq, next.sq, d.sq);
    forall x: nat ensures Kept(c.l1.table, d.l1.table, x) {
      assert Kept(c.l1.table, next.l1.table, x) && Kept(next.l1.table, d.l1.table, x);
    }
    forall v: nat | v < |c.lsus| ensures d.lsus[v] == c.lsus[v] || exists k: nat :: Took(c, d, v, k) {
      assert d.lsus[v] == next.lsus[v] || exists k: nat :: Took(next, d, v, k);
      if v == u { TookStays(c, next, d, u, i); }
      else if d.lsus[v] != next.lsus[v] {
        var k: nat :| Took(next, d, v, k);
        assert next.sq[k] == c.sq[k].(busy := next.sq[k].busy);
        assert Took(c, d, v, k);
      }
    }
  }

  lemma ScheduleTakes(c: Core)
    requires Invariant(c)
    ensures Taken(c, Schedule(c))
  {
    var a := FireAlus(c, FreeAlus(c.alus));
    var b := FireMuls(a, FreeMuls(a.muls));
    var d := Schedule(c);
    AlusFire(c);
    MulsFire(a);
    StagesByAge(c, a, b);
    LsusTake(Invariant, b, FreeLsus(b.lsus), false);
    StirredOn(c.sq, a.sq, b.sq);
    TakenFrom(c, b, d);
  }

  lemma TakenFrom(c: Core, b: Core, d: Core)
    requires Taken(b, d) && Stirred(c.sq, b.sq) && b.lsus == c.lsus && b.l1 == c.l1
    ensures Taken(c, d)
  {
    StirredOn(c.sq, b.sq, d.sq);
    forall u: nat | u < |c.lsus| ensures d.lsus[u] == c.lsus[u] || exists k: nat :: Took(c, d, u, k) {
      if d.lsus[u] != b.lsus[u] {
        var k: nat :| Took(b, d, u, k);
        assert b.sq[k] == c.sq[k].(busy := b.sq[k].busy);
        assert Took(c, d, u, k);
      }
    }
  }

  /** What a cycle issues: whatever could go while there was room, the oldest of each kind first; and a unit that has
      taken a load or store has asked the cache for its block, with its latency. */
  lemma IssuesAllItCan(c: Core, program: seq<Record>)
    requires Reachable(c, program)
    ensures var b := Exec(Retire(c).0); Prompt(b, Schedule(b)) && Taken(b, Schedule(b))
  {
    ReachableInvariant(c, program);
    InvariantKept();
    RetireStage(Invariant, c);
    ExecStage(Invariant, Retire(c).0);
    SchedulePrompt(Exec(Retire(c).0));
    ScheduleTakes(Exec(Retire(c).0));
  }

  // ----- the ends of the pipeline -----

  /** k instructions have gone from the dispatch queue to the scheduling queue: fewer than n only for lack of
      instructions or room. */
  predicate Dispatched(c: Core, d: Core, n: nat, k: nat) {
    && k <= n && k <= |c.dispq| && d.dispq == c.dispq[k..] && d.cfg == c.cfg
    && |d.sq| == |c.sq| + k && d.sq[..|c.sq|] == c.sq && d.fetched == c.fetched && d.rest == c.rest
    && (forall i :: 0 <= i < k ==> d.sq[|c.sq| + i].inst == c.dispq[i])
    && (k < n ==> d.dispq == [] || |d.sq| >= d.cfg.schedCap || d.rob.count >= |d.rob.entries|)
  }

  lemma {:induction false} DispatchWidth(P: Property, c: Core, n: nat) returns (k: nat)
    requires KeptByFrontEnd(P) && P(c) && forall e {:trigger P(e)} :: P(e) ==> Tailed(e)
    ensures Dispatched(c, Dispatch(c, n), n, k)
    decreases n
  {
    k := 0;
    if n > 0 && CanDispatch(c) {
      var next := DispatchOne(c);
      var j := DispatchWidth(P, next, n - 1);
      DispatchedMore(c, next, Dispatch(next, n - 1), n, j);
      k := j + 1;
    } else {
      assert Tailed(c) && c.sq[..|c.sq|] == c.sq;
    }
  }

  predicate Tailed(c: Core) { c.rob.count < |c.rob.entries| ==> c.rob.tail < |c.rob.entries| }

  lemma DispatchedMore(c: Core, next: Core, d: Core, n: nat, j: nat)
    requires n > 0 && CanDispatch(c) && next == DispatchOne(c) && Dispatched(next, d, n - 1, j)
    ensures Dispatched(c, d, n, j + 1)
  {
    assert d.sq[..|c.sq|] == d.sq[..|next.sq|][..|c.sq|] == next.sq[..|c.sq|];
    forall i | 0 <= i < j + 1 ensures d.sq[|c.sq| + i].inst == c.dispq[i] {
      if i == 0 { assert d.sq[|c.sq|] == d.sq[..|next.sq|][|c.sq|]; }
      else { assert d.sq[|c.sq| + i] == d.sq[|next.sq| + (i - 1)] && next.dispq[i - 1] == c.dispq[i]; }
    }
  }

  lemma TailedAlways(c: Core)
    requires Invariant(c)
    ensures Tailed(c)
  {
    if |c.rob.entries| > 0 { SlotBelow(Next(c), |c.rob.entries|); }
  }

  /** k records have been fetched: fewer than n only where the dispatch queue is full, the reader holds back, the trace
      has ended, or a branch has been mispredicted. */
  predicate FetchedSome(c: Core, d: Core, n: nat, open: nat, k: nat) {
    && k <= n && k <= open && k <= |c.rest| && d.rest == c.rest[k..] && |d.fetched| == |c.fetched| + k
    && d.dispq == c.dispq + d.fetched[|c.fetched|..] && d.fetched[..|c.fetched|] == c.fetched
    && (k < n ==> |d.dispq| >= c.cfg.dispCap || k == open || (d.rest == [] && d.eof) || d.stalled)
    && (|d.dispq| > c.cfg.dispCap ==> k == 0)
  }

  lemma {:induction false} FetchWidth(c: Core, n: nat, open: nat) returns (k: nat)
    requires !c.stalled
    ensures FetchedSome(c, FetchUpTo(c, n, open), n, open, k)
    decreases n
  {
    k := 0;
    if n > 0 && |c.dispq| < c.cfg.dispCap && open > 0 && c.rest != [] {
      var next := FetchOne(c);
      k := 1;
      if !next.stalled {
        var j := FetchWidth(next, n - 1, open - 1);
        FetchedMore(c, next, FetchUpTo(next, n - 1, open - 1), n, open, j);
        k := j + 1;
      }
    }
  }

  lemma FetchedMore(c: Core, next: Core, d: Core, n: nat, open: nat, j: nat)
    requires n > 0 && open > 0 && c.rest != [] && |c.dispq| < c.cfg.dispCap && next == FetchOne(c)
    requires FetchedSome(next, d, n - 1, open - 1, j)
    ensures FetchedSome(c, d, n, open, j + 1)
  {
    assert d.fetched[..|c.fetched|] == d.fetched[..|next.fetched|][..|c.fetched|];
    assert d.fetched[|c.fetched|..] == [d.fetched[|c.fetched|]] + d.fetched[|next.fetched|..];
    assert d.fetched[|c.fetched|] == d.fetched[..|next.fetched|][|c.fetched|] == next.dispq[|c.dispq|];
  }

  /** Retirement goes on to the first instruction that is not done, or through a mispredicted branch. */
  lemma {:induction false} RetiresAll(c: Core)
    ensures var (d, mispredict) := Retire(c);
      && (mispredict ==> d.retired != [] && d.retired[|d.retired| - 1].Mispredict())
      && (!mispredict && d.rob.count > 0 && d.rob.head < |d.rob.entries| ==> !d.rob.entries[d.rob.head].ready)
    decreases c.rob.count
  {
    if HeadReady(c) && !c.rob.entries[c.rob.head].inst.Mispredict() { RetiresAll(RetireHead(c)); }
  }

  /** What a cycle lets in: k instructions to the scheduling queue and j from the trace, in order, each as many as the
      width allows unless there is nothing more, no room, or a reason to wait. */
  lemma LetsInAllItCan(c: Core, program: seq<Record>, open: nat) returns (k: nat, j: nat)
    requires Reachable(c, program) && !Retire(c).1
    ensures var s := Schedule(Exec(Retire(c).0));
      var m := Dispatch(s, s.cfg.width);
      && Stages(c, open) == FrontEnd(s, open) && Dispatched(s, m, s.cfg.width, k)
      && (if m.stalled || m.eof then FrontEnd(s, open) == m
          else FetchedSome(m, FrontEnd(s, open), s.cfg.width, open, j))
  {
    ReachableInvariant(c, program);
    InvariantKept();
    RetireStage(Invariant, c);
    ExecStage(Invariant, Retire(c).0);
    ScheduleStage(Invariant, Exec(Retire(c).0));
    var s := Schedule(Exec(Retire(c).0));
    forall e | Invariant(e) ensures Tailed(e) { TailedAlways(e); }
    k := DispatchWidth(Invariant, s, s.cfg.width);
    var m := Dispatch(s, s.cfg.width);
    j := 0;
    if !m.stalled && !m.eof { j := FetchWidth(m, m.cfg.width, open); }
  }
}
