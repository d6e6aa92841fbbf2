/** The trace builder: how sequence numbers and barrier iterations are handed out, and why the traces
    it writes are well built. */
module SyncProgram {
  import opened Options
  import opened SyncReplay
  import opened SyncProgress

  datatype Meeting = Meeting(expected: nat, iter: nat, arrived: nat)

  /** A mutex and the sequence number of one of its critical sections. */
  datatype Section = Section(mutex: nat, seqno: nat)

  /** The builder's tables. calls, completed and now only record history: the number of the builder call
      that wrote each record, the call that completed each barrier iteration, and the current call. */
  datatype Program = Program(
    threads: seq<Trace>, lockSeq: map<nat, nat>, held: seq<seq<Section>>, barriers: map<nat, Meeting>,
    nextMutex: nat, nextBarrier: nat,
    calls: seq<seq<nat>>, completed: map<(nat, nat), nat>, now: nat)

  datatype Call =
    | NewMutex
    | NewBarrier(expected: nat)
    | Work(t: nat, id: nat)
    | Lock(t: nat, mutex: nat)
    | Unlock(t: nat, mutex: nat)
    | Meet(t: nat, barrier: nat)

  function New(threads: nat): Program {
    Program(seq(threads, _ => []), map[], seq(threads, _ => []), map[], 0x800000, 0x900000, seq(threads, _ => []),
      map[], 0)
  }

  predicate Shape(p: Program) {
    && |p.held| == |p.calls| == |p.threads|
    && forall t :: 0 <= t < |p.threads| ==> |p.calls[t]| == |p.threads[t]|
  }

  // ----- the calls -----

  /** Append one record to thread t. */
  function Put(p: Program, t: nat, r: Rec): (q: Program)
    requires Shape(p) && t < |p.threads|
    ensures Shape(q)
  {
    p.(threads := p.threads[t := p.threads[t] + [r]], calls := p.calls[t := p.calls[t] + [p.now]])
  }

  /** The lock word is loaded and stored, then the acquire takes the mutex's next sequence number. */
  function EmitLock(p: Program, t: nat, m: nat): (q: Program)
    requires Shape(p) && t < |p.threads| && m in p.lockSeq
    ensures Shape(q)
  {
    var n := p.lockSeq[m];
    TakeSection(Put(Put(p, t, Plain(m)), t, Plain(m)), t, m, n)
  }

  function TakeSection(p: Program, t: nat, m: nat, n: nat): (q: Program)
    requires Shape(p) && t < |p.threads|
    ensures Shape(q)
  {
    Put(p, t, Acquire(m, n)).(lockSeq := p.lockSeq[m := n + 1], held := p.held[t := p.held[t] + [Section(m, n)]])
  }

  predicate Holds(p: Program, t: nat, m: nat)
    requires Shape(p) && t < |p.threads|
  {
    p.held[t] != [] && p.held[t][|p.held[t]| - 1].mutex == m
  }

  function EmitUnlock(p: Program, t: nat, m: nat): (q: Program)
    requires Shape(p) && t < |p.threads| && Holds(p, t, m)
    ensures Shape(q)
  {
    DropSection(Put(p, t, Plain(m)), t)
  }

  function DropSection(p: Program, t: nat): (q: Program)
    requires Shape(p) && t < |p.threads| && p.held[t] != []
    ensures Shape(q)
  {
    var last := |p.held[t]| - 1;
    Put(p, t, Release(p.held[t][last].mutex, p.held[t][last].seqno)).(held := p.held[t := p.held[t][..last]])
  }

  function EmitBarrier(p: Program, t: nat, b: nat): (q: Program)
    requires Shape(p) && t < |p.threads| && b in p.barriers
    ensures Shape(q)
  {
    Put(PutArrive(p, t, b), t, Leave(b, p.barriers[b].iter))
  }

  function PutArrive(p: Program, t: nat, b: nat): (q: Program)
    requires Shape(p) && t < |p.threads| && b in p.barriers
    ensures Shape(q)
  {
    var s := p.barriers[b];
    var q := Put(p, t, Arrive(b, s.iter, s.expected));
    if s.arrived + 1 >= s.expected
    then q.(barriers := p.barriers[b := Meeting(s.expected, s.iter + 1, 0)],
      completed := p.completed[(b, s.iter) := p.now])
    else q.(barriers := p.barriers[b := s.(arrived := s.arrived + 1)])
  }

  /** None where the builder throws. */
  function Apply(p: Program, call: Call): (r: Option<Program>)
    requires Shape(p)
    ensures r.Some? ==> Shape(r.value)
  {
    match call
    case NewMutex => Some(p.(lockSeq := p.lockSeq[p.nextMutex := 0], nextMutex := p.nextMutex + 0x40))
    case NewBarrier(e) =>
      if e == 0 || e > |p.threads| then None
      else Some(p.(barriers := p.barriers[p.nextBarrier := Meeting(e, 0, 0)], nextBarrier := p.nextBarrier + 0x40))
    case Work(t, id) => if t < |p.threads| then Some(Put(p, t, Plain(id))) else None
    case Lock(t, m) => if t < |p.threads| && m in p.lockSeq then Some(EmitLock(p, t, m)) else None
    case Unlock(t, m) => if t < |p.threads| && Holds(p, t, m) then Some(EmitUnlock(p, t, m)) else None
    case Meet(t, b) => if t < |p.threads| && b in p.barriers then Some(EmitBarrier(p, t, b)) else None
  }

  /** A throwing call stops the construction. */
  function Build(p: Program, calls: seq<Call>): (r: Option<Program>)
    requires Shape(p)
    ensures r.Some? ==> Shape(r.value)
    decreases |calls|
  {
    if calls == [] then Some(p)
    else match Apply(p, calls[0])
      case None => None
      case Some(q) => Build(Ticked(q), calls[1..])
  }

  // ----- the invariant of every construction -----

  predicate HeldBy(held: seq<seq<Section>>, t: nat, x: Section) { t < |held| && x in held[t] }

  predicate RecordOk(p: Program, r: Rec)
    requires Shape(p)
  {
    match r
    case Plain(_) => true
    case Acquire(m, n) => m in p.lockSeq && n < p.lockSeq[m]
    case Release(m, n) => m in p.lockSeq && n < p.lockSeq[m] && forall u: nat :: u < |p.held| ==>
      !HeldBy(p.held, u, Section(m, n))
    case Arrive(b, i, e) => b in p.barriers && e == p.barriers[b].expected && i <= p.barriers[b].iter
    case Leave(b, i) => b in p.barriers && i <= p.barriers[b].iter
    case Atomic(_, _) => false
    case Cond(_) => false
  }

  predicate Records(p: Program)
    requires Shape(p)
  {
    forall t, i :: 0 <= t < |p.threads| && 0 <= i < |p.threads[t]| ==> RecordOk(p, p.threads[t][i])
  }

  predicate AcquiredIn(q: Trace, n: nat, x: Section)
    requires n <= |q|
  {
    exists i :: 0 <= i < n && q[i] == Acquire(x.mutex, x.seqno)
  }

  /** Held sections were acquired by their thread, by nobody else, and once. */
  predicate Sections(p: Program)
    requires Shape(p)
  {
    && (forall t, j :: 0 <= t < |p.threads| && 0 <= j < |p.held[t]| ==>
          var x := p.held[t][j];
          x.mutex in p.lockSeq && x.seqno < p.lockSeq[x.mutex] && AcquiredIn(p.threads[t], |p.threads[t]|, x))
    && (forall t, j, u, k ::
          (0 <= t < |p.threads| && 0 <= j < |p.held[t]| && 0 <= u < |p.threads| && 0 <= k < |p.held[u]| &&
           p.held[t][j] == p.held[u][k]) ==> t == u && j == k)
  }

  predicate ReleaseAt(threads: seq<Trace>, t: nat, i: nat, x: Section) {
    t < |threads| && i < |threads[t]| && threads[t][i] == Release(x.mutex, x.seqno)
  }

  ghost predicate Releases(threads: seq<Trace>) {
    && (forall t: nat, i: nat, x :: ReleaseAt(threads, t, i, x) ==> AcquiredIn(threads[t], i, x))
    && (forall t, i, u, j, x :: ReleaseAt(threads, t, i, x) && ReleaseAt(threads, u, j, x) ==> t == u && i == j)
  }

  function Expected(p: Program, b: nat, i: nat): nat {
    if b !in p.barriers || i > p.barriers[b].iter then 0
    else if i < p.barriers[b].iter then p.barriers[b].expected
    else p.barriers[b].arrived
  }

  ghost predicate Meetings(p: Program)
    requires Shape(p)
  {
    && (forall b :: b in p.barriers ==> p.barriers[b].arrived < p.barriers[b].expected && b < p.nextBarrier)
    && (forall b, i: nat :: Total(p.threads, b, i) == Expected(p, b, i))
    && (forall m :: m in p.lockSeq ==> m < p.nextMutex)
  }

  ghost predicate Sound(p: Program) {
    Shape(p) && Records(p) && Sections(p) && Releases(p.threads) && Meetings(p)
  }

  // ----- one record more -----

  lemma {:induction false} ArrivedPut(threads: seq<Trace>, t: nat, r: Rec, m: nat, b: nat, i: nat)
    requires t < |threads| && m <= |threads|
    ensures var more := threads[t := threads[t] + [r]];
      Arrived(more, Ends(more), m, b, i) ==
      Arrived(threads, Ends(threads), m, b, i) + (if t < m && r.Arrive? && r.barrier == b && r.iter == i then 1 else 0)
  {
    if m > 0 {
      ArrivedPut(threads, t, r, m - 1, b, i);
      assert threads[m - 1][..|threads[m - 1]|] == threads[m - 1];
      var q := threads[t] + [r];
      assert q[..|q|] == q && q[..|q| - 1] == threads[t];
    }
  }

  lemma TotalPut(p: Program, t: nat, r: Rec, b: nat, i: nat)
    requires Shape(p) && t < |p.threads|
    ensures Total(Put(p, t, r).threads, b, i) ==
            Total(p.threads, b, i) + (if r.Arrive? && r.barrier == b && r.iter == i then 1 else 0)
  {
    ArrivedPut(p.threads, t, r, |p.threads|, b, i);
  }

  /** The appended record is the only new one. */
  lemma PutAt(p: Program, t: nat, r: Rec, u: nat, i: nat)
    requires Shape(p) && t < |p.threads| && u < |p.threads| && i < |Put(p, t, r).threads[u]|
    ensures if i < |p.threads[u]| then Put(p, t, r).threads[u][i] == p.threads[u][i] &&
      Put(p, t, r).calls[u][i] == p.calls[u][i]
            else u == t && i == |p.threads[u]| && Put(p, t, r).threads[u][i] == r && Put(p, t, r).calls[u][i] == p.now
  {
  }

  lemma AcquiredStays(p: Program, t: nat, r: Rec, u: nat, n: nat, x: Section)
    requires Shape(p) && t < |p.threads| && u < |p.threads| && n <= |p.threads[u]| && AcquiredIn(p.threads[u], n, x)
    ensures AcquiredIn(Put(p, t, r).threads[u], n, x)
  {
    var i :| 0 <= i < n && p.threads[u][i] == Acquire(x.mutex, x.seqno);
    assert Put(p, t, r).threads[u][i] == Acquire(x.mutex, x.seqno);
  }

  lemma SectionsStay(p: Program, t: nat, r: Rec)
    requires Sound(p) && t < |p.threads|
    ensures Sections(Put(p, t, r))
  {
    forall u, j | 0 <= u < |p.threads| && 0 <= j < |p.held[u]|
      ensures AcquiredIn(Put(p, t, r).threads[u], |p.threads[u]|, p.held[u][j])
    {
      AcquiredStays(p, t, r, u, |p.threads[u]|, p.held[u][j]);
    }
  }

  lemma ReleasesStay(p: Program, t: nat, r: Rec)
    requires Sound(p) && t < |p.threads| && !r.Release?
    ensures Releases(Put(p, t, r).threads)
  {
    var q := Put(p, t, r).threads;
    forall u: nat, i: nat, x | ReleaseAt(q, u, i, x) ensures ReleaseAt(p.threads, u, i, x) && AcquiredIn(q[u], i, x) {
      PutAt(p, t, r, u, i);
      assert ReleaseAt(p.threads, u, i, x);
      AcquiredStays(p, t, r, u, i, x);
    }
  }

  lemma RecordsStay(p: Program, t: nat, r: Rec, q: Program)
    requires Sound(p) && t < |p.threads| && Shape(q) && q.threads == Put(p, t, r).threads
    requires RecordOk(q, r)
    requires forall o {:trigger RecordOk(q, o)} :: RecordOk(p, o) ==> RecordOk(q, o)
    ensures Records(q)
  {
    forall u, i | 0 <= u < |q.threads| && 0 <= i < |q.threads[u]| ensures RecordOk(q, q.threads[u][i]) {
      PutAt(p, t, r, u, i);
    }
  }

  lemma MeetingsStay(p: Program, t: nat, r: Rec)
    requires Sound(p) && t < |p.threads| && !r.Arrive?
    ensures Meetings(Put(p, t, r))
  {
    forall b, i: nat { TotalPut(p, t, r, b, i); }
  }

  /** A record that is neither a release nor an arrival, and fits the tables. */
  lemma PutKeeps(p: Program, t: nat, r: Rec)
    requires Sound(p) && t < |p.threads| && !r.Release? && !r.Arrive? && RecordOk(p, r)
    ensures Sound(Put(p, t, r))
  {
    SectionsStay(p, t, r);
    ReleasesStay(p, t, r);
    RecordsStay(p, t, r, Put(p, t, r));
    MeetingsStay(p, t, r);
  }

  lemma TakeKeeps(p: Program, t: nat, m: nat)
    requires Sound(p) && t < |p.threads| && m in p.lockSeq
    ensures Sound(TakeSection(p, t, m, p.lockSeq[m]))
  {
    var n := p.lockSeq[m];
    var r, q := Acquire(m, n), TakeSection(p, t, m, n);
    TakeSections(p, t, m);
    ReleasesStay(p, t, r);
    TakeTables(p, t, m);
    RecordsStay(p, t, r, q);
    MeetingsStay(p, t, r);
  }

  lemma TakeTables(p: Program, t: nat, m: nat)
    requires Shape(p) && t < |p.threads| && m in p.lockSeq
    ensures var q := TakeSection(p, t, m, p.lockSeq[m]);
      RecordOk(q, Acquire(m, p.lockSeq[m])) && forall o {:trigger RecordOk(q, o)} :: RecordOk(p, o) ==> RecordOk(q, o)
  {
    var q, x := TakeSection(p, t, m, p.lockSeq[m]), Section(m, p.lockSeq[m]);
    forall u: nat, y | HeldBy(q.held, u, y) ensures HeldBy(p.held, u, y) || y == x {}
  }

  lemma TakeSections(p: Program, t: nat, m: nat)
    requires Sound(p) && t < |p.threads| && m in p.lockSeq
    ensures Sections(TakeSection(p, t, m, p.lockSeq[m]))
  {
    var n := p.lockSeq[m];
    var r, q := Acquire(m, n), TakeSection(p, t, m, n);
    forall u, j | 0 <= u < |q.threads| && 0 <= j < |q.held[u]|
      ensures AcquiredIn(q.threads[u], |q.threads[u]|, q.held[u][j])
    {
      if j < |p.held[u]| {
        AcquiredStays(p, t, r, u, |p.threads[u]|, p.held[u][j]);
      } else {
        assert q.threads[u][|p.threads[u]|] == Acquire(m, n);
      }
    }
  }

  lemma DropKeeps(p: Program, t: nat)
    requires Sound(p) && t < |p.threads| && p.held[t] != []
    ensures Sound(DropSection(p, t))
  {
    var last := |p.held[t]| - 1;
    var x := p.held[t][last];
    var r, q := Release(x.mutex, x.seqno), DropSection(p, t);
    SectionsStay(p, t, r);
    DropReleases(p, t);
    DropTables(p, t);
    RecordsStay(p, t, r, q);
    MeetingsStay(p, t, r);
  }

  lemma DropTables(p: Program, t: nat)
    requires Sound(p) && t < |p.threads| && p.held[t] != []
    ensures var x, q := p.held[t][|p.held[t]| - 1], DropSection(p, t);
      RecordOk(q, Release(x.mutex, x.seqno)) && forall o {:trigger RecordOk(q, o)} :: RecordOk(p, o) ==> RecordOk(q, o)
  {
    DropFree(p, t);
    var q := DropSection(p, t);
    forall u: nat, y | HeldBy(q.held, u, y) ensures HeldBy(p.held, u, y) {}
  }

  lemma DropFree(p: Program, t: nat)
    requires Sound(p) && t < |p.threads| && p.held[t] != []
    ensures var x := p.held[t][|p.held[t]| - 1]; forall u: nat :: !HeldBy(DropSection(p, t).held, u, x)
  {
    var x := p.held[t][|p.held[t]| - 1];
    var held := DropSection(p, t).held;
    forall u, j | 0 <= u < |p.threads| && 0 <= j < |held[u]| ensures held[u][j] != x {
      assert held[u][j] == p.held[u][j];
    }
  }

  lemma DropReleases(p: Program, t: nat)
    requires Sound(p) && t < |p.threads| && p.held[t] != []
    ensures Releases(DropSection(p, t).threads)
  {
    var x := p.held[t][|p.held[t]| - 1];
    var r, q := Release(x.mutex, x.seqno), DropSection(p, t);
    assert HeldBy(p.held, t, x);
    forall u: nat, i: nat, y | ReleaseAt(p.threads, u, i, y) ensures y != x { assert RecordOk(p, p.threads[u][i]); }
    forall u: nat, i: nat, y | ReleaseAt(q.threads, u, i, y)
      ensures ReleaseAt(p.threads, u, i, y) || (u == t && i == |p.threads[t]| && y == x)
      ensures AcquiredIn(q.threads[u], i, y)
    {
      PutAt(p, t, r, u, i);
      if i < |p.threads[u]| {
        assert ReleaseAt(p.threads, u, i, y);
        AcquiredStays(p, t, r, u, i, y);
      } else {
        AcquiredStays(p, t, r, t, |p.threads[t]|, x);
      }
    }
  }

  lemma ArriveKeeps(p: Program, t: nat, b: nat)
    requires Sound(p) && t < |p.threads| && b in p.barriers
    ensures Sound(PutArrive(p, t, b))
  {
    var s, q := p.barriers[b], PutArrive(p, t, b);
    var r := Arrive(b, s.iter, s.expected);
    SectionsStay(p, t, r);
    ReleasesStay(p, t, r);
    ArriveTables(p, t, b);
    RecordsStay(p, t, r, q);
    ArriveMeetings(p, t, b);
  }

  lemma ArriveTables(p: Program, t: nat, b: nat)
    requires Shape(p) && t < |p.threads| && b in p.barriers
    ensures var s, q := p.barriers[b], PutArrive(p, t, b);
      RecordOk(q, Arrive(b, s.iter, s.expected)) && forall o {:trigger RecordOk(q, o)} :: RecordOk(p, o) ==>
        RecordOk(q, o)
  {
  }

  lemma ArriveMeetings(p: Program, t: nat, b: nat)
    requires Sound(p) && t < |p.threads| && b in p.barriers
    ensures Meetings(PutArrive(p, t, b))
  {
    var s, q := p.barriers[b], PutArrive(p, t, b);
    forall c, i: nat ensures Total(q.threads, c, i) == Expected(q, c, i) {
      TotalPut(p, t, Arrive(b, s.iter, s.expected), c, i);
      assert Total(p.threads, c, i) == Expected(p, c, i);
    }
  }

  lemma UnlockKeeps(p: Program, t: nat, m: nat)
    requires Sound(p) && t < |p.threads| && Holds(p, t, m)
    ensures Sound(EmitUnlock(p, t, m))
  {
    PutKeeps(p, t, Plain(m));
    DropKeeps(Put(p, t, Plain(m)), t);
  }

  lemma LockKeeps(p: Program, t: nat, m: nat)
    requires Sound(p) && t < |p.threads| && m in p.lockSeq
    ensures Sound(EmitLock(p, t, m))
  {
    PutKeeps(p, t, Plain(m));
    PutKeeps(Put(p, t, Plain(m)), t, Plain(m));
    TakeKeeps(Put(Put(p, t, Plain(m)), t, Plain(m)), t, m);
  }

  lemma BarrierKeeps(p: Program, t: nat, b: nat)
    requires Sound(p) && t < |p.threads| && b in p.barriers
    ensures Sound(EmitBarrier(p, t, b))
  {
    ArriveKeeps(p, t, b);
    PutKeeps(PutArrive(p, t, b), t, Leave(b, p.barriers[b].iter));
  }

  lemma MutexKeeps(p: Program)
    requires Sound(p)
    ensures Sound(Apply(p, NewMutex).value)
  {
    var q := Apply(p, NewMutex).value;
    assert forall o {:trigger RecordOk(q, o)} :: RecordOk(p, o) ==> RecordOk(q, o);
    forall b, i: nat
      ensures Total(q.threads, b, i) == Expected(q, b, i)
    {
      assert Total(p.threads, b, i) == Expected(p, b, i);
    }
  }

  lemma NewBarrierKeeps(p: Program, e: nat)
    requires Sound(p) && Apply(p, NewBarrier(e)).Some?
    ensures Sound(Apply(p, NewBarrier(e)).value)
  {
    var q := Apply(p, NewBarrier(e)).value;
    assert forall o {:trigger RecordOk(q, o)} :: RecordOk(p, o) ==> RecordOk(q, o);
    forall b, i: nat
      ensures Total(q.threads, b, i) == Expected(q, b, i)
    {
      assert Total(p.threads, b, i) == Expected(p, b, i);
    }
  }

  lemma ApplyKeeps(p: Program, call: Call)
    requires Sound(p) && Apply(p, call).Some?
    ensures Sound(Apply(p, call).value)
  {
    match call
    case NewMutex => MutexKeeps(p);
    case NewBarrier(e) => NewBarrierKeeps(p, e);
    case Work(t, id) => PutKeeps(p, t, Plain(id));
    case Lock(t, m) => LockKeeps(p, t, m);
    case Unlock(t, m) => UnlockKeeps(p, t, m);
    case Meet(t, b) => BarrierKeeps(p, t, b);
  }

  lemma ClockKeeps(p: Program)
    requires Sound(p)
    ensures Sound(Ticked(p))
  {
    var q := Ticked(p);
    assert forall o {:trigger RecordOk(q, o)} :: RecordOk(p, o) ==> RecordOk(q, o);
    forall b, i: nat
      ensures Total(q.threads, b, i) == Expected(q, b, i)
    {
      assert Total(p.threads, b, i) == Expected(p, b, i);
    }
  }

  /** What every call that satisfies D keeps, every construction from such calls keeps. */
  ghost predicate Preserved(Q: Program -> bool, D: (Program, Call) -> bool) {
    forall p, call {:trigger Apply(p, call)} ::
      Shape(p) && Q(p) && D(p, call) && Apply(p, call).Some? ==> Q(Ticked(Apply(p, call).value))
  }

  function Ticked(p: Program): Program { p.(now := p.now + 1) }

  ghost predicate Throughout(D: (Program, Call) -> bool, p: Program, calls: seq<Call>)
    requires Shape(p)
    decreases |calls|
  {
    calls == [] || (D(p, calls[0]) &&
      (Apply(p, calls[0]).Some? ==> Throughout(D, Ticked(Apply(p, calls[0]).value), calls[1..])))
  }

  lemma {:induction false} BuildKeeps(Q: Program -> bool, D: (Program, Call) -> bool, p: Program, calls: seq<Call>)
    requires Shape(p) && Q(p) && Preserved(Q, D) && Throughout(D, p, calls) && Build(p, calls).Some?
    ensures Q(Build(p, calls).value)
    decreases |calls|
  {
    if calls != [] { BuildKeeps(Q, D, Ticked(Apply(p, calls[0]).value), calls[1..]); }
  }

  lemma {:induction false} Always(p: Program, calls: seq<Call>)
    requires Shape(p)
    ensures Throughout((p, call) => true, p, calls)
    decreases |calls|
  {
    if calls != [] && Apply(p, calls[0]).Some? { Always(Ticked(Apply(p, calls[0]).value), calls[1..]); }
  }

  lemma SoundPreserved()
    ensures Preserved(Sound, (p, call) => true)
  {
    forall p, call | Sound(p) && Apply(p, call).Some? ensures Sound(Ticked(Apply(p, call).value)) {
      ApplyKeeps(p, call);
      ClockKeeps(Apply(p, call).value);
    }
  }

  lemma BuildSound(threads: nat, calls: seq<Call>)
    requires Build(New(threads), calls).Some?
    ensures Sound(Build(New(threads), calls).value)
  {
    NewSound(threads);
    SoundPreserved();
    Always(New(threads), calls);
    BuildKeeps(Sound, (p, call) => true, New(threads), calls);
  }

  lemma NewSound(threads: nat)
    ensures Sound(New(threads))
  {
    var p := New(threads);
    forall b, i: nat ensures Total(p.threads, b, i) == 0 { NoneArrived(p.threads, Ends(p.threads), |p.threads|, b, i); }
  }

  lemma SoundTurns(p: Program)
    requires Sound(p)
    ensures Turns(p.threads)
  {
    forall t: nat, i: nat, turn | GivesAt(p.threads, t, i, turn)
      ensures turn.obj.Mutex? && ReleaseAt(p.threads, t, i, Section(turn.obj.addr, turn.n)) &&
        TakenBy(p.threads, t, i, turn)
    {
      assert RecordOk(p, p.threads[t][i]);
      assert ReleaseAt(p.threads, t, i, Section(turn.obj.addr, turn.n));
      var j :| 0 <= j < i && p.threads[t][j] == Acquire(turn.obj.addr, turn.n);
      assert NeedsAt(p.threads, t, j, turn);
    }
  }

  lemma SoundBarriers(p: Program)
    requires Sound(p)
    ensures Barriers(p.threads)
  {
    forall t, i | 0 <= t < |p.threads| && 0 <= i < |p.threads[t]| && p.threads[t][i].Arrive?
      ensures var r := p.threads[t][i]; r.expected > 0 && Total(p.threads, r.barrier, r.iter) <= r.expected
    {
      var r := p.threads[t][i];
      assert RecordOk(p, r);
      assert Total(p.threads, r.barrier, r.iter) == Expected(p, r.barrier, r.iter);
    }
  }

  /** Whatever calls are made, in whatever order, the traces are well built. */
  lemma BuiltWell(threads: nat, calls: seq<Call>)
    requires Build(New(threads), calls).Some?
    ensures WellBuilt(Build(New(threads), calls).value.threads)
  {
    BuildSound(threads, calls);
    SoundTurns(Build(New(threads), calls).value);
    SoundBarriers(Build(New(threads), calls).value);
  }

  /** So recorded programs exclude each other in every replay: when a thread has entered section n + 1 of a
      mutex, section n has retired with all its records. */
  lemma ReplayExcludes(threads: nat, calls: seq<Call>, s: Replay, t: nat, i: nat, m: nat, n: nat)
      returns (t': nat, i': nat)
    requires Build(New(threads), calls).Some?
    requires var traces := Build(New(threads), calls).value.threads;
      Reachable(traces, s) && t < |traces| && i < s.pos[t] <= |traces[t]| && traces[t][i] == Acquire(m, n + 1)
    ensures var traces := Build(New(threads), calls).value.threads;
      t' < |traces| && i' < s.ret[t'] && i' < |traces[t']| && traces[t'][i'] == Release(m, n)
  {
    var traces := Build(New(threads), calls).value.threads;
    BuiltWell(threads, calls);
    assert NeedsAt(traces, t, i, Turn(Mutex(m), n + 1));
    t', i' := MutualExclusion(traces, s, t, i, Mutex(m), n);
    BuildSound(threads, calls);
    assert RecordOk(Build(New(threads), calls).value, traces[t'][i']);
  }
}
