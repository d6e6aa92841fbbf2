/** Programs whose calls could have happened in the order they were made: a mutex is locked while it is
    free, and a thread waiting at a barrier makes no calls. Their replays never deadlock. */
module SyncDiscipline {
  import opened Options
  import opened SyncReplay
  import opened SyncProgress
  import opened SyncProgram

  /** No barrier the thread has arrived at is still incomplete. */
  predicate Awake(p: Program, t: nat)
    requires Shape(p)
  {
    t < |p.threads| ==> forall i :: 0 <= i < |p.threads[t]| ==> Leavable(p, p.threads[t][i])
  }

  predicate Leavable(p: Program, r: Rec) {
    r.Leave? ==> r.barrier in p.barriers && r.iter < p.barriers[r.barrier].iter
  }

  predicate Free(p: Program, m: nat) {
    forall t, j :: 0 <= t < |p.held| && 0 <= j < |p.held[t]| ==> p.held[t][j].mutex != m
  }

  /** The call makes sense at this moment. */
  predicate Discipline(p: Program, call: Call) {
    Shape(p) &&
    match call
    case NewMutex => true
    case NewBarrier(_) => true
    case Work(t, _) => Awake(p, t)
    case Lock(t, m) => Awake(p, t) && Free(p, m)
    case Unlock(t, _) => Awake(p, t)
    case Meet(t, _) => Awake(p, t)
  }

  // ----- times -----

  predicate Before(p: Program, limit: nat)
    requires Shape(p)
  {
    forall t, i :: 0 <= t < |p.threads| && 0 <= i < |p.threads[t]| ==> p.calls[t][i] < limit
  }

  /** The thread was let go before time when. */
  predicate LeftBefore(p: Program, r: Rec, when: nat) {
    r.Leave? ==> Leavable(p, r) && (r.barrier, r.iter) in p.completed && p.completed[(r.barrier, r.iter)] < when
  }

  predicate Consecutive(p: Program, t: nat, i: nat, j: nat)
    requires Shape(p) && t < |p.threads| && i < j < |p.threads[t]|
  {
    && p.calls[t][i] <= p.calls[t][j]
    && (p.threads[t][j].Arrive? ==> p.calls[t][i] < p.calls[t][j])
    && LeftBefore(p, p.threads[t][i], p.calls[t][j])
  }

  /** Each thread's records are in order, and follow the completion of the barriers before them. */
  predicate Chronicle(p: Program)
    requires Shape(p)
  {
    forall t, i, j :: 0 <= t < |p.threads| && 0 <= i < j < |p.threads[t]| ==> Consecutive(p, t, i, j)
  }

  /** Exactly the complete iterations have a completion time. */
  ghost predicate Completions(p: Program, limit: nat) {
    && (forall b, i :: (b, i) in p.completed ==>
      b in p.barriers && i < p.barriers[b].iter && p.completed[(b, i)] < limit)
    && (forall b, i :: b in p.barriers && 0 <= i < p.barriers[b].iter ==> (b, i) in p.completed)
  }

  predicate Timely(p: Program, r: Rec, call: nat) {
    && (r.Arrive? && (r.barrier, r.iter) in p.completed ==> call <= p.completed[(r.barrier, r.iter)])
    && (r.Leave? && (r.barrier, r.iter) in p.completed ==> call <= p.completed[(r.barrier, r.iter)])
  }

  /** A barrier iteration is not complete before its arrivals. */
  predicate Punctual(p: Program)
    requires Shape(p)
  {
    forall t, i :: 0 <= t < |p.threads| && 0 <= i < |p.threads[t]| ==> Timely(p, p.threads[t][i], p.calls[t][i])
  }

  predicate ReleasedBefore(p: Program, x: Section, when: nat)
    requires Shape(p)
  {
    exists t, i :: 0 <= t < |p.threads| && 0 <= i < |p.threads[t]| && ReleaseAt(p.threads, t, i, x) &&
      p.calls[t][i] < when
  }

  predicate HeldSomewhere(p: Program, x: Section) {
    exists t, j :: 0 <= t < |p.held| && 0 <= j < |p.held[t]| && p.held[t][j] == x
  }

  /** Only the newest section of a mutex can be held; the others have been released. */
  predicate Hold(p: Program, limit: nat)
    requires Shape(p)
  {
    forall m, n :: m in p.lockSeq && 0 <= n < p.lockSeq[m] ==>
      (HeldSomewhere(p, Section(m, n)) && n + 1 == p.lockSeq[m]) || ReleasedBefore(p, Section(m, n), limit)
  }

  /** Every section was entered after the one before it was released. */
  predicate Handover(p: Program)
    requires Shape(p)
  {
    forall t, i ::
      0 <= t < |p.threads| && 0 <= i < |p.threads[t]| && p.threads[t][i].Acquire? && p.threads[t][i].seqno > 0 ==>
      ReleasedBefore(p, Section(p.threads[t][i].addr, p.threads[t][i].seqno - 1), p.calls[t][i])
  }

  ghost predicate Timed(p: Program, limit: nat)
    requires Shape(p)
  {
    Before(p, limit) && Chronicle(p) && Completions(p, limit) && Punctual(p) && Hold(p, limit) && Handover(p)
  }

  /** What a thread about to record something knows. */
  predicate Ready(p: Program, t: nat)
    requires Shape(p)
  {
    t < |p.threads| && forall i :: 0 <= i < |p.threads[t]| ==>
      p.calls[t][i] <= p.now && LeftBefore(p, p.threads[t][i], p.now)
  }

  lemma AwakeReady(p: Program, t: nat)
    requires Shape(p) && t < |p.threads| && Awake(p, t) && Timed(p, p.now)
    ensures Ready(p, t)
  {
    forall i | 0 <= i < |p.threads[t]| ensures LeftBefore(p, p.threads[t][i], p.now) {
      assert Leavable(p, p.threads[t][i]);
    }
  }

  // ----- one record more -----

  lemma ReleasedStays(p: Program, t: nat, r: Rec, x: Section, when: nat)
    requires Shape(p) && t < |p.threads| && ReleasedBefore(p, x, when)
    ensures ReleasedBefore(Put(p, t, r), x, when)
  {
    var u, i :| 0 <= u < |p.threads| && 0 <= i < |p.threads[u]| && ReleaseAt(p.threads, u, i, x) &&
      p.calls[u][i] < when;
    PutAt(p, t, r, u, i);
    assert ReleaseAt(Put(p, t, r).threads, u, i, x);
  }

  lemma PutChronicle(p: Program, t: nat, r: Rec)
    requires Shape(p) && Chronicle(p) && Ready(p, t)
    requires r.Arrive? ==> forall i :: 0 <= i < |p.threads[t]| ==> p.calls[t][i] < p.now
    ensures Chronicle(Put(p, t, r))
  {
    var q := Put(p, t, r);
    forall u, i, j | 0 <= u < |q.threads| && 0 <= i < j < |q.threads[u]| ensures Consecutive(q, u, i, j) {
      PutAt(p, t, r, u, i);
      PutAt(p, t, r, u, j);
      if j < |p.threads[u]| { assert Consecutive(p, u, i, j); }
    }
  }

  lemma PutBefore(p: Program, t: nat, r: Rec, limit: nat)
    requires Shape(p) && Before(p, limit) && t < |p.threads| && p.now < limit
    ensures Before(Put(p, t, r), limit)
  {
    forall u, i | 0 <= u < |p.threads| && 0 <= i < |Put(p, t, r).threads[u]| ensures Put(p, t, r).calls[u][i] < limit {
      PutAt(p, t, r, u, i);
    }
  }

  lemma PutPunctual(p: Program, t: nat, r: Rec)
    requires Shape(p) && Punctual(p) && t < |p.threads| && Timely(p, r, p.now)
    ensures Punctual(Put(p, t, r))
  {
    var q := Put(p, t, r);
    forall u, i | 0 <= u < |p.threads| && 0 <= i < |q.threads[u]| ensures Timely(q, q.threads[u][i], q.calls[u][i]) {
      PutAt(p, t, r, u, i);
      if i < |p.threads[u]| { assert Timely(p, p.threads[u][i], p.calls[u][i]); }
    }
  }

  lemma PutHold(p: Program, t: nat, r: Rec, limit: nat)
    requires Shape(p) && Hold(p, limit) && t < |p.threads|
    ensures Hold(Put(p, t, r), limit)
  {
    var q := Put(p, t, r);
    forall m, n | m in p.lockSeq && 0 <= n < p.lockSeq[m]
      ensures (HeldSomewhere(q, Section(m, n)) && n + 1 == p.lockSeq[m]) || ReleasedBefore(q, Section(m, n), limit)
    {
      if HeldSomewhere(p, Section(m, n)) && n + 1 == p.lockSeq[m] {
        assert HeldSomewhere(q, Section(m, n));
      } else {
        ReleasedStays(p, t, r, Section(m, n), limit);
      }
    }
  }

  lemma PutHandover(p: Program, t: nat, r: Rec)
    requires Shape(p) && Handover(p) && t < |p.threads|
    requires r.Acquire? && r.seqno > 0 ==> ReleasedBefore(p, Section(r.addr, r.seqno - 1), p.now)
    ensures Handover(Put(p, t, r))
  {
    var q := Put(p, t, r);
    forall u, i | 0 <= u < |p.threads| && 0 <= i < |q.threads[u]| && q.threads[u][i].Acquire? &&
      q.threads[u][i].seqno > 0
      ensures ReleasedBefore(q, Section(q.threads[u][i].addr, q.threads[u][i].seqno - 1), q.calls[u][i])
    {
      PutAt(p, t, r, u, i);
      ReleasedStays(p, t, r, Section(q.threads[u][i].addr, q.threads[u][i].seqno - 1), q.calls[u][i]);
    }
  }

  /** Recording r at the current time keeps everything, up to limit. */
  lemma PutTimed(p: Program, t: nat, r: Rec, limit: nat)
    requires Shape(p) && Timed(p, limit) && Ready(p, t) && p.now < limit && Timely(p, r, p.now)
    requires r.Arrive? ==> forall i :: 0 <= i < |p.threads[t]| ==> p.calls[t][i] < p.now
    requires r.Acquire? && r.seqno > 0 ==> ReleasedBefore(p, Section(r.addr, r.seqno - 1), p.now)
    ensures Timed(Put(p, t, r), limit)
    ensures !r.Leave? ==> Ready(Put(p, t, r), t)
  {
    PutBefore(p, t, r, limit);
    PutChronicle(p, t, r);
    PutPunctual(p, t, r);
    PutHold(p, t, r, limit);
    PutHandover(p, t, r);
  }

  lemma Later(p: Program, limit: nat)
    requires Shape(p) && Timed(p, limit)
    ensures Timed(p, limit + 1)
  {
    forall m, n | m in p.lockSeq && 0 <= n < p.lockSeq[m]
      ensures (HeldSomewhere(p, Section(m, n)) && n + 1 == p.lockSeq[m]) || ReleasedBefore(p, Section(m, n), limit + 1)
    {
      if !(HeldSomewhere(p, Section(m, n)) && n + 1 == p.lockSeq[m]) {
        var u, i :| 0 <= u < |p.threads| && 0 <= i < |p.threads[u]| && ReleaseAt(p.threads, u, i, Section(m, n)) &&
          p.calls[u][i] < limit;
        assert ReleaseAt(p.threads, u, i, Section(m, n)) && p.calls[u][i] < limit + 1;
      }
    }
  }

  // ----- the calls -----

  /** Chronology does not depend on who holds what. */
  lemma SameTimes(p: Program, q: Program, limit: nat)
    requires Shape(p) && Shape(q) && Timed(p, limit) && Hold(q, limit)
    requires q == p.(lockSeq := q.lockSeq, held := q.held)
    ensures Timed(q, limit)
  {
    forall u, i, j | 0 <= u < |q.threads| && 0 <= i < j < |q.threads[u]| ensures Consecutive(q, u, i, j) {
      assert Consecutive(p, u, i, j);
    }
    forall u, i | 0 <= u < |q.threads| && 0 <= i < |q.threads[u]| ensures Timely(q, q.threads[u][i], q.calls[u][i]) {
      assert Timely(p, p.threads[u][i], p.calls[u][i]);
    }
    forall x, when | ReleasedBefore(p, x, when) ensures ReleasedBefore(q, x, when) { ReleasedSame(p, q, x, when); }
  }

  /** An ordinary instruction recorded on the way. */
  lemma PlainTimed(p: Program, t: nat, id: nat, x: Section)
    requires Shape(p) && Timed(p, p.now + 1) && Ready(p, t)
    ensures Timed(Put(p, t, Plain(id)), p.now + 1) && Ready(Put(p, t, Plain(id)), t)
    ensures ReleasedBefore(p, x, p.now) ==> ReleasedBefore(Put(p, t, Plain(id)), x, p.now)
  {
    PutTimed(p, t, Plain(id), p.now + 1);
    if ReleasedBefore(p, x, p.now) { ReleasedStays(p, t, Plain(id), x, p.now); }
  }

  lemma TakeTimed(p: Program, t: nat, m: nat)
    requires Shape(p) && Timed(p, p.now + 1) && Ready(p, t) && Free(p, m) && m in p.lockSeq
    requires p.lockSeq[m] > 0 ==> ReleasedBefore(p, Section(m, p.lockSeq[m] - 1), p.now)
    ensures Timed(TakeSection(p, t, m, p.lockSeq[m]), p.now + 1)
  {
    var r := Acquire(m, p.lockSeq[m]);
    PutTimed(p, t, r, p.now + 1);
    TakeHold(p, t, m, p.now + 1);
    SameTimes(Put(p, t, r), TakeSection(p, t, m, p.lockSeq[m]), p.now + 1);
  }

  lemma LockTimed(p: Program, t: nat, m: nat)
    requires Shape(p) && Timed(p, p.now) && t < |p.threads| && Awake(p, t) && Free(p, m) && m in p.lockSeq
    ensures Timed(EmitLock(p, t, m), p.now + 1)
  {
    var x := Section(m, if p.lockSeq[m] > 0 then p.lockSeq[m] - 1 else 0);
    if p.lockSeq[m] > 0 { FreeReleased(p, m); }
    AwakeReady(p, t);
    Later(p, p.now);
    PlainTimed(p, t, m, x);
    PlainTimed(Put(p, t, Plain(m)), t, m, x);
    TakeTimed(Put(Put(p, t, Plain(m)), t, Plain(m)), t, m);
  }

  /** The newest section of a free mutex has been released. */
  lemma FreeReleased(p: Program, m: nat)
    requires Shape(p) && Timed(p, p.now) && Free(p, m) && m in p.lockSeq && p.lockSeq[m] > 0
    ensures ReleasedBefore(p, Section(m, p.lockSeq[m] - 1), p.now)
  {
  }

  lemma TakeHold(p: Program, t: nat, m: nat, limit: nat)
    requires Shape(p) && t < |p.threads| && Free(p, m) && m in p.lockSeq
    requires Hold(p, limit) && Hold(Put(p, t, Acquire(m, p.lockSeq[m])), limit)
    ensures Hold(TakeSection(p, t, m, p.lockSeq[m]), limit)
  {
    var n := p.lockSeq[m];
    var a, q := Put(p, t, Acquire(m, n)), TakeSection(p, t, m, n);
    forall k, i | k in q.lockSeq && 0 <= i < q.lockSeq[k]
      ensures (HeldSomewhere(q, Section(k, i)) && i + 1 == q.lockSeq[k]) || ReleasedBefore(q, Section(k, i), limit)
    {
      var x := Section(k, i);
      if x == Section(m, n) {
        assert q.held[t][|p.held[t]|] == x;
      } else if HeldSomewhere(a, x) {
        var u, j :| 0 <= u < |a.held| && 0 <= j < |a.held[u]| && a.held[u][j] == x;
        assert q.held[u][j] == x;
      } else {
        ReleasedSame(a, q, x, limit);
      }
    }
  }

  lemma ReleasedSame(p: Program, q: Program, x: Section, limit: nat)
    requires Shape(p) && Shape(q) && q.threads == p.threads && q.calls == p.calls && ReleasedBefore(p, x, limit)
    ensures ReleasedBefore(q, x, limit)
  {
    var u, i :| 0 <= u < |p.threads| && 0 <= i < |p.threads[u]| && ReleaseAt(p.threads, u, i, x) &&
      p.calls[u][i] < limit;
    assert ReleaseAt(q.threads, u, i, x);
  }

  lemma UnlockTimed(p: Program, t: nat, m: nat)
    requires Shape(p) && Timed(p, p.now) && t < |p.threads| && Awake(p, t) && Holds(p, t, m)
    ensures Timed(EmitUnlock(p, t, m), p.now + 1)
  {
    AwakeReady(p, t);
    Later(p, p.now);
    PutTimed(p, t, Plain(m), p.now + 1);
    DropTimed(Put(p, t, Plain(m)), t);
  }

  lemma DropTimed(p: Program, t: nat)
    requires Shape(p) && Timed(p, p.now + 1) && Ready(p, t) && p.held[t] != []
    ensures Timed(DropSection(p, t), p.now + 1)
  {
    var x := p.held[t][|p.held[t]| - 1];
    PutTimed(p, t, Release(x.mutex, x.seqno), p.now + 1);
    DropHold(p, t, p.now + 1);
    SameTimes(Put(p, t, Release(x.mutex, x.seqno)), DropSection(p, t), p.now + 1);
  }

  lemma DropHold(p: Program, t: nat, limit: nat)
    requires Shape(p) && t < |p.threads| && p.held[t] != [] && p.now < limit
    requires var x := p.held[t][|p.held[t]| - 1]; Hold(Put(p, t, Release(x.mutex, x.seqno)), limit)
    ensures Hold(DropSection(p, t), limit)
  {
    var x := p.held[t][|p.held[t]| - 1];
    var a, q := Put(p, t, Release(x.mutex, x.seqno)), DropSection(p, t);
    forall k, i | k in q.lockSeq && 0 <= i < q.lockSeq[k]
      ensures (HeldSomewhere(q, Section(k, i)) && i + 1 == q.lockSeq[k]) || ReleasedBefore(q, Section(k, i), limit)
    {
      var y := Section(k, i);
      if y == x {
        assert ReleaseAt(q.threads, t, |p.threads[t]|, y);
      } else if HeldSomewhere(a, y) && i + 1 == q.lockSeq[k] {
        var u, j :| 0 <= u < |a.held| && 0 <= j < |a.held[u]| && a.held[u][j] == y;
        assert q.held[u][j] == y;
      } else {
        ReleasedSame(a, q, y, limit);
      }
    }
  }

  /** The barrier's counters after an arrival. */
  function Counted(p: Program, b: nat): (q: Program)
    requires Shape(p) && b in p.barriers
    ensures Shape(q)
  {
    var s := p.barriers[b];
    if s.arrived + 1 >= s.expected
    then p.(barriers := p.barriers[b := Meeting(s.expected, s.iter + 1, 0)],
      completed := p.completed[(b, s.iter) := p.now])
    else p.(barriers := p.barriers[b := s.(arrived := s.arrived + 1)])
  }

  lemma CountedLeft(p: Program, b: nat, r: Rec, when: nat)
    requires Shape(p) && b in p.barriers && LeftBefore(p, r, when)
    ensures LeftBefore(Counted(p, b), r, when)
  {
  }

  lemma CountedTimed(p: Program, b: nat, t: nat)
    requires Shape(p) && b in p.barriers && Timed(p, p.now + 1) && Ready(p, t)
    ensures Timed(Counted(p, b), p.now + 1) && Ready(Counted(p, b), t)
  {
    var q := Counted(p, b);
    forall u, i, j | 0 <= u < |q.threads| && 0 <= i < j < |q.threads[u]| ensures Consecutive(q, u, i, j) {
      assert Consecutive(p, u, i, j);
      CountedLeft(p, b, p.threads[u][i], p.calls[u][j]);
    }
    forall i | 0 <= i < |q.threads[t]| ensures LeftBefore(q, q.threads[t][i], q.now) {
      CountedLeft(p, b, p.threads[t][i], p.now);
    }
    CountedPunctual(p, b);
    CountedHold(p, b);
  }

  lemma CountedPunctual(p: Program, b: nat)
    requires Shape(p) && b in p.barriers && Timed(p, p.now + 1)
    ensures Punctual(Counted(p, b))
  {
    var q := Counted(p, b);
    forall u, i | 0 <= u < |q.threads| && 0 <= i < |q.threads[u]| ensures Timely(q, q.threads[u][i], q.calls[u][i]) {
      assert Timely(p, p.threads[u][i], p.calls[u][i]);
    }
  }

  lemma CountedHold(p: Program, b: nat)
    requires Shape(p) && b in p.barriers && Timed(p, p.now + 1)
    ensures Hold(Counted(p, b), p.now + 1) && Handover(Counted(p, b))
  {
    var q := Counted(p, b);
    forall x, when | ReleasedBefore(p, x, when) ensures ReleasedBefore(q, x, when) { ReleasedSame(p, q, x, when); }
    forall x | HeldSomewhere(p, x) ensures HeldSomewhere(q, x) {}
  }

  lemma BarrierTimed(p: Program, t: nat, b: nat)
    requires Shape(p) && Timed(p, p.now) && t < |p.threads| && Awake(p, t) && b in p.barriers
    ensures Timed(EmitBarrier(p, t, b), p.now + 1)
  {
    var s := p.barriers[b];
    var arrive := Arrive(b, s.iter, s.expected);
    AwakeReady(p, t);
    Later(p, p.now);
    assert (b, s.iter) !in p.completed;
    PutTimed(p, t, arrive, p.now + 1);
    CountedTimed(Put(p, t, arrive), b, t);
    assert Counted(Put(p, t, arrive), b) == PutArrive(p, t, b);
    PutTimed(PutArrive(p, t, b), t, Leave(b, s.iter), p.now + 1);
  }

  lemma WorkTimed(p: Program, t: nat, id: nat)
    requires Shape(p) && Timed(p, p.now) && t < |p.threads| && Awake(p, t)
    ensures Timed(Put(p, t, Plain(id)), p.now + 1)
  {
    AwakeReady(p, t);
    Later(p, p.now);
    PutTimed(p, t, Plain(id), p.now + 1);
  }

  lemma MutexTimed(p: Program)
    requires Shape(p) && Timed(p, p.now) && p.nextMutex !in p.lockSeq
    ensures Timed(Apply(p, NewMutex).value, p.now + 1)
  {
    var q := Apply(p, NewMutex).value;
    Later(p, p.now);
    NewHold(p, q);
    SameTimes(p, q.(nextMutex := p.nextMutex), p.now + 1);
    Renumbered(q.(nextMutex := p.nextMutex), q, p.now + 1);
  }

  lemma NewHold(p: Program, q: Program)
    requires Shape(p) && Shape(q) && Hold(p, p.now + 1) && q.threads == p.threads && q.calls == p.calls &&
      q.held == p.held
    requires q.lockSeq == p.lockSeq[p.nextMutex := 0] && p.nextMutex !in p.lockSeq
    ensures Hold(q, p.now + 1) && Hold(q.(nextMutex := p.nextMutex), p.now + 1)
  {
    forall x, when | ReleasedBefore(p, x, when) ensures ReleasedBefore(q, x, when) { ReleasedSame(p, q, x, when); }
    forall x | HeldSomewhere(p, x) ensures HeldSomewhere(q, x) {}
    var r := q.(nextMutex := p.nextMutex);
    forall x, when | ReleasedBefore(p, x, when) ensures ReleasedBefore(r, x, when) { ReleasedSame(p, r, x, when); }
    forall x | HeldSomewhere(p, x) ensures HeldSomewhere(r, x) {}
  }

  /** Nor on the counters for new names and the clock. */
  lemma Renumbered(p: Program, q: Program, limit: nat)
    requires Shape(p) && Shape(q) && Timed(p, limit)
    requires q == p.(nextMutex := q.nextMutex, nextBarrier := q.nextBarrier, now := q.now)
    ensures Timed(q, limit)
  {
    forall u, i, j | 0 <= u < |q.threads| && 0 <= i < j < |q.threads[u]| ensures Consecutive(q, u, i, j) {
      assert Consecutive(p, u, i, j);
    }
    forall u, i | 0 <= u < |q.threads| && 0 <= i < |q.threads[u]| ensures Timely(q, q.threads[u][i], q.calls[u][i]) {
      assert Timely(p, p.threads[u][i], p.calls[u][i]);
    }
    forall x, when | ReleasedBefore(p, x, when) ensures ReleasedBefore(q, x, when) { ReleasedSame(p, q, x, when); }
    forall x | HeldSomewhere(p, x) ensures HeldSomewhere(q, x) {}
  }

  lemma NewBarrierTimed(p: Program, e: nat)
    requires Shape(p) && Timed(p, p.now) && p.nextBarrier !in p.barriers && Apply(p, NewBarrier(e)).Some?
    ensures Timed(Apply(p, NewBarrier(e)).value, p.now + 1)
  {
    var q := Apply(p, NewBarrier(e)).value;
    Later(p, p.now);
    forall u, i, j | 0 <= u < |q.threads| && 0 <= i < j < |q.threads[u]| ensures Consecutive(q, u, i, j) {
      assert Consecutive(p, u, i, j);
    }
    forall u, i | 0 <= u < |q.threads| && 0 <= i < |q.threads[u]| ensures Timely(q, q.threads[u][i], q.calls[u][i]) {
      assert Timely(p, p.threads[u][i], p.calls[u][i]);
    }
    forall x, when | ReleasedBefore(p, x, when) ensures ReleasedBefore(q, x, when) { ReleasedSame(p, q, x, when); }
    forall x | HeldSomewhere(p, x) ensures HeldSomewhere(q, x) {}
  }

  lemma ApplyTimed(p: Program, call: Call)
    requires Sound(p) && Timed(p, p.now) && Discipline(p, call) && Apply(p, call).Some?
    ensures Timed(Apply(p, call).value, p.now + 1)
  {
    match call
    case NewMutex => MutexTimed(p);
    case NewBarrier(e) => NewBarrierTimed(p, e);
    case Work(t, id) => WorkTimed(p, t, id);
    case Lock(t, m) => LockTimed(p, t, m);
    case Unlock(t, m) => UnlockTimed(p, t, m);
    case Meet(t, b) => BarrierTimed(p, t, b);
  }

  ghost predicate Orderly(p: Program) { Sound(p) && Timed(p, p.now) }

  lemma OrderlyPreserved()
    ensures Preserved(Orderly, Discipline)
  {
    forall p, call | Shape(p) && Orderly(p) && Discipline(p, call) && Apply(p, call).Some?
      ensures Orderly(Ticked(Apply(p, call).value))
    {
      ApplyKeeps(p, call);
      ClockKeeps(Apply(p, call).value);
      ApplyTimed(p, call);
      NowSame(p, call);
      Renumbered(Apply(p, call).value, Ticked(Apply(p, call).value), p.now + 1);
    }
  }

  lemma NowSame(p: Program, call: Call)
    requires Shape(p) && Apply(p, call).Some?
    ensures Apply(p, call).value.now == p.now
  {
  }

  /** Every call makes sense when it is made, and in the end nobody waits at a barrier. */
  ghost predicate Recordable(threads: nat, calls: seq<Call>) {
    && Throughout(Discipline, New(threads), calls)
    && Build(New(threads), calls).Some?
    && var p := Build(New(threads), calls).value;
       forall t :: 0 <= t < threads ==> Awake(p, t)
  }

  // ----- from times to stamps -----

  function Stamp(p: Program, t: nat, i: nat): nat
    requires Shape(p) && t < |p.threads| && i < |p.threads[t]|
  {
    var r := p.threads[t][i];
    if r.Leave? && (r.barrier, r.iter) in p.completed then p.completed[(r.barrier, r.iter)] else p.calls[t][i]
  }

  function StampsOf(p: Program): (s: Stamps)
    requires Shape(p)
    ensures |s| == |p.threads|
    ensures forall t :: 0 <= t < |s| ==> |s[t]| == |p.threads[t]|
    ensures forall t, i :: 0 <= t < |s| && 0 <= i < |s[t]| ==> s[t][i] == Stamp(p, t, i)
  {
    seq(|p.threads|, t requires 0 <= t < |p.threads| =>
      seq(|p.threads[t]|, i requires 0 <= i < |p.threads[t]| => Stamp(p, t, i)))
  }

  lemma StampsDated(p: Program)
    requires Sound(p) && Timed(p, p.now)
    ensures Dated(p.threads, StampsOf(p))
  {
    forall t, i, j | 0 <= t < |p.threads| && 0 <= i < j < |p.threads[t]| ensures Stamp(p, t, i) <= Stamp(p, t, j) {
      assert Consecutive(p, t, i, j);
      assert Timely(p, p.threads[t][j], p.calls[t][j]);
    }
  }

  lemma StampsInOrder(p: Program)
    requires Sound(p) && Timed(p, p.now) && Dated(p.threads, StampsOf(p))
    ensures TurnsInOrder(p.threads, StampsOf(p))
  {
    forall t, i, obj, n: nat | 0 <= t < |p.threads| && 0 <= i < |p.threads[t]| &&
      NeedsAt(p.threads, t, i, Turn(obj, n + 1))
      ensures GivenBefore(p.threads, StampsOf(p), Turn(obj, n), StampsOf(p)[t][i])
    {
      assert RecordOk(p, p.threads[t][i]);
      assert ReleasedBefore(p, Section(obj.addr, n), p.calls[t][i]);
      var u, j :| 0 <= u < |p.threads| && 0 <= j < |p.threads[u]| && ReleaseAt(p.threads, u, j, Section(obj.addr, n)) &&
                  p.calls[u][j] < p.calls[t][i];
      assert GivesAt(p.threads, u, j, Turn(obj, n));
    }
  }

  lemma ArrivalGates(p: Program, t: nat, j: nat, when: nat)
    requires Sound(p) && Timed(p, p.now) && Dated(p.threads, StampsOf(p))
    requires t < |p.threads| && j < |p.threads[t]| && p.threads[t][j].Arrive? && p.calls[t][j] <= when
    ensures GatesOlder(p.threads, StampsOf(p), t, j, when)
  {
    forall k | 0 <= k < j && p.threads[t][k].Gated() ensures Stamp(p, t, k) < when {
      assert Consecutive(p, t, k, j);
    }
  }

  lemma StampsMet(p: Program, t: nat, i: nat)
    requires Sound(p) && Timed(p, p.now) && Dated(p.threads, StampsOf(p))
    requires t < |p.threads| && i < |p.threads[t]| && p.threads[t][i].Leave? && Leavable(p, p.threads[t][i])
    ensures Met(p.threads, StampsOf(p), p.threads[t][i].barrier, p.threads[t][i].iter, Stamp(p, t, i))
  {
    var b, n := p.threads[t][i].barrier, p.threads[t][i].iter;
    assert Total(p.threads, b, n) == Expected(p, b, n);
    forall u, j | 0 <= u < |p.threads| && 0 <= j < |p.threads[u]| && ArriveAt(p.threads, u, j, b, n)
      ensures p.threads[u][j].expected == Total(p.threads, b, n) &&
        GatesOlder(p.threads, StampsOf(p), u, j, Stamp(p, t, i))
    {
      assert RecordOk(p, p.threads[u][j]);
      assert Timely(p, p.threads[u][j], p.calls[u][j]);
      ArrivalGates(p, u, j, Stamp(p, t, i));
    }
  }

  lemma NewTimed(threads: nat)
    ensures Timed(New(threads), 0)
  {
  }

  /** Traces recorded in a possible order are sensible. */
  lemma RecordableSensible(threads: nat, calls: seq<Call>)
    requires Recordable(threads, calls)
    ensures var p := Build(New(threads), calls).value; Sensible(p.threads, StampsOf(p))
  {
    var p := Build(New(threads), calls).value;
    NewSound(threads);
    NewTimed(threads);
    OrderlyPreserved();
    BuildKeeps(Orderly, Discipline, New(threads), calls);
    SoundTurns(p);
    SoundBarriers(p);
    StampsDated(p);
    StampsInOrder(p);
    ThreadCount(New(threads), calls);
    forall t, i | 0 <= t < |p.threads| && 0 <= i < |p.threads[t]| && p.threads[t][i].Leave?
      ensures Met(p.threads, StampsOf(p), p.threads[t][i].barrier, p.threads[t][i].iter, StampsOf(p)[t][i])
    {
      assert Awake(p, t);
      StampsMet(p, t, i);
    }
  }

  lemma {:induction false} ThreadCount(p: Program, calls: seq<Call>)
    requires Shape(p) && Build(p, calls).Some?
    ensures |Build(p, calls).value.threads| == |p.threads|
    decreases |calls|
  {
    if calls != [] { ThreadCount(Ticked(Apply(p, calls[0]).value), calls[1..]); }
  }

  /** Freedom from deadlock, for locks and barriers: in every replay of a recordable program, whatever the
      interleaving so far, some thread can fetch or retire until all have finished. */
  lemma NeverDeadlocks(threads: nat, calls: seq<Call>, s: Replay) returns (step: Step)
    requires Recordable(threads, calls)
    requires var traces := Build(New(threads), calls).value.threads; Reachable(traces, s) && !Finished(traces, s)
    ensures Enabled(Build(New(threads), calls).value.threads, s, step)
  {
    RecordableSensible(threads, calls);
    var p := Build(New(threads), calls).value;
    step := NoDeadlock(p.threads, StampsOf(p), s);
  }

  // ----- without the discipline -----

  /** One thread that locks the same mutex twice. */
  function Relock(): seq<Call> { [NewMutex, Lock(0, 0x800000), Lock(0, 0x800000)] }

  function RelockTrace(): Trace {
    var m := 0x800000;
    [Plain(m), Plain(m), Acquire(m, 0), Plain(m), Plain(m), Acquire(m, 1)]
  }

  lemma LockTrace(p: Program, t: nat, m: nat)
    requires Shape(p) && t < |p.threads| && m in p.lockSeq
    ensures var q := EmitLock(p, t, m);
      && |q.threads| == |p.threads|
      && q.threads[t] == p.threads[t] + [Plain(m), Plain(m), Acquire(m, p.lockSeq[m])]
      && q.lockSeq == p.lockSeq[m := p.lockSeq[m] + 1]
  {
  }

  lemma RelockBuilds()
    ensures Build(New(1), Relock()).Some? && Build(New(1), Relock()).value.threads == [RelockTrace()]
  {
    var m := 0x800000;
    var a := Ticked(Apply(New(1), NewMutex).value);
    var b := Ticked(Apply(a, Lock(0, m)).value);
    var c := Ticked(Apply(b, Lock(0, m)).value);
    assert Relock()[1..] == [Lock(0, m), Lock(0, m)] && Relock()[1..][1..] == [Lock(0, m)];
    LockTrace(a, 0, m);
    LockTrace(b, 0, m);
    assert a.threads[0] == [];
    assert b.threads[0] == [Plain(m), Plain(m), Acquire(m, 0)];
    assert c.threads[0] == RelockTrace();
    assert c.threads == [RelockTrace()];
    assert Build(c, []) == Some(c);
    assert [Lock(0, m)][1..] == [];
    assert Build(b, [Lock(0, m)]) == Some(c);
    assert Build(a, [Lock(0, m), Lock(0, m)]) == Some(c);
  }

  /** The first k records fetched. */
  lemma {:induction false} FetchRun(k: nat) returns (steps: seq<Step>)
    requires k <= 5
    ensures Run([RelockTrace()], Start([RelockTrace()]), steps) == Replay(Coordinator(map[], map[], map[]), [k], [0])
  {
    if k == 0 {
      steps := [];
    } else {
      var before := FetchRun(k - 1);
      steps := before + [Fetch(0)];
      RunAppend([RelockTrace()], Start([RelockTrace()]), before, [Fetch(0)]);
      OneStep([RelockTrace()], Replay(Coordinator(map[], map[], map[]), [k - 1], [0]), Fetch(0));
    }
  }

  lemma OneStep(traces: seq<Trace>, s: Replay, step: Step)
    requires Shaped(traces, s) && Enabled(traces, s, step)
    ensures Run(traces, s, [step]) == Next(traces, s, step)
  {
    assert [step][1..] == [];
  }

  lemma {:induction false} RunAppend(traces: seq<Trace>, s: Replay, a: seq<Step>, b: seq<Step>)
    requires Shaped(traces, s)
    ensures Run(traces, s, a + b) == Run(traces, Run(traces, s, a), b)
    decreases |a|
  {
    if a == [] { assert a + b == b; }
    else {
      assert (a + b)[0] == a[0] && (a + b)[1..] == a[1..] + b;
      RunAppend(traces, if Enabled(traces, s, a[0]) then Next(traces, s, a[0]) else s, a[1..], b);
    }
  }

  lemma {:induction false} RetireRun(k: nat) returns (steps: seq<Step>)
    requires k <= 5
    ensures Run([RelockTrace()], Start([RelockTrace()]), steps) == Replay(Coordinator(map[], map[], map[]), [5], [k])
  {
    if k == 0 {
      steps := FetchRun(5);
    } else {
      var before := RetireRun(k - 1);
      steps := before + [Retire(0)];
      RunAppend([RelockTrace()], Start([RelockTrace()]), before, [Retire(0)]);
      OneStep([RelockTrace()], Replay(Coordinator(map[], map[], map[]), [5], [k - 1]), Retire(0));
    }
  }

  /** Locking a mutex that is not free makes a program that the builder accepts and whose replay gets stuck:
      its second acquire waits for a release that comes after it. */
  lemma RelockDeadlocks() returns (s: Replay)
    ensures Build(New(1), Relock()).Some?
    ensures var traces := Build(New(1), Relock()).value.threads;
      && Reachable(traces, s) && Shaped(traces, s) && !Finished(traces, s)
      && forall step :: !Enabled(traces, s, step)
  {
    RelockBuilds();
    var steps := RetireRun(5);
    s := Run([RelockTrace()], Start([RelockTrace()]), steps);
    assert Reachable([RelockTrace()], s);
    assert [RelockTrace()][0] == RelockTrace() && |RelockTrace()| == 6;
  }
}
