/** What the trace builder writes, told from the calls alone: which calls it accepts, and which records each of them
    puts into its thread's trace. */
module SyncWriting {
  import opened Options
  import opened SyncReplay
  import opened SyncProgram

  // ----- what has been called so far -----

  function Mutexes(calls: seq<Call>): nat {
    if calls == [] then 0 else Mutexes(calls[..|calls| - 1]) + (if calls[|calls| - 1].NewMutex? then 1 else 0)
  }

  function Barriers(calls: seq<Call>): nat {
    if calls == [] then 0 else Barriers(calls[..|calls| - 1]) + (if calls[|calls| - 1].NewBarrier? then 1 else 0)
  }

  /** Mutexes get addresses from 0x800000 on, one cache line each. */
  predicate IsMutex(calls: seq<Call>, m: nat) { exists j: nat :: j < Mutexes(calls) && m == 0x800000 + 0x40 * j }

  /** What the barrier at this address waits for; barriers start at 0x900000. */
  function Needed(calls: seq<Call>, b: nat): Option<nat> {
    if calls == [] then None
    else
      var before, last := calls[..|calls| - 1], calls[|calls| - 1];
      if last.NewBarrier? && b == 0x900000 + 0x40 * Barriers(before) then Some(last.expected) else Needed(before, b)
  }

  /** How often the mutex has been locked, by anyone. */
  function Locks(calls: seq<Call>, m: nat): nat {
    if calls == [] then 0
    else
      Locks(calls[..|calls| - 1], m) + (if calls[|calls| - 1].Lock? && calls[|calls| - 1].mutex == m then 1 else 0)
  }

  /** How often anyone has come to the barrier. */
  function Meets(calls: seq<Call>, b: nat): nat {
    if calls == [] then 0
    else
      Meets(calls[..|calls| - 1], b) + (if calls[|calls| - 1].Meet? && calls[|calls| - 1].barrier == b then 1 else 0)
  }

  /** The sections that thread t has entered and not left, the innermost last. */
  function Open(calls: seq<Call>, t: nat): seq<Section> {
    if calls == [] then []
    else
      var before, last := calls[..|calls| - 1], calls[|calls| - 1];
      var open := Open(before, t);
      if last.Lock? && last.t == t then open + [Section(last.mutex, Locks(before, last.mutex))]
      else if last.Unlock? && last.t == t && open != [] then open[..|open| - 1]
      else open
  }

  // ----- what a call is answered with -----

  predicate Accepted(k: nat, before: seq<Call>, call: Call) {
    match call
    case NewMutex => true
    case NewBarrier(e) => 1 <= e <= k
    case Work(t, _) => t < k
    case Lock(t, m) => t < k && IsMutex(before, m)
    case Unlock(t, m) => t < k && var open := Open(before, t); open != [] && open[|open| - 1].mutex == m
    case Meet(t, b) => t < k && Needed(before, b).Some?
  }

  predicate AllAccepted(k: nat, before: seq<Call>, calls: seq<Call>)
    decreases |calls|
  {
    calls == [] || (Accepted(k, before, calls[0]) && AllAccepted(k, before + [calls[0]], calls[1..]))
  }

  /** The records the call appends to the trace of thread t. */
  function Appended(before: seq<Call>, call: Call, t: nat): seq<Rec> {
    match call
    case Work(u, id) => if u == t then [Plain(id)] else []
    case Lock(u, m) => if u == t then [Plain(m), Plain(m), Acquire(m, Locks(before, m))] else []
    case Unlock(u, m) =>
      var open := Open(before, t);
      if u == t && open != [] then [Plain(m), Release(m, open[|open| - 1].seqno)] else []
    case Meet(u, b) =>
      if u == t && Needed(before, b).Some? && Needed(before, b).value > 0 then
        var e := Needed(before, b).value;
        [Arrive(b, Meets(before, b) / e, e), Leave(b, Meets(before, b) / e)]
      else []
    case _ => []
  }

  function Written(calls: seq<Call>, t: nat): Trace {
    if calls == [] then []
    else Written(calls[..|calls| - 1], t) + Appended(calls[..|calls| - 1], calls[|calls| - 1], t)
  }

  // ----- the builder's tables -----

  ghost predicate Tracks(k: nat, calls: seq<Call>, p: Program) {
    && Shape(p) && |p.threads| == k
    && (forall t :: 0 <= t < k ==> p.threads[t] == Written(calls, t) && p.held[t] == Open(calls, t))
    && p.nextMutex == 0x800000 + 0x40 * Mutexes(calls) && p.nextBarrier == 0x900000 + 0x40 * Barriers(calls)
    && (forall m: nat :: m in p.lockSeq <==> IsMutex(calls, m))
    && (forall m: nat :: m in p.lockSeq ==> p.lockSeq[m] == Locks(calls, m))
    && (forall b: nat :: b in p.barriers <==> Needed(calls, b).Some?)
    && (forall b: nat :: b in p.barriers ==> Round(p.barriers[b], Needed(calls, b).value, Meets(calls, b)))
    && (forall b: nat :: b >= p.nextBarrier ==> Needed(calls, b).None? && Meets(calls, b) == 0)
    && (forall m: nat :: !IsMutex(calls, m) ==> Locks(calls, m) == 0)
  }

  /** The barrier is in the round that so many arrivals make. */
  predicate Round(s: Meeting, e: nat, arrivals: nat) {
    e >= 1 && s == Meeting(e, arrivals / e, arrivals % e)
  }

  lemma RoundNext(s: Meeting, e: nat, arrivals: nat)
    requires Round(s, e, arrivals)
    ensures Round(if s.arrived + 1 >= e then Meeting(e, s.iter + 1, 0) else s.(arrived := s.arrived + 1),
                  e, arrivals + 1)
  {
    var q, r := arrivals / e, arrivals % e;
    assert arrivals == e * q + r;
    if r + 1 >= e { Divided(arrivals + 1, e, q + 1, 0); } else { Divided(arrivals + 1, e, q, r + 1); }
  }

  lemma Divided(v: nat, e: nat, q: nat, r: nat)
    requires e >= 1 && r < e && v == e * q + r
    ensures v / e == q && v % e == r
  {
    var d := v / e - q;
    assert v == e * (v / e) + v % e && e * (v / e) == e * q + e * d;
    assert d >= 1 ==> e * d >= e;
    assert d <= -1 ==> e * d + e <= 0;
  }

  lemma NewTracks(k: nat)
    ensures Tracks(k, [], New(k))
  {
  }

  /** One call more. */
  lemma Called(before: seq<Call>, call: Call)
    ensures var calls := before + [call];
      && calls[..|calls| - 1] == before && calls[|calls| - 1] == call
      && Mutexes(calls) == Mutexes(before) + (if call.NewMutex? then 1 else 0)
      && Barriers(calls) == Barriers(before) + (if call.NewBarrier? then 1 else 0)
      && (forall t: nat :: Written(calls, t) == Written(before, t) + Appended(before, call, t))
  {
    var calls := before + [call];
    assert calls[..|before|] == before;
  }

  /** Calls that write one thread's trace and change no table. */
  lemma WorkTracks(k: nat, before: seq<Call>, p: Program, t: nat, id: nat)
    requires Tracks(k, before, p) && t < k
    ensures Tracks(k, before + [Work(t, id)], Apply(p, Work(t, id)).value)
  {
    Called(before, Work(t, id));
    SameTables(k, before, Work(t, id), p);
  }

  lemma SameTables(k: nat, before: seq<Call>, call: Call, p: Program)
    requires Tracks(k, before, p) && (call.Work? || call.Unlock?)
    ensures var calls := before + [call];
      && (forall m: nat :: Locks(calls, m) == Locks(before, m) && (IsMutex(calls, m) <==> IsMutex(before, m)))
      && (forall b: nat :: Needed(calls, b) == Needed(before, b) && Meets(calls, b) == Meets(before, b))
  {
    Called(before, call);
  }

  lemma MutexTracks(k: nat, before: seq<Call>, p: Program)
    requires Tracks(k, before, p)
    ensures Tracks(k, before + [NewMutex], Apply(p, NewMutex).value)
  {
    var calls, q := before + [NewMutex], Apply(p, NewMutex).value;
    Called(before, NewMutex);
    forall m: nat ensures IsMutex(calls, m) <==> IsMutex(before, m) || m == p.nextMutex {
      if m == p.nextMutex { assert Mutexes(before) < Mutexes(calls) && m == 0x800000 + 0x40 * Mutexes(before); }
    }
    assert !IsMutex(before, p.nextMutex);
  }

  lemma BarrierTracks(k: nat, before: seq<Call>, p: Program, e: nat)
    requires Tracks(k, before, p) && 1 <= e <= k
    ensures Tracks(k, before + [NewBarrier(e)], Apply(p, NewBarrier(e)).value)
  {
    var calls := before + [NewBarrier(e)];
    Called(before, NewBarrier(e));
    Divided(0, e, 0, 0);
    forall m: nat ensures IsMutex(calls, m) <==> IsMutex(before, m) {}
  }

  lemma LockWrites(p: Program, t: nat, m: nat)
    requires Shape(p) && t < |p.threads| && m in p.lockSeq
    ensures var q, n := EmitLock(p, t, m), p.lockSeq[m];
      && q.threads == p.threads[t := p.threads[t] + [Plain(m), Plain(m), Acquire(m, n)]]
      && q == p.(threads := q.threads, calls := q.calls, lockSeq := p.lockSeq[m := n + 1],
                 held := p.held[t := p.held[t] + [Section(m, n)]])
  {
    var q, n := p.threads[t], p.lockSeq[m];
    assert q + [Plain(m)] + [Plain(m)] + [Acquire(m, n)] == q + [Plain(m), Plain(m), Acquire(m, n)];
  }

  /** What a lock changes in the history. */
  lemma LockCalled(before: seq<Call>, t: nat, m: nat)
    ensures var calls := before + [Lock(t, m)];
      && (forall x: nat :: Locks(calls, x) == Locks(before, x) + (if x == m then 1 else 0))
      && (forall x: nat :: IsMutex(calls, x) <==> IsMutex(before, x))
      && (forall b: nat :: Needed(calls, b) == Needed(before, b) && Meets(calls, b) == Meets(before, b))
      && (forall u: nat :: Open(calls, u) == Open(before, u) + (if u == t then [Section(m, Locks(before, m))] else []))
  {
    Called(before, Lock(t, m));
  }

  lemma LockTracks(k: nat, before: seq<Call>, p: Program, t: nat, m: nat)
    requires Tracks(k, before, p) && t < k && IsMutex(before, m)
    ensures Tracks(k, before + [Lock(t, m)], EmitLock(p, t, m))
  {
    Called(before, Lock(t, m));
    LockCalled(before, t, m);
    LockWrites(p, t, m);
  }

  lemma UnlockTracks(k: nat, before: seq<Call>, p: Program, t: nat, m: nat)
    requires Tracks(k, before, p) && t < k && Holds(p, t, m)
    ensures Tracks(k, before + [Unlock(t, m)], Apply(p, Unlock(t, m)).value)
  {
    Called(before, Unlock(t, m));
    SameTables(k, before, Unlock(t, m), p);
    var q, n := p.threads[t], p.held[t][|p.held[t]| - 1].seqno;
    assert q + [Plain(m)] + [Release(m, n)] == q + [Plain(m), Release(m, n)];
  }

  lemma MeetWrites(p: Program, t: nat, b: nat)
    requires Shape(p) && t < |p.threads| && b in p.barriers
    ensures var q, s := EmitBarrier(p, t, b), p.barriers[b];
      && q.threads == p.threads[t := p.threads[t] + [Arrive(b, s.iter, s.expected), Leave(b, s.iter)]]
      && q == p.(threads := q.threads, calls := q.calls, completed := q.completed,
                 barriers := p.barriers[b := if s.arrived + 1 >= s.expected then Meeting(s.expected, s.iter + 1, 0)
                                             else s.(arrived := s.arrived + 1)])
  {
    var q, s := p.threads[t], p.barriers[b];
    assert q + [Arrive(b, s.iter, s.expected)] + [Leave(b, s.iter)] ==
      q + [Arrive(b, s.iter, s.expected), Leave(b, s.iter)];
  }

  lemma MeetCalled(before: seq<Call>, t: nat, b: nat)
    ensures var calls := before + [Meet(t, b)];
      && (forall x: nat :: Locks(calls, x) == Locks(before, x) && (IsMutex(calls, x) <==> IsMutex(before, x)))
      && (forall c: nat :: Needed(calls, c) == Needed(before, c))
      && (forall c: nat :: Meets(calls, c) == Meets(before, c) + (if c == b then 1 else 0))
      && (forall u: nat :: Open(calls, u) == Open(before, u))
  {
    Called(before, Meet(t, b));
  }

  lemma MeetTracks(k: nat, before: seq<Call>, p: Program, t: nat, b: nat)
    requires Tracks(k, before, p) && t < k && b in p.barriers
    ensures Tracks(k, before + [Meet(t, b)], EmitBarrier(p, t, b))
  {
    Called(before, Meet(t, b));
    MeetCalled(before, t, b);
    MeetWrites(p, t, b);
    RoundNext(p.barriers[b], Needed(before, b).value, Meets(before, b));
  }

  lemma CallAccepted(k: nat, before: seq<Call>, p: Program, call: Call)
    requires Tracks(k, before, p)
    ensures Apply(p, call).Some? <==> Accepted(k, before, call)
  {
  }

  lemma CallTracks(k: nat, before: seq<Call>, p: Program, call: Call)
    requires Tracks(k, before, p) && Apply(p, call).Some?
    ensures Tracks(k, before + [call], Apply(p, call).value)
  {
    match call
    case NewMutex => MutexTracks(k, before, p);
    case NewBarrier(e) => BarrierTracks(k, before, p, e);
    case Work(t, id) => WorkTracks(k, before, p, t, id);
    case Lock(t, m) => CallAccepted(k, before, p, call); LockTracks(k, before, p, t, m);
    case Unlock(t, m) => UnlockTracks(k, before, p, t, m);
    case Meet(t, b) => MeetTracks(k, before, p, t, b);
  }

  lemma TickTracks(k: nat, calls: seq<Call>, p: Program)
    requires Tracks(k, calls, p)
    ensures Tracks(k, calls, Ticked(p))
  {
  }

  type Tracking = (seq<Call>, Program) -> bool

  /** Each call is accepted as told, and kept track of. */
  ghost predicate Stepwise(k: nat, T: Tracking) {
    forall before, p, call {:trigger T(before, p), Apply(p, call)} :: Shape(p) && T(before, p) ==>
      && (Apply(p, call).Some? <==> Accepted(k, before, call))
      && (Apply(p, call).Some? ==> T(before + [call], Ticked(Apply(p, call).value)))
  }

  lemma TracksStepwise(k: nat)
    ensures Stepwise(k, (before, p) => Tracks(k, before, p))
  {
    forall before, p, call | Shape(p) && Tracks(k, before, p)
      ensures Apply(p, call).Some? <==> Accepted(k, before, call)
      ensures Apply(p, call).Some? ==> Tracks(k, before + [call], Ticked(Apply(p, call).value))
    {
      CallAccepted(k, before, p, call);
      if Apply(p, call).Some? {
        CallTracks(k, before, p, call);
        TickTracks(k, before + [call], Apply(p, call).value);
      }
    }
  }

  lemma {:induction false} BuildTracks(k: nat, T: Tracking, before: seq<Call>, p: Program, calls: seq<Call>)
    requires Stepwise(k, T) && Shape(p) && T(before, p)
    ensures Build(p, calls).Some? <==> AllAccepted(k, before, calls)
    ensures Build(p, calls).Some? ==> T(before + calls, Build(p, calls).value)
    decreases |calls|
  {
    if calls == [] { assert before + calls == before; }
    else {
      var r := Apply(p, calls[0]);
      if r.Some? {
        BuildTracks(k, T, before + [calls[0]], Ticked(r.value), calls[1..]);
        assert before + [calls[0]] + calls[1..] == before + calls;
      }
    }
  }

  /** A construction succeeds exactly when each of its calls is acceptable after those before it, and then every
      thread's trace is what its calls append, record by record. */
  lemma WritesExactly(k: nat, calls: seq<Call>)
    ensures Build(New(k), calls).Some? <==> AllAccepted(k, [], calls)
    ensures Build(New(k), calls).Some? ==> var threads := Build(New(k), calls).value.threads;
      |threads| == k && forall t :: 0 <= t < k ==> threads[t] == Written(calls, t)
  {
    NewTracks(k);
    TracksStepwise(k);
    BuildTracks(k, (before, p) => Tracks(k, before, p), [], New(k), calls);
    assert [] + calls == calls;
  }
}
