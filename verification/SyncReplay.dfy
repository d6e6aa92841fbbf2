/** Replay of recorded synchronisation: gates at fetch, signals at retire, and what they guarantee
    across pipelines that each retire in order. */
module SyncReplay {
  import opened Options

  /** A trace record, as far as synchronisation goes. */
  datatype Rec =
    | Plain(id: nat)
    | Acquire(addr: nat, seqno: nat)
    | Release(addr: nat, seqno: nat)
    | Atomic(addr: nat, seqno: nat)
    | Arrive(barrier: nat, iter: nat, expected: nat)
    | Leave(barrier: nat, iter: nat)
    | Cond(addr: nat)                    // condition variables pass everywhere
  {
    /** sync_needs_gate: the record is held at fetch until the coordinator lets it pass. */
    predicate Gated() { Acquire? || Leave? || Atomic? }

    /** sync_surfaces_as_pseudo or an ordinary instruction: the record goes through the pipeline. */
    predicate Surfaces() { Plain? || Release? || Arrive? || Atomic? }

    /** The turn the record takes, and the turn it completes. */
    function Needs(): Option<Turn> {
      match this
      case Acquire(a, n) => Some(Turn(Mutex(a), n))
      case Atomic(a, n) => Some(Turn(Word(a), n))
      case _ => None
    }

    function Gives(): Option<Turn> {
      match this
      case Release(a, n) => Some(Turn(Mutex(a), n))
      case Atomic(a, n) => Some(Turn(Word(a), n))
      case _ => None
    }
  }

  /** Mutexes and atomic words live in tables of their own. */
  datatype Object = Mutex(addr: nat) | Word(addr: nat)

  datatype Turn = Turn(obj: Object, n: nat)

  /** One barrier iteration; expected is 0 until the first arrival. */
  datatype Iter = Iter(arrived: nat, expected: nat)

  datatype Coordinator = Coordinator(locks: map<nat, int>, atomics: map<nat, int>, barriers: map<(nat, nat), Iter>)

  // ----- the coordinator -----

  /** last_completed_seq, -1 at first. */
  function Last(s: Coordinator, obj: Object): int {
    match obj
    case Mutex(a) => if a in s.locks then s.locks[a] else -1
    case Word(a) => if a in s.atomics then s.atomics[a] else -1
  }

  function Phase(s: Coordinator, barrier: nat, iter: nat): Iter {
    if (barrier, iter) in s.barriers then s.barriers[(barrier, iter)] else Iter(0, 0)
  }

  /** Whether the gate lets the record pass. */
  predicate Passes(s: Coordinator, r: Rec) {
    match r
    case Acquire(_, n) => Last(s, r.Needs().value.obj) + 1 >= n
    case Atomic(_, n) => Last(s, r.Needs().value.obj) + 1 >= n
    case Leave(b, i) => Phase(s, b, i).expected != 0 && Phase(s, b, i).arrived >= Phase(s, b, i).expected
    case _ => true
  }

  /** What retiring the record does. */
  function Notify(s: Coordinator, r: Rec): Coordinator {
    match r
    case Release(_, n) => Signal(s, r.Gives().value)
    case Atomic(_, n) => Signal(s, r.Gives().value)
    case Arrive(b, i, e) =>
      var p := Phase(s, b, i);
      s.(barriers := s.barriers[(b, i) := Iter(p.arrived + 1, if p.expected == 0 && e > 0 then e else p.expected)])
    case _ => s
  }

  function Signal(s: Coordinator, t: Turn): Coordinator {
    if t.n <= Last(s, t.obj) then s
    else match t.obj
      case Mutex(a) => s.(locks := s.locks[a := t.n])
      case Word(a) => s.(atomics := s.atomics[a := t.n])
  }

  // ----- threads -----

  type Trace = seq<Rec>

  /** pos is how far each thread has fetched, ret how far it has retired. Gate records leave the reader
      without entering the pipeline; retiring past one is a formality. */
  datatype Replay = Replay(coord: Coordinator, pos: seq<nat>, ret: seq<nat>)

  datatype Step = Fetch(t: nat) | Retire(t: nat)

  predicate Shaped(traces: seq<Trace>, s: Replay) {
    && |s.pos| == |s.ret| == |traces|
    && forall t :: 0 <= t < |traces| ==> s.ret[t] <= s.pos[t] <= |traces[t]|
  }

  predicate Enabled(traces: seq<Trace>, s: Replay, step: Step)
    requires Shaped(traces, s)
  {
    && step.t < |traces|
    && match step
       case Fetch(t) => s.pos[t] < |traces[t]| && Passes(s.coord, traces[t][s.pos[t]])
       case Retire(t) => s.ret[t] < s.pos[t]
  }

  function Next(traces: seq<Trace>, s: Replay, step: Step): (r: Replay)
    requires Shaped(traces, s) && Enabled(traces, s, step)
    ensures Shaped(traces, r)
  {
    match step
    case Fetch(t) => s.(pos := s.pos[t := s.pos[t] + 1])
    case Retire(t) => s.(coord := Notify(s.coord, traces[t][s.ret[t]]), ret := s.ret[t := s.ret[t] + 1])
  }

  function Start(traces: seq<Trace>): (s: Replay)
    ensures Shaped(traces, s)
  {
    Replay(Coordinator(map[], map[], map[]), seq(|traces|, _ => 0), seq(|traces|, _ => 0))
  }

  /** Any interleaving of fetch polls and retirements; a poll that a gate rejects changes nothing. */
  function Run(traces: seq<Trace>, s: Replay, steps: seq<Step>): (r: Replay)
    requires Shaped(traces, s)
    ensures Shaped(traces, r)
    decreases |steps|
  {
    if steps == [] then s
    else Run(traces, if Enabled(traces, s, steps[0]) then Next(traces, s, steps[0]) else s, steps[1..])
  }

  // ----- traces that make sense -----

  predicate GivesAt(traces: seq<Trace>, t: nat, i: nat, turn: Turn) {
    t < |traces| && i < |traces[t]| && traces[t][i].Gives() == Some(turn)
  }

  predicate NeedsAt(traces: seq<Trace>, t: nat, i: nat, turn: Turn) {
    t < |traces| && i < |traces[t]| && traces[t][i].Needs() == Some(turn)
  }

  function Arrivals(q: Trace, barrier: nat, iter: nat): nat {
    if q == [] then 0
    else Arrivals(q[..|q| - 1], barrier, iter) +
         (if q[|q| - 1].Arrive? && q[|q| - 1].barrier == barrier && q[|q| - 1].iter == iter then 1 else 0)
  }

  /** Arrivals among the first ret[t] records of each of the first m threads. */
  function Arrived(traces: seq<Trace>, ret: seq<nat>, m: nat, barrier: nat, iter: nat): nat
    requires m <= |traces| && |ret| == |traces| && forall t :: 0 <= t < |traces| ==> ret[t] <= |traces[t]|
  {
    if m == 0 then 0
    else Arrived(traces, ret, m - 1, barrier, iter) + Arrivals(traces[m - 1][..ret[m - 1]], barrier, iter)
  }

  function Ends(traces: seq<Trace>): (e: seq<nat>)
    ensures |e| == |traces| && forall t :: 0 <= t < |traces| ==> e[t] == |traces[t]|
  {
    seq(|traces|, t requires 0 <= t < |traces| => |traces[t]|)
  }

  function Total(traces: seq<Trace>, barrier: nat, iter: nat): nat {
    Arrived(traces, Ends(traces), |traces|, barrier, iter)
  }

  /** A turn is completed at most once, by the thread that took it, after taking it. */
  ghost predicate Turns(traces: seq<Trace>) {
    && (forall t, i, t', i', turn :: GivesAt(traces, t, i, turn) && GivesAt(traces, t', i', turn) ==>
      t == t' && i == i')
    && (forall t, i, turn :: GivesAt(traces, t, i, turn) ==> TakenBy(traces, t, i, turn))
  }

  predicate TakenBy(traces: seq<Trace>, t: nat, i: nat, turn: Turn) {
    exists j :: 0 <= j <= i && NeedsAt(traces, t, j, turn)
  }

  /** An arrival knows how many participants its iteration has, and there are no more. */
  predicate Barriers(traces: seq<Trace>) {
    forall t, i :: 0 <= t < |traces| && 0 <= i < |traces[t]| && traces[t][i].Arrive? ==>
      var r := traces[t][i];
      r.expected > 0 && Total(traces, r.barrier, r.iter) <= r.expected
  }

  ghost predicate WellBuilt(traces: seq<Trace>) { Turns(traces) && Barriers(traces) }

  // ----- the invariant -----

  predicate Completed(traces: seq<Trace>, ret: seq<nat>, turn: Turn)
    requires |ret| == |traces|
  {
    exists t, i :: 0 <= t < |traces| && 0 <= i < ret[t] && GivesAt(traces, t, i, turn)
  }

  /** The completed turns of an object are 0, 1, ..., last_completed_seq. */
  ghost predicate InTurn(traces: seq<Trace>, s: Replay)
    requires Shaped(traces, s)
  {
    && (forall obj :: Last(s.coord, obj) >= -1)
    && (forall obj, n: nat :: Completed(traces, s.ret, Turn(obj, n)) <==> n <= Last(s.coord, obj))
  }

  /** A turn that has been taken comes after completed ones. */
  ghost predicate Taken(traces: seq<Trace>, s: Replay)
    requires Shaped(traces, s)
  {
    forall t, i, turn :: 0 <= t < |traces| && 0 <= i < s.pos[t] && NeedsAt(traces, t, i, turn) ==>
      turn.n <= Last(s.coord, turn.obj) + 1
  }

  ghost predicate Phases(traces: seq<Trace>, s: Replay)
    requires Shaped(traces, s)
  {
    forall b, i: nat ::
      && Phase(s.coord, b, i).arrived == Arrived(traces, s.ret, |traces|, b, i)
      && (if Phase(s.coord, b, i).arrived > 0 then Total(traces, b, i) <= Phase(s.coord, b, i).expected
          else Phase(s.coord, b, i).expected == 0)
  }

  predicate ArriveAt(traces: seq<Trace>, t: nat, j: nat, b: nat, i: nat) {
    t < |traces| && j < |traces[t]| && traces[t][j].Arrive? && traces[t][j].barrier == b && traces[t][j].iter == i
  }

  predicate Announces(traces: seq<Trace>, b: nat, i: nat, expected: nat) {
    exists t, j :: 0 <= t < |traces| && 0 <= j < |traces[t]| && ArriveAt(traces, t, j, b, i) &&
      traces[t][j].expected == expected
  }

  /** The number of participants comes from an arrival. */
  ghost predicate Announced(traces: seq<Trace>, s: Replay) {
    forall b, i: nat :: Phase(s.coord, b, i).arrived > 0 ==> Announces(traces, b, i, Phase(s.coord, b, i).expected)
  }

  /** A barrier that has been left was complete. */
  ghost predicate Left(traces: seq<Trace>, s: Replay)
    requires Shaped(traces, s)
  {
    forall t, i :: 0 <= t < |traces| && 0 <= i < s.pos[t] && traces[t][i].Leave? ==>
      && 0 < Arrived(traces, s.ret, |traces|, traces[t][i].barrier, traces[t][i].iter)
      && Total(traces, traces[t][i].barrier, traces[t][i].iter) <=
         Arrived(traces, s.ret, |traces|, traces[t][i].barrier, traces[t][i].iter)
  }

  ghost predicate Invariant(traces: seq<Trace>, s: Replay) {
    Shaped(traces, s) && InTurn(traces, s) && Taken(traces, s) && Phases(traces, s) && Announced(traces, s) &&
      Left(traces, s)
  }

  lemma {:induction false} NoneArrived(traces: seq<Trace>, ret: seq<nat>, m: nat, b: nat, i: nat)
    requires m <= |traces| && |ret| == |traces| && forall t :: 0 <= t < |traces| ==> ret[t] == 0
    ensures Arrived(traces, ret, m, b, i) == 0
  {
    if m > 0 { NoneArrived(traces, ret, m - 1, b, i); }
  }

  lemma StartInvariant(traces: seq<Trace>)
    ensures Invariant(traces, Start(traces))
  {
    var s := Start(traces);
    forall b, i: nat ensures Arrived(traces, s.ret, |traces|, b, i) == 0 { NoneArrived(traces, s.ret, |traces|, b, i); }
  }

  lemma FetchKeeps(traces: seq<Trace>, s: Replay, t: nat)
    requires Invariant(traces, s) && Enabled(traces, s, Fetch(t))
    ensures Invariant(traces, Next(traces, s, Fetch(t)))
  {
    var r := traces[t][s.pos[t]];
    if r.Leave? { assert Phase(s.coord, r.barrier, r.iter).arrived > 0; }
  }

  // Retiring

  /** Retiring completes the turn that comes next: last_completed_seq rises by exactly one. */
  lemma SignalNext(traces: seq<Trace>, s: Replay, t: nat)
    requires Invariant(traces, s) && Turns(traces) && Enabled(traces, s, Retire(t))
    requires traces[t][s.ret[t]].Gives().Some?
    ensures var turn := traces[t][s.ret[t]].Gives().value;
      turn.n == Last(s.coord, turn.obj) + 1
  {
    var turn := traces[t][s.ret[t]].Gives().value;
    assert GivesAt(traces, t, s.ret[t], turn);
    assert TakenBy(traces, t, s.ret[t], turn);
    var j :| 0 <= j <= s.ret[t] && NeedsAt(traces, t, j, turn);
    assert !Completed(traces, s.ret, turn);
  }

  lemma RetireCompletes(traces: seq<Trace>, s: Replay, t: nat, turn: Turn)
    requires Shaped(traces, s) && Enabled(traces, s, Retire(t))
    ensures Completed(traces, Next(traces, s, Retire(t)).ret, turn) <==>
            Completed(traces, s.ret, turn) || traces[t][s.ret[t]].Gives() == Some(turn)
  {
    var ret' := s.ret[t := s.ret[t] + 1];
    if Completed(traces, s.ret, turn) {
      var u, i :| 0 <= u < |traces| && 0 <= i < s.ret[u] && GivesAt(traces, u, i, turn);
      assert i < ret'[u];
    }
    if traces[t][s.ret[t]].Gives() == Some(turn) { assert GivesAt(traces, t, s.ret[t], turn); }
  }

  lemma RetireInTurn(traces: seq<Trace>, s: Replay, t: nat)
    requires Invariant(traces, s) && Turns(traces) && Enabled(traces, s, Retire(t))
    ensures InTurn(traces, Next(traces, s, Retire(t)))
  {
    var r, s' := traces[t][s.ret[t]], Next(traces, s, Retire(t));
    if r.Gives().Some? { SignalNext(traces, s, t); }
    forall obj { LastGrows(s.coord, r, obj); }
    forall obj, n: nat ensures Completed(traces, s'.ret, Turn(obj, n)) <==> n <= Last(s'.coord, obj) {
      RetireCompletes(traces, s, t, Turn(obj, n));
    }
  }

  lemma LastGrows(s: Coordinator, r: Rec, obj: Object)
    ensures Last(Notify(s, r), obj) >= Last(s, obj)
  {
  }

  lemma RetireTaken(traces: seq<Trace>, s: Replay, t: nat)
    requires Invariant(traces, s) && Enabled(traces, s, Retire(t))
    ensures Taken(traces, Next(traces, s, Retire(t)))
  {
    forall obj { LastGrows(s.coord, traces[t][s.ret[t]], obj); }
  }

  lemma {:induction false} ArrivedStep(traces: seq<Trace>, ret: seq<nat>, t: nat, m: nat, b: nat, i: nat)
    requires m <= |traces| && |ret| == |traces| && forall u :: 0 <= u < |traces| ==> ret[u] <= |traces[u]|
    requires t < |traces| && ret[t] < |traces[t]|
    ensures Arrived(traces, ret[t := ret[t] + 1], m, b, i) == Arrived(traces, ret, m, b, i) +
            (if t < m && traces[t][ret[t]].Arrive? && traces[t][ret[t]].barrier == b && traces[t][ret[t]].iter == i
              then 1 else 0)
  {
    if m > 0 {
      ArrivedStep(traces, ret, t, m - 1, b, i);
      if t == m - 1 { assert traces[t][..ret[t] + 1][..ret[t]] == traces[t][..ret[t]]; }
    }
  }

  lemma RetirePhases(traces: seq<Trace>, s: Replay, t: nat)
    requires Invariant(traces, s) && Barriers(traces) && Enabled(traces, s, Retire(t))
    ensures Phases(traces, Next(traces, s, Retire(t)))
  {
    var r, s' := traces[t][s.ret[t]], Next(traces, s, Retire(t));
    forall b, i: nat
      ensures Phase(s'.coord, b, i).arrived == Arrived(traces, s'.ret, |traces|, b, i)
      ensures if Phase(s'.coord, b, i).arrived > 0 then Total(traces, b, i) <= Phase(s'.coord, b, i).expected
              else Phase(s'.coord, b, i).expected == 0
    {
      ArrivedStep(traces, s.ret, t, |traces|, b, i);
      NotifyPhase(s.coord, r, b, i);
      assert r.Arrive? ==> traces[t][s.ret[t]].expected > 0;
      assert Phase(s.coord, b, i).arrived == Arrived(traces, s.ret, |traces|, b, i);
    }
  }

  lemma RetireAnnounced(traces: seq<Trace>, s: Replay, t: nat)
    requires Invariant(traces, s) && Barriers(traces) && Enabled(traces, s, Retire(t))
    ensures Announced(traces, Next(traces, s, Retire(t)))
  {
    var r, s' := traces[t][s.ret[t]], Next(traces, s, Retire(t));
    forall b, i: nat | Phase(s'.coord, b, i).arrived > 0
      ensures Announces(traces, b, i, Phase(s'.coord, b, i).expected)
    {
      NotifyPhase(s.coord, r, b, i);
      if r.Arrive? && r.barrier == b && r.iter == i { assert ArriveAt(traces, t, s.ret[t], b, i); }
    }
  }

  lemma NotifyPhase(s: Coordinator, r: Rec, b: nat, i: nat)
    ensures var p, p' := Phase(s, b, i), Phase(Notify(s, r), b, i);
      if r.Arrive? && r.barrier == b && r.iter == i
      then p'.arrived == p.arrived + 1 && p'.expected == (if p.expected == 0 then r.expected else p.expected)
      else p' == p
  {
  }

  lemma RetireLeft(traces: seq<Trace>, s: Replay, t: nat)
    requires Invariant(traces, s) && Enabled(traces, s, Retire(t))
    ensures Left(traces, Next(traces, s, Retire(t)))
  {
    var s' := Next(traces, s, Retire(t));
    forall b, i: nat ensures Arrived(traces, s'.ret, |traces|, b, i) >= Arrived(traces, s.ret, |traces|, b, i) {
      ArrivedStep(traces, s.ret, t, |traces|, b, i);
    }
  }

  lemma StepKeeps(traces: seq<Trace>, s: Replay, step: Step)
    requires Invariant(traces, s) && WellBuilt(traces) && Enabled(traces, s, step)
    ensures Invariant(traces, Next(traces, s, step))
  {
    match step
    case Fetch(t) => FetchKeeps(traces, s, t);
    case Retire(t) =>
      RetireInTurn(traces, s, t);
      RetireTaken(traces, s, t);
      RetirePhases(traces, s, t);
      RetireAnnounced(traces, s, t);
      RetireLeft(traces, s, t);
  }

  lemma {:induction false} RunKeeps(traces: seq<Trace>, s: Replay, steps: seq<Step>)
    requires Invariant(traces, s) && WellBuilt(traces)
    ensures Invariant(traces, Run(traces, s, steps))
    decreases |steps|
  {
    if steps != [] {
      if Enabled(traces, s, steps[0]) {
        StepKeeps(traces, s, steps[0]);
        RunKeeps(traces, Next(traces, s, steps[0]), steps[1..]);
      } else {
        RunKeeps(traces, s, steps[1..]);
      }
    }
  }

  // ----- what the replay guarantees -----

  ghost predicate Reachable(traces: seq<Trace>, s: Replay) {
    exists steps: seq<Step> :: s == Run(traces, Start(traces), steps)
  }

  lemma ReachableInvariant(traces: seq<Trace>, s: Replay)
    requires Reachable(traces, s) && WellBuilt(traces)
    ensures Invariant(traces, s)
  {
    var steps: seq<Step> :| s == Run(traces, Start(traces), steps);
    StartInvariant(traces);
    RunKeeps(traces, Start(traces), steps);
  }

  /** Mutual exclusion across pipelines: once turn n + 1 of a mutex has been taken, so before any record
      of that critical section is even fetched, turn n has been completed, and with its release every
      record of section n has retired. */
  lemma MutualExclusion(traces: seq<Trace>, s: Replay, t: nat, i: nat, obj: Object, n: nat) returns (t': nat, i': nat)
    requires Reachable(traces, s) && WellBuilt(traces)
    requires NeedsAt(traces, t, i, Turn(obj, n + 1)) && i < s.pos[t]
    ensures GivesAt(traces, t', i', Turn(obj, n)) && i' < s.ret[t']
    ensures forall u, j :: GivesAt(traces, u, j, Turn(obj, n)) ==> u == t' && j == i'
  {
    ReachableInvariant(traces, s);
    assert Completed(traces, s.ret, Turn(obj, n));
    t', i' :| 0 <= t' < |traces| && 0 <= i' < s.ret[t'] && GivesAt(traces, t', i', Turn(obj, n));
  }

  /** Two critical sections of one mutex never overlap: if both have been entered, the earlier one has
      retired completely. */
  lemma SectionsDisjoint(traces: seq<Trace>, s: Replay, t: nat, i: nat, t': nat, i': nat, obj: Object, n: nat, n': nat)
    requires Reachable(traces, s) && WellBuilt(traces) && n < n'
    requires NeedsAt(traces, t', i', Turn(obj, n')) && i' < s.pos[t']
    requires GivesAt(traces, t, i, Turn(obj, n))
    ensures i < s.ret[t]
  {
    ReachableInvariant(traces, s);
    assert Completed(traces, s.ret, Turn(obj, n));
  }

  /** Every release advances its mutex by exactly one; nothing else does. */
  lemma ReleaseByOne(traces: seq<Trace>, s: Replay, step: Step, obj: Object)
    requires Reachable(traces, s) && WellBuilt(traces) && Enabled(traces, s, step)
    ensures var r := traces[step.t][if step.Retire? then s.ret[step.t] else s.pos[step.t]];
      Last(Next(traces, s, step).coord, obj) == Last(s.coord, obj) +
        (if step.Retire? && r.Gives().Some? && r.Gives().value.obj == obj then 1 else 0)
  {
    ReachableInvariant(traces, s);
    if step.Retire? && traces[step.t][s.ret[step.t]].Gives().Some? { SignalNext(traces, s, step.t); }
  }

  lemma {:induction false} ArrivalsPrefix(q: Trace, n: nat, b: nat, i: nat)
    requires n <= |q|
    ensures Arrivals(q[..n], b, i) <= Arrivals(q, b, i)
    ensures Arrivals(q[..n], b, i) == Arrivals(q, b, i) ==>
      forall j :: n <= j < |q| ==> !(q[j].Arrive? && q[j].barrier == b && q[j].iter == i)
  {
    if n < |q| {
      ArrivalsPrefix(q[..|q| - 1], n, b, i);
      assert q[..|q| - 1][..n] == q[..n];
    } else {
      assert q[..n] == q;
    }
  }

  lemma {:induction false} AllArrived(traces: seq<Trace>, ret: seq<nat>, m: nat, b: nat, i: nat)
    requires m <= |traces| && |ret| == |traces| && forall t :: 0 <= t < |traces| ==> ret[t] <= |traces[t]|
    ensures Arrived(traces, ret, m, b, i) <= Arrived(traces, Ends(traces), m, b, i)
    ensures Arrived(traces, ret, m, b, i) == Arrived(traces, Ends(traces), m, b, i) ==>
      forall t, j :: 0 <= t < m && ret[t] <= j < |traces[t]| ==>
        !(traces[t][j].Arrive? && traces[t][j].barrier == b && traces[t][j].iter == i)
  {
    if m > 0 {
      AllArrived(traces, ret, m - 1, b, i);
      ArrivalsPrefix(traces[m - 1], ret[m - 1], b, i);
      assert traces[m - 1][..|traces[m - 1]|] == traces[m - 1];
    }
  }

  /** No thread leaves a barrier iteration before every arrival of that iteration has retired. */
  lemma BarrierHolds(traces: seq<Trace>, s: Replay, t: nat, i: nat, t': nat, i': nat)
    requires Reachable(traces, s) && WellBuilt(traces)
    requires t < |traces| && i < s.pos[t] && traces[t][i].Leave?
    requires t' < |traces| && i' < |traces[t']| && traces[t'][i'].Arrive?
    requires traces[t'][i'].barrier == traces[t][i].barrier && traces[t'][i'].iter == traces[t][i].iter
    ensures i' < s.ret[t']
  {
    ReachableInvariant(traces, s);
    AllArrived(traces, s.ret, |traces|, traces[t][i].barrier, traces[t][i].iter);
  }
}
