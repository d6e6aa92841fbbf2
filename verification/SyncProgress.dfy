/** Replay never deadlocks on traces that were recorded sensibly, and always finishes. */
module SyncProgress {
  import opened Options
  import opened SyncReplay

  /** When each record was recorded; a barrier is left when its iteration completes. */
  type Stamps = seq<seq<nat>>

  predicate Dated(traces: seq<Trace>, stamps: Stamps) {
    && |stamps| == |traces|
    && (forall t :: 0 <= t < |traces| ==> |stamps[t]| == |traces[t]|)
    && (forall t, i, j :: 0 <= t < |traces| && 0 <= i < j < |traces[t]| ==> stamps[t][i] <= stamps[t][j])
  }

  predicate GivenBefore(traces: seq<Trace>, stamps: Stamps, turn: Turn, when: nat)
    requires Dated(traces, stamps)
  {
    exists t, i :: 0 <= t < |traces| && 0 <= i < |traces[t]| && GivesAt(traces, t, i, turn) && stamps[t][i] < when
  }

  /** Every turn was recorded after the one before it was completed. */
  ghost predicate TurnsInOrder(traces: seq<Trace>, stamps: Stamps)
    requires Dated(traces, stamps)
  {
    forall t, i, obj, n: nat :: 0 <= t < |traces| && 0 <= i < |traces[t]| && NeedsAt(traces, t, i, Turn(obj, n + 1)) ==>
      GivenBefore(traces, stamps, Turn(obj, n), stamps[t][i])
  }

  /** The gates before index i of thread t are older than when. */
  predicate GatesOlder(traces: seq<Trace>, stamps: Stamps, t: nat, i: nat, when: nat)
    requires Dated(traces, stamps) && t < |traces| && i < |traces[t]|
  {
    forall j :: 0 <= j < i && traces[t][j].Gated() ==> stamps[t][j] < when
  }

  /** Every barrier that is left has all its participants, and none of them is behind a later gate. */
  predicate BarriersMet(traces: seq<Trace>, stamps: Stamps)
    requires Dated(traces, stamps)
  {
    forall t, i :: 0 <= t < |traces| && 0 <= i < |traces[t]| && traces[t][i].Leave? ==>
      Met(traces, stamps, traces[t][i].barrier, traces[t][i].iter, stamps[t][i])
  }

  predicate Met(traces: seq<Trace>, stamps: Stamps, b: nat, i: nat, when: nat)
    requires Dated(traces, stamps)
  {
    && Total(traces, b, i) > 0
    && forall t, j :: 0 <= t < |traces| && 0 <= j < |traces[t]| && ArriveAt(traces, t, j, b, i) ==>
         traces[t][j].expected == Total(traces, b, i) && GatesOlder(traces, stamps, t, j, when)
  }

  ghost predicate Sensible(traces: seq<Trace>, stamps: Stamps) {
    WellBuilt(traces) && Dated(traces, stamps) && TurnsInOrder(traces, stamps) && BarriersMet(traces, stamps)
  }

  predicate Finished(traces: seq<Trace>, s: Replay)
    requires Shaped(traces, s)
  {
    forall t :: 0 <= t < |traces| ==> s.ret[t] == |traces[t]|
  }

  lemma {:induction false} SomeoneMissing(traces: seq<Trace>, ret: seq<nat>, m: nat, b: nat, i: nat)
      returns (t: nat, j: nat)
    requires m <= |traces| && |ret| == |traces| && forall t :: 0 <= t < |traces| ==> ret[t] <= |traces[t]|
    requires Arrived(traces, ret, m, b, i) < Arrived(traces, Ends(traces), m, b, i)
    ensures t < |traces| && ret[t] <= j && ArriveAt(traces, t, j, b, i)
  {
    if Arrived(traces, ret, m - 1, b, i) < Arrived(traces, Ends(traces), m - 1, b, i) {
      t, j := SomeoneMissing(traces, ret, m - 1, b, i);
    } else {
      t := m - 1;
      AllArrived(traces, ret, m - 1, b, i);
      assert traces[t][..|traces[t]|] == traces[t];
      j := MissingIn(traces[t], ret[t], b, i);
    }
  }

  lemma {:induction false} MissingIn(q: Trace, n: nat, b: nat, i: nat) returns (j: nat)
    requires n <= |q| && Arrivals(q[..n], b, i) < Arrivals(q, b, i)
    ensures n <= j < |q| && q[j].Arrive? && q[j].barrier == b && q[j].iter == i
  {
    var last := |q| - 1;
    assert q[..|q|] == q;
    if q[last].Arrive? && q[last].barrier == b && q[last].iter == i {
      j := last;
    } else {
      assert q[..last][..n] == q[..n];
      j := MissingIn(q[..last], n, b, i);
    }
  }

  /** A gate that is shut waits for a record that has not retired and is older, or is not behind any
      gate that is not older. */
  lemma Obstacle(traces: seq<Trace>, stamps: Stamps, s: Replay, t: nat) returns (t': nat, i': nat)
    requires Invariant(traces, s) && Sensible(traces, stamps)
    requires t < |traces| && s.pos[t] < |traces[t]| && !Passes(s.coord, traces[t][s.pos[t]])
    ensures t' < |traces| && s.ret[t'] <= i' < |traces[t']|
    ensures !traces[t'][i'].Gated() || stamps[t'][i'] < stamps[t][s.pos[t]]
    ensures GatesOlder(traces, stamps, t', i', stamps[t][s.pos[t]])
  {
    var r := traces[t][s.pos[t]];
    if r.Leave? {
      t', i' := LeaveObstacle(traces, stamps, s, t);
    } else {
      var turn := r.Needs().value;
      assert NeedsAt(traces, t, s.pos[t], Turn(turn.obj, turn.n - 1 + 1));
      assert GivenBefore(traces, stamps, Turn(turn.obj, turn.n - 1), stamps[t][s.pos[t]]);
      t', i' :| 0 <= t' < |traces| && 0 <= i' < |traces[t']| && GivesAt(traces, t', i', Turn(turn.obj, turn.n - 1)) &&
                stamps[t'][i'] < stamps[t][s.pos[t]];
      assert !Completed(traces, s.ret, Turn(turn.obj, turn.n - 1));
    }
  }

  lemma LeaveObstacle(traces: seq<Trace>, stamps: Stamps, s: Replay, t: nat) returns (t': nat, i': nat)
    requires Invariant(traces, s) && Sensible(traces, stamps)
    requires t < |traces| && s.pos[t] < |traces[t]| && !Passes(s.coord, traces[t][s.pos[t]]) &&
      traces[t][s.pos[t]].Leave?
    ensures t' < |traces| && s.ret[t'] <= i' < |traces[t']| && traces[t'][i'].Arrive?
    ensures GatesOlder(traces, stamps, t', i', stamps[t][s.pos[t]])
  {
    var r := traces[t][s.pos[t]];
    var b, i := r.barrier, r.iter;
    assert Met(traces, stamps, b, i, stamps[t][s.pos[t]]);
    assert Phase(s.coord, b, i).arrived == Arrived(traces, s.ret, |traces|, b, i);
    if Phase(s.coord, b, i).arrived > 0 {
      assert Announces(traces, b, i, Phase(s.coord, b, i).expected);
    }
    t', i' := SomeoneMissing(traces, s.ret, |traces|, b, i);
  }

  /** Some thread can always go on: follow what shut gates wait for, always towards older records. */
  lemma {:induction false} Follow(traces: seq<Trace>, stamps: Stamps, s: Replay, t: nat) returns (step: Step)
    requires Invariant(traces, s) && Sensible(traces, stamps) && t < |traces| && s.ret[t] < |traces[t]|
    ensures Enabled(traces, s, step)
    decreases if s.pos[t] < |traces[t]| then stamps[t][s.pos[t]] + 1 else 0
  {
    if s.ret[t] < s.pos[t] {
      step := Retire(t);
    } else if Passes(s.coord, traces[t][s.pos[t]]) {
      step := Fetch(t);
    } else {
      var t', i' := Obstacle(traces, stamps, s, t);
      if s.ret[t'] < s.pos[t'] {
        step := Retire(t');
      } else if !traces[t'][s.pos[t']].Gated() {
        step := Fetch(t');
      } else {
        step := Follow(traces, stamps, s, t');
      }
    }
  }

  /** No deadlock: in every reachable state with an unfinished thread, some thread can fetch or retire. */
  lemma NoDeadlock(traces: seq<Trace>, stamps: Stamps, s: Replay) returns (step: Step)
    requires Reachable(traces, s) && Sensible(traces, stamps) && !Finished(traces, s)
    ensures Enabled(traces, s, step)
  {
    ReachableInvariant(traces, s);
    var t :| 0 <= t < |traces| && s.ret[t] != |traces[t]|;
    step := Follow(traces, stamps, s, t);
  }

  // ----- every replay ends -----

  /** Fetches and retirements left in the first m threads. */
  function Left(traces: seq<Trace>, s: Replay, m: nat): nat
    requires Shaped(traces, s) && m <= |traces|
  {
    if m == 0 then 0
    else Left(traces, s, m - 1) + 2 * |traces[m - 1]| - s.pos[m - 1] - s.ret[m - 1]
  }

  lemma {:induction false} StepLowersLeft(traces: seq<Trace>, s: Replay, step: Step, m: nat)
    requires Shaped(traces, s) && Enabled(traces, s, step) && m <= |traces|
    ensures Left(traces, Next(traces, s, step), m) == Left(traces, s, m) - (if step.t < m then 1 else 0)
  {
    if m > 0 { StepLowersLeft(traces, s, step, m - 1); }
  }

  /** Any replay can be continued to the end of every trace; and as each step leaves one less to do, a
      replay that keeps stepping gets there in exactly that many steps. */
  lemma {:induction false} Finish(traces: seq<Trace>, stamps: Stamps, s: Replay) returns (steps: seq<Step>)
    requires Invariant(traces, s) && Sensible(traces, stamps)
    ensures Finished(traces, Run(traces, s, steps)) && |steps| == Left(traces, s, |traces|)
    decreases Left(traces, s, |traces|)
  {
    if Finished(traces, s) {
      steps := [];
      NothingLeft(traces, s, |traces|);
    } else {
      var t :| 0 <= t < |traces| && s.ret[t] != |traces[t]|;
      var step := Follow(traces, stamps, s, t);
      StepLowersLeft(traces, s, step, |traces|);
      StepKeeps(traces, s, step);
      var rest := Finish(traces, stamps, Next(traces, s, step));
      steps := [step] + rest;
    }
  }

  lemma {:induction false} NothingLeft(traces: seq<Trace>, s: Replay, m: nat)
    requires Shaped(traces, s) && m <= |traces| && Finished(traces, s)
    ensures Left(traces, s, m) == 0
  {
    if m > 0 { NothingLeft(traces, s, m - 1); }
  }
}
