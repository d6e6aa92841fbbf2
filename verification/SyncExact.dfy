/** Exactly which recorded programs can deadlock in replay: those that no order of recording explains, which
    are those that no replay at all completes. */
module SyncExact {
  import opened Options
  import opened SyncReplay
  import opened SyncProgress
  import opened SyncProgram
  import opened SyncDiscipline

  /** In no replay, at no moment before the end, is every thread stuck. */
  ghost predicate NeverStuck(traces: seq<Trace>) {
    forall s :: Reachable(traces, s) ==> Shaped(traces, s) && (Finished(traces, s) || CanStep(traces, s))
  }

  ghost predicate CanStep(traces: seq<Trace>, s: Replay)
    requires Shaped(traces, s)
  {
    exists step :: Enabled(traces, s, step)
  }

  /** Some interleaving reaches the end of every trace. */
  ghost predicate Completable(traces: seq<Trace>) {
    exists steps: seq<Step> :: Finished(traces, Run(traces, Start(traces), steps))
  }

  ghost predicate Explained(traces: seq<Trace>) { exists stamps :: Sensible(traces, stamps) }

  /** All arrivals at one barrier iteration agree on the number of participants. */
  ghost predicate Agreed(traces: seq<Trace>) {
    forall t: nat, j: nat, u: nat, k: nat, b: nat, i: nat ::
      ArriveAt(traces, t, j, b, i) && ArriveAt(traces, u, k, b, i) ==> traces[t][j].expected == traces[u][k].expected
  }

  // ----- the fetch times of a run are an explanation -----

  predicate GivenBy(traces: seq<Trace>, log: Stamps, turn: Turn, when: nat) {
    exists t, i :: 0 <= t < |log| && 0 <= i < |log[t]| && GivesAt(traces, t, i, turn) && log[t][i] < when
  }

  /** The records before index j of thread t were fetched before when. */
  predicate FetchedBy(log: Stamps, t: nat, j: nat, when: nat) {
    t < |log| && j <= |log[t]| && forall k :: 0 <= k < j ==> log[t][k] < when
  }

  ghost predicate MetBy(traces: seq<Trace>, log: Stamps, b: nat, i: nat, when: nat) {
    && Total(traces, b, i) > 0
    && forall t: nat, j: nat :: ArriveAt(traces, t, j, b, i) ==>
         traces[t][j].expected == Total(traces, b, i) && FetchedBy(log, t, j, when)
  }

  /** Why the gate of a record fetched at time when was open. */
  ghost predicate Opened(traces: seq<Trace>, log: Stamps, r: Rec, when: nat) {
    && (forall obj, n: nat :: r.Needs() == Some(Turn(obj, n + 1)) ==> GivenBy(traces, log, Turn(obj, n), when))
    && (r.Leave? ==> MetBy(traces, log, r.barrier, r.iter, when))
  }

  predicate InLog(log: Stamps, t: nat, i: nat) { t < |log| && i < |log[t]| }

  /** log holds the fetch times of the run that led to s, all before clock. */
  ghost predicate Logged(traces: seq<Trace>, s: Replay, log: Stamps, clock: nat) {
    && Invariant(traces, s)
    && |log| == |traces|
    && (forall t :: 0 <= t < |log| ==> |log[t]| == s.pos[t])
    && (forall t: nat, i: nat :: InLog(log, t, i) ==> log[t][i] < clock && Opened(traces, log, traces[t][i], log[t][i]))
    && (forall t: nat, i: nat, j: nat :: InLog(log, t, i) && InLog(log, t, j) && i < j ==> log[t][i] <= log[t][j])
  }

  /** The log with one fetch more. */
  function Note(log: Stamps, t: nat, clock: nat): (r: Stamps)
    requires t < |log|
    ensures |r| == |log| && r[t] == log[t] + [clock] && forall u :: 0 <= u < |log| && u != t ==> r[u] == log[u]
  {
    log[t := log[t] + [clock]]
  }

  lemma GivenStays(traces: seq<Trace>, log: Stamps, t: nat, clock: nat, turn: Turn, when: nat)
    requires t < |log| && GivenBy(traces, log, turn, when)
    ensures GivenBy(traces, Note(log, t, clock), turn, when)
  {
    var u, i :| 0 <= u < |log| && 0 <= i < |log[u]| && GivesAt(traces, u, i, turn) && log[u][i] < when;
    assert Note(log, t, clock)[u][i] == log[u][i];
  }

  lemma MetStays(traces: seq<Trace>, log: Stamps, t: nat, clock: nat, b: nat, i: nat, when: nat)
    requires t < |log| && MetBy(traces, log, b, i, when)
    ensures MetBy(traces, Note(log, t, clock), b, i, when)
  {
    forall u: nat, j: nat | ArriveAt(traces, u, j, b, i) ensures FetchedBy(Note(log, t, clock), u, j, when) {
      assert FetchedBy(log, u, j, when);
    }
  }

  lemma OpenedStays(traces: seq<Trace>, log: Stamps, t: nat, clock: nat, r: Rec, when: nat)
    requires t < |log| && Opened(traces, log, r, when)
    ensures Opened(traces, Note(log, t, clock), r, when)
  {
    forall obj, n: nat | r.Needs() == Some(Turn(obj, n + 1))
      ensures GivenBy(traces, Note(log, t, clock), Turn(obj, n), when)
    {
      GivenStays(traces, log, t, clock, Turn(obj, n), when);
    }
    if r.Leave? { MetStays(traces, log, t, clock, r.barrier, r.iter, when); }
  }

  /** A turn passes when the one before it has been completed, so fetched. */
  lemma TurnOpened(traces: seq<Trace>, s: Replay, log: Stamps, clock: nat, r: Rec, obj: Object, n: nat)
    requires Logged(traces, s, log, clock) && Passes(s.coord, r) && r.Needs() == Some(Turn(obj, n + 1))
    ensures GivenBy(traces, log, Turn(obj, n), clock)
  {
    assert Completed(traces, s.ret, Turn(obj, n));
    var t, i :| 0 <= t < |traces| && 0 <= i < s.ret[t] && GivesAt(traces, t, i, Turn(obj, n));
    assert InLog(log, t, i);
  }

  /** A barrier is left when every arrival at it has retired, as many as were announced. */
  lemma LeaveOpened(traces: seq<Trace>, s: Replay, log: Stamps, clock: nat, t: nat)
    requires Logged(traces, s, log, clock) && WellBuilt(traces) && Agreed(traces)
    requires Enabled(traces, s, Fetch(t)) && traces[t][s.pos[t]].Leave?
    ensures MetBy(traces, log, traces[t][s.pos[t]].barrier, traces[t][s.pos[t]].iter, clock)
  {
    var b, i := traces[t][s.pos[t]].barrier, traces[t][s.pos[t]].iter;
    var phase := Phase(s.coord, b, i);
    assert phase.arrived == Arrived(traces, s.ret, |traces|, b, i);
    assert Announces(traces, b, i, phase.expected);
    var v, l :| 0 <= v < |traces| && 0 <= l < |traces[v]| && ArriveAt(traces, v, l, b, i) &&
      traces[v][l].expected == phase.expected;
    AllArrived(traces, s.ret, |traces|, b, i);
    forall u: nat, j: nat | ArriveAt(traces, u, j, b, i)
      ensures traces[u][j].expected == Total(traces, b, i) && FetchedBy(log, u, j, clock)
    {
      assert j < s.ret[u];
      forall k | 0 <= k < j ensures log[u][k] < clock { assert InLog(log, u, k); }
    }
  }

  lemma FetchOpened(traces: seq<Trace>, s: Replay, log: Stamps, clock: nat, t: nat)
    requires Logged(traces, s, log, clock) && WellBuilt(traces) && Agreed(traces) && Enabled(traces, s, Fetch(t))
    ensures Opened(traces, log, traces[t][s.pos[t]], clock)
  {
    var r := traces[t][s.pos[t]];
    forall obj, n: nat | r.Needs() == Some(Turn(obj, n + 1)) ensures GivenBy(traces, log, Turn(obj, n), clock) {
      TurnOpened(traces, s, log, clock, r, obj, n);
    }
    if r.Leave? { LeaveOpened(traces, s, log, clock, t); }
  }

  lemma NoteFetch(traces: seq<Trace>, s: Replay, log: Stamps, clock: nat, t: nat)
    requires Logged(traces, s, log, clock) && WellBuilt(traces) && Agreed(traces) && Enabled(traces, s, Fetch(t))
    ensures Logged(traces, Next(traces, s, Fetch(t)), Note(log, t, clock), clock + 1)
  {
    var more := Note(log, t, clock);
    FetchKeeps(traces, s, t);
    FetchOpened(traces, s, log, clock, t);
    forall u: nat, i: nat | InLog(more, u, i)
      ensures more[u][i] < clock + 1 && Opened(traces, more, traces[u][i], more[u][i])
    {
      if InLog(log, u, i) {
        OpenedStays(traces, log, t, clock, traces[u][i], log[u][i]);
      } else {
        OpenedStays(traces, log, t, clock, traces[t][s.pos[t]], clock);
      }
    }
    forall u: nat, i: nat, j: nat | InLog(more, u, i) && InLog(more, u, j) && i < j ensures more[u][i] <= more[u][j] {
      assert InLog(log, u, i);
      if InLog(log, u, j) { assert log[u][i] <= log[u][j]; }
    }
  }

  /** The log of a whole run. */
  lemma {:induction false} LogRun(traces: seq<Trace>, s: Replay, log: Stamps, clock: nat, steps: seq<Step>)
      returns (log': Stamps, clock': nat)
    requires Logged(traces, s, log, clock) && WellBuilt(traces) && Agreed(traces)
    ensures Logged(traces, Run(traces, s, steps), log', clock')
    decreases |steps|
  {
    if steps == [] {
      log', clock' := log, clock;
    } else if !Enabled(traces, s, steps[0]) {
      log', clock' := LogRun(traces, s, log, clock, steps[1..]);
    } else if steps[0].Fetch? {
      NoteFetch(traces, s, log, clock, steps[0].t);
      log', clock' := LogRun(traces, Next(traces, s, steps[0]), Note(log, steps[0].t, clock), clock + 1, steps[1..]);
    } else {
      StepKeeps(traces, s, steps[0]);
      log', clock' := LogRun(traces, Next(traces, s, steps[0]), log, clock, steps[1..]);
    }
  }

  lemma LogDated(traces: seq<Trace>, s: Replay, log: Stamps, clock: nat)
    requires Logged(traces, s, log, clock) && Finished(traces, s)
    ensures Dated(traces, log)
  {
    forall t, i, j | 0 <= t < |traces| && 0 <= i < j < |traces[t]| ensures log[t][i] <= log[t][j] {
      assert InLog(log, t, i) && InLog(log, t, j);
    }
  }

  lemma LogTurns(traces: seq<Trace>, s: Replay, log: Stamps, clock: nat)
    requires Logged(traces, s, log, clock) && Finished(traces, s) && Dated(traces, log)
    ensures TurnsInOrder(traces, log)
  {
    forall t, i, obj, n: nat | 0 <= t < |traces| && 0 <= i < |traces[t]| && NeedsAt(traces, t, i, Turn(obj, n + 1))
      ensures GivenBefore(traces, log, Turn(obj, n), log[t][i])
    {
      assert InLog(log, t, i);
      assert GivenBy(traces, log, Turn(obj, n), log[t][i]);
      var u, j :| 0 <= u < |log| && 0 <= j < |log[u]| && GivesAt(traces, u, j, Turn(obj, n)) && log[u][j] < log[t][i];
    }
  }

  lemma LogMet(traces: seq<Trace>, s: Replay, log: Stamps, clock: nat)
    requires Logged(traces, s, log, clock) && Finished(traces, s) && Dated(traces, log)
    ensures BarriersMet(traces, log)
  {
    forall t, i | 0 <= t < |traces| && 0 <= i < |traces[t]| && traces[t][i].Leave?
      ensures Met(traces, log, traces[t][i].barrier, traces[t][i].iter, log[t][i])
    {
      assert InLog(log, t, i);
      assert MetBy(traces, log, traces[t][i].barrier, traces[t][i].iter, log[t][i]);
    }
  }

  /** One complete replay explains the traces: take as stamps the times of its fetches. */
  lemma CompletedExplains(traces: seq<Trace>, steps: seq<Step>) returns (log: Stamps)
    requires WellBuilt(traces) && Agreed(traces) && Finished(traces, Run(traces, Start(traces), steps))
    ensures Sensible(traces, log)
  {
    StartInvariant(traces);
    var clock: nat;
    log, clock := LogRun(traces, Start(traces), seq(|traces|, _ => []), 0, steps);
    var s := Run(traces, Start(traces), steps);
    LogDated(traces, s, log, clock);
    LogTurns(traces, s, log, clock);
    LogMet(traces, s, log, clock);
  }

  // ----- never stuck, so one can complete -----

  lemma {:induction false} GoOn(traces: seq<Trace>, before: seq<Step>) returns (steps: seq<Step>)
    requires NeverStuck(traces)
    ensures Finished(traces, Run(traces, Start(traces), steps))
    decreases SyncProgress.Left(traces, Run(traces, Start(traces), before), |traces|)
  {
    var s := Run(traces, Start(traces), before);
    assert Reachable(traces, s);
    if Finished(traces, s) {
      steps := before;
    } else {
      var step :| Enabled(traces, s, step);
      RunAppend(traces, Start(traces), before, [step]);
      OneStep(traces, s, step);
      StepLowersLeft(traces, s, step, |traces|);
      steps := GoOn(traces, before + [step]);
    }
  }

  lemma ExplainedNeverStuck(traces: seq<Trace>, stamps: Stamps)
    requires Sensible(traces, stamps)
    ensures NeverStuck(traces)
  {
    forall s | Reachable(traces, s) ensures Shaped(traces, s) && (Finished(traces, s) || CanStep(traces, s)) {
      ReachableInvariant(traces, s);
      if !Finished(traces, s) { var _ := NoDeadlock(traces, stamps, s); }
    }
  }

  /** For well-built traces the three are one: some order of recording explains them; no replay ever gets
      stuck; some replay reaches the end. So which thread goes first never decides whether a replay ends. */
  lemma NeverStuckIff(traces: seq<Trace>)
    requires WellBuilt(traces) && Agreed(traces)
    ensures NeverStuck(traces) <==> Explained(traces)
    ensures NeverStuck(traces) <==> Completable(traces)
  {
    if NeverStuck(traces) {
      var steps := GoOn(traces, []);
      assert Completable(traces);
    }
    if Completable(traces) {
      var steps: seq<Step> :| Finished(traces, Run(traces, Start(traces), steps));
      var log := CompletedExplains(traces, steps);
      assert Explained(traces);
    }
    if Explained(traces) {
      var stamps :| Sensible(traces, stamps);
      ExplainedNeverStuck(traces, stamps);
    }
  }

  lemma SoundAgreed(p: Program)
    requires Sound(p)
    ensures Agreed(p.threads)
  {
    forall t: nat, j: nat, u: nat, k: nat, b: nat, i: nat | ArriveAt(p.threads, t, j, b, i) &&
      ArriveAt(p.threads, u, k, b, i)
      ensures p.threads[t][j].expected == p.threads[u][k].expected
    {
      assert RecordOk(p, p.threads[t][j]) && RecordOk(p, p.threads[u][k]);
    }
  }

  /** Whatever the builder accepts replays without deadlock exactly when an order of recording explains its
      traces, and exactly when a single replay of it completes. */
  lemma BuiltNeverStuckIff(threads: nat, calls: seq<Call>)
    requires Build(New(threads), calls).Some?
    ensures var traces := Build(New(threads), calls).value.threads;
      (NeverStuck(traces) <==> Explained(traces)) && (NeverStuck(traces) <==> Completable(traces))
  {
    BuiltWell(threads, calls);
    BuildSound(threads, calls);
    SoundAgreed(Build(New(threads), calls).value);
    NeverStuckIff(Build(New(threads), calls).value.threads);
  }

  /** The double lock is on the other side: nothing explains it and no replay of it completes. */
  lemma RelockUnexplained()
    ensures Build(New(1), Relock()).Some?
    ensures var traces := Build(New(1), Relock()).value.threads; !Explained(traces) && !Completable(traces)
  {
    var s := RelockDeadlocks();
    var traces := Build(New(1), Relock()).value.threads;
    assert !CanStep(traces, s);
    BuiltNeverStuckIff(1, Relock());
  }
}
