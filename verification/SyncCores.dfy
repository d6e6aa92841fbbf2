/** Whole out-of-order cores over their trace files, with the coordinator at their gates: when they all finish. */
module SyncCores {
  import opened Options
  import opened FairRuns
  import P = Pipeline
  import PI = PipelineInvariant
  import PN = PipelineInduction
  import PP = PipelineProgress
  import PS = PipelineSafety
  import L = SyncSimulation
  import R = SyncReplay
  import SP = SyncProgress
  import SD = SyncDiscipline
  import X = SyncExact
  import T = TraceReader
  import TC = TraceCodec

  type File = seq<TC.AnyRecord>

  /** A core and its reader; the thread's pipe holds the items that the core has fetched and not retired. */
  datatype Unit = Unit(core: P.Core, thread: L.Thread)

  datatype Cluster = Cluster(coord: R.Coordinator, units: seq<Unit>)

  function LiveOf(cl: Cluster): (l: L.Live)
    ensures l.coord == cl.coord && |l.threads| == |cl.units|
    ensures forall t :: 0 <= t < |cl.units| ==> l.threads[t] == cl.units[t].thread
  {
    L.Live(cl.coord, seq(|cl.units|, t requires 0 <= t < |cl.units| => cl.units[t].thread))
  }

  // ----- a cycle of one core -----

  /** m items retire; each tells the coordinator. */
  function CommitN(coord: R.Coordinator, th: L.Thread, m: int): (R.Coordinator, L.Thread)
    decreases m
  {
    if m <= 0 || th.pipe == [] then (coord, th)
    else CommitN(R.Notify(coord, L.Told(th.pipe[0])), th.(pipe := th.pipe[1..]), m - 1)
  }

  /** The fetch loop over the reader: an item, a shut gate, or the end of the trace. */
  function FetchFrom(c: P.Core, th: L.Thread, coord: R.Coordinator, n: nat): (P.Core, L.Thread)
    decreases n
  {
    if n == 0 || |c.dispq| >= c.cfg.dispCap then (c, th)
    else
      var th' := L.Polled(th, coord);
      if |th'.pipe| > |th.pipe| then
        if c.rest == [] then (c, th')
        else
          var d := P.FetchOne(c);
          if d.stalled then (d, th') else FetchFrom(d, th', coord, n - 1)
      else if th'.memo.held.Some? then (c, th')
      else (PN.AtEof(c), th')
  }

  /** How often the reader answers in up to n calls. */
  function Answers(th: L.Thread, coord: R.Coordinator, n: nat): nat
    decreases n
  {
    if n == 0 then 0
    else
      var th' := L.Polled(th, coord);
      if |th'.pipe| > |th.pipe| then 1 + Answers(th', coord, n - 1)
      else if th'.memo.held.Some? then 0
      else 1
  }

  /** Coordinator and thread after the retire stage. */
  function Retired(u: Unit, coord: R.Coordinator): (R.Coordinator, L.Thread) {
    CommitN(coord, u.thread, |P.Retire(u.core).0.retired| - |u.core.retired|)
  }

  function BeforeFetch(c: P.Core): P.Core {
    var d := P.Schedule(P.Exec(c));
    P.Dispatch(d, d.cfg.width)
  }

  /** Core and thread at the end of the stages, in the order of OooCore::tick, with the reader at fetch and the
      coordinator at both ends. */
  function TickedCore(u: Unit, coord: R.Coordinator): (P.Core, L.Thread) {
    var (c1, mispredict) := P.Retire(u.core);
    var (coord', th) := Retired(u, coord);
    var c2 := BeforeFetch(c1);
    if mispredict then (c1, th)
    else if c2.stalled || c2.eof then (c2, th)
    else FetchFrom(c2, th, coord', c2.cfg.width)
  }

  function TickUnit(u: Unit, coord: R.Coordinator): (Unit, R.Coordinator) {
    var (c, th) := TickedCore(u, coord);
    (Unit(P.TickCache(c), th), Retired(u, coord).0)
  }

  function Go(cl: Cluster, t: nat): Cluster {
    if t < |cl.units| then
      var (u, coord) := TickUnit(cl.units[t], cl.coord);
      Cluster(coord, cl.units[t := u])
    else cl
  }

  // ----- the reader -----

  function Unread(th: L.Thread): seq<TC.AnyRecord> { T.Unread(th.rest, th.memo) }

  function Items(q: seq<TC.AnyRecord>): seq<T.Emitted> { T.Surfacing(q, true) }

  predicate Gentle(th: L.Thread) { th.memo.held.Some? ==> T.Gated(th.memo.held.value) }

  /** The reader never goes back, and goes on when the record that it looks at may pass. */
  lemma {:induction false} ReadShrinks(rest: seq<TC.AnyRecord>, m: T.Memo, c: R.Coordinator)
    requires m.held.None?
    ensures var (rest', m', _) := T.Read(rest, m, L.Gate(c));
      && |T.Unread(rest', m')| <= |rest|
      && (rest != [] && R.Passes(c, L.RecOf(rest[0])) ==> |T.Unread(rest', m')| < |rest|)
    decreases |rest|
  {
    if rest != [] {
      var (m', v) := T.Meet(rest[0], m, L.Gate(c));
      L.MeetPasses(rest[0], m, c);
      L.ReadFirst(rest, m, L.Gate(c), m', v);
      if v.Skip? { ReadShrinks(rest[1..], m', c); }
    }
  }

  lemma PollShrinks(th: L.Thread, c: R.Coordinator)
    requires Gentle(th)
    ensures |Unread(L.Polled(th, c))| <= |Unread(th)|
    ensures Unread(th) != [] && R.Passes(c, L.RecOf(Unread(th)[0])) ==> |Unread(L.Polled(th, c))| < |Unread(th)|
  {
    var m := th.memo;
    if m.held.None? {
      L.FreshNext(th.rest, m, c);
      ReadShrinks(th.rest, m, c);
    } else {
      L.HeldNext(th.rest, m, c);
      var m' := T.Memo(None, m.polls + 1, m.approved + [m.held.value]);
      if R.Passes(c, L.SyncMeaning(m.held.value)) && !T.Surfaces(m.held.value) { ReadShrinks(th.rest, m', c); }
    }
  }

  /** One call: an item comes off the front of what was to surface, or the gate is shut, or nothing is left. */
  lemma PollEffect(th: L.Thread, c: R.Coordinator)
    requires Gentle(th)
    ensures var th' := L.Polled(th, c);
      && Gentle(th')
      && (if |th'.pipe| > |th.pipe| then |th'.pipe| == |th.pipe| + 1 && |Items(Unread(th'))| == |Items(Unread(th))| - 1
          else th'.pipe == th.pipe && |Items(Unread(th'))| == |Items(Unread(th))|
               && (th'.memo.held.None? ==> Unread(th') == [] && Items(Unread(th)) == []))
  {
    T.NextExact(th.rest, th.memo, L.Gate(c));
    var out := T.NextFor(th.rest, th.memo, L.Gate(c)).2;
    if out.None? { assert th.pipe + [] == th.pipe; }
  }

  // ----- core and reader in step -----

  /** The reader still has one item for each record that the core has not fetched, and the pipe one for each that it
      has not retired. */
  predicate Matches(c: P.Core, th: L.Thread) {
    && Gentle(th)
    && |Items(Unread(th))| == |c.rest|
    && |th.pipe| + |c.retired| == |c.fetched|
    && (c.eof ==> Unread(th) == [])
  }

  /** With a reader the fetch loop is the loop of the pipeline, open as often as the reader answers. */
  lemma {:induction false} FetchFromIs(c: P.Core, th: L.Thread, coord: R.Coordinator, n: nat)
    requires Matches(c, th) && !c.eof
    ensures var (d, th') := FetchFrom(c, th, coord, n);
      d == P.FetchUpTo(c, n, Answers(th, coord, n)) && Matches(d, th') && |Unread(th')| <= |Unread(th)|
    decreases n
  {
    if n > 0 && |c.dispq| < c.cfg.dispCap {
      var th' := L.Polled(th, coord);
      PollEffect(th, coord);
      PollShrinks(th, coord);
      if |th'.pipe| > |th.pipe| {
        var d := P.FetchOne(c);
        if !d.stalled { FetchFromIs(d, th', coord, n - 1); }
      }
    }
  }

  predicate Same(c: P.Core, d: P.Core) {
    d.fetched == c.fetched && d.retired == c.retired && d.rest == c.rest && d.eof == c.eof && d.cfg == c.cfg
  }

  /** Execution and issue neither fetch nor retire. */
  lemma SameKept(c: P.Core)
    ensures PN.KeptByAlu(d => Same(c, d)) && PN.KeptByMul(d => Same(c, d)) && PN.KeptByLsu(d => Same(c, d))
    ensures PN.KeptByFireAlu(d => Same(c, d)) && PN.KeptByFireMul(d => Same(c, d)) && PN.KeptByFireLsu(d => Same(c, d))
  {
  }

  lemma {:induction false} DispatchSame(c: P.Core, n: nat)
    ensures Same(c, P.Dispatch(c, n))
    decreases n
  {
    if n > 0 && P.CanDispatch(c) { DispatchSame(P.DispatchOne(c), n - 1); }
  }

  lemma BeforeFetchSame(c: P.Core)
    ensures Same(c, BeforeFetch(c))
  {
    SameKept(c);
    PN.AluStage(d => Same(c, d), c, 0);
    PN.MulStage(d => Same(c, d), P.ExecAlus(c, 0), 0);
    PN.LsuStage(d => Same(c, d), P.Shift(P.ExecMuls(P.ExecAlus(c, 0), 0)), 0);
    var e := P.Exec(c);
    PN.FireAluStage(d => Same(c, d), e, P.FreeAlus(e.alus));
    var f := P.FireAlus(e, P.FreeAlus(e.alus));
    PN.FireMulStage(d => Same(c, d), f, P.FreeMuls(f.muls));
    var g := P.FireMuls(f, P.FreeMuls(f.muls));
    PN.FireLsuStage(d => Same(c, d), g, P.FreeLsus(g.lsus), false);
    DispatchSame(P.Schedule(e), P.Schedule(e).cfg.width);
  }

  lemma {:induction false} RetireCounts(c: P.Core)
    ensures var d := P.Retire(c).0;
      d.fetched == c.fetched && d.rest == c.rest && d.eof == c.eof && d.cfg == c.cfg && |d.retired| >= |c.retired|
    decreases c.rob.count
  {
    if P.HeadReady(c) && !c.rob.entries[c.rob.head].inst.Mispredict() { RetireCounts(P.RetireHead(c)); }
  }

  lemma {:induction false} CommitCounts(coord: R.Coordinator, th: L.Thread, m: nat)
    requires m <= |th.pipe|
    ensures CommitN(coord, th, m).1 == th.(pipe := th.pipe[m..])
    decreases m
  {
    if m > 0 { CommitCounts(R.Notify(coord, L.Told(th.pipe[0])), th.(pipe := th.pipe[1..]), m - 1); }
  }

  /** What each unit keeps. */
  ghost predicate Sound(u: Unit, program: seq<P.Record>) {
    PP.Fit(u.core) && PI.Of(u.core, program) && Matches(u.core, u.thread)
  }

  lemma RetiredMatches(u: Unit, coord: R.Coordinator, program: seq<P.Record>)
    requires Sound(u, program)
    ensures Matches(P.Retire(u.core).0, Retired(u, coord).1) && Unread(Retired(u, coord).1) == Unread(u.thread)
  {
    RetireCounts(u.core);
    RetireBound(u.core);
    CommitCounts(coord, u.thread, |P.Retire(u.core).0.retired| - |u.core.retired|);
  }

  lemma RetireBound(c: P.Core)
    requires PP.Fit(c)
    ensures var d := P.Retire(c).0; |d.retired| <= |d.fetched|
  {
    PP.FitKept();
    PN.RetireStage(PP.Fit, c);
    FitBound(P.Retire(c).0);
  }

  lemma FitBound(c: P.Core)
    requires PP.Fit(c)
    ensures |c.retired| + c.rob.count + |c.dispq| == |c.fetched|
  {
  }

  /** How often the reader answers in this cycle. */
  function OpenOf(u: Unit, coord: R.Coordinator): nat {
    var (coord', th) := Retired(u, coord);
    Answers(th, coord', u.core.cfg.width)
  }

  lemma FetchIs(c: P.Core, th: L.Thread, coord: R.Coordinator, n: nat)
    requires Matches(c, th) && n == c.cfg.width
    ensures var (d, th') := if c.stalled || c.eof then (c, th) else FetchFrom(c, th, coord, n);
      d == P.Fetch(c, Answers(th, coord, n)) && Matches(d, th') && |Unread(th')| <= |Unread(th)|
  {
    if !c.stalled && !c.eof { FetchFromIs(c, th, coord, n); }
  }

  lemma StagesIs(c: P.Core, open: nat)
    ensures P.Tick(c, open) ==
      P.TickCache(if P.Retire(c).1 then P.Retire(c).0 else P.Fetch(BeforeFetch(P.Retire(c).0), open))
  {
  }

  lemma ClockMatches(c: P.Core, th: L.Thread)
    requires Matches(c, th)
    ensures Matches(P.TickCache(c), th)
  {
  }

  lemma TickMatches(u: Unit, coord: R.Coordinator, program: seq<P.Record>)
    requires Sound(u, program)
    ensures var u' := TickUnit(u, coord).0;
      && u'.core == P.Tick(u.core, OpenOf(u, coord)) && Matches(u'.core, u'.thread)
      && |Unread(u'.thread)| <= |Unread(u.thread)|
  {
    var c1 := P.Retire(u.core).0;
    var (coord', th) := Retired(u, coord);
    var c2 := BeforeFetch(c1);
    RetiredMatches(u, coord, program);
    RetireCounts(u.core);
    BeforeFetchSame(c1);
    FetchIs(c2, th, coord', c2.cfg.width);
    StagesIs(u.core, OpenOf(u, coord));
    ClockMatches(TickedCore(u, coord).0, TickedCore(u, coord).1);
  }

  lemma TickSound(u: Unit, coord: R.Coordinator, program: seq<P.Record>)
    requires Sound(u, program)
    ensures Sound(TickUnit(u, coord).0, program)
  {
    TickMatches(u, coord, program);
    PP.FitKept();
    PN.TickKeeps(PP.Fit, u.core, OpenOf(u, coord));
    PS.ProgramKept(program);
    PN.TickKeeps((d: P.Core) => PI.Of(d, program), u.core, OpenOf(u, coord));
  }

  // ----- progress of one core -----

  /** Instructions to move on and records to read; then data to wait for. */
  function Weight(u: Unit): Measure { (PP.Effort(u.core) + |Unread(u.thread)|, PP.Debt(u.core)) }

  lemma CoreWeight(c: P.Core, open: nat)
    requires PP.Fit(c)
    ensures NotAbove((PP.Effort(P.Tick(c, open)), PP.Debt(P.Tick(c, open))), (PP.Effort(c), PP.Debt(c)))
  {
    PP.FitAdvances();
    assert PP.Fit(P.Tick(c, open));
  }

  lemma TickWeight(u: Unit, coord: R.Coordinator, program: seq<P.Record>)
    requires Sound(u, program)
    ensures NotAbove(Weight(TickUnit(u, coord).0), Weight(u))
  {
    TickMatches(u, coord, program);
    CoreWeight(u.core, OpenOf(u, coord));
  }

  predicate Lowers(u: Unit, coord: R.Coordinator) { Less(Weight(TickUnit(u, coord).0), Weight(u)) }

  /** The reader is held at a gate, and was asked to go on. */
  predicate Blocked(th: L.Thread, coord: R.Coordinator) {
    var th' := L.Polled(th, coord);
    th'.pipe == th.pipe && th'.memo.held.Some? && |Unread(th')| == |Unread(th)|
  }

  lemma StillStages(u: Unit, coord: R.Coordinator, program: seq<P.Record>)
    requires Sound(u, program) && !Lowers(u, coord)
    ensures P.Stages(u.core, OpenOf(u, coord)) == u.core && !PP.Expecting(u.core)
    ensures |Unread(TickUnit(u, coord).0.thread)| == |Unread(u.thread)|
  {
    var open := OpenOf(u, coord);
    TickMatches(u, coord, program);
    PP.StagesEffort(u.core, open);
    PP.ClockEffort(P.Stages(u.core, open));
    CoreWeight(u.core, open);
  }

  lemma EmptyRuns(c: P.Core)
    requires PP.Fit(c) && PP.Empty(c)
    ensures !c.stalled && |c.retired| == |c.fetched|
  {
  }

  /** A cycle that does not make progress leaves the coordinator alone; the core is empty, and has finished or is
      held at a gate. */
  lemma IdleUnit(u: Unit, coord: R.Coordinator, program: seq<P.Record>)
    requires Sound(u, program) && !Lowers(u, coord)
    ensures TickUnit(u, coord).1 == coord && u.thread.pipe == []
    ensures PP.Empty(u.core) && (u.core.eof || Blocked(u.thread, coord))
  {
    var c, open := u.core, OpenOf(u, coord);
    StillStages(u, coord, program);
    PP.StillCycle(c, open);
    EmptyRuns(c);
    PP.AllLower();
    PP.StagesChain(PI.Invariant, PP.Effort, c, open);
    PP.FrontEndChain(PI.Invariant, PP.Effort, c, open);
    assert P.Retire(c) == (c, false) && Retired(u, coord) == (coord, u.thread) && BeforeFetch(c) == c;
    if !c.eof { IdleFetch(u, coord); }
  }

  lemma IdleFetch(u: Unit, coord: R.Coordinator)
    requires Matches(u.core, u.thread) && PP.Equipped(u.core) && u.core.dispq == [] && !u.core.stalled && !u.core.eof
    requires P.Retire(u.core) == (u.core, false) && Retired(u, coord) == (coord, u.thread) &&
      BeforeFetch(u.core) == u.core
    requires OpenOf(u, coord) == 0 && |Unread(TickUnit(u, coord).0.thread)| == |Unread(u.thread)|
    ensures Blocked(u.thread, coord)
  {
    PollEffect(u.thread, coord);
  }

  // ----- the cores and the replay -----

  ghost predicate InStep(files: seq<File>, l: L.Live) {
    exists s :: R.Reachable(L.TracesOf(files), s) && L.Follows(files, l, s)
  }

  lemma ReachableMore(traces: seq<R.Trace>, s: R.Replay, steps: seq<R.Step>)
    requires R.Reachable(traces, s) && R.Shaped(traces, s)
    ensures R.Reachable(traces, R.Run(traces, s, steps))
  {
    var before: seq<R.Step> :| s == R.Run(traces, R.Start(traces), before);
    SD.RunAppend(traces, R.Start(traces), before, steps);
  }

  lemma ReachableShaped(traces: seq<R.Trace>, s: R.Replay)
    requires R.Reachable(traces, s)
    ensures R.Shaped(traces, s)
  {
    var before: seq<R.Step> :| s == R.Run(traces, R.Start(traces), before);
  }

  lemma MoveInStep(files: seq<File>, l: L.Live, m: L.Move)
    requires InStep(files, l)
    ensures InStep(files, L.Go(l, m))
  {
    var s :| R.Reachable(L.TracesOf(files), s) && L.Follows(files, l, s);
    ReachableShaped(L.TracesOf(files), s);
    var steps := L.MoveFollows(files, l, s, m);
    ReachableMore(L.TracesOf(files), s, steps);
  }

  function With(l: L.Live, t: nat, coord: R.Coordinator, th: L.Thread): L.Live
    requires t < |l.threads|
  {
    L.Live(coord, l.threads[t := th])
  }

  /** What polls and commits keep. */
  ghost predicate Stable(Q: L.Live -> bool) { forall l, m {:trigger L.Go(l, m)} :: Q(l) ==> Q(L.Go(l, m)) }

  lemma GoWith(l: L.Live, t: nat)
    requires t < |l.threads|
    ensures L.Go(l, L.Poll(t)) == With(l, t, l.coord, L.Polled(l.threads[t], l.coord))
    ensures var th := l.threads[t];
      th.pipe != [] ==>
        L.Go(l, L.Commit(t)) == With(l, t, R.Notify(l.coord, L.Told(th.pipe[0])), th.(pipe := th.pipe[1..]))
  {
  }

  lemma WithWith(l: L.Live, t: nat, coord: R.Coordinator, th: L.Thread, coord': R.Coordinator, th': L.Thread)
    requires t < |l.threads|
    ensures With(With(l, t, coord, th), t, coord', th') == With(l, t, coord', th')
    ensures With(l, t, l.coord, l.threads[t]) == l
  {
  }

  lemma {:induction false} CommitsKeep(Q: L.Live -> bool, l: L.Live, t: nat, coord: R.Coordinator, th: L.Thread, m: int)
    requires Stable(Q) && t < |l.threads| && Q(With(l, t, coord, th))
    ensures Q(With(l, t, CommitN(coord, th, m).0, CommitN(coord, th, m).1))
    decreases m
  {
    if m > 0 && th.pipe != [] {
      var here := With(l, t, coord, th);
      GoWith(here, t);
      assert Q(L.Go(here, L.Commit(t)));
      var coord', th' := R.Notify(coord, L.Told(th.pipe[0])), th.(pipe := th.pipe[1..]);
      WithWith(l, t, coord, th, coord', th');
      CommitsKeep(Q, l, t, coord', th', m - 1);
    }
  }

  lemma {:induction false} FetchKeeps(Q: L.Live -> bool, l: L.Live, t: nat, coord: R.Coordinator, th: L.Thread,
                                      c: P.Core, n: nat)
    requires Stable(Q) && t < |l.threads| && Q(With(l, t, coord, th))
    ensures Q(With(l, t, coord, FetchFrom(c, th, coord, n).1))
    decreases n
  {
    if n > 0 && |c.dispq| < c.cfg.dispCap {
      var here, th' := With(l, t, coord, th), L.Polled(th, coord);
      GoWith(here, t);
      assert Q(L.Go(here, L.Poll(t)));
      WithWith(l, t, coord, th, coord, th');
      if |th'.pipe| > |th.pipe| && c.rest != [] && !P.FetchOne(c).stalled {
        FetchKeeps(Q, l, t, coord, th', P.FetchOne(c), n - 1);
      }
    }
  }

  lemma TickKeeps(Q: L.Live -> bool, l: L.Live, t: nat, u: Unit)
    requires Stable(Q) && t < |l.threads| && Q(l) && l.threads[t] == u.thread
    ensures Q(With(l, t, Retired(u, l.coord).0, TickedCore(u, l.coord).1))
  {
    var (c1, mispredict) := P.Retire(u.core);
    var (coord, th) := Retired(u, l.coord);
    WithWith(l, t, l.coord, u.thread, coord, th);
    CommitsKeep(Q, l, t, l.coord, u.thread, |c1.retired| - |u.core.retired|);
    var c2 := BeforeFetch(c1);
    if !mispredict && !c2.stalled && !c2.eof { FetchKeeps(Q, l, t, coord, th, c2, c2.cfg.width); }
  }

  lemma LiveOfGo(cl: Cluster, t: nat)
    requires t < |cl.units|
    ensures LiveOf(Go(cl, t)) ==
      With(LiveOf(cl), t, Retired(cl.units[t], cl.coord).0, TickedCore(cl.units[t], cl.coord).1)
  {
    var l' := With(LiveOf(cl), t, Retired(cl.units[t], cl.coord).0, TickedCore(cl.units[t], cl.coord).1);
    assert LiveOf(Go(cl, t)).threads == l'.threads;
  }

  lemma TickInStep(files: seq<File>, cl: Cluster, t: nat)
    requires InStep(files, LiveOf(cl)) && t < |cl.units|
    ensures InStep(files, LiveOf(Go(cl, t)))
  {
    var Q := (l: L.Live) => InStep(files, l);
    forall l, m | Q(l) ensures Q(L.Go(l, m)) { MoveInStep(files, l, m); }
    TickKeeps(Q, LiveOf(cl), t, cl.units[t]);
    LiveOfGo(cl, t);
  }

  // ----- when no core makes progress -----

  /** Records that never enter the pipeline can be retired in the replay without a trace. */
  lemma {:induction false} SettleThread(files: seq<File>, s: R.Replay, t: nat) returns (steps: seq<R.Step>)
    requires R.Shaped(L.TracesOf(files), s) && t < |files| && Items(files[t][s.ret[t]..s.pos[t]]) == []
    ensures R.Run(L.TracesOf(files), s, steps) == L.RetiredTo(s, t, s.pos[t])
    decreases s.pos[t] - s.ret[t]
  {
    var traces, ret, pos := L.TracesOf(files), s.ret[t], s.pos[t];
    if ret == pos {
      steps := [];
      assert s == L.RetiredTo(s, t, pos);
    } else {
      L.SurfacingFirst(files[t], ret, pos);
      L.Quietly(s.coord, files[t][ret]);
      var next := R.Next(traces, s, R.Retire(t));
      var more := SettleThread(files, next, t);
      steps := [R.Retire(t)] + more;
      assert steps[1..] == more;
      assert L.RetiredTo(next, t, pos) == L.RetiredTo(s, t, pos);
    }
  }

  predicate SettledUpTo(s: R.Replay, m: nat) {
    m <= |s.ret| == |s.pos| && forall t :: 0 <= t < m ==> s.ret[t] == s.pos[t]
  }

  lemma {:induction false} Settle(files: seq<File>, l: L.Live, s: R.Replay, m: nat) returns (s': R.Replay)
    requires R.Reachable(L.TracesOf(files), s) && L.Follows(files, l, s) && m <= |files|
    requires forall t :: 0 <= t < |files| ==> l.threads[t].pipe == []
    ensures R.Reachable(L.TracesOf(files), s') && L.Follows(files, l, s') && SettledUpTo(s', m)
  {
    if m == 0 {
      s' := s;
    } else {
      var r := Settle(files, l, s, m - 1);
      ReachableShaped(L.TracesOf(files), r);
      assert L.InStep(files[m - 1], l.threads[m - 1], r.pos[m - 1], r.ret[m - 1]);
      var steps := SettleThread(files, r, m - 1);
      ReachableMore(L.TracesOf(files), r, steps);
      s' := L.RetiredTo(r, m - 1, r.pos[m - 1]);
      SettledFollows(files, l, r, m - 1);
      SettledMore(r, m - 1);
    }
  }

  lemma SettledMore(s: R.Replay, t: nat)
    requires SettledUpTo(s, t) && t < |s.pos|
    ensures SettledUpTo(L.RetiredTo(s, t, s.pos[t]), t + 1)
  {
  }

  lemma SettledFollows(files: seq<File>, l: L.Live, s: R.Replay, t: nat)
    requires L.Follows(files, l, s) && t < |files| && l.threads[t].pipe == []
    ensures L.Follows(files, l, L.RetiredTo(s, t, s.pos[t]))
  {
    var s' := L.RetiredTo(s, t, s.pos[t]);
    forall u | 0 <= u < |files| ensures L.InStep(files[u], l.threads[u], s'.pos[u], s'.ret[u]) {
      assert L.InStep(files[u], l.threads[u], s.pos[u], s.ret[u]);
      if u == t { assert files[u][s.pos[u]..s.pos[u]] == []; }
    }
  }

  /** All readers are at the end of their files, or held at a shut gate, with nothing left to retire. */
  predicate Waiting(files: seq<File>, l: L.Live) {
    && |l.threads| == |files|
    && forall t :: 0 <= t < |files| ==> WaitsAt(l.threads[t], l.coord)
  }

  predicate WaitsAt(th: L.Thread, coord: R.Coordinator) {
    th.pipe == [] && Gentle(th) && (Unread(th) == [] || !R.Passes(coord, L.RecOf(Unread(th)[0])))
  }

  /** Then the replay has ended, or is stuck. */
  lemma WaitingReplay(files: seq<File>, l: L.Live) returns (s: R.Replay)
    requires InStep(files, l) && Waiting(files, l)
    ensures R.Reachable(L.TracesOf(files), s) && R.Shaped(L.TracesOf(files), s)
    ensures !X.CanStep(L.TracesOf(files), s)
    ensures SP.Finished(L.TracesOf(files), s) <==> forall t :: 0 <= t < |files| ==> Unread(l.threads[t]) == []
  {
    var traces := L.TracesOf(files);
    var r :| R.Reachable(traces, r) && L.Follows(files, l, r);
    s := Settle(files, l, r, |files|);
    ReachableShaped(traces, s);
    forall t | 0 <= t < |files|
      ensures s.ret[t] == s.pos[t] && Unread(l.threads[t]) == files[t][s.pos[t]..]
      ensures s.pos[t] < |files[t]| ==> !R.Passes(s.coord, traces[t][s.pos[t]])
    {
      assert L.InStep(files[t], l.threads[t], s.pos[t], s.ret[t]);
    }
    forall step ensures !R.Enabled(traces, s, step) {}
  }

  // ----- the cluster -----

  ghost predicate Kept(files: seq<File>, programs: seq<seq<P.Record>>, cl: Cluster) {
    && |cl.units| == |files| == |programs| && InStep(files, LiveOf(cl))
    && forall t :: 0 <= t < |files| ==> Sound(cl.units[t], programs[t])
  }

  predicate AllFinished(cl: Cluster) { forall t :: 0 <= t < |cl.units| ==> P.Finished(cl.units[t].core) }

  /** Weights of the first m units. */
  function Total(cl: Cluster, m: nat): Measure
    requires m <= |cl.units|
  {
    if m == 0 then (0, 0)
    else (Total(cl, m - 1).0 + Weight(cl.units[m - 1]).0, Total(cl, m - 1).1 + Weight(cl.units[m - 1]).1)
  }

  lemma {:induction false} TotalUpdate(cl: Cluster, cl': Cluster, t: nat, u: Unit, m: nat)
    requires t < |cl.units| && m <= |cl.units| && cl'.units == cl.units[t := u]
    ensures Total(cl', m).0 == Total(cl, m).0 + (if t < m then Weight(u).0 - Weight(cl.units[t]).0 else 0)
    ensures Total(cl', m).1 == Total(cl, m).1 + (if t < m then Weight(u).1 - Weight(cl.units[t]).1 else 0)
  {
    if m > 0 { TotalUpdate(cl, cl', t, u, m - 1); }
  }

  lemma UpdateTotal(cl: Cluster, cl': Cluster, t: nat, u: Unit)
    requires t < |cl.units| && cl'.units == cl.units[t := u] && NotAbove(Weight(u), Weight(cl.units[t]))
    ensures NotAbove(Total(cl', |cl.units|), Total(cl, |cl.units|))
    ensures Less(Weight(u), Weight(cl.units[t])) ==> Less(Total(cl', |cl.units|), Total(cl, |cl.units|))
  {
    TotalUpdate(cl, cl', t, u, |cl.units|);
  }

  lemma GoUnits(cl: Cluster, t: nat, i: nat)
    requires t < |cl.units| && i < |cl.units|
    ensures |Go(cl, t).units| == |cl.units|
    ensures Go(cl, t).units[i] == if i == t then TickUnit(cl.units[t], cl.coord).0 else cl.units[i]
  {
  }

  lemma GoKept(files: seq<File>, programs: seq<seq<P.Record>>, cl: Cluster, t: nat)
    requires Kept(files, programs, cl) && t < |files|
    ensures Kept(files, programs, Go(cl, t))
  {
    TickInStep(files, cl, t);
    TickSound(cl.units[t], cl.coord, programs[t]);
    forall i | 0 <= i < |files|
      ensures |Go(cl, t).units| == |files| && Sound(Go(cl, t).units[i], programs[i])
    {
      GoUnits(cl, t, i);
    }
    GoUnits(cl, t, t);
  }

  /** A core that is not making progress does not disturb the others. */
  lemma IdleGo(files: seq<File>, programs: seq<seq<P.Record>>, cl: Cluster, d: nat, t: nat)
    requires Kept(files, programs, cl) && d < |files| && !Lowers(cl.units[d], cl.coord)
    requires t < |files| && Lowers(cl.units[t], cl.coord)
    ensures d != t && |Go(cl, d).units| == |files| && Lowers(Go(cl, d).units[t], Go(cl, d).coord)
  {
    IdleUnit(cl.units[d], cl.coord, programs[d]);
  }

  lemma IdleWaits(u: Unit, coord: R.Coordinator, program: seq<P.Record>)
    requires Sound(u, program) && !Lowers(u, coord)
    ensures WaitsAt(u.thread, coord) && (Unread(u.thread) == [] ==> P.Finished(u.core))
  {
    IdleUnit(u, coord, program);
    if !u.core.eof { PollShrinks(u.thread, coord); }
  }

  /** When no core makes progress the replay is stuck or has ended; so, if it is never stuck, all have finished. */
  lemma IdleCluster(files: seq<File>, programs: seq<seq<P.Record>>, cl: Cluster)
    requires Kept(files, programs, cl) && X.NeverStuck(L.TracesOf(files))
    requires forall t :: 0 <= t < |files| ==> !Lowers(cl.units[t], cl.coord)
    ensures AllFinished(cl)
  {
    forall t | 0 <= t < |files|
      ensures WaitsAt(cl.units[t].thread, cl.coord) &&
        (Unread(cl.units[t].thread) == [] ==> P.Finished(cl.units[t].core))
    {
      IdleWaits(cl.units[t], cl.coord, programs[t]);
    }
    var s := WaitingReplay(files, LiveOf(cl));
    assert SP.Finished(L.TracesOf(files), s);
    forall t | 0 <= t < |files|
      ensures Unread(cl.units[t].thread) == []
    {
      assert LiveOf(cl).threads[t] == cl.units[t].thread;
    }
  }

  /** While some core has not finished, one of them makes progress. */
  lemma SomeoneMoves(files: seq<File>, programs: seq<seq<P.Record>>, cl: Cluster) returns (t: nat)
    requires Kept(files, programs, cl) && X.NeverStuck(L.TracesOf(files)) && !AllFinished(cl)
    ensures t < |files| && Lowers(cl.units[t], cl.coord)
  {
    if forall t :: 0 <= t < |files| ==> !Lowers(cl.units[t], cl.coord) { IdleCluster(files, programs, cl); }
    t :| 0 <= t < |files| && Lowers(cl.units[t], cl.coord);
  }

  ghost function Cores(files: seq<File>, programs: seq<seq<P.Record>>): Process<Cluster, nat> {
    Process((cl: Cluster, t: nat) => Go(cl, t), (t: nat) => t < |files|, (cl: Cluster) => Kept(files, programs, cl),
            (cl: Cluster) => Total(cl, |cl.units|),
            (cl: Cluster, t: nat, r: nat) => r == 0 && t < |cl.units| && Lowers(cl.units[t], cl.coord),
            (cl: Cluster) => AllFinished(cl))
  }

  lemma GoSteady(files: seq<File>, programs: seq<seq<P.Record>>, cl: Cluster, t: nat)
    requires Kept(files, programs, cl)
    ensures Kept(files, programs, Go(cl, t)) && |Go(cl, t).units| == |cl.units|
    ensures NotAbove(Total(Go(cl, t), |cl.units|), Total(cl, |cl.units|))
    ensures t < |cl.units| && Lowers(cl.units[t], cl.coord) ==>
      Less(Total(Go(cl, t), |cl.units|), Total(cl, |cl.units|))
  {
    if t < |cl.units| {
      GoKept(files, programs, cl, t);
      TickWeight(cl.units[t], cl.coord, programs[t]);
      UpdateTotal(cl, Go(cl, t), t, TickUnit(cl.units[t], cl.coord).0);
    }
  }

  lemma GuidedAt(files: seq<File>, programs: seq<seq<P.Record>>, proc: Process<Cluster, nat>, cl: Cluster, t: nat,
                 d: nat)
    requires proc == Cores(files, programs) && Kept(files, programs, cl) && t < |files| && Lowers(cl.units[t], cl.coord)
    ensures Onward(proc, cl, t, 0, d)
  {
    GoSteady(files, programs, cl, d);
    if d >= |files| {
      assert proc.helps(proc.go(cl, d), t, 0);
    } else if !Lowers(cl.units[d], cl.coord) {
      IdleGo(files, programs, cl, d, t);
      assert proc.helps(proc.go(cl, d), t, 0);
    }
  }

  lemma HelpedAt(files: seq<File>, programs: seq<seq<P.Record>>, proc: Process<Cluster, nat>, cl: Cluster)
    requires proc == Cores(files, programs) && Kept(files, programs, cl) && !AllFinished(cl)
    requires X.NeverStuck(L.TracesOf(files))
    ensures Helped(proc, cl)
  {
    var t := SomeoneMoves(files, programs, cl);
    assert proc.tried(t) && proc.helps(cl, t, 0);
  }

  lemma CoresSteady(files: seq<File>, programs: seq<seq<P.Record>>, proc: Process<Cluster, nat>)
    requires proc == Cores(files, programs)
    ensures Steady(proc)
  {
    forall cl, t | proc.kept(cl)
      ensures proc.kept(proc.go(cl, t)) && NotAbove(proc.measure(proc.go(cl, t)), proc.measure(cl))
    {
      GoSteady(files, programs, cl, t);
    }
  }

  lemma CoresEnding(files: seq<File>, programs: seq<seq<P.Record>>, proc: Process<Cluster, nat>)
    requires proc == Cores(files, programs) && X.NeverStuck(L.TracesOf(files))
    ensures Ending(proc)
  {
    CoresSteady(files, programs, proc);
    forall cl, t, r: nat, d | proc.kept(cl) && proc.tried(t) && proc.helps(cl, t, r) ensures Onward(proc, cl, t, r, d) {
      GuidedAt(files, programs, proc, cl, t, d);
    }
    forall cl | proc.kept(cl) && !proc.goal(cl) ensures Helped(proc, cl) { HelpedAt(files, programs, proc, cl); }
  }

  // ----- runs -----

  /** How many of everything a core has. */
  datatype Build = Build(cfg: P.Config, rob: nat, alus: nat, muls: nat, lsus: nat, mshrs: nat)

  function StartOf(b: Build, program: seq<P.Record>): P.Core {
    P.Start(b.cfg, program, b.rob, b.alus, b.muls, b.lsus, b.mshrs)
  }

  /** One core for each file; the records of its program are what the items of the file are classified as. */
  predicate Setup(files: seq<File>, programs: seq<seq<P.Record>>, builds: seq<Build>) {
    && |files| == |programs| == |builds|
    && forall t :: 0 <= t < |files| ==>
      |programs[t]| == |Items(files[t])| && PP.Equipped(StartOf(builds[t], programs[t]))
  }

  function Begin(files: seq<File>, programs: seq<seq<P.Record>>, builds: seq<Build>): (cl: Cluster)
    requires Setup(files, programs, builds)
    ensures |cl.units| == |files|
  {
    Cluster(R.Coordinator(map[], map[], map[]),
            seq(|files|, t requires 0 <= t < |files| =>
              Unit(StartOf(builds[t], programs[t]), L.Thread(files[t], T.Fresh, []))))
  }

  lemma BeginKept(files: seq<File>, programs: seq<seq<P.Record>>, builds: seq<Build>)
    requires Setup(files, programs, builds)
    ensures Kept(files, programs, Begin(files, programs, builds))
  {
    var cl := Begin(files, programs, builds);
    assert LiveOf(cl).threads == L.Begin(files).threads;
    var s := L.Replays(files, []);
    assert L.RunLive(L.Begin(files), []) == L.Begin(files) == LiveOf(cl);
    forall t | 0 <= t < |files|
      ensures Sound(cl.units[t], programs[t])
    {
      StartSound(files[t], programs[t], builds[t]);
    }
  }

  lemma StartSound(file: File, program: seq<P.Record>, b: Build)
    requires |program| == |Items(file)| && PP.Equipped(StartOf(b, program))
    ensures Sound(Unit(StartOf(b, program), L.Thread(file, T.Fresh, [])), program)
  {
    PP.StartFit(b.cfg, program, b.rob, b.alus, b.muls, b.lsus, b.mshrs);
    PI.StartInvariant(b.cfg, program, b.rob, b.alus, b.muls, b.lsus, b.mshrs);
    assert T.Unread(file, T.Fresh) == file;
  }

  /** The cluster after n cycles of cores, in the order of a schedule. */
  function At(files: seq<File>, programs: seq<seq<P.Record>>, builds: seq<Build>, sigma: nat -> nat, n: nat): Cluster
    requires Setup(files, programs, builds)
  {
    FairRuns.After((cl: Cluster, t: nat) => Go(cl, t), Begin(files, programs, builds), sigma, 0, n)
  }

  /** All cores have finished, each having retired its whole program, once and in order. */
  predicate AllRetired(programs: seq<seq<P.Record>>, cl: Cluster) {
    && |cl.units| == |programs|
    && forall t :: 0 <= t < |programs| ==>
         var c := cl.units[t].core;
         && P.Finished(c) && |c.retired| == |programs[t]|
         && forall k :: 0 <= k < |programs[t]| ==> c.retired[k] == P.Inst(k + 1, programs[t][k])
  }

  lemma FinishedRetired(files: seq<File>, programs: seq<seq<P.Record>>, cl: Cluster)
    requires Kept(files, programs, cl) && AllFinished(cl)
    ensures AllRetired(programs, cl)
  {
    forall t | 0 <= t < |programs|
      ensures var c := cl.units[t].core;
        && |c.retired| == |programs[t]|
        && forall k :: 0 <= k < |programs[t]| ==> c.retired[k] == P.Inst(k + 1, programs[t][k])
    {
      assert Sound(cl.units[t], programs[t]);
      PP.FinishedRetired(cl.units[t].core, programs[t]);
    }
  }

  /** Cores whose gates the coordinator answers all finish if their traces can never get stuck: under any schedule
      that gives every core cycles again and again. */
  lemma CoresFinish(files: seq<File>, programs: seq<seq<P.Record>>, builds: seq<Build>, sigma: nat -> nat)
      returns (n: nat)
    requires Setup(files, programs, builds) && X.NeverStuck(L.TracesOf(files)) && Fair(sigma, (t: nat) => t < |files|)
    ensures AllRetired(programs, At(files, programs, builds, sigma, n))
  {
    BeginKept(files, programs, builds);
    CoresEnding(files, programs, Cores(files, programs));
    n := FairRunReaches(Cores(files, programs), Begin(files, programs, builds), sigma);
    FinishedRetired(files, programs, At(files, programs, builds, sigma, n));
  }

  lemma FinishedWaits(u: Unit, coord: R.Coordinator, program: seq<P.Record>)
    requires Sound(u, program) && P.Finished(u.core)
    ensures WaitsAt(u.thread, coord) && Unread(u.thread) == []
  {
    FitBound(u.core);
  }

  /** Cores that have all finished have completed a replay. */
  lemma FinishedCompletes(files: seq<File>, programs: seq<seq<P.Record>>, cl: Cluster)
    requires Kept(files, programs, cl) && AllFinished(cl)
    ensures X.Completable(L.TracesOf(files))
  {
    forall t | 0 <= t < |files| ensures WaitsAt(cl.units[t].thread, cl.coord) && Unread(cl.units[t].thread) == [] {
      FinishedWaits(cl.units[t], cl.coord, programs[t]);
    }
    var s := WaitingReplay(files, LiveOf(cl));
    var steps: seq<R.Step> :| s == R.Run(L.TracesOf(files), R.Start(L.TracesOf(files)), steps);
  }

  ghost predicate Finishes(files: seq<File>, programs: seq<seq<P.Record>>, builds: seq<Build>, sigma: nat -> nat)
    requires Setup(files, programs, builds)
  {
    exists n: nat :: AllRetired(programs, At(files, programs, builds, sigma, n))
  }

  lemma AtKept(files: seq<File>, programs: seq<seq<P.Record>>, builds: seq<Build>, sigma: nat -> nat, n: nat)
    requires Setup(files, programs, builds)
    ensures Kept(files, programs, At(files, programs, builds, sigma, n))
  {
    BeginKept(files, programs, builds);
    CoresSteady(files, programs, Cores(files, programs));
    AfterKeeps(Cores(files, programs), Begin(files, programs, builds), sigma, 0, n);
  }

  /** The exact condition: whatever the cores are built like and however fairly their cycles are interleaved, they all
      finish if and only if some order of recording explains their traces. */
  lemma CoresFinishIff(files: seq<File>, programs: seq<seq<P.Record>>, builds: seq<Build>, sigma: nat -> nat)
    requires Setup(files, programs, builds) && Fair(sigma, (t: nat) => t < |files|)
    requires R.WellBuilt(L.TracesOf(files)) && X.Agreed(L.TracesOf(files))
    ensures Finishes(files, programs, builds, sigma) <==> X.Explained(L.TracesOf(files))
  {
    X.NeverStuckIff(L.TracesOf(files));
    if X.Explained(L.TracesOf(files)) {
      var n := CoresFinish(files, programs, builds, sigma);
    }
    if n: nat :| AllRetired(programs, At(files, programs, builds, sigma, n)) {
      AtKept(files, programs, builds, sigma, n);
      FinishedCompletes(files, programs, At(files, programs, builds, sigma, n));
    }
  }
}
