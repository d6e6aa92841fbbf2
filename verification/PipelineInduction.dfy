/** Induction over the moves of a cycle: what every move keeps, every cycle and every run keeps. */
module PipelineInduction {
  import opened Options
  import opened Pipeline
  import opened PipelineInvariant
  import Mshr

  type Property = Core -> bool

  ghost predicate KeptByRetire(P: Property) {
    forall c {:trigger P(RetireHead(c))} :: P(c) && HeadReady(c) ==> P(RetireHead(c))
  }

  ghost predicate KeptByAlu(P: Property) {
    forall c, i {:trigger P(AluDone(c, i))} :: P(c) && 0 <= i < |c.alus| && c.alus[i].Some? ==> P(AluDone(c, i))
  }

  ghost predicate KeptByMul(P: Property) {
    && (forall c, i {:trigger P(MulDone(c, i))} :: P(c) && 0 <= i < |c.muls| && c.muls[i].third.Some? ==>
      P(MulDone(c, i)))
    && (forall c {:trigger P(Shift(c))} :: P(c) && Drained(c.muls) ==> P(Shift(c)))
  }

  predicate Drained(muls: seq<MulUnit>) { forall i :: 0 <= i < |muls| ==> muls[i].third.None? }

  ghost predicate KeptByLsu(P: Property) {
    forall c, i {:trigger P(LsuDone(c, i))} :: P(c) && 0 <= i < |c.lsus| && LsuReady(c, i) ==> P(LsuDone(c, i))
  }

  ghost predicate KeptByFireAlu(P: Property) {
    forall c, i, u {:trigger P(FireAlu(c, i, u))} ::
      P(c) && 0 <= i < |c.sq| && AluWants(c.sq[i]) && 0 <= u < |c.alus| && c.alus[u].None? ==> P(FireAlu(c, i, u))
  }

  ghost predicate KeptByFireMul(P: Property) {
    forall c, i, u {:trigger P(FireMul(c, i, u))} ::
      P(c) && 0 <= i < |c.sq| && MulWants(c.sq[i]) && 0 <= u < |c.muls| && c.muls[u].first.None? ==> P(FireMul(c, i, u))
  }

  predicate Issues(c: Core, i: nat, l1: Mshr.Cache, id: nat)
    requires i < |c.sq|
  {
    var rec := c.sq[i].inst.rec;
    Mshr.Issue(c.l1, rec.op.Load?, rec.block, rec.latency) == (l1, Some(id))
  }

  ghost predicate KeptByFireLsu(P: Property) {
    forall c, i, u, l1, id: nat {:trigger P(FireLsu(c, i, u, l1, id))} ::
      P(c) && 0 <= i < |c.sq| && LsuWants(c.sq, c.sq[i]) && 0 <= u < |c.lsus| && c.lsus[u].Idle? &&
        Issues(c, i, l1, id) ==>
        P(FireLsu(c, i, u, l1, id))
  }

  ghost predicate KeptByFrontEnd(P: Property) {
    && (forall c {:trigger P(DispatchOne(c))} :: P(c) && CanDispatch(c) ==> P(DispatchOne(c)))
    && (forall c {:trigger P(FetchOne(c))} :: P(c) && c.rest != [] && !c.stalled ==> P(FetchOne(c)))
    && (forall c {:trigger P(AtEof(c))} :: P(c) && c.rest == [] ==> P(AtEof(c)))
  }

  ghost predicate KeptByClock(P: Property) { forall c {:trigger P(TickCache(c))} :: P(c) ==> P(TickCache(c)) }

  function AtEof(c: Core): Core { c.(eof := true) }

  ghost predicate Kept(P: Property) {
    && KeptByRetire(P) && KeptByAlu(P) && KeptByMul(P) && KeptByLsu(P)
    && KeptByFireAlu(P) && KeptByFireMul(P) && KeptByFireLsu(P) && KeptByFrontEnd(P)
  }

  lemma {:induction false} RetireStage(P: Property, c: Core)
    requires KeptByRetire(P) && P(c)
    ensures P(Retire(c).0)
    decreases c.rob.count
  {
    if HeadReady(c) {
      assert P(RetireHead(c));
      if !c.rob.entries[c.rob.head].inst.Mispredict() { RetireStage(P, RetireHead(c)); }
    }
  }

  lemma {:induction false} AluStage(P: Property, c: Core, i: nat)
    requires KeptByAlu(P) && P(c) && i <= |c.alus|
    ensures P(ExecAlus(c, i))
    decreases |c.alus| - i
  {
    if i < |c.alus| { AluStage(P, if c.alus[i].Some? then AluDone(c, i) else c, i + 1); }
  }

  lemma {:induction false} MulStage(P: Property, c: Core, i: nat)
    requires KeptByMul(P) && P(c) && i <= |c.muls| && Drained(c.muls[..i])
    ensures P(ExecMuls(c, i)) && Drained(ExecMuls(c, i).muls)
    decreases |c.muls| - i
  {
    if i < |c.muls| {
      var d := if c.muls[i].third.Some? then MulDone(c, i) else c;
      assert forall j :: 0 <= j < i ==> d.muls[j] == c.muls[..i][j];
      MulStage(P, d, i + 1);
    } else {
      assert c.muls[..i] == c.muls;
    }
  }

  lemma {:induction false} LsuStage(P: Property, c: Core, i: nat)
    requires KeptByLsu(P) && P(c) && i <= |c.lsus|
    ensures P(ExecLsus(c, i))
    decreases |c.lsus| - i
  {
    if i < |c.lsus| { LsuStage(P, if LsuReady(c, i) then LsuDone(c, i) else c, i + 1); }
  }

  lemma ExecStage(P: Property, c: Core)
    requires Kept(P) && P(c)
    ensures P(Exec(c))
  {
    AluStage(P, c, 0);
    MulStage(P, ExecAlus(c, 0), 0);
    LsuStage(P, Shift(ExecMuls(ExecAlus(c, 0), 0)), 0);
  }

  lemma {:induction false} FireAluStage(P: Property, c: Core, n: nat)
    requires KeptByFireAlu(P) && P(c)
    ensures P(FireAlus(c, n))
    decreases n
  {
    var i, u := PickAlu(c.sq), IdleAlu(c.alus);
    if n > 0 && i < |c.sq| && u < |c.alus| { FireAluStage(P, FireAlu(c, i, u), n - 1); }
  }

  lemma {:induction false} FireMulStage(P: Property, c: Core, n: nat)
    requires KeptByFireMul(P) && P(c)
    ensures P(FireMuls(c, n))
    decreases n
  {
    var i, u := PickMul(c.sq), IdleMul(c.muls);
    if n > 0 && i < |c.sq| && u < |c.muls| { FireMulStage(P, FireMul(c, i, u), n - 1); }
  }

  lemma {:induction false} FireLsuStage(P: Property, c: Core, n: nat, stored: bool)
    requires KeptByFireLsu(P) && P(c)
    ensures P(FireLsus(c, n, stored))
    decreases n
  {
    if n > 0 && CanFireLsu(c, stored) {
      var i := PickLsu(c.sq);
      assert Issues(c, i, Sent(c, i).0, Sent(c, i).1.value);
      FireLsuStage(P, LsuFired(c), n - 1, stored || c.sq[i].inst.rec.op.Store?);
    }
  }

  lemma ScheduleStage(P: Property, c: Core)
    requires Kept(P) && P(c)
    ensures P(Schedule(c))
  {
    FireAluStage(P, c, FreeAlus(c.alus));
    var d := FireAlus(c, FreeAlus(c.alus));
    FireMulStage(P, d, FreeMuls(d.muls));
    var e := FireMuls(d, FreeMuls(d.muls));
    FireLsuStage(P, e, FreeLsus(e.lsus), false);
  }

  lemma {:induction false} DispatchStage(P: Property, c: Core, n: nat)
    requires KeptByFrontEnd(P) && P(c)
    ensures P(Dispatch(c, n))
    decreases n
  {
    if n > 0 && CanDispatch(c) { DispatchStage(P, DispatchOne(c), n - 1); }
  }

  lemma {:induction false} FetchStage(P: Property, c: Core, n: nat, open: nat)
    requires KeptByFrontEnd(P) && P(c) && !c.stalled
    ensures P(FetchUpTo(c, n, open))
    decreases n
  {
    if n == 0 || |c.dispq| >= c.cfg.dispCap {
    } else if open == 0 {
    } else if c.rest == [] {
      assert P(AtEof(c));
    } else {
      assert P(FetchOne(c));
      if !FetchOne(c).stalled { FetchStage(P, FetchOne(c), n - 1, open - 1); }
    }
  }

  lemma FrontEndStage(P: Property, c: Core, open: nat)
    requires Kept(P) && P(c)
    ensures P(FrontEnd(c, open))
  {
    DispatchStage(P, c, c.cfg.width);
    var f := Dispatch(c, c.cfg.width);
    if !f.stalled && !f.eof { FetchStage(P, f, f.cfg.width, open); }
  }

  lemma StagesKeep(P: Property, c: Core, open: nat)
    requires Kept(P) && P(c)
    ensures P(Stages(c, open))
  {
    RetireStage(P, c);
    var (d, mispredict) := Retire(c);
    if !mispredict {
      ExecStage(P, d);
      ScheduleStage(P, Exec(d));
      FrontEndStage(P, Schedule(Exec(d)), open);
    }
  }

  lemma TickKeeps(P: Property, c: Core, open: nat)
    requires Kept(P) && KeptByClock(P) && P(c)
    ensures P(Tick(c, open))
  {
    StagesKeep(P, c, open);
    assert P(TickCache(Stages(c, open)));
  }

  lemma BothKept(P: Property, Q: Property, R: Property)
    requires Kept(P) && Kept(Q) && KeptByClock(P) && KeptByClock(Q)
    requires forall c {:trigger R(c)} :: R(c) <==> P(c) && Q(c)
    ensures Kept(R) && KeptByClock(R)
  {
  }

  lemma {:induction false} RunKeeps(P: Property, c: Core, opens: seq<nat>)
    requires Kept(P) && KeptByClock(P) && P(c)
    ensures P(Run(c, opens))
    decreases |opens|
  {
    if opens != [] {
      TickKeeps(P, c, opens[0]);
      RunKeeps(P, Tick(c, opens[0]), opens[1..]);
    }
  }
}
