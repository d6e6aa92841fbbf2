/** Every fair run of the coherence machine over the ring ends: links, queues and the directory's line together. */
module OverRingTermination {
  import opened Options
  import opened CoherenceMachine
  import opened CoherenceOverRing
  import opened FairRuns
  import C = CoherenceTermination
  import D = DirectoryController
  import Protocols
  import CoherenceTypes
  import R = Ring
  import RP = RingProgress

  type Protocol = CoherenceTypes.Protocol

  // ----- moves -----

  predicate OfSystem(m: Move, n: nat) {
    match m
    case Act(ev) => C.OfMachine(ev, n)
    case Receive(i) => i < n
    case Collect => true
    case Inside(ev) => RP.Inside(ev, n + 1)
  }

  /** A move that is tried and not possible changes nothing. */
  function Try(p: Protocol, z: Sizes, sys: System, m: Move): System {
    if Go(p, z, sys, m).Now? then Go(p, z, sys, m).sys else sys
  }

  /** The move takes something off a channel, or the ring brings something nearer. */
  predicate Acts(p: Protocol, sys: System, m: Move) {
    match m
    case Act(ev) => !ev.Deliver? && !ev.Arrive? && C.Acts(p, sys.local, ev)
    case Receive(i) => i < |sys.local.procs| && R.Enabled(sys.wire.ring, R.Take(i))
    case Collect => R.Enabled(sys.wire.ring, R.Take(|sys.local.procs|))
    case Inside(ev) => RP.Productive(sys.wire.ring, ev) && !ev.Take?
  }

  /** What an idle move may do: turn the directory's line. */
  predicate Idles(sys: System, m: Move, sys': System) {
    && sys'.wire == sys.wire
    && (if m.Act? then C.Turns(sys.local, m.ev, sys'.local) else sys' == sys)
  }

  function Weight(sys: System, bs: seq<D.BlockId>): Measure {
    (C.Potential(Seen(sys), bs), RP.Work(sys.wire.ring, |sys.wire.ring|))
  }

  ghost predicate Sane(p: Protocol, sys: System, bs: seq<D.BlockId>, n: nat) {
    Consistent(sys) && C.Sane(p, Seen(sys), bs, n)
  }

  // ----- moves that act -----

  /** An event that takes nothing off a channel acts on the processors and the directory alone. */
  lemma ActsSeen(p: Protocol, net: Net, c: Cargo, ev: Event)
    requires Sized(c, |net.procs|) && !ev.Deliver? && !ev.Arrive?
    ensures C.Acts(p, net, ev) <==> C.Acts(p, Joined(net, c), ev)
  {
  }

  lemma EventLowers(p: Protocol, sys: System, ev: Event, sys': System, bs: seq<D.BlockId>, n: nat)
    requires Sane(p, sys, bs, n) && Mirrors(p, sys, Some(ev), Now(sys')) && C.Acts(p, Seen(sys), ev)
    ensures Sane(p, sys', bs, n) && Less(Weight(sys', bs), Weight(sys, bs))
  {
    C.GoSteady(p, Seen(sys), ev, bs, n);
    SeenGoes(p, sys, ev, sys');
  }

  /** On the machine an event that acts is possible. */
  lemma ActingMirrored(p: Protocol, sys: System, ev: Event, o: Outcome, bs: seq<D.BlockId>, n: nat)
    requires Sane(p, sys, bs, n) && Mirrors(p, sys, Some(ev), o) && C.Acts(p, Seen(sys), ev)
    ensures o.Now?
  {
    C.ActingWent(p, Seen(sys), ev);
  }

  lemma HeadSeen(sys: System, n: nat, x: nat)
    requires Consistent(sys) && |sys.local.procs| == n && R.Enabled(sys.wire.ring, R.Take(x))
    ensures x < n ==> Seen(sys).procs[x].down != []
    ensures x == n ==> var i := sys.wire.ring[n].inQ[0].src; i < n && Seen(sys).procs[i].up != []
  {
    var w := sys.wire;
    TakeBetween(w, n, x);
    var src := w.ring[x].inQ[0].src;
    var w' := Wire(R.Next(w.ring, R.Take(x)), w.letters);
    assert Under(w)(src, x) == [LetterOf(w.letters, w.ring[x].inQ[0])] + Under(w')(src, x);
    if x == n { NonEmptyMsgs(Between(w, src, n), src); }
  }

  lemma NonEmptyMsgs(ls: seq<Down>, i: nat)
    requires ls != []
    ensures Msgs(ls, i) != []
  {
  }

  /** The event of a move that acts, Inside moves aside, acts on the machine. */
  lemma MoveActs(p: Protocol, sys: System, m: Move, bs: seq<D.BlockId>, n: nat)
    requires Sane(p, sys, bs, n) && Acts(p, sys, m) && !m.Inside?
    ensures EventOf(sys, m).Some? && C.Acts(p, Seen(sys), EventOf(sys, m).value)
  {
    match m
    case Act(ev) => ActsSeen(p, sys.local, CargoOf(Under(sys.wire), n), ev);
    case Receive(i) => HeadSeen(sys, n, i);
    case Collect => HeadSeen(sys, n, n);
  }

  lemma InsideSeen(p: Protocol, sys: System, sys': System, bs: seq<D.BlockId>, n: nat)
    requires Sane(p, sys, bs, n) && Consistent(sys') && Seen(sys') == Seen(sys)
    requires RP.Work(sys'.wire.ring, |sys'.wire.ring|) < RP.Work(sys.wire.ring, |sys.wire.ring|)
    ensures Sane(p, sys', bs, n) && Less(Weight(sys', bs), Weight(sys, bs))
  {
  }

  lemma InsideLowers(p: Protocol, z: Sizes, sys: System, ev: R.Event, bs: seq<D.BlockId>, n: nat)
    requires Sane(p, sys, bs, n) && Acts(p, sys, Inside(ev))
    ensures Sane(p, Try(p, z, sys, Inside(ev)), bs, n) && Less(Weight(Try(p, z, sys, Inside(ev)), bs), Weight(sys, bs))
  {
    InsideMirrors(p, z, sys, ev);
    RP.ProductiveLowersWork(sys.wire.ring, ev);
    InsideSeen(p, sys, Try(p, z, sys, Inside(ev)), bs, n);
  }

  lemma ActingLowers(p: Protocol, z: Sizes, sys: System, m: Move, bs: seq<D.BlockId>, n: nat)
    requires Sane(p, sys, bs, n) && z.header >= 1 && Acts(p, sys, m)
    ensures Sane(p, Try(p, z, sys, m), bs, n) && Less(Weight(Try(p, z, sys, m), bs), Weight(sys, bs))
  {
    if m.Inside? {
      InsideLowers(p, z, sys, m.move, bs, n);
    } else {
      MoveMirrors(p, z, sys, m);
      MoveActs(p, sys, m, bs, n);
      var ev := EventOf(sys, m).value;
      ActingMirrored(p, sys, ev, Go(p, z, sys, m), bs, n);
      EventLowers(p, sys, ev, Go(p, z, sys, m).sys, bs, n);
    }
  }

  // ----- moves that do not -----

  lemma {:induction false} FlushBare(w: Wire, z: Sizes, procs: seq<Proc>, i: nat)
    requires i <= |procs| && forall j :: 0 <= j < |procs| ==> procs[j].down == [] && procs[j].up == []
    ensures Flush(w, z, procs, i) == w
    decreases |procs| - i
  {
    if i < |procs| { FlushBare(w, z, procs, i + 1); }
  }

  lemma EmptiedBare(net: Net)
    requires Bare(net)
    ensures Emptied(net) == net
  {
    assert Emptied(net).procs == net.procs;
  }

  /** Without messages to deliver the directory's idle events turn its line. */
  lemma LocalTurns(p: Protocol, net: Net, ev: Event)
    requires WellFormed(net) && !C.Acts(p, net, ev) && !Next(p, net, ev).Crash?
    ensures C.Turns(net, ev, C.Go(p, net, ev))
  {
    match ev
    case Poll => C.PollTurns(p, net);
    case Respond => C.RespondTurns(p, net);
    case Tock =>
    case _ => C.LocalTurns(p, net, ev);
  }

  lemma BareSettles(w: Wire, z: Sizes, net: Net)
    requires Bare(net)
    ensures Settle(Went(net), w, z) == Now(System(net, w))
  {
    FlushBare(w, z, net.procs, 0);
    EmptiedBare(net);
  }

  lemma ActIdles(p: Protocol, z: Sizes, sys: System, ev: Event)
    requires WellFormed(sys.local) && Bare(sys.local) && !C.Acts(p, sys.local, ev) && !Next(p, sys.local, ev).Crash?
    requires !ev.Deliver? && !ev.Arrive?
    ensures Idles(sys, Act(ev), Try(p, z, sys, Act(ev)))
  {
    LocalTurns(p, sys.local, ev);
    BareSettles(sys.wire, z, C.Go(p, sys.local, ev));
  }

  /** What does not crash the machine does not crash it with its channels on the ring. */
  lemma NoCrash(p: Protocol, z: Sizes, sys: System, ev: Event, bs: seq<D.BlockId>, n: nat)
    requires Sane(p, sys, bs, n) && z.header >= 1 && !ev.Deliver? && !ev.Arrive?
    ensures !Next(p, sys.local, ev).Crash?
  {
    ActMirrors(p, z, sys, ev);
    EventKeepsBlocks(p, Seen(sys), ev);
  }

  lemma InsideIdles(p: Protocol, z: Sizes, sys: System, ev: R.Event)
    requires !Acts(p, sys, Inside(ev))
    ensures Try(p, z, sys, Inside(ev)) == sys
  {
    if R.Enabled(sys.wire.ring, ev) && !ev.Send? && !ev.Take? {
      RP.IdleNothing(R.History(sys.wire.ring, [], []), ev);
    }
  }

  lemma IdleMove(p: Protocol, z: Sizes, sys: System, m: Move, bs: seq<D.BlockId>, n: nat)
    requires Sane(p, sys, bs, n) && z.header >= 1 && !Acts(p, sys, m)
    ensures Idles(sys, m, Try(p, z, sys, m))
  {
    match m
    case Act(ev) =>
      if !ev.Deliver? && !ev.Arrive? {
        NoCrash(p, z, sys, ev, bs, n);
        ActIdles(p, z, sys, ev);
      }
    case Inside(ev) => InsideIdles(p, z, sys, ev);
    case _ =>
  }

  lemma EventKeeps(p: Protocol, sys: System, ev: Event, sys': System, bs: seq<D.BlockId>, n: nat)
    requires Sane(p, sys, bs, n) && Mirrors(p, sys, Some(ev), Now(sys')) && sys'.wire == sys.wire
    ensures Sane(p, sys', bs, n) && NotAbove(Weight(sys', bs), Weight(sys, bs))
  {
    C.GoSteady(p, Seen(sys), ev, bs, n);
    SeenGoes(p, sys, ev, sys');
  }

  lemma SeenGoes(p: Protocol, sys: System, ev: Event, sys': System)
    requires Consistent(sys) && Mirrors(p, sys, Some(ev), Now(sys'))
    ensures Consistent(sys') && C.Go(p, Seen(sys), ev) == Seen(sys')
  {
  }

  /** For the machine an idle move is an event that turns the line, or none. */
  lemma IdleKeeps(p: Protocol, z: Sizes, sys: System, m: Move, bs: seq<D.BlockId>, n: nat)
    requires Sane(p, sys, bs, n) && z.header >= 1 && !Acts(p, sys, m)
    ensures Sane(p, Try(p, z, sys, m), bs, n) && NotAbove(Weight(Try(p, z, sys, m), bs), Weight(sys, bs))
  {
    IdleMove(p, z, sys, m, bs, n);
    if m.Act? && Go(p, z, sys, m).Now? {
      ActMirrors(p, z, sys, m.ev);
      EventKeeps(p, sys, m.ev, Go(p, z, sys, m).sys, bs, n);
    }
  }

  // ----- something helps -----

  predicate Helps(p: Protocol, sys: System, m: Move, r: nat) {
    (r == 0 && Acts(p, sys, m)) ||
      (m.Act? && m.ev == C.Awaited(sys.local) && C.Brings(p, sys.local, r))
  }

  lemma IdleHelps(p: Protocol, sys: System, d: Move, sys': System, m: Move, r: nat) returns (r': nat)
    requires Idles(sys, d, sys') && !Acts(p, sys, d) && Helps(p, sys, m, r)
    requires d.Act? && (d.ev.Deliver? || d.ev.Arrive?) ==> sys' == sys
    ensures (r' < r && Helps(p, sys', Act(C.Awaited(sys'.local)), r')) || (d != m && Helps(p, sys', m, r))
  {
    r' := r;
    if d.Act? && m.Act? && !d.ev.Deliver? && !d.ev.Arrive? {
      r' := C.IdleHelps(p, sys.local, d.ev, sys'.local, m.ev, r);
    }
  }

  /** A ring with something on one of its channels can move. */
  lemma RingHelps(p: Protocol, sys: System, n: nat, s: nat, d: nat) returns (m: Move)
    requires Consistent(sys) && |sys.local.procs| == n
    requires s <= n && d <= n && Between(sys.wire, s, d) != []
    ensures OfSystem(m, n) && Acts(p, sys, m)
  {
    var ring := sys.wire.ring;
    if RP.Work(ring, n + 1) == 0 {
      forall x | 0 <= x < n + 1
        ensures ring[x] == R.Station([], [], [], R.Link.Free, R.Link.Free)
      {
        RP.NoWorkEmpty(ring, n + 1, x);
      }
      assert ring == R.Empty(n + 1);
      R.EmptyChannel(n + 1, s, s, d);
    }
    var ev := RP.NeverStuck(ring);
    m := if ev.Take? then (if ev.x == n then Collect else Receive(ev.x)) else Inside(ev);
  }

  /** What helps the processors and the directory helps them without the messages on the ring. */
  lemma HelpsLocal(p: Protocol, net: Net, c: Cargo, ev: Event, r: nat)
    requires Sized(c, |net.procs|) && !ev.Deliver? && !ev.Arrive?
    requires C.Helps(p, Joined(net, c), ev, r)
    ensures C.Helps(p, net, ev, r)
  {
    ActsSeen(p, net, c, ev);
  }

  /** A message for processor i, or from it, is on the ring. */
  lemma ChannelHelps(p: Protocol, sys: System, n: nat, i: nat) returns (m: Move)
    requires Consistent(sys) && |sys.local.procs| == n && i < n
    requires Seen(sys).procs[i].down != [] || Seen(sys).procs[i].up != []
    ensures OfSystem(m, n) && Acts(p, sys, m)
  {
    if Between(sys.wire, n, i) != [] { m := RingHelps(p, sys, n, n, i); }
    else { m := RingHelps(p, sys, n, i, n); }
  }

  lemma SomethingHelps(p: Protocol, sys: System, n: nat) returns (m: Move, r: nat)
    requires Consistent(sys) && BlocksInvariant(p, Seen(sys)) && |sys.local.procs| == n
    requires !C.Done(Seen(sys))
    ensures OfSystem(m, n) && Helps(p, sys, m, r)
  {
    var ev;
    ev, r := C.SomethingHelps(p, Seen(sys));
    if ev.Deliver? || ev.Arrive? {
      m := ChannelHelps(p, sys, n, ev.i);
      r := 0;
    } else {
      HelpsLocal(p, sys.local, CargoOf(Under(sys.wire), n), ev, r);
      m := Act(ev);
    }
  }

  // ----- every fair run ends -----

  ghost function OverRing(p: Protocol, z: Sizes, bs: seq<D.BlockId>, n: nat): Process<System, Move> {
    Process((sys: System, m: Move) => Try(p, z, sys, m), (m: Move) => OfSystem(m, n),
                    (sys: System) => Sane(p, sys, bs, n), (sys: System) => Weight(sys, bs),
                    (sys: System, m: Move, r: nat) => Helps(p, sys, m, r), (sys: System) => C.Done(Seen(sys)))
  }

  lemma TrySteady(p: Protocol, z: Sizes, sys: System, m: Move, bs: seq<D.BlockId>, n: nat)
    requires Sane(p, sys, bs, n) && z.header >= 1
    ensures Sane(p, Try(p, z, sys, m), bs, n)
    ensures NotAbove(Weight(Try(p, z, sys, m), bs), Weight(sys, bs))
  {
    if Acts(p, sys, m) { ActingLowers(p, z, sys, m, bs, n); } else { IdleKeeps(p, z, sys, m, bs, n); }
  }

  /** When the machine is done nothing that acts is left for it. */
  lemma DoneStays(p: Protocol, z: Sizes, sys: System, m: Move, bs: seq<D.BlockId>, n: nat)
    requires Sane(p, sys, bs, n) && z.header >= 1 && C.Done(Seen(sys))
    ensures C.Done(Seen(Try(p, z, sys, m)))
  {
    MoveMirrors(p, z, sys, m);
    if EventOf(sys, m).Some? { C.DoneStays(p, Seen(sys), EventOf(sys, m).value); }
  }

  lemma GuidedAt(p: Protocol, z: Sizes, bs: seq<D.BlockId>, n: nat, proc: Process<System, Move>, sys: System,
                 m: Move, r: nat, d: Move)
    requires proc == OverRing(p, z, bs, n) && z.header >= 1 && Sane(p, sys, bs, n) && Helps(p, sys, m, r)
    ensures Onward(proc, sys, m, r, d)
  {
    var sys' := Try(p, z, sys, d);
    TrySteady(p, z, sys, d, bs, n);
    TrySteady(p, z, sys', d, bs, n);
    if Acts(p, sys, d) {
      ActingLowers(p, z, sys, d, bs, n);
    } else {
      IdleMove(p, z, sys, d, bs, n);
      var r' := IdleHelps(p, sys, d, sys', m, r);
      HelpsOn(p, z, bs, n, proc, sys, sys', m, r, d, r');
    }
  }

  lemma HelpsOn(p: Protocol, z: Sizes, bs: seq<D.BlockId>, n: nat, proc: Process<System, Move>, sys: System,
                sys': System, m: Move, r: nat, d: Move, r': nat)
    requires proc == OverRing(p, z, bs, n) && sys' == proc.go(sys, d)
    requires (r' < r && Helps(p, sys', Act(C.Awaited(sys'.local)), r')) || (d != m && Helps(p, sys', m, r))
    ensures Onward(proc, sys, m, r, d)
  {
    var e := Act(C.Awaited(sys'.local));
    if r' < r && Helps(p, sys', e, r') {
      assert proc.tried(e) && proc.helps(sys', e, r');
    } else {
      assert proc.helps(sys', m, r);
    }
  }

  lemma HelpedAt(p: Protocol, z: Sizes, bs: seq<D.BlockId>, n: nat, proc: Process<System, Move>, sys: System)
    requires proc == OverRing(p, z, bs, n) && Sane(p, sys, bs, n) && !C.Done(Seen(sys))
    ensures Helped(proc, sys)
  {
    var m, r := SomethingHelps(p, sys, n);
    assert proc.tried(m) && proc.helps(sys, m, r);
  }

  lemma OverRingEnding(p: Protocol, z: Sizes, bs: seq<D.BlockId>, n: nat, proc: Process<System, Move>)
    requires proc == OverRing(p, z, bs, n) && z.header >= 1
    ensures Ending(proc) && Final(proc)
  {
    forall sys, m | proc.kept(sys)
      ensures proc.kept(proc.go(sys, m)) && NotAbove(proc.measure(proc.go(sys, m)), proc.measure(sys))
    {
      TrySteady(p, z, sys, m, bs, n);
    }
    forall sys, m | proc.kept(sys) && proc.goal(sys)
      ensures proc.goal(proc.go(sys, m))
    {
      DoneStays(p, z, sys, m, bs, n);
    }
    forall sys, m, r: nat, d | proc.kept(sys) && proc.tried(m) && proc.helps(sys, m, r)
      ensures Onward(proc, sys, m, r, d)
    {
      GuidedAt(p, z, bs, n, proc, sys, m, r, d);
    }
    forall sys | proc.kept(sys) && !proc.goal(sys) ensures Helped(proc, sys) { HelpedAt(p, z, bs, n, proc, sys); }
  }

  /** The system at moment m of a schedule. */
  function At(p: Protocol, z: Sizes, traces: seq<seq<Access>>, sigma: nat -> Move, m: nat): System {
    FairRuns.After((sys: System, d: Move) => Try(p, z, sys, d), Begin(traces), sigma, 0, m)
  }

  lemma BeginSane(p: Protocol, traces: seq<seq<Access>>)
    ensures Sane(p, Begin(traces), C.AllBlocks(traces), |traces|)
  {
    BeginSeen(traces);
    C.StartSane(p, traces);
  }

  /** Under every schedule that tries each move of processors, directory and ring again and again, for any protocol,
      traces and number of processors: from some moment on all accesses have been issued and answered, and nothing
      is on the ring, in the directory's queues or latched. */
  lemma EveryFairRunEnds(p: Protocol, z: Sizes, traces: seq<seq<Access>>, sigma: nat -> Move) returns (n: nat)
    requires z.header >= 1 && Fair(sigma, (m: Move) => OfSystem(m, |traces|))
    ensures forall m: nat :: m >= n ==> C.Done(Seen(At(p, z, traces, sigma, m)))
  {
    var bs := C.AllBlocks(traces);
    BeginSane(p, traces);
    OverRingEnding(p, z, bs, |traces|, OverRing(p, z, bs, |traces|));
    n := FairRunEnds(OverRing(p, z, bs, |traces|), Begin(traces), sigma);
  }
}
