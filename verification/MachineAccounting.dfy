/** The accounting laws for the whole machine: one set of counters over all blocks, as the program keeps them. */
module MachineAccounting {
  import opened Options
  import opened CoherenceTypes
  import opened Protocols
  import opened CoherenceInvariant
  import opened CoherenceMachine
  import opened Sums
  import A = CoherenceAccounting
  import B = CoherenceSystem
  import C = CoherenceTermination
  import D = DirectoryController

  /** What one event adds to the counters. */
  function Tallied(p: Protocol, net: Net, ev: Event, c: A.Tally): A.Tally
  {
    if !C.Acts(p, net, ev) then c
    else match ev
      case Lookup(i) => if AgentAt(net.procs[i], net.procs[i].core.block).I? then c.(misses := c.misses + 1) else c
      case Deliver(i) =>
        var d := net.procs[i].down[0];
        if Demoted(p, AgentAt(net.procs[i], d.block), d.kind) then c.(demoted := c.demoted + 1) else c
      case Poll =>
        var m := net.ctl.queue[0];
        if m.kind.DATA? then A.PassedOn(p, D.EntryOf(net.ctl, |net.procs|, m.block), c) else c
      case Respond => c.(fetches := c.fetches + 1)
      case _ => c
  }

  /** The message turns an upgrade into a miss. */
  predicate Demoted(p: Protocol, a: Agent, k: Kind) {
    var r := AgentNtwk(p, a, k);
    A.Upgrade(a) && r.React? && r.next.IM?
  }

  /** Processor i waits for data that nobody has sent yet. */
  function WantsAt(net: Net, i: nat): nat
    requires i < |net.procs|
  {
    if net.procs[i].core.Busy? then A.Wants(NodeAt(net, i, net.procs[i].core.block)) else 0
  }

  /** How many of the first m processors do. */
  function Wanting(net: Net, m: nat): nat
    requires m <= |net.procs|
  {
    if m == 0 then 0 else Wanting(net, m - 1) + WantsAt(net, m - 1)
  }

  predicate Balanced(net: Net, c: A.Tally) {
    c.transfers + c.uncounted + c.fetches + Wanting(net, |net.procs|) == c.misses + c.demoted + c.regranted
  }

  // ----- one block and the others -----

  /** The block other than b at which processor i has an access. */
  function Away(net: Net, b: D.BlockId, i: nat): Option<D.BlockId>
    requires i < |net.procs|
  {
    var core := net.procs[i].core;
    if core.Busy? && core.block != b then Some(core.block) else None
  }

  function AwayWants(net: Net, b: D.BlockId, i: nat): nat
    requires i < |net.procs|
  {
    if Away(net, b, i).Some? then A.Wants(NodeAt(net, i, Away(net, b, i).value)) else 0
  }

  function Others(net: Net, b: D.BlockId, m: nat): nat
    requires m <= |net.procs|
  {
    if m == 0 then 0 else Others(net, b, m - 1) + AwayWants(net, b, m - 1)
  }

  /** An agent wants data only while its processor waits at its block. */
  lemma OnlyWaitersWant(p: Protocol, s: B.Sys, i: nat)
    requires Invariant(p, s) && i < |s.nodes| && !s.nodes[i].cpu.Waiting?
    ensures A.Wants(s.nodes[i]) == 0
  {
    assert AgreesAt(p, s, i);
  }

  lemma WantsHere(p: Protocol, net: Net, b: D.BlockId, i: nat)
    requires BlocksInvariant(p, net) && i < |net.procs|
    ensures WantsAt(net, i) == AwayWants(net, b, i) + A.Wants(NodeAt(net, i, b))
  {
    if net.procs[i].core.Free? || net.procs[i].core.block != b { OnlyWaitersWant(p, Block(net, b), i); }
  }

  /** The processors that want data are those at block b and those at other blocks. */
  lemma {:induction false} WantingSplits(p: Protocol, net: Net, b: D.BlockId, m: nat)
    requires BlocksInvariant(p, net) && m <= |net.procs|
    ensures Wanting(net, m) == Others(net, b, m) + A.Wanting(Block(net, b).nodes[..m])
  {
    if m > 0 {
      WantingSplits(p, net, b, m - 1);
      WantsHere(p, net, b, m - 1);
      assert Block(net, b).nodes[..m][..m - 1] == Block(net, b).nodes[..m - 1];
    }
  }

  lemma {:induction false} OthersSame(net: Net, net': Net, b: D.BlockId, m: nat)
    requires |net'.procs| == |net.procs| && m <= |net.procs|
    requires forall i :: 0 <= i < |net.procs| ==> AwayWants(net', b, i) == AwayWants(net, b, i)
    ensures Others(net', b, m) == Others(net, b, m)
  {
    if m > 0 { OthersSame(net, net', b, m - 1); }
  }

  // ----- one event -----

  /** The block at which an event happens. */
  function Site(net: Net, ev: Event): D.BlockId {
    if ev.Fetch? && ev.i < |net.procs| && net.procs[ev.i].trace != [] then net.procs[ev.i].trace[0].block
    else C.BlockOf(net, ev)
  }

  /** An event at block b leaves processors at other blocks there. */
  lemma AwaySame(p: Protocol, net: Net, ev: Event, net': Net, i: nat)
    requires BlocksInvariant(p, net) && Next(p, net, ev) == Went(net') && C.Acts(p, net, ev) && !ev.Arrive?
    requires i < |net.procs| && |net'.procs| == |net.procs|
    ensures Away(net', Site(net, ev), i) == Away(net, Site(net, ev), i)
  {
    if ev.Lookup? { LookupAway(p, net, ev.i, net', i); }
    else if ev.Deliver? { DeliverAway(p, net, ev.i, net', i); }
  }

  lemma LookupAway(p: Protocol, net: Net, i: nat, net': Net, j: nat)
    requires BlocksInvariant(p, net) && Next(p, net, Event.Lookup(i)) == Went(net') && C.Acts(p, net, Event.Lookup(i))
    requires j < |net.procs| && |net'.procs| == |net.procs|
    ensures Away(net', net.procs[i].core.block, j) == Away(net, net.procs[i].core.block, j)
  {
    var b := net.procs[i].core.block;
    var pr := net.procs[i].(core := Busy(b, Awaiting(net.procs[i].core.phase.op)));
    LookupReacts(p, Block(net, b), i);
    LookupWent(p, net, i, pr, b, AgentProc(p, AgentAt(pr, b), net.procs[i].core.phase.op));
  }

  lemma DeliverAway(p: Protocol, net: Net, i: nat, net': Net, j: nat)
    requires BlocksInvariant(p, net) && Next(p, net, Event.Deliver(i)) == Went(net') && C.Acts(p, net, Event.Deliver(i))
    requires j < |net.procs| && |net'.procs| == |net.procs|
    ensures Away(net', net.procs[i].down[0].block, j) == Away(net, net.procs[i].down[0].block, j)
  {
    var d := net.procs[i].down[0];
    var pr := net.procs[i].(down := net.procs[i].down[1..]);
    HeadReacts(p, net, i);
    DeliverWent(p, net, i, pr, d.block, AgentNtwk(p, AgentAt(pr, d.block), d.kind));
  }

  /** At other blocks an event is invisible, or a processor comes or goes elsewhere. */
  lemma ElsewhereKinds(p: Protocol, net: Net, ev: Event, c: D.BlockId)
    requires C.Acts(p, net, ev) && c != Site(net, ev)
    ensures var e := EventAt(p, net, ev, c); e.Some? ==> e.value.Leave? || e.value.Return?
  {
  }

  lemma CpuOnly(p: Protocol, s: B.Sys, e: Option<B.Event>, t: B.Sys, i: nat)
    requires Follows(p, s, e, t) && (e.Some? ==> e.value.Leave? || e.value.Return?) && i < |s.nodes|
    ensures |t.nodes| == |s.nodes| && A.Wants(t.nodes[i]) == A.Wants(s.nodes[i])
  {
  }

  lemma AwayWantsSame(p: Protocol, net: Net, ev: Event, net': Net, i: nat)
    requires BlocksInvariant(p, net) && Next(p, net, ev) == Went(net') && C.Acts(p, net, ev) && !ev.Arrive?
    requires i < |net.procs| && |net'.procs| == |net.procs|
    ensures AwayWants(net', Site(net, ev), i) == AwayWants(net, Site(net, ev), i)
  {
    var b := Site(net, ev);
    AwaySame(p, net, ev, net', i);
    if Away(net, b, i).Some? {
      var c := Away(net, b, i).value;
      EventSimulated(p, net, ev);
      ElsewhereKinds(p, net, ev, c);
      CpuOnly(p, Block(net, c), EventAt(p, net, ev, c), Block(net', c), i);
    }
  }

  /** The event is one at its block, and is counted there alike. */
  predicate SameCount(p: Protocol, net: Net, ev: Event, c: A.Tally)
    requires WellFormed(net)
  {
    var e, s := EventAt(p, net, ev, Site(net, ev)), Block(net, Site(net, ev));
    e.Some? && !A.Idles(p, s, e.value) && Tallied(p, net, ev, c) == A.Counted(p, s, e.value, c)
  }

  /** The counters of the machine count what those of the block count. */
  lemma TalliedHere(p: Protocol, net: Net, ev: Event, c: A.Tally)
    requires BlocksInvariant(p, net) && C.Acts(p, net, ev) && !ev.Arrive?
    ensures SameCount(p, net, ev, c)
  {
    if ev.Deliver? { DeliveredHere(p, net, ev, c); } else { OwnHere(p, net, ev, c); }
  }

  lemma DeliveredHere(p: Protocol, net: Net, ev: Event, c: A.Tally)
    requires BlocksInvariant(p, net) && C.Acts(p, net, ev) && ev.Deliver?
    ensures SameCount(p, net, ev, c)
  {
    var d, rest := net.procs[ev.i].down[0], net.procs[ev.i].down[1..];
    assert Block(net, d.block).nodes[ev.i].down == [d.kind] + DownAt(rest, d.block);
  }

  lemma OwnHere(p: Protocol, net: Net, ev: Event, c: A.Tally)
    requires BlocksInvariant(p, net) && C.Acts(p, net, ev) && !ev.Deliver? && !ev.Arrive?
    ensures SameCount(p, net, ev, c)
  {
  }

  /** What is added does not depend on what was there. */
  lemma TalliedAdds(p: Protocol, net: Net, ev: Event, c: A.Tally, d: A.Tally)
    ensures var c', d' := Tallied(p, net, ev, c), Tallied(p, net, ev, d);
      && c'.misses - c.misses == d'.misses - d.misses && c'.transfers - c.transfers == d'.transfers - d.transfers
      && c'.fetches - c.fetches == d'.fetches - d.fetches && c'.demoted - c.demoted == d'.demoted - d.demoted
      && c'.regranted - c.regranted == d'.regranted - d.regranted
      && c'.uncounted - c.uncounted == d'.uncounted - d.uncounted
  {
  }

  lemma HereBalanced(p: Protocol, net: Net, ev: Event, net': Net)
    requires BlocksInvariant(p, net) && Next(p, net, ev) == Went(net')
    requires C.Acts(p, net, ev) && !ev.Arrive?
    ensures var b := Site(net, ev);
      var c := A.Nothing().(misses := A.Wanting(Block(net, b).nodes));
      A.Balanced(Block(net', b), Tallied(p, net, ev, c))
  {
    var b := Site(net, ev);
    var c := A.Nothing().(misses := A.Wanting(Block(net, b).nodes));
    TalliedHere(p, net, ev, c);
    EventSimulated(p, net, ev);
    A.EventBalanced(p, Block(net, b), EventAt(p, net, ev, b).value, c);
  }

  lemma ActingBalanced(p: Protocol, net: Net, ev: Event, net': Net, c: A.Tally)
    requires BlocksInvariant(p, net) && BlocksInvariant(p, net') && Next(p, net, ev) == Went(net')
    requires C.Acts(p, net, ev) && !ev.Arrive? && |net'.procs| == |net.procs| && Balanced(net, c)
    ensures Balanced(net', Tallied(p, net, ev, c))
  {
    var b := Site(net, ev);
    HereBalanced(p, net, ev, net');
    TalliedAdds(p, net, ev, c, A.Nothing().(misses := A.Wanting(Block(net, b).nodes)));
    WantingAround(p, net, b);
    WantingAround(p, net', b);
    OthersStay(p, net, ev, net');
  }

  lemma WantingAround(p: Protocol, net: Net, b: D.BlockId)
    requires BlocksInvariant(p, net)
    ensures Wanting(net, |net.procs|) == Others(net, b, |net.procs|) + A.Wanting(Block(net, b).nodes)
  {
    WantingSplits(p, net, b, |net.procs|);
    assert Block(net, b).nodes[..|net.procs|] == Block(net, b).nodes;
  }

  lemma OthersStay(p: Protocol, net: Net, ev: Event, net': Net)
    requires BlocksInvariant(p, net) && Next(p, net, ev) == Went(net') && C.Acts(p, net, ev) && !ev.Arrive?
    requires |net'.procs| == |net.procs|
    ensures Others(net', Site(net, ev), |net.procs|) == Others(net, Site(net, ev), |net.procs|)
  {
    var b := Site(net, ev);
    forall i | 0 <= i < |net.procs| ensures AwayWants(net', b, i) == AwayWants(net, b, i) {
      AwayWantsSame(p, net, ev, net', i);
    }
    OthersSame(net, net', b, |net.procs|);
  }

  // Events that only transport messages

  lemma {:induction false} WantingSame(net: Net, net': Net, m: nat)
    requires |net'.procs| == |net.procs| && m <= |net.procs|
    requires forall i :: 0 <= i < |net.procs| ==>
      var pr, pr' := net.procs[i], net'.procs[i];
      pr'.core == pr.core && pr'.agents == pr.agents && pr'.down == pr.down
    ensures Wanting(net', m) == Wanting(net, m)
  {
    if m > 0 { WantingSame(net, net', m - 1); }
  }

  lemma TransportBalanced(p: Protocol, net: Net, ev: Event, c: A.Tally)
    requires BlocksInvariant(p, net) && (!C.Acts(p, net, ev) || ev.Arrive?) && Balanced(net, c)
    ensures Balanced(C.Go(p, net, ev), Tallied(p, net, ev, c))
  {
    var net' := C.Go(p, net, ev);
    if !C.Acts(p, net, ev) { C.IdleTurns(p, net, ev); }
    WantingSame(net, net', |net.procs|);
  }

  lemma EventBalanced(p: Protocol, net: Net, ev: Event, c: A.Tally)
    requires BlocksInvariant(p, net) && Balanced(net, c)
    ensures BlocksInvariant(p, C.Go(p, net, ev)) && Balanced(C.Go(p, net, ev), Tallied(p, net, ev, c))
  {
    EventKeepsBlocks(p, net, ev);
    if !C.Acts(p, net, ev) || ev.Arrive? { TransportBalanced(p, net, ev, c); }
    else {
      C.ActingWent(p, net, ev);
      ActingBalanced(p, net, ev, C.Go(p, net, ev), c);
    }
  }

  // ----- whole runs -----

  /** The machine and its counters after the events; one that is not possible changes nothing. */
  function Account(p: Protocol, net: Net, c: A.Tally, evs: seq<Event>): (Net, A.Tally)
    decreases |evs|
  {
    if evs == [] then (net, c)
    else Account(p, C.Go(p, net, evs[0]), Tallied(p, net, evs[0], c), evs[1..])
  }

  lemma {:induction false} AccountBalanced(p: Protocol, net: Net, c: A.Tally, evs: seq<Event>)
    requires BlocksInvariant(p, net) && Balanced(net, c)
    ensures var (net', c') := Account(p, net, c, evs); Balanced(net', c')
    decreases |evs|
  {
    if evs != [] {
      EventBalanced(p, net, evs[0], c);
      AccountBalanced(p, C.Go(p, net, evs[0]), Tallied(p, net, evs[0], c), evs[1..]);
    }
  }

  lemma {:induction false} NobodyWants(net: Net, m: nat)
    requires m <= |net.procs| && forall i :: 0 <= i < |net.procs| ==> net.procs[i].core.Free?
    ensures Wanting(net, m) == 0
  {
    if m > 0 { NobodyWants(net, m - 1); }
  }

  /** Whether the event counts regrants, and those that are no transfers: only some protocols do. */
  lemma RegrantKinds(p: Protocol, net: Net, ev: Event, c: A.Tally)
    requires BlocksInvariant(p, net)
    ensures var d := Tallied(p, net, ev, c);
      && (A.Private(p) ==> d.regranted == c.regranted) && (!p.MOESIF? ==> d.uncounted == c.uncounted)
      && 0 <= d.uncounted - c.uncounted <= d.regranted - c.regranted
      && d.regranted - c.regranted <= d.transfers + d.uncounted - c.transfers - c.uncounted
  {
    if ev.Poll? && C.Acts(p, net, ev) {
      var m := net.ctl.queue[0];
      assert Invariant(p, Block(net, m.block));
    }
  }

  // ----- each counter by itself -----

  function IsCopy(m: D.Msg): nat { if m.kind.DATA? then 1 else 0 }

  function CopiesUp(pr: Proc): nat { Sum(pr.up, IsCopy) }

  /** Copies on their way to the directory or waiting in it. */
  function Returning(net: Net): nat {
    Sum(net.procs, CopiesUp) + Sum(net.ctl.next, IsCopy) + Sum(net.ctl.queue, IsCopy)
  }

  predicate Recalled(net: Net, ev: Event) {
    ev.Deliver? && ev.i < |net.procs| && net.procs[ev.i].down != [] &&
    (net.procs[ev.i].down[0].kind.RECALL_GOTO_I? || net.procs[ev.i].down[0].kind.RECALL_GOTO_S?)
  }

  /** How many recalls the run delivers to caches. */
  function Recalls(p: Protocol, net: Net, evs: seq<Event>): nat
    decreases |evs|
  {
    if evs == [] then 0 else (if Recalled(net, evs[0]) then 1 else 0) + Recalls(p, C.Go(p, net, evs[0]), evs[1..])
  }

  predicate Latched(net: Net, net': Net) { net.ctl.pending.None? && net'.ctl.pending.Some? }

  /** How many responses the run latches. */
  function Latches(p: Protocol, net: Net, evs: seq<Event>): nat
    decreases |evs|
  {
    if evs == [] then 0
    else
      var net' := C.Go(p, net, evs[0]);
      (if Latched(net, net') then 1 else 0) + Latches(p, net', evs[1..])
  }

  lemma ScatterCopies(procs: seq<Proc>, ps: seq<D.Packet>)
    ensures Sum(Scatter(procs, ps), CopiesUp) == Sum(procs, CopiesUp)
  {
    SameCopies(procs, Scatter(procs, ps));
  }

  lemma {:induction false} SameCopies(procs: seq<Proc>, procs': seq<Proc>)
    requires |procs'| == |procs| && forall i :: 0 <= i < |procs| ==> procs'[i].up == procs[i].up
    ensures Sum(procs', CopiesUp) == Sum(procs, CopiesUp)
  {
    if procs != [] { SameCopies(procs[1..], procs'[1..]); }
  }

  /** The first message leaves, or another one joins. */
  lemma CopyMoves(q: seq<D.Msg>, m: D.Msg)
    ensures Sum(q + [m], IsCopy) == Sum(q, IsCopy) + IsCopy(m)
    ensures q != [] ==> Sum(q, IsCopy) == IsCopy(q[0]) + Sum(q[1..], IsCopy)
  {
    SumAppend(q, [m], IsCopy);
    SumOne(m, IsCopy);
  }

  /** A recall is answered with a copy, nothing else is. */
  lemma ReactCopies(net: Net, i: nat, pr: Proc, b: D.BlockId, r: Reaction, copy: bool)
    requires i < |net.procs| && r.React? && pr.up == net.procs[i].up && (copy <==> r.send == Some(DATA))
    ensures Sum(net.procs[i := Acted(pr, i, b, r)], CopiesUp) == Sum(net.procs, CopiesUp) + (if copy then 1 else 0)
  {
    SumUpdate(net.procs, i, Acted(pr, i, b, r), CopiesUp);
    if r.send.Some? { CopyMoves(pr.up, D.Msg(i, b, r.send.value)); }
  }

  predicate Transferred(net: Net, c: A.Tally, ev: Event, net': Net, d: A.Tally) {
    d.transfers + d.uncounted + Returning(net') ==
    c.transfers + c.uncounted + Returning(net) + (if Recalled(net, ev) then 1 else 0)
  }

  predicate Fetched(net: Net, c: A.Tally, net': Net, d: A.Tally) {
    d.fetches + (if net'.ctl.pending.Some? then 1 else 0) ==
    c.fetches + (if net.ctl.pending.Some? then 1 else 0) + (if Latched(net, net') then 1 else 0)
  }

  predicate Caused(p: Protocol, net: Net, ev: Event, c: A.Tally) {
    var net', d := C.Go(p, net, ev), Tallied(p, net, ev, c);
    Transferred(net, c, ev, net', d) && Fetched(net, c, net', d)
  }

  lemma LookupCaused(p: Protocol, net: Net, i: nat, c: A.Tally)
    requires Next(p, net, Event.Lookup(i)).Went?
    ensures Caused(p, net, Event.Lookup(i), c)
  {
    var b := net.procs[i].core.block;
    var pr := net.procs[i].(core := Busy(b, Awaiting(net.procs[i].core.phase.op)));
    var r := AgentProc(p, AgentAt(pr, b), net.procs[i].core.phase.op);
    LookupWent(p, net, i, pr, b, r);
    ReactCopies(net, i, pr, b, r, false);
  }

  lemma DeliverCaused(p: Protocol, net: Net, i: nat, c: A.Tally)
    requires Next(p, net, Event.Deliver(i)).Went?
    ensures Caused(p, net, Event.Deliver(i), c)
  {
    var d := net.procs[i].down[0];
    var pr := net.procs[i].(down := net.procs[i].down[1..]);
    var r := AgentNtwk(p, AgentAt(pr, d.block), d.kind);
    DeliverWent(p, net, i, pr, d.block, r);
    ReactCopies(net, i, pr, d.block, r, Recalled(net, Event.Deliver(i)));
  }

  lemma ArriveCaused(p: Protocol, net: Net, i: nat, c: A.Tally)
    requires Next(p, net, Arrive(i)).Went?
    ensures Caused(p, net, Arrive(i), c)
  {
    var pr := net.procs[i];
    CopyMoves(pr.up, pr.up[0]);
    CopyMoves(net.ctl.next, pr.up[0]);
    SumUpdate(net.procs, i, pr.(up := pr.up[1..]), CopiesUp);
  }

  /** A poll that handles a message takes it out of the queue; any other leaves all of them there. */
  lemma PollReturning(p: Protocol, net: Net, c: D.Ctl, out: seq<D.Packet>)
    requires D.Poll(p, |net.procs|, net.ctl) == D.Ticked(c, out)
    ensures Returning(Net(Scatter(net.procs, out), c)) ==
            Returning(net) - (if Polls(p, net) then IsCopy(net.ctl.queue[0]) else 0)
  {
    ScatterCopies(net.procs, out);
    if net.ctl.pending.None? && net.ctl.queue != [] {
      CopyMoves(net.ctl.queue, net.ctl.queue[0]);
      CopyMoves(net.ctl.next, net.ctl.queue[0]);
    }
  }

  lemma PassedOnOnce(p: Protocol, e: Entry, c: A.Tally)
    ensures var d := A.PassedOn(p, e, c);
      d.transfers + d.uncounted == c.transfers + c.uncounted + 1 && d.fetches == c.fetches
  {
  }

  lemma PollCaused(p: Protocol, net: Net, c: A.Tally)
    requires Next(p, net, Poll).Went?
    ensures Caused(p, net, Poll, c)
  {
    var r := D.Poll(p, |net.procs|, net.ctl);
    PollReturning(p, net, r.ctl, r.out);
    PollTallied(p, net, c);
  }

  lemma PollTallied(p: Protocol, net: Net, c: A.Tally)
    ensures var d := Tallied(p, net, Poll, c);
      && d.transfers + d.uncounted ==
         c.transfers + c.uncounted + (if Polls(p, net) then IsCopy(net.ctl.queue[0]) else 0)
      && d.fetches == c.fetches
  {
    if Polls(p, net) { PassedOnOnce(p, D.EntryOf(net.ctl, |net.procs|, net.ctl.queue[0].block), c); }
  }

  lemma EventCaused(p: Protocol, net: Net, ev: Event, c: A.Tally)
    ensures Next(p, net, ev).Crash? || Caused(p, net, ev, c)
  {
    if Next(p, net, ev).Went? {
      match ev
      case Lookup(i) => LookupCaused(p, net, i, c);
      case Deliver(i) => DeliverCaused(p, net, i, c);
      case Arrive(i) => ArriveCaused(p, net, i, c);
      case Poll => PollCaused(p, net, c);
      case Respond => RespondCaused(p, net, c);
      case Tock => SumAppend(net.ctl.queue, net.ctl.next, IsCopy);
      case _ => CpuCaused(p, net, ev, c);
    }
  }

  lemma RespondCaused(p: Protocol, net: Net, c: A.Tally)
    ensures Caused(p, net, Event.Respond, c)
  {
    ScatterCopies(net.procs, D.Answer(net.ctl, true).out);
  }

  lemma CpuCaused(p: Protocol, net: Net, ev: Event, c: A.Tally)
    requires Next(p, net, ev).Went? && (ev.Fetch? || ev.Accept?)
    ensures Caused(p, net, ev, c)
  {
    SumUpdate(net.procs, ev.i, Next(p, net, ev).net.procs[ev.i], CopiesUp);
  }

  lemma {:induction false} AccountCaused(p: Protocol, net: Net, c: A.Tally, evs: seq<Event>)
    requires BlocksInvariant(p, net)
    ensures var (net', d) := Account(p, net, c, evs);
      && d.transfers + d.uncounted + Returning(net') ==
         c.transfers + c.uncounted + Returning(net) + Recalls(p, net, evs)
      && d.fetches + (if net'.ctl.pending.Some? then 1 else 0) ==
         c.fetches + (if net.ctl.pending.Some? then 1 else 0) + Latches(p, net, evs)
    decreases |evs|
  {
    if evs != [] {
      EventKeepsBlocks(p, net, evs[0]);
      EventCaused(p, net, evs[0], c);
      AccountCaused(p, C.Go(p, net, evs[0]), Tallied(p, net, evs[0], c), evs[1..]);
    }
  }

  lemma {:induction false} AccountRegrants(p: Protocol, net: Net, c: A.Tally, evs: seq<Event>)
    requires BlocksInvariant(p, net)
    ensures var d := Account(p, net, c, evs).1;
      && (A.Private(p) ==> d.regranted == c.regranted) && (!p.MOESIF? ==> d.uncounted == c.uncounted)
      && 0 <= d.uncounted - c.uncounted <= d.regranted - c.regranted
      && d.regranted - c.regranted <= d.transfers + d.uncounted - c.transfers - c.uncounted
    decreases |evs|
  {
    if evs != [] {
      EventKeepsBlocks(p, net, evs[0]);
      RegrantKinds(p, net, evs[0], c);
      AccountRegrants(p, C.Go(p, net, evs[0]), Tallied(p, net, evs[0], c), evs[1..]);
    }
  }

  lemma {:induction false} NothingReturns(traces: seq<seq<Access>>)
    ensures Returning(Start(traces)) == 0
  {
    if traces != [] {
      assert Start(traces).procs[1..] == Start(traces[1..]).procs;
      NothingReturns(traces[1..]);
    }
  }

  // ----- a processor by itself -----

  /** With one cache nothing is ever recalled or invalidated. */
  lemma Unasked(p: Protocol, s: B.Sys)
    requires Invariant(p, s) && |s.nodes| == 1
    ensures s.nodes[0].down != [] ==> s.nodes[0].down[0].Grant()
  {
    var e := s.dir;
    assert AgreesAt(p, s, 0);
    assert Count(e.presence) == if e.presence[0] then 1 else 0;
    assert AskOf(e, 0).Nil?;
  }

  lemma LoneMessage(p: Protocol, net: Net)
    requires BlocksInvariant(p, net) && |net.procs| == 1 && net.procs[0].down != []
    ensures net.procs[0].down[0].kind.Grant()
  {
    var d, rest := net.procs[0].down[0], net.procs[0].down[1..];
    assert Block(net, d.block).nodes[0].down == [d.kind] + DownAt(rest, d.block);
    Unasked(p, Block(net, d.block));
  }

  lemma GrantKinds(p: Protocol, a: Agent, k: Kind)
    requires k.Grant()
    ensures !Demoted(p, a, k)
  {
  }

  lemma LoneEvent(p: Protocol, net: Net, ev: Event, c: A.Tally)
    requires BlocksInvariant(p, net) && |net.procs| == 1
    ensures !Recalled(net, ev) && Tallied(p, net, ev, c).demoted == c.demoted
  {
    if ev.Deliver? && ev.i < |net.procs| && net.procs[ev.i].down != [] {
      LoneMessage(p, net);
      GrantKinds(p, AgentAt(net.procs[0], net.procs[0].down[0].block), net.procs[0].down[0].kind);
    }
  }

  lemma GoKeepsCount(p: Protocol, net: Net, ev: Event)
    ensures |C.Go(p, net, ev).procs| == |net.procs|
  {
  }

  lemma {:induction false} LoneRun(p: Protocol, net: Net, c: A.Tally, evs: seq<Event>)
    requires BlocksInvariant(p, net) && |net.procs| == 1
    ensures Recalls(p, net, evs) == 0 && Account(p, net, c, evs).1.demoted == c.demoted
    decreases |evs|
  {
    if evs != [] {
      EventKeepsBlocks(p, net, evs[0]);
      LoneEvent(p, net, evs[0], c);
      GoKeepsCount(p, net, evs[0]);
      LoneRun(p, C.Go(p, net, evs[0]), Tallied(p, net, evs[0], c), evs[1..]);
    }
  }

  // ----- the laws -----

  /** Any protocol, any traces and any run: transfers plus memory reads plus the processors whose data nobody has sent
      are the misses plus the upgrades that a race demoted, apart from transfers to requesters that had a copy; and
      there is one transfer for each recall that a cache has received, unless its copy is still on its way, and one
      memory read for each response latched, unless it is still there. */
  lemma MachineMissLaw(p: Protocol, traces: seq<seq<Access>>, evs: seq<Event>)
    ensures var (net, c) := Account(p, Start(traces), A.Nothing(), evs);
      && c.transfers + c.uncounted + c.fetches + Wanting(net, |net.procs|) == c.misses + c.demoted + c.regranted
      && c.transfers + c.uncounted + Returning(net) == Recalls(p, Start(traces), evs)
      && c.fetches + (if net.ctl.pending.Some? then 1 else 0) == Latches(p, Start(traces), evs)
      && (A.Private(p) ==> c.regranted == 0) && (!p.MOESIF? ==> c.uncounted == 0) && c.uncounted <= c.regranted
  {
    StartBlocks(p, traces);
    NobodyWants(Start(traces), |traces|);
    NothingReturns(traces);
    AccountBalanced(p, Start(traces), A.Nothing(), evs);
    AccountCaused(p, Start(traces), A.Nothing(), evs);
    AccountRegrants(p, Start(traces), A.Nothing(), evs);
  }

  /** When all is done, every miss of MI, MSI and MESI has been served by exactly one transfer or memory read. */
  lemma MissesServed(p: Protocol, traces: seq<seq<Access>>, evs: seq<Event>)
    requires A.Private(p) && C.Done(Account(p, Start(traces), A.Nothing(), evs).0)
    ensures var c := Account(p, Start(traces), A.Nothing(), evs).1; c.transfers + c.fetches == c.misses + c.demoted
  {
    MachineMissLaw(p, traces, evs);
    var net := Account(p, Start(traces), A.Nothing(), evs).0;
    forall i | 0 <= i < |net.procs| ensures net.procs[i].core.Free? { assert C.ProcDone(net.procs[i]); }
    NobodyWants(net, |net.procs|);
  }

  /** With one processor nothing is transferred: every miss is a memory read, or still waits for it. */
  lemma AloneReadsMemory(p: Protocol, trace: seq<Access>, evs: seq<Event>)
    ensures var (net, c) := Account(p, Start([trace]), A.Nothing(), evs);
      c.transfers == 0 && c.fetches + Wanting(net, |net.procs|) == c.misses
  {
    StartBlocks(p, [trace]);
    MachineMissLaw(p, [trace], evs);
    LoneRun(p, Start([trace]), A.Nothing(), evs);
    AccountRegrants(p, Start([trace]), A.Nothing(), evs);
  }
}
