/** Every fair run of the coherence machine ends, with all traces executed and nothing left in flight. */
module CoherenceTermination {
  import opened Options
  import opened CoherenceTypes
  import opened Protocols
  import opened CoherenceInvariant
  import opened CoherenceMachine
  import opened Sums
  import opened FairRuns
  import B = CoherenceSystem
  import D = DirectoryController
  import P = CoherenceProgress

  /** An event that is tried and not possible changes nothing. */
  function Go(p: Protocol, net: Net, ev: Event): Net {
    if Next(p, net, ev).Went? then Next(p, net, ev).net else net
  }

  predicate OfMachine(ev: Event, n: nat) {
    match ev
    case Fetch(i) => i < n
    case Lookup(i) => i < n
    case Deliver(i) => i < n
    case Accept(i) => i < n
    case Arrive(i) => i < n
    case _ => true
  }

  predicate ProcDone(pr: Proc) { pr.trace == [] && pr.core.Free? && pr.down == [] && pr.up == [] }

  /** All accesses have been issued and answered, and nothing is in flight or in the directory. */
  predicate Done(net: Net) {
    && (forall i :: 0 <= i < |net.procs| ==> ProcDone(net.procs[i]))
    && net.ctl.queue == [] && net.ctl.next == [] && net.ctl.pending.None?
  }

  // ----- which events do something -----

  /** The event consumes something. Tock and a poll that cycles the queue do not. */
  predicate Acts(p: Protocol, net: Net, ev: Event) {
    var n := |net.procs|;
    match ev
    case Fetch(i) => i < n && net.procs[i].core.Free? && net.procs[i].trace != []
    case Lookup(i) => i < n && net.procs[i].core.Busy? && net.procs[i].core.phase.InSlot?
    case Deliver(i) => i < n && net.procs[i].down != []
    case Accept(i) => i < n && net.procs[i].core.Busy? && net.procs[i].core.phase.Answered?
    case Arrive(i) => i < n && net.procs[i].up != []
    case Respond => net.ctl.pending.Some?
    case Poll => Polls(p, net)
    case Tock => false
  }

  /** The directory's queue with what is about to join it. */
  function Line(net: Net): seq<D.Msg> { net.ctl.queue + net.ctl.next }

  predicate Still(net: Net, net': Net) {
    net'.procs == net.procs && net'.ctl.directory == net.ctl.directory && net'.ctl.pending == net.ctl.pending
  }

  /** What an event that does not act may do: move the line up, or take its head to its end. */
  predicate Turns(net: Net, ev: Event, net': Net) {
    && Still(net, net')
    && match ev
       case Tock => net'.ctl.queue == Line(net) && net'.ctl.next == []
       case Poll =>
         if net.ctl.pending.Some? || net.ctl.queue == [] then net' == net
         else net'.ctl.queue == net.ctl.queue[1..] && net'.ctl.next == net.ctl.next + [net.ctl.queue[0]]
       case _ => net' == net
  }

  lemma PollTurns(p: Protocol, net: Net)
    requires WellFormed(net) && !Acts(p, net, Poll) && !Next(p, net, Poll).Crash?
    ensures Turns(net, Poll, Go(p, net, Poll))
  {
    NothingSent(net.procs);
    if net.ctl.pending.None? && net.ctl.queue != [] { HeadInBag(net); }
  }

  lemma RespondTurns(p: Protocol, net: Net)
    requires net.ctl.pending.None?
    ensures Go(p, net, Event.Respond) == net
  {
    NothingSent(net.procs);
  }

  lemma LocalTurns(p: Protocol, net: Net, ev: Event)
    requires !Acts(p, net, ev) && !ev.Poll? && !ev.Respond? && !ev.Tock?
    ensures Go(p, net, ev) == net
  {
  }

  lemma IdleTurns(p: Protocol, net: Net, ev: Event)
    requires BlocksInvariant(p, net) && !Acts(p, net, ev)
    ensures Turns(net, ev, Go(p, net, ev))
  {
    match ev
    case Poll =>
      EventKeepsBlocks(p, net, ev);
      PollTurns(p, net);
    case Respond => RespondTurns(p, net);
    case Tock =>
    case _ => LocalTurns(p, net, ev);
  }

  // ----- the potential -----

  function WorkAt(net: Net, b: D.BlockId): nat { P.Work(Block(net, b)) }

  function TotalWork(net: Net, bs: seq<D.BlockId>): nat {
    if bs == [] then 0 else WorkAt(net, bs[0]) + TotalWork(net, bs[1..])
  }

  function UpCost(pr: Proc): nat { |pr.up| }

  function TraceCost(pr: Proc): nat { |pr.trace| }

  /** More than issuing an access can add to the other terms. */
  function FetchCost(n: nat, blocks: nat): nat { 2 * P.Times(P.RequestCost(n) + 3, blocks) + 1 }

  /** Work outstanding at the blocks bs, messages not yet at the directory, accesses not yet issued. */
  function Potential(net: Net, bs: seq<D.BlockId>): nat {
    Weighed(TotalWork(net, bs), Sum(net.procs, UpCost), Sum(net.procs, TraceCost), |net.procs|, |bs|)
  }

  function Weighed(work: nat, ups: nat, accesses: nat, n: nat, blocks: nat): nat {
    2 * work + ups + P.Times(FetchCost(n, blocks), accesses)
  }

  /** What a fetch, an arrival and any other event that acts do to work, messages and accesses. */
  predicate Lowered(work: nat, work': nat, ups: nat, ups': nat, accesses: nat, accesses': nat, n: nat, blocks: nat,
                    fetch: bool, arrive: bool) {
    && accesses' == accesses - (if fetch then 1 else 0)
    && (if fetch then ups' == ups else if arrive then ups' < ups else ups' <= ups + 1)
    && (if fetch then work' <= work + P.Times(P.RequestCost(n) + 3, blocks)
        else if arrive then work' <= work else work' < work)
  }

  /** Accesses weigh more than the work they bring, work more than the messages it brings. */
  lemma Falls(work: nat, work': nat, ups: nat, ups': nat, accesses: nat, accesses': nat, n: nat, blocks: nat,
              fetch: bool, arrive: bool)
    requires Lowered(work, work', ups, ups', accesses, accesses', n, blocks, fetch, arrive)
    ensures Weighed(work', ups', accesses', n, blocks) < Weighed(work, ups, accesses, n, blocks)
  {
  }

  lemma {:induction false} TotalDrops(net: Net, net': Net, bs: seq<D.BlockId>, b: D.BlockId)
    requires forall c :: WorkAt(net', c) <= WorkAt(net, c)
    ensures TotalWork(net', bs) <= TotalWork(net, bs)
    ensures b in bs && WorkAt(net', b) < WorkAt(net, b) ==> TotalWork(net', bs) < TotalWork(net, bs)
  {
    if bs != [] { TotalDrops(net, net', bs[1..], b); }
  }

  lemma {:induction false} TotalRises(net: Net, net': Net, bs: seq<D.BlockId>, c: nat)
    requires forall b :: WorkAt(net', b) <= WorkAt(net, b) + c
    ensures TotalWork(net', bs) <= TotalWork(net, bs) + P.Times(c, |bs|)
  {
    if bs != [] { TotalRises(net, net', bs[1..], c); }
  }

  lemma {:induction false} SumSame(procs: seq<Proc>, procs': seq<Proc>, f: Proc -> nat)
    requires |procs| == |procs'| && forall i :: 0 <= i < |procs| ==> f(procs'[i]) == f(procs[i])
    ensures Sum(procs', f) == Sum(procs, f)
  {
    if procs != [] { SumSame(procs[1..], procs'[1..], f); }
  }

  /** The blocks bs are all there are. */
  predicate Covers(net: Net, bs: seq<D.BlockId>) {
    && (forall i :: 0 <= i < |net.procs| ==> ProcCovered(net.procs[i], bs))
    && (forall m :: m in net.ctl.queue ==> m.block in bs)
    && (forall m :: m in net.ctl.next ==> m.block in bs)
    && (net.ctl.pending.Some? ==> net.ctl.pending.value.block in bs)
  }

  predicate ProcCovered(pr: Proc, bs: seq<D.BlockId>) {
    && (forall a :: a in pr.trace ==> a.block in bs)
    && (pr.core.Busy? ==> pr.core.block in bs)
    && (forall d :: d in pr.down ==> d.block in bs)
    && (forall m :: m in pr.up ==> m.block in bs)
  }

  // ----- one event, seen from every block -----

  lemma IssueWork(p: Protocol, s: B.Sys, ev: B.Event, t: B.Sys)
    requires Moves(p, s, ev, t) && (ev.Issue? || ev.Leave? || ev.Return?)
    ensures P.Work(t) == P.Work(s) + (if ev.Issue? then P.RequestCost(|s.nodes|) + 3 else 0)
  {
    P.SumUpdate(|s.nodes|, s.nodes, ev.i, t.nodes[ev.i]);
  }

  lemma ActWork(p: Protocol, s: B.Sys, ev: B.Event, t: B.Sys)
    requires Invariant(p, s) && Moves(p, s, ev, t) && P.Productive(p, s, ev)
    ensures P.Work(t) < P.Work(s)
  {
    P.ProductiveLowersWork(p, s, ev);
  }

  /** The block that an event concerns. */
  function BlockOf(net: Net, ev: Event): D.BlockId {
    var n := |net.procs|;
    match ev
    case Lookup(i) => if i < n && net.procs[i].core.Busy? then net.procs[i].core.block else 0
    case Accept(i) => if i < n && net.procs[i].core.Busy? then net.procs[i].core.block else 0
    case Deliver(i) => if i < n && net.procs[i].down != [] then net.procs[i].down[0].block else 0
    case Poll => if net.ctl.queue != [] then net.ctl.queue[0].block else 0
    case Respond => if net.ctl.pending.Some? then net.ctl.pending.value.block else 0
    case _ => 0
  }

  lemma BlockCovered(p: Protocol, net: Net, ev: Event, bs: seq<D.BlockId>)
    requires Covers(net, bs) && Acts(p, net, ev) && !ev.Fetch? && !ev.Arrive?
    ensures BlockOf(net, ev) in bs
  {
    match ev
    case Lookup(i) => assert ProcCovered(net.procs[i], bs);
    case Accept(i) => assert ProcCovered(net.procs[i], bs);
    case Deliver(i) => assert ProcCovered(net.procs[i], bs) && net.procs[i].down[0] in net.procs[i].down;
    case Poll => assert net.ctl.queue[0] in net.ctl.queue;
    case Respond =>
  }

  /** What the work of a block does when an event of it, or none, has happened. */
  lemma FollowsWork(p: Protocol, s: B.Sys, e: Option<B.Event>, t: B.Sys)
    requires Invariant(p, s) && Follows(p, s, e, t)
    requires e.Some? && e.value.Handle? ==> P.Productive(p, s, e.value)
    ensures if e.None? || e.value.Leave? || e.value.Return? then P.Work(t) == P.Work(s)
            else if e.value.Issue? then P.Work(t) == P.Work(s) + P.RequestCost(|s.nodes|) + 3
            else P.Work(t) < P.Work(s)
  {
    if e.Some? {
      if e.value.Issue? || e.value.Leave? || e.value.Return? { IssueWork(p, s, e.value, t); }
      else { ActWork(p, s, e.value, t); }
    }
  }

  lemma EventKinds(p: Protocol, net: Net, ev: Event, c: D.BlockId)
    requires WellFormed(net) && Acts(p, net, ev)
    ensures var e := EventAt(p, net, ev, c);
      && (e.Some? && e.value.Issue? ==> ev.Fetch?)
      && (e.Some? && e.value.Handle? ==> P.Productive(p, Block(net, c), e.value))
      && (c == BlockOf(net, ev) && !ev.Fetch? && !ev.Arrive? ==>
            e.Some? && !e.value.Issue? && !e.value.Leave? && !e.value.Return?)
  {
  }

  lemma WorkAfter(p: Protocol, net: Net, ev: Event, net': Net, c: D.BlockId)
    requires BlocksInvariant(p, net) && Next(p, net, ev) == Went(net') && Acts(p, net, ev)
    ensures WorkAt(net', c) <= WorkAt(net, c) + (if ev.Fetch? then P.RequestCost(|net.procs|) + 3 else 0)
    ensures c == BlockOf(net, ev) && !ev.Fetch? && !ev.Arrive? ==> WorkAt(net', c) < WorkAt(net, c)
  {
    EventSimulated(p, net, ev);
    EventKinds(p, net, ev, c);
    FollowsWork(p, Block(net, c), EventAt(p, net, ev, c), Block(net', c));
  }

  lemma SumsNear(procs: seq<Proc>, i: nat, pr: Proc)
    requires i < |procs|
    ensures Sum(procs[i := pr], UpCost) + |procs[i].up| == Sum(procs, UpCost) + |pr.up|
    ensures Sum(procs[i := pr], TraceCost) + |procs[i].trace| == Sum(procs, TraceCost) + |pr.trace|
  {
    SumUpdate(procs, i, pr, UpCost);
    SumUpdate(procs, i, pr, TraceCost);
  }

  /** An agent's reaction sends at most one message. */
  lemma ActedNear(pr: Proc, i: nat, b: D.BlockId, r: Reaction)
    requires r.React?
    ensures Acted(pr, i, b, r).trace == pr.trace && |Acted(pr, i, b, r).up| <= |pr.up| + 1
  {
  }

  /** The processor that an event of its own makes. */
  lemma LocalGoes(p: Protocol, net: Net, ev: Event) returns (pr: Proc)
    requires BlocksInvariant(p, net) && Acts(p, net, ev) &&
      (ev.Fetch? || ev.Accept? || ev.Lookup? || ev.Deliver? || ev.Arrive?)
    ensures Go(p, net, ev).procs == net.procs[ev.i := pr]
    ensures |pr.trace| == |net.procs[ev.i].trace| - (if ev.Fetch? then 1 else 0)
    ensures if ev.Lookup? || ev.Deliver? then |pr.up| <= |net.procs[ev.i].up| + 1
            else |pr.up| == |net.procs[ev.i].up| - (if ev.Arrive? then 1 else 0)
  {
    var i := ev.i;
    if ev.Lookup? {
      var b := net.procs[i].core.block;
      pr := LookupGoes(p, net, i, b);
    } else if ev.Deliver? {
      pr := DeliverGoes(p, net, i, net.procs[i].down[0]);
    } else {
      pr := Go(p, net, ev).procs[i];
    }
  }

  lemma LookupGoes(p: Protocol, net: Net, i: nat, b: D.BlockId) returns (pr: Proc)
    requires BlocksInvariant(p, net) && Acts(p, net, Event.Lookup(i)) && b == net.procs[i].core.block
    ensures Go(p, net, Event.Lookup(i)).procs == net.procs[i := pr]
    ensures pr.trace == net.procs[i].trace && |pr.up| <= |net.procs[i].up| + 1
  {
    var was := net.procs[i].(core := Busy(b, Awaiting(net.procs[i].core.phase.op)));
    var r := AgentProc(p, AgentAt(was, b), net.procs[i].core.phase.op);
    LookupReacts(p, Block(net, b), i);
    LookupWent(p, net, i, was, b, r);
    ActedNear(was, i, b, r);
    pr := Acted(was, i, b, r);
  }

  lemma DeliverGoes(p: Protocol, net: Net, i: nat, d: Down) returns (pr: Proc)
    requires BlocksInvariant(p, net) && Acts(p, net, Event.Deliver(i)) && d == net.procs[i].down[0]
    ensures Go(p, net, Event.Deliver(i)).procs == net.procs[i := pr]
    ensures pr.trace == net.procs[i].trace && |pr.up| <= |net.procs[i].up| + 1
  {
    var was := net.procs[i].(down := net.procs[i].down[1..]);
    var r := AgentNtwk(p, AgentAt(was, d.block), d.kind);
    HeadReacts(p, net, i);
    DeliverWent(p, net, i, was, d.block, r);
    ActedNear(was, i, d.block, r);
    pr := Acted(was, i, d.block, r);
  }

  /** The directory's events leave traces and outgoing messages alone. */
  lemma DirectoryGoes(p: Protocol, net: Net, ev: Event)
    requires BlocksInvariant(p, net) && Acts(p, net, ev) && (ev.Poll? || ev.Respond?)
    ensures var net' := Go(p, net, ev);
      && |net'.procs| == |net.procs|
      && forall j :: 0 <= j < |net.procs| ==>
           UpCost(net'.procs[j]) == UpCost(net.procs[j]) && TraceCost(net'.procs[j]) == TraceCost(net.procs[j])
  {
  }

  lemma SumsAfter(p: Protocol, net: Net, ev: Event)
    requires BlocksInvariant(p, net) && Acts(p, net, ev)
    ensures var net' := Go(p, net, ev);
      && |net'.procs| == |net.procs|
      && Sum(net'.procs, TraceCost) == Sum(net.procs, TraceCost) - (if ev.Fetch? then 1 else 0)
      && (if ev.Fetch? then Sum(net'.procs, UpCost) == Sum(net.procs, UpCost)
          else if ev.Arrive? then Sum(net'.procs, UpCost) < Sum(net.procs, UpCost)
          else Sum(net'.procs, UpCost) <= Sum(net.procs, UpCost) + 1)
  {
    if ev.Poll? || ev.Respond? {
      DirectoryGoes(p, net, ev);
      SumSame(net.procs, Go(p, net, ev).procs, UpCost);
      SumSame(net.procs, Go(p, net, ev).procs, TraceCost);
    } else {
      var pr := LocalGoes(p, net, ev);
      SumsNear(net.procs, ev.i, pr);
    }
  }

  lemma TotalAfter(p: Protocol, net: Net, ev: Event, net': Net, bs: seq<D.BlockId>)
    requires BlocksInvariant(p, net) && Covers(net, bs) && Next(p, net, ev) == Went(net') && Acts(p, net, ev)
    ensures if ev.Fetch? then TotalWork(net', bs) <= TotalWork(net, bs) + P.Times(P.RequestCost(|net.procs|) + 3, |bs|)
            else if ev.Arrive? then TotalWork(net', bs) <= TotalWork(net, bs)
            else TotalWork(net', bs) < TotalWork(net, bs)
  {
    var rise := if ev.Fetch? then P.RequestCost(|net.procs|) + 3 else 0;
    var b := BlockOf(net, ev);
    forall c
      ensures WorkAt(net', c) <= WorkAt(net, c) + rise
      ensures c == b && !ev.Fetch? && !ev.Arrive? ==> WorkAt(net', c) < WorkAt(net, c)
    {
      WorkAfter(p, net, ev, net', c);
    }
    if ev.Fetch? { TotalRises(net, net', bs, rise); }
    else {
      TotalDrops(net, net', bs, b);
      if !ev.Arrive? { BlockCovered(p, net, ev, bs); }
    }
  }

  /** Every event that acts lowers the potential. */
  lemma ActingLowers(p: Protocol, net: Net, ev: Event, bs: seq<D.BlockId>)
    requires BlocksInvariant(p, net) && Covers(net, bs) && Acts(p, net, ev)
    ensures Potential(Go(p, net, ev), bs) < Potential(net, bs)
  {
    var net' := Go(p, net, ev);
    ActingWent(p, net, ev);
    SumsAfter(p, net, ev);
    TotalAfter(p, net, ev, net', bs);
    PotentialFalls(net, net', bs, ev.Fetch?, ev.Arrive?);
  }

  lemma PotentialFalls(net: Net, net': Net, bs: seq<D.BlockId>, fetch: bool, arrive: bool)
    requires |net'.procs| == |net.procs|
    requires Lowered(TotalWork(net, bs), TotalWork(net', bs), Sum(net.procs, UpCost), Sum(net'.procs, UpCost),
                     Sum(net.procs, TraceCost), Sum(net'.procs, TraceCost), |net.procs|, |bs|, fetch, arrive)
    ensures Potential(net', bs) < Potential(net, bs)
  {
    Falls(TotalWork(net, bs), TotalWork(net', bs), Sum(net.procs, UpCost), Sum(net'.procs, UpCost),
      Sum(net.procs, TraceCost), Sum(net'.procs, TraceCost), |net.procs|, |bs|, fetch, arrive);
  }

  /** No block sees an idle event. */
  lemma IdleBlock(p: Protocol, net: Net, ev: Event, net': Net, b: D.BlockId)
    requires BlocksInvariant(p, net) && !Acts(p, net, ev) && Next(p, net, ev) == Went(net')
    ensures WorkAt(net', b) == WorkAt(net, b)
  {
    EventSimulated(p, net, ev);
  }

  lemma IdleKeepsPotential(p: Protocol, net: Net, ev: Event, bs: seq<D.BlockId>)
    requires BlocksInvariant(p, net) && !Acts(p, net, ev)
    ensures Potential(Go(p, net, ev), bs) <= Potential(net, bs)
  {
    var net' := Go(p, net, ev);
    IdleTurns(p, net, ev);
    if Next(p, net, ev).Went? {
      forall b ensures WorkAt(net', b) == WorkAt(net, b) { IdleBlock(p, net, ev, net', b); }
      if bs != [] { TotalDrops(net, net', bs, bs[0]); }
    }
  }

  // ----- no new blocks -----

  lemma {:induction false} InboxCovered(ps: seq<D.Packet>, j: nat, bs: seq<D.BlockId>)
    requires forall q :: q in ps ==> q.block in bs
    ensures forall d :: d in Inbox(ps, j) ==> d.block in bs
  {
    if ps != [] { InboxCovered(ps[1..], j, bs); }
  }

  lemma {:induction false} InvalidatesCovered(m: seq<bool>, i: nat, b: D.BlockId)
    requires i <= |m|
    ensures forall q :: q in D.InvalidateFrom(m, i, b) ==> q.block == b
    decreases |m| - i
  {
    if i < |m| { InvalidatesCovered(m, i + 1, b); }
  }

  lemma PacketsCovered(s: Sends, b: D.BlockId)
    ensures forall q :: q in D.Packets(s, b) ==> q.block == b
  {
    if s.Invalidate? { InvalidatesCovered(s.mask, 0, b); }
  }

  lemma ScatterCovered(procs: seq<Proc>, ps: seq<D.Packet>, bs: seq<D.BlockId>)
    requires forall q :: q in ps ==> q.block in bs
    requires forall i :: 0 <= i < |procs| ==> ProcCovered(procs[i], bs)
    ensures forall i :: 0 <= i < |procs| ==> ProcCovered(Scatter(procs, ps)[i], bs)
  {
    forall i | 0 <= i < |procs| ensures ProcCovered(Scatter(procs, ps)[i], bs) {
      assert ProcCovered(procs[i], bs);
      InboxCovered(ps, i, bs);
    }
  }

  lemma PollCovers(p: Protocol, net: Net, bs: seq<D.BlockId>)
    requires Covers(net, bs)
    ensures Covers(Go(p, net, Poll), bs)
  {
    var r := D.Poll(p, |net.procs|, net.ctl);
    if r.Ticked? {
      if net.ctl.pending.None? && net.ctl.queue != [] {
        var m := net.ctl.queue[0];
        assert m in net.ctl.queue;
        var o := Handler(p, D.EntryOf(net.ctl, |net.procs|, m.block), m.src, m.kind);
        if o.Done? { PacketsCovered(o.sends, m.block); }
      }
      ScatterCovered(net.procs, r.out, bs);
    }
  }

  lemma RespondCovers(p: Protocol, net: Net, bs: seq<D.BlockId>)
    requires Covers(net, bs)
    ensures Covers(Go(p, net, Event.Respond), bs)
  {
    ScatterCovered(net.procs, D.Answer(net.ctl, true).out, bs);
  }

  lemma ActedCovered(pr: Proc, i: nat, b: D.BlockId, r: Reaction, bs: seq<D.BlockId>)
    requires ProcCovered(pr, bs) && b in bs && r.React?
    ensures ProcCovered(Acted(pr, i, b, r), bs)
  {
  }

  lemma PutCovers(net: Net, i: nat, pr: Proc, bs: seq<D.BlockId>)
    requires Covers(net, bs) && i < |net.procs| && ProcCovered(pr, bs)
    ensures Covers(Put(net, i, pr), bs)
  {
  }

  lemma LookupCovers(p: Protocol, net: Net, i: nat, bs: seq<D.BlockId>)
    requires Covers(net, bs) && Acts(p, net, Event.Lookup(i)) && Next(p, net, Event.Lookup(i)).Went?
    ensures Covers(Go(p, net, Event.Lookup(i)), bs)
  {
    var b := net.procs[i].core.block;
    var pr := net.procs[i].(core := Busy(b, Awaiting(net.procs[i].core.phase.op)));
    var r := AgentProc(p, AgentAt(pr, b), net.procs[i].core.phase.op);
    assert ProcCovered(net.procs[i], bs);
    ActedCovered(pr, i, b, r, bs);
    PutCovers(net, i, Acted(pr, i, b, r), bs);
  }

  lemma DeliverCovers(p: Protocol, net: Net, i: nat, bs: seq<D.BlockId>)
    requires Covers(net, bs) && Acts(p, net, Event.Deliver(i)) &&
      Next(p, net, Event.Deliver(i)).Went?
    ensures Covers(Go(p, net, Event.Deliver(i)), bs)
  {
    var d := net.procs[i].down[0];
    var pr := net.procs[i].(down := net.procs[i].down[1..]);
    var r := AgentNtwk(p, AgentAt(pr, d.block), d.kind);
    assert ProcCovered(net.procs[i], bs) && d in net.procs[i].down;
    ActedCovered(pr, i, d.block, r, bs);
    PutCovers(net, i, Acted(pr, i, d.block, r), bs);
  }

  lemma FetchCovers(p: Protocol, net: Net, i: nat, bs: seq<D.BlockId>)
    requires Covers(net, bs) && Acts(p, net, Fetch(i))
    ensures Covers(Go(p, net, Fetch(i)), bs)
  {
    assert ProcCovered(net.procs[i], bs) && net.procs[i].trace[0] in net.procs[i].trace;
    PutCovers(net, i, Go(p, net, Fetch(i)).procs[i], bs);
  }

  lemma AcceptCovers(p: Protocol, net: Net, i: nat, bs: seq<D.BlockId>)
    requires Covers(net, bs) && Acts(p, net, Event.Accept(i))
    ensures Covers(Go(p, net, Event.Accept(i)), bs)
  {
    assert ProcCovered(net.procs[i], bs);
    PutCovers(net, i, Go(p, net, Event.Accept(i)).procs[i], bs);
  }

  lemma ArriveCovers(p: Protocol, net: Net, i: nat, bs: seq<D.BlockId>)
    requires Covers(net, bs) && Acts(p, net, Arrive(i))
    ensures Covers(Go(p, net, Arrive(i)), bs)
  {
    var pr := net.procs[i];
    assert ProcCovered(pr, bs) && pr.up[0] in pr.up;
    PutCovers(net, i, pr.(up := pr.up[1..]), bs);
  }

  lemma CoversStays(p: Protocol, net: Net, ev: Event, bs: seq<D.BlockId>)
    requires Covers(net, bs) && Acts(p, net, ev) && Next(p, net, ev).Went?
    ensures Covers(Go(p, net, ev), bs)
  {
    match ev
    case Fetch(i) => FetchCovers(p, net, i, bs);
    case Lookup(i) => LookupCovers(p, net, i, bs);
    case Deliver(i) => DeliverCovers(p, net, i, bs);
    case Accept(i) => AcceptCovers(p, net, i, bs);
    case Arrive(i) => ArriveCovers(p, net, i, bs);
    case Respond => RespondCovers(p, net, bs);
    case Poll => PollCovers(p, net, bs);
  }

  lemma TurnedCovers(net: Net, ev: Event, net': Net, bs: seq<D.BlockId>)
    requires Covers(net, bs) && Turns(net, ev, net')
    ensures Covers(net', bs)
  {
    if ev.Poll? && net.ctl.pending.None? && net.ctl.queue != [] { assert net.ctl.queue[0] in net.ctl.queue; }
  }

  /** What every event keeps. */
  ghost predicate Sane(p: Protocol, net: Net, bs: seq<D.BlockId>, n: nat) {
    BlocksInvariant(p, net) && Covers(net, bs) && |net.procs| == n
  }

  lemma ActingWent(p: Protocol, net: Net, ev: Event)
    requires BlocksInvariant(p, net) && Acts(p, net, ev)
    ensures Next(p, net, ev).Went? && |Next(p, net, ev).net.procs| == |net.procs|
  {
    EventKeepsBlocks(p, net, ev);
  }

  lemma GoSane(p: Protocol, net: Net, ev: Event, bs: seq<D.BlockId>, n: nat)
    requires Sane(p, net, bs, n)
    ensures Sane(p, Go(p, net, ev), bs, n)
  {
    EventKeepsBlocks(p, net, ev);
    if Acts(p, net, ev) {
      ActingWent(p, net, ev);
      CoversStays(p, net, ev, bs);
    } else {
      IdleTurns(p, net, ev);
      TurnedCovers(net, ev, Go(p, net, ev), bs);
    }
  }

  // ----- something helps -----

  predicate Local(ev: Event) { !ev.Poll? && !ev.Tock? }

  /** What a message in the line waits for: the queue to be filled, or to be polled. */
  function Awaited(net: Net): Event { if net.ctl.queue == [] then Tock else Poll }

  /** The message at place j of the line could be handled. */
  predicate WaitsAt(p: Protocol, net: Net, j: nat) {
    net.ctl.pending.None? && j < |Line(net)| && Handleable(p, net, Line(net)[j])
  }

  /** Moments that a message at place j waits for, at most. */
  function Delay(net: Net, j: nat): nat { 2 * j + (if net.ctl.queue == [] then 1 else 0) }

  /** A local event helps while it can act; the event that a message waits for helps by bringing it up. */
  predicate Helps(p: Protocol, net: Net, ev: Event, r: nat) {
    (r == 0 && Local(ev) && Acts(p, net, ev)) || (ev == Awaited(net) && Brings(p, net, r))
  }

  /** A message waits with delay r. */
  predicate Brings(p: Protocol, net: Net, r: nat) { WaitsAt(p, net, r / 2) && Delay(net, r / 2) == r }

  lemma StillActs(p: Protocol, net: Net, net': Net, ev: Event)
    requires Still(net, net') && Local(ev) && Acts(p, net, ev)
    ensures Acts(p, net', ev)
  {
  }

  /** What an idle moment does to a message in the line: if the head was cycled it is one place further up. */
  lemma LineTurns(p: Protocol, net: Net, ev: Event, net': Net, j: nat)
    requires Turns(net, ev, net') && !Acts(p, net, ev) && WaitsAt(p, net, j)
    ensures if ev.Poll? && net.ctl.queue != [] then j > 0 && WaitsAt(p, net', j - 1) else WaitsAt(p, net', j)
    ensures ev.Tock? || net.ctl.queue != [] ==> ev.Poll? || net'.ctl.queue != []
    ensures !ev.Tock? && (ev.Poll? ==> net.ctl.queue == []) ==> net' == net
  {
    if ev.Poll? && net.ctl.queue != [] {
      var q := net.ctl.queue;
      assert Line(net)[0] == q[0];
      assert Line(net') == Line(net)[1..] + [q[0]];
    } else if ev.Tock? {
      assert Line(net') == Line(net);
    }
  }

  /** An idle moment leaves a helpful event helping, or brings a message nearer to the head of the queue. */
  lemma IdleHelps(p: Protocol, net: Net, d: Event, net': Net, ev: Event, r: nat) returns (r': nat)
    requires Turns(net, d, net') && !Acts(p, net, d) && Helps(p, net, ev, r)
    ensures (r' < r && Helps(p, net', Awaited(net'), r')) || (d != ev && Helps(p, net', ev, r))
  {
    r' := r;
    if Local(ev) && Acts(p, net, ev) {
      StillActs(p, net, net', ev);
    } else {
      var j := r / 2;
      LineTurns(p, net, d, net', j);
      var j' := if d.Poll? && net.ctl.queue != [] then j - 1 else j;
      r' := Delay(net', j');
      assert r' / 2 == j' && Brings(p, net', r');
    }
  }

  // ----- before the end something can act -----

  /** No local event can act. */
  predicate Parked(pr: Proc) {
    && pr.down == [] && pr.up == []
    && (pr.core.Free? ==> pr.trace == [])
    && (pr.core.Busy? ==> pr.core.phase.Awaiting?)
  }

  lemma NotParked(p: Protocol, net: Net, i: nat) returns (ev: Event)
    requires i < |net.procs| && !Parked(net.procs[i])
    ensures Local(ev) && OfMachine(ev, |net.procs|) && Acts(p, net, ev)
  {
    var pr := net.procs[i];
    if pr.down != [] { ev := Event.Deliver(i); }
    else if pr.up != [] { ev := Arrive(i); }
    else if pr.core.Free? { ev := Fetch(i); }
    else if pr.core.phase.InSlot? { ev := Event.Lookup(i); }
    else { ev := Event.Accept(i); }
  }

  /** With every processor parked and no response latched, a block that has work has a message that the directory
      can handle. */
  lemma ParkedBlock(p: Protocol, net: Net, b: D.BlockId) returns (j: nat)
    requires BlocksInvariant(p, net) && net.ctl.pending.None? && P.Work(Block(net, b)) > 0
    requires forall i :: 0 <= i < |net.procs| ==> Parked(net.procs[i])
    ensures WaitsAt(p, net, j)
  {
    var ev := P.NoDeadlock(p, Block(net, b));
    ParkedHandles(p, net, b, ev);
    assert Parked(net.procs[ev.i]);
    j := InLine(net, ev.i, b, ev.k);
  }

  /** A message of a processor that has none on its way is in the line. */
  lemma InLine(net: Net, i: nat, b: D.BlockId, k: Kind) returns (j: nat)
    requires i < |net.procs| && net.procs[i].up == [] && (k.Request() || k.Answer())
    requires BagAt(Inbound(net, i), i, b).Has(k) > 0
    ensures j < |Line(net)| && Line(net)[j] == D.Msg(i, b, k)
  {
    var m := D.Msg(i, b, k);
    assert Inbound(net, i)[m] > 0;
    assert m in Line(net);
    j :| 0 <= j < |Line(net)| && Line(net)[j] == m;
  }

  lemma ParkedHandles(p: Protocol, net: Net, b: D.BlockId, ev: B.Event)
    requires WellFormed(net) && net.ctl.pending.None? && P.CanAct(p, Block(net, b), ev)
    requires forall i :: 0 <= i < |net.procs| ==> Parked(net.procs[i])
    ensures ev.Handle? && ev.i < |net.procs| && NodeAt(net, ev.i, b).up.Has(ev.k) > 0
    ensures (ev.k.Request() || ev.k.Answer()) && Handler(p, D.EntryOf(net.ctl, |net.procs|, b), ev.i, ev.k).Done?
  {
    var s := Block(net, b);
    if !ev.Respond? && ev.i < |net.procs| { assert Parked(net.procs[ev.i]) && s.nodes[ev.i] == NodeAt(net, ev.i, b); }
  }

  lemma MessageHasWork(net: Net)
    requires WellFormed(net) && Line(net) != []
    ensures P.Work(Block(net, Line(net)[0].block)) > 0
  {
    var m := Line(net)[0];
    assert m in net.ctl.queue || m in net.ctl.next;
    assert m in Inbound(net, m.src);
    var s := Block(net, m.block);
    assert s.nodes[m.src] == NodeAt(net, m.src, m.block) && s.nodes[m.src].up.Has(m.kind) > 0;
    BagWork(|s.nodes|, s.nodes[m.src], m.kind);
    NodeHasWork(|s.nodes|, s.nodes, m.src);
  }

  lemma BagWork(n: nat, nd: B.Node, k: Kind)
    requires nd.up.Has(k) > 0
    ensures P.NodeWork(n, nd) > 0
  {
    if k.Request() { assert P.Times(P.RequestCost(n), nd.up.Requests()) > 0; }
  }

  lemma {:induction false} NodeHasWork(n: nat, nodes: seq<B.Node>, i: nat)
    requires i < |nodes| && P.NodeWork(n, nodes[i]) > 0
    ensures P.SumWork(n, nodes) > 0
  {
    if i < |nodes| - 1 { NodeHasWork(n, nodes[..|nodes| - 1], i); }
  }

  lemma WaitingHasWork(p: Protocol, net: Net, i: nat)
    requires BlocksInvariant(p, net) && i < |net.procs| && net.procs[i].core.Busy? && net.procs[i].core.phase.Awaiting?
    ensures P.Work(Block(net, net.procs[i].core.block)) > 0
  {
    var b := net.procs[i].core.block;
    assert NodeAt(net, i, b).cpu.Waiting?;
    WaitingWork(p, Block(net, b), i);
  }

  lemma WaitingWork(p: Protocol, s: B.Sys, i: nat)
    requires Invariant(p, s) && i < |s.nodes| && s.nodes[i].cpu.Waiting?
    ensures P.Work(s) > 0
  {
    if P.Work(s) == 0 { P.NoWorkAtRest(p, s); }
  }

  lemma ParkedWaits(p: Protocol, net: Net) returns (j: nat)
    requires BlocksInvariant(p, net) && !Done(net) && net.ctl.pending.None?
    requires forall i :: 0 <= i < |net.procs| ==> Parked(net.procs[i])
    ensures WaitsAt(p, net, j)
  {
    var b: D.BlockId;
    if Line(net) != [] {
      b := Line(net)[0].block;
      MessageHasWork(net);
    } else {
      var i :| 0 <= i < |net.procs| && !ProcDone(net.procs[i]);
      assert Parked(net.procs[i]);
      b := net.procs[i].core.block;
      WaitingHasWork(p, net, i);
    }
    j := ParkedBlock(p, net, b);
  }

  /** Before the end something helps. */
  lemma SomethingHelps(p: Protocol, net: Net) returns (ev: Event, r: nat)
    requires BlocksInvariant(p, net) && !Done(net)
    ensures OfMachine(ev, |net.procs|) && Helps(p, net, ev, r)
  {
    if net.ctl.pending.Some? {
      ev, r := Event.Respond, 0;
    } else if i :| 0 <= i < |net.procs| && !Parked(net.procs[i]) {
      ev := NotParked(p, net, i);
      r := 0;
    } else {
      var j := ParkedWaits(p, net);
      ev, r := Awaited(net), Delay(net, j);
      assert r / 2 == j && Brings(p, net, r);
    }
  }

  // ----- the end -----

  lemma DoneStays(p: Protocol, net: Net, ev: Event)
    requires BlocksInvariant(p, net) && Done(net)
    ensures Done(Go(p, net, ev))
  {
    if Local(ev) && !ev.Respond? && ev.i < |net.procs| { assert ProcDone(net.procs[ev.i]); }
    IdleTurns(p, net, ev);
  }

  /** The machine with n processors on blocks bs. */
  ghost function Machine(p: Protocol, bs: seq<D.BlockId>, n: nat): Process<Net, Event> {
    Process((net: Net, ev: Event) => Go(p, net, ev), (ev: Event) => OfMachine(ev, n), (net: Net) => Sane(p, net, bs, n),
            (net: Net) => (Potential(net, bs), 0), (net: Net, ev: Event, r: nat) => Helps(p, net, ev, r),
            (net: Net) => Done(net))
  }

  lemma GoSteady(p: Protocol, net: Net, ev: Event, bs: seq<D.BlockId>, n: nat)
    requires Sane(p, net, bs, n)
    ensures Sane(p, Go(p, net, ev), bs, n)
    ensures if Acts(p, net, ev) then Potential(Go(p, net, ev), bs) < Potential(net, bs)
            else Potential(Go(p, net, ev), bs) <= Potential(net, bs) && Turns(net, ev, Go(p, net, ev))
  {
    GoSane(p, net, ev, bs, n);
    if Acts(p, net, ev) { ActingLowers(p, net, ev, bs); }
    else {
      IdleTurns(p, net, ev);
      IdleKeepsPotential(p, net, ev, bs);
    }
  }

  lemma SteadyAt(p: Protocol, bs: seq<D.BlockId>, n: nat, sys: Process<Net, Event>, net: Net, ev: Event)
    requires sys == Machine(p, bs, n) && Sane(p, net, bs, n)
    ensures sys.kept(sys.go(net, ev)) && NotAbove(sys.measure(sys.go(net, ev)), sys.measure(net))
  {
    GoSteady(p, net, ev, bs, n);
  }

  lemma FinalAt(p: Protocol, bs: seq<D.BlockId>, n: nat, sys: Process<Net, Event>, net: Net, ev: Event)
    requires sys == Machine(p, bs, n) && BlocksInvariant(p, net) && Done(net)
    ensures sys.goal(sys.go(net, ev))
  {
    DoneStays(p, net, ev);
  }

  lemma GuidedAt(p: Protocol, bs: seq<D.BlockId>, n: nat, sys: Process<Net, Event>, net: Net, ev: Event, r: nat,
                 d: Event)
    requires sys == Machine(p, bs, n) && Sane(p, net, bs, n) && Helps(p, net, ev, r)
    ensures Onward(sys, net, ev, r, d)
  {
    var net' := Go(p, net, d);
    GoSteady(p, net, d, bs, n);
    if Acts(p, net, d) {
      assert Less(sys.measure(net'), sys.measure(net));
    } else {
      var r' := IdleHelps(p, net, d, net', ev, r);
      HelpsOn(p, bs, n, sys, net, net', ev, r, d, r');
    }
  }

  lemma HelpsOn(p: Protocol, bs: seq<D.BlockId>, n: nat, sys: Process<Net, Event>, net: Net, net': Net,
                ev: Event, r: nat, d: Event, r': nat)
    requires sys == Machine(p, bs, n) && net' == sys.go(net, d)
    requires (r' < r && Helps(p, net', Awaited(net'), r')) || (d != ev && Helps(p, net', ev, r))
    ensures Onward(sys, net, ev, r, d)
  {
    if r' < r && Helps(p, net', Awaited(net'), r') {
      assert sys.tried(Awaited(net')) && sys.helps(net', Awaited(net'), r');
    } else {
      assert sys.helps(net', ev, r);
    }
  }

  lemma MachineLive(p: Protocol, bs: seq<D.BlockId>, n: nat)
    ensures Live(Machine(p, bs, n))
  {
    var sys := Machine(p, bs, n);
    forall net | Sane(p, net, bs, n) && !Done(net) ensures Helped(sys, net) {
      var ev, r := SomethingHelps(p, net);
      assert sys.tried(ev) && sys.helps(net, ev, r);
    }
  }

  lemma MachineEnding(p: Protocol, bs: seq<D.BlockId>, n: nat, sys: Process<Net, Event>)
    requires sys == Machine(p, bs, n)
    ensures Ending(sys) && Final(sys)
  {
    forall net, ev | sys.kept(net)
      ensures sys.kept(sys.go(net, ev)) && NotAbove(sys.measure(sys.go(net, ev)), sys.measure(net))
    {
      SteadyAt(p, bs, n, sys, net, ev);
    }
    forall net, ev | sys.kept(net) && sys.goal(net)
      ensures sys.goal(sys.go(net, ev))
    {
      FinalAt(p, bs, n, sys, net, ev);
    }
    forall net, ev, r: nat, d | sys.kept(net) && sys.tried(ev) && sys.helps(net, ev, r)
      ensures Onward(sys, net, ev, r, d)
    {
      GuidedAt(p, bs, n, sys, net, ev, r, d);
    }
    MachineLive(p, bs, n);
  }

  function BlocksIn(trace: seq<Access>): (r: seq<D.BlockId>)
    ensures forall a :: a in trace ==> a.block in r
  {
    if trace == [] then [] else [trace[0].block] + BlocksIn(trace[1..])
  }

  function AllBlocks(traces: seq<seq<Access>>): (r: seq<D.BlockId>)
    ensures forall i, a :: 0 <= i < |traces| && a in traces[i] ==> a.block in r
  {
    if traces == [] then [] else BlocksIn(traces[0]) + AllBlocks(traces[1..])
  }

  lemma StartSane(p: Protocol, traces: seq<seq<Access>>)
    ensures Sane(p, Start(traces), AllBlocks(traces), |traces|)
  {
    StartBlocks(p, traces);
  }

  /** The machine at moment m of a schedule. */
  function At(p: Protocol, traces: seq<seq<Access>>, sigma: nat -> Event, m: nat): Net {
    FairRuns.After((net: Net, ev: Event) => Go(p, net, ev), Start(traces), sigma, 0, m)
  }

  /** Under every fair schedule the machine executes all traces, for any protocol, any number of processors and any
      traces: from some moment on every access has been answered and nothing is in flight. Cycling the queue, the
      one latch for all blocks and any order of events cannot keep it from that. */
  lemma EveryFairRunEnds(p: Protocol, traces: seq<seq<Access>>, sigma: nat -> Event) returns (n: nat)
    requires Fair(sigma, (ev: Event) => OfMachine(ev, |traces|))
    ensures forall m: nat :: m >= n ==> Done(At(p, traces, sigma, m))
  {
    var bs := AllBlocks(traces);
    StartSane(p, traces);
    MachineEnding(p, bs, |traces|, Machine(p, bs, |traces|));
    n := FairRunEnds(Machine(p, bs, |traces|), Start(traces), sigma);
  }

  /** Cycles that try every event are fair, in whatever order they do: so every such simulation ends. */
  lemma CyclicEnds(p: Protocol, traces: seq<seq<Access>>, round: seq<Event>) returns (n: nat)
    requires round != [] && forall ev :: OfMachine(ev, |traces|) ==> ev in round
    ensures forall m: nat :: m >= n ==> Done(At(p, traces, Cyclic(round), m))
  {
    CyclicFair(round, (ev: Event) => OfMachine(ev, |traces|));
    n := EveryFairRunEnds(p, traces, Cyclic(round));
  }
}
