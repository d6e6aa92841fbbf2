/** Progress: the messages and processor requests outstanding in a reachable state can all be
    drained, and nothing but new processor requests can keep the protocol busy. */
module CoherenceProgress {
  import opened Options
  import opened CoherenceTypes
  import opened Protocols
  import opened CoherenceSystem
  import opened CoherenceInvariant
  import opened HandlerProof
  import opened ProtocolProof
  import opened CoherenceSafety

  /** Events that consume something: everything but new demand from the CPUs (Issue, Leave, Return)
      and a directory poll that only cycles its queue. */
  predicate Productive(p: Protocol, s: Sys, ev: Event)
    requires Shaped(s)
  {
    match ev
    case Issue(_, _) => false
    case Leave(_) => false
    case Return(_) => false
    case Handle(i, k) => i < |s.nodes| && Handler(p, s.dir, i, k).Done?
    case _ => true
  }

  // ----- outstanding work -----

  /** One request costs at most an invalidation and an answer per node, plus a final exchange. */
  function RequestCost(n: nat): nat { 2 * n + 5 }

  function CpuWork(n: nat, c: Cpu): nat {
    match c case Slot(_) => RequestCost(n) + 3 case Replied => 1 case _ => 0
  }

  /** c * r, by repeated addition. */
  function Times(c: nat, r: nat): nat { if r == 0 then 0 else c + Times(c, r - 1) }

  function NodeWork(n: nat, nd: Node): nat {
    CpuWork(n, nd.cpu) + Times(RequestCost(n), nd.up.Requests()) + nd.up.Answers() + 2 * |nd.down|
  }

  function SumWork(n: nat, nodes: seq<Node>): nat {
    if nodes == [] then 0 else SumWork(n, nodes[..|nodes| - 1]) + NodeWork(n, nodes[|nodes| - 1])
  }

  function DirWork(e: Entry): nat {
    if !e.state.Transient() then 0
    else if e.state.SM? then 3
    else if (e.state.OM? || e.state.FM?) && e.waiting > 0 then 4
    else 2
  }

  function Work(s: Sys): nat {
    SumWork(|s.nodes|, s.nodes) + DirWork(s.dir) + (if s.latch.Some? then 3 else 0)
  }

  // ----- sums -----

  lemma {:induction false} SumUpdate(n: nat, nodes: seq<Node>, i: nat, nd: Node)
    requires i < |nodes|
    ensures SumWork(n, nodes[i := nd]) == SumWork(n, nodes) - NodeWork(n, nodes[i]) + NodeWork(n, nd)
  {
    var l := |nodes| - 1;
    if i == l {
      assert nodes[i := nd][..l] == nodes[..l];
    } else {
      assert nodes[i := nd][..l] == nodes[..l][i := nd];
      SumUpdate(n, nodes[..l], i, nd);
    }
  }

  /** How many of the first m nodes a handler's messages reach. */
  function Reached(out: Sends, m: nat): nat {
    if m == 0 then 0 else Reached(out, m - 1) + |out.To(m - 1)|
  }

  lemma {:induction false} SumSend(n: nat, nodes: seq<Node>, out: Sends)
    ensures SumWork(n, Send(nodes, out)) == SumWork(n, nodes) + 2 * Reached(out, |nodes|)
  {
    if nodes != [] {
      var l := |nodes| - 1;
      assert Send(nodes, out)[..l] == Send(nodes[..l], out);
      SumSend(n, nodes[..l], out);
    }
  }

  lemma {:induction false} ReachedBound(out: Sends, m: nat)
    ensures Reached(out, m) <= m
    ensures out.Nothing? ==> Reached(out, m) == 0
    ensures out.One? ==> Reached(out, m) <= (if out.dst < m then 1 else 0)
  {
    if m > 0 { ReachedBound(out, m - 1); }
  }

  // ----- every productive event does some of the work -----

  lemma LookupWork(p: Protocol, n: nat, nd: Node)
    requires nd.cpu.Slot? && AgentProc(p, nd.agent, nd.cpu.op).React?
    ensures NodeWork(n, Apply(nd, AgentProc(p, nd.agent, nd.cpu.op))) < NodeWork(n, nd)
  {
  }

  lemma DeliverWork(p: Protocol, n: nat, nd: Node)
    requires nd.down != [] && AgentNtwk(p, nd.agent, nd.down[0]).React?
    ensures NodeWork(n, Receive(nd, AgentNtwk(p, nd.agent, nd.down[0]))) < NodeWork(n, nd)
  {
  }

  lemma LocalWork(p: Protocol, s: Sys, ev: Event)
    requires Shaped(s) && (ev.Lookup? || ev.Deliver? || ev.Accept?)
    requires Step(p, s, ev).To?
    ensures Work(Step(p, s, ev).sys) < Work(s)
  {
    var t := Step(p, s, ev).sys;
    var i, n := ev.i, |s.nodes|;
    SumUpdate(n, s.nodes, i, t.nodes[i]);
    if ev.Lookup? { LookupWork(p, n, s.nodes[i]); }
    if ev.Deliver? { DeliverWork(p, n, s.nodes[i]); }
  }

  lemma RespondWork(p: Protocol, s: Sys)
    requires Invariant(p, s) && Step(p, s, Respond).To?
    ensures Work(Step(p, s, Respond).sys) < Work(s)
  {
    var l := s.latch.value;
    SentWork(s, One(l.target, if l.exclusive then DATA_E else DATA));
  }

  lemma SentWork(s: Sys, out: Sends)
    requires Shaped(s) && s.latch.Some? && out.One?
    ensures Work(s.(latch := None, nodes := Send(s.nodes, out))) < Work(s)
  {
    SumSend(|s.nodes|, s.nodes, out);
    ReachedBound(out, |s.nodes|);
  }

  /** The messages a handler sends and the state it leaves cost less than the message it consumes. */
  predicate Cheaper(n: nat, e: Entry, k: Kind, o: Outcome) {
    o.Done? ==>
      2 * Reached(o.sends, n) + DirWork(o.entry) + (if o.latch.Some? then 3 else 0)
        < DirWork(e) + (if k.Request() then RequestCost(n) else 1)
  }

  lemma MiRequestWork(n: nat, e: Entry, i: nat, k: Kind)
    requires i < |e.presence| && k.Request() && MiHandle(e, i, k).Done?
    ensures Cheaper(n, e, k, MiHandle(e, i, k))
  {
    ReachedBound(MiHandle(e, i, k).sends, n);
  }

  lemma MsiRequestWork(n: nat, e: Entry, i: nat, k: Kind)
    requires i < |e.presence| && k.Request() && MsiHandle(e, i, k).Done?
    ensures Cheaper(n, e, k, MsiHandle(e, i, k))
  {
    ReachedBound(MsiHandle(e, i, k).sends, n);
  }

  lemma MesiRequestWork(n: nat, e: Entry, i: nat, k: Kind)
    requires i < |e.presence| && k.Request() && MesiHandle(e, i, k).Done?
    ensures Cheaper(n, e, k, MesiHandle(e, i, k))
  {
    ReachedBound(MesiHandle(e, i, k).sends, n);
  }

  lemma MosiRequestWork(n: nat, e: Entry, i: nat, k: Kind)
    requires i < |e.presence| && k.Request() && MosiHandle(e, i, k).Done?
    ensures Cheaper(n, e, k, MosiHandle(e, i, k))
  {
    ReachedBound(MosiHandle(e, i, k).sends, n);
  }

  lemma PlainRequestWork(n: nat, e: Entry, i: nat, k: Kind)
    requires i < |e.presence| && k.Request() && MoesifPlain(e, i, k).Done?
    ensures Cheaper(n, e, k, MoesifPlain(e, i, k))
  {
    ReachedBound(MoesifPlain(e, i, k).sends, n);
  }

  lemma OwnedRequestWork(n: nat, e: Entry, i: nat, k: Kind)
    requires i < |e.presence| && k.Request() && MoesifOwned(e, i, k).Done?
    ensures Cheaper(n, e, k, MoesifOwned(e, i, k))
  {
    ReachedBound(MoesifOwned(e, i, k).sends, n);
  }

  lemma RequestWork(p: Protocol, n: nat, e: Entry, i: nat, k: Kind)
    requires i < |e.presence| && k.Request() && Handler(p, e, i, k).Done?
    ensures Cheaper(n, e, k, Handler(p, e, i, k))
  {
    match p
    case MI => MiRequestWork(n, e, i, k);
    case MSI => MsiRequestWork(n, e, i, k);
    case MESI => MesiRequestWork(n, e, i, k);
    case MOSI => MosiRequestWork(n, e, i, k);
    case MOESIF => if HasOwner(e.state) { OwnedRequestWork(n, e, i, k); } else { PlainRequestWork(n, e, i, k); }
  }

  lemma AnswerWork(p: Protocol, n: nat, e: Entry, i: nat, k: Kind)
    requires i < |e.presence| && k.Answer() && Handler(p, e, i, k).Done?
    requires InTurn(e, k)
    ensures Cheaper(n, e, k, Handler(p, e, i, k))
  {
    var o := Handler(p, e, i, k);
    ReachedBound(o.sends, n);
    assert o.sends.Nothing? || o.sends.One?;
  }

  /** An INVACK is consumed while acknowledgements are awaited, the owner's data after that. */
  predicate InTurn(e: Entry, k: Kind) {
    && ((e.state.OM? || e.state.FM?) && k.DATA? ==> e.waiting == 0)
    && ((e.state.OM? || e.state.FM? || e.state.SM?) && k.INVACK? ==> e.waiting > 0)
  }

  lemma TurnOf(p: Protocol, s: Sys, i: nat, k: Kind)
    requires Pending(p, s, i, k)
    ensures (k.Request() || k.Answer()) && InTurn(s.dir, k)
  {
    Expected(p, s, i, k);
  }

  lemma HandleWork(p: Protocol, s: Sys, i: nat, k: Kind)
    requires Shaped(s) && i < |s.nodes| && s.nodes[i].up.Has(k) > 0 && s.latch.None?
    requires (k.Request() || k.Answer()) && InTurn(s.dir, k) && Handler(p, s.dir, i, k).Done?
    ensures Work(Step(p, s, Handle(i, k)).sys) < Work(s)
  {
    var n, o := |s.nodes|, Handler(p, s.dir, i, k);
    if k.Request() { RequestWork(p, n, s.dir, i, k); } else { AnswerWork(p, n, s.dir, i, k); }
    CommitLowers(s, i, k, o);
    assert Step(p, s, Handle(i, k)) == To(Commit(s, i, k, o.entry, o.sends, o.latch));
  }

  lemma CommitLowers(s: Sys, i: nat, k: Kind, o: Outcome)
    requires i < |s.nodes| && (k.Request() || k.Answer()) && s.nodes[i].up.Has(k) > 0 && s.latch.None?
    requires o.Done? && Cheaper(|s.nodes|, s.dir, k, o)
    ensures Work(Commit(s, i, k, o.entry, o.sends, o.latch)) < Work(s)
  {
    CommitWork(s, i, k, o.entry, o.sends, o.latch);
  }

  lemma TakeWork(n: nat, nd: Node, k: Kind)
    requires (k.Request() || k.Answer()) && nd.up.Has(k) > 0
    ensures NodeWork(n, nd.(up := nd.up.Take(k))) == NodeWork(n, nd) - (if k.Request() then RequestCost(n) else 1)
  {
    if k.Request() { assert nd.up.Take(k).Requests() == nd.up.Requests() - 1; }
  }

  lemma CommitWork(s: Sys, i: nat, k: Kind, e: Entry, out: Sends, latch: Option<Latch>)
    requires i < |s.nodes| && (k.Request() || k.Answer()) && s.nodes[i].up.Has(k) > 0 && s.latch.None?
    ensures Work(Commit(s, i, k, e, out, latch))
         == Work(s) - (if k.Request() then RequestCost(|s.nodes|) else 1) - DirWork(s.dir)
          + 2 * Reached(out, |s.nodes|) + DirWork(e) + (if latch.Some? then 3 else 0)
  {
    var n := |s.nodes|;
    var nd := s.nodes[i].(up := s.nodes[i].up.Take(k));
    TakeWork(n, s.nodes[i], k);
    SumUpdate(n, s.nodes, i, nd);
    SumSend(n, s.nodes[i := nd], out);
  }

  /** Every productive event lowers the outstanding work. */
  lemma ProductiveLowersWork(p: Protocol, s: Sys, ev: Event)
    requires Invariant(p, s) && Productive(p, s, ev) && Step(p, s, ev).To?
    ensures Work(Step(p, s, ev).sys) < Work(s)
  {
    match ev
    case Handle(i, k) =>
      TurnOf(p, s, i, k);
      HandleWork(p, s, i, k);
    case Respond => RespondWork(p, s);
    case _ => LocalWork(p, s, ev);
  }

  // ----- there is always something productive to do -----

  predicate CanAct(p: Protocol, s: Sys, ev: Event)
    requires Shaped(s)
  {
    Productive(p, s, ev) && Step(p, s, ev).To?
  }

  lemma {:induction false} BusyNode(n: nat, nodes: seq<Node>) returns (i: nat)
    requires SumWork(n, nodes) > 0
    ensures i < |nodes| && NodeWork(n, nodes[i]) > 0
  {
    var l := |nodes| - 1;
    if NodeWork(n, nodes[l]) > 0 { i := l; } else { i := BusyNode(n, nodes[..l]); }
  }

  /** A handler cycles only requests, and only while it waits for an answer. */
  lemma NeverIdle(p: Protocol, s: Sys, i: nat, k: Kind)
    requires Pending(p, s, i, k) && (k.Answer() || !s.dir.state.Transient())
    ensures CanAct(p, s, Handle(i, k))
  {
    Expected(p, s, i, k);
    HandleStep(p, s, i, k);
    if k.Answer() { AnswerIn(p, s, i, k); }
  }

  /** A node with a local event to perform performs it. */
  lemma LocalAct(p: Protocol, s: Sys, i: nat) returns (ev: Event)
    requires Invariant(p, s) && i < |s.nodes|
    requires s.nodes[i].cpu.Slot? || s.nodes[i].cpu.Replied? || s.nodes[i].down != []
    ensures CanAct(p, s, ev)
  {
    if s.nodes[i].cpu.Slot? { ev := Lookup(i); }
    else if s.nodes[i].cpu.Replied? { ev := Accept(i); }
    else { ev := Deliver(i); }
    EventKeepsInvariant(p, s, ev);
  }

  function SomeRequest(b: Bag): Kind {
    if b.gets > 0 then GETS else if b.getm > 0 then GETM else GETX
  }

  function SomeAnswer(b: Bag): Kind { if b.invack > 0 then INVACK else DATA }

  /** While any work is outstanding, some productive event is enabled: the protocol cannot deadlock. */
  lemma NoDeadlock(p: Protocol, s: Sys) returns (ev: Event)
    requires Invariant(p, s) && Work(s) > 0
    ensures CanAct(p, s, ev)
  {
    if s.latch.Some? { ev := Respond; EventKeepsInvariant(p, s, ev); }
    else if s.dir.state.Transient() {
      var i := Debtor(p, s);
      if s.nodes[i].down != [] { ev := LocalAct(p, s, i); }
      else {
        ev := Handle(i, SomeAnswer(s.nodes[i].up));
        NeverIdle(p, s, i, ev.k);
      }
    } else {
      var i := BusyNode(|s.nodes|, s.nodes);
      var nd := s.nodes[i];
      if nd.cpu.Slot? || nd.cpu.Replied? || nd.down != [] { ev := LocalAct(p, s, i); }
      else {
        ev := Handle(i, if nd.up.Answers() > 0 then SomeAnswer(nd.up) else SomeRequest(nd.up));
        NeverIdle(p, s, i, ev.k);
      }
    }
  }

  // ----- whole runs -----

  /** Every event of the run is productive when it happens. */
  predicate AllProductive(p: Protocol, s: Sys, evs: seq<Event>)
    requires Shaped(s)
    decreases |evs|
  {
    evs == [] ||
    (CanAct(p, s, evs[0]) && Shaped(Step(p, s, evs[0]).sys) && AllProductive(p, Step(p, s, evs[0]).sys, evs[1..]))
  }

  /** No livelock: without new processor requests, at most Work(s) productive events can happen. */
  lemma {:induction false} NoLivelock(p: Protocol, s: Sys, evs: seq<Event>)
    requires Invariant(p, s) && AllProductive(p, s, evs)
    ensures |evs| <= Work(s)
    decreases |evs|
  {
    if evs != [] {
      EventKeepsInvariant(p, s, evs[0]);
      ProductiveLowersWork(p, s, evs[0]);
      NoLivelock(p, Step(p, s, evs[0]).sys, evs[1..]);
    }
  }

  /** Every processor has been answered and nothing is in flight. */
  predicate AtRest(s: Sys) {
    s.latch.None? && forall i :: 0 <= i < |s.nodes| ==> RestingNode(s.nodes[i])
  }

  predicate RestingNode(nd: Node) {
    nd.down == [] && nd.up == Bag(0, 0, 0, 0, 0) && (nd.cpu.Idle? || nd.cpu.Elsewhere?)
  }

  lemma {:induction false} IdleNode(n: nat, nodes: seq<Node>, i: nat)
    requires SumWork(n, nodes) == 0 && i < |nodes|
    ensures NodeWork(n, nodes[i]) == 0
  {
    if i < |nodes| - 1 { IdleNode(n, nodes[..|nodes| - 1], i); }
  }

  lemma NoWorkAtRest(p: Protocol, s: Sys)
    requires Invariant(p, s) && Work(s) == 0
    ensures AtRest(s)
  {
    assert s.latch.None? && !s.dir.state.Transient() && SumWork(|s.nodes|, s.nodes) == 0;
    forall i | 0 <= i < |s.nodes| ensures RestingNode(s.nodes[i]) {
      IdleNode(|s.nodes|, s.nodes, i);
      RestAt(p, s, i);
    }
  }

  lemma RestAt(p: Protocol, s: Sys, i: nat)
    requires Invariant(p, s) && i < |s.nodes| && NodeWork(|s.nodes|, s.nodes[i]) == 0
    requires s.latch.None? && !s.dir.state.Transient()
    ensures RestingNode(s.nodes[i])
  {
    assert AgreesAt(p, s, i);
    RestNode(p, ViewOf(s.dir, s.latch, i), s.nodes[i], |s.nodes|);
  }

  lemma RestNode(p: Protocol, v: View, nd: Node, n: nat)
    requires Agrees(p, v, nd) && v.latched.None? && v.active.Not? && NodeWork(n, nd) == 0
    ensures RestingNode(nd)
  {
    IdleCounts(n, nd);
    QuietNode(p, v, nd);
    StableIsStable(v.hold);
  }

  lemma StableIsStable(h: Hold)
    ensures !Stable(h).Transient()
  {
  }

  lemma IdleCounts(n: nat, nd: Node)
    requires NodeWork(n, nd) == 0
    ensures nd.down == [] && !nd.cpu.Slot? && !nd.cpu.Replied? && nd.up == Bag(0, 0, 0, 0, 0)
  {
    var w, t := CpuWork(n, nd.cpu), Times(RequestCost(n), nd.up.Requests());
    assert w + t + nd.up.Answers() + 2 * |nd.down| == 0;
    assert w == 0 && t == 0 && nd.up.Answers() == 0 && |nd.down| == 0;
    assert nd.up.Requests() == 0;
  }

  /** Any run that keeps performing productive events until none is enabled ends with every
      processor answered and nothing in flight. */
  lemma DrainedAtRest(p: Protocol, n: nat, evs: seq<Event>, s: Sys)
    requires Reachable(p, n, evs, s)
    requires forall ev :: !(Shaped(s) && CanAct(p, s, ev))
    ensures AtRest(s)
  {
    ReachableInvariant(p, n, evs, s);
    if Work(s) > 0 { var ev := NoDeadlock(p, s); }
    NoWorkAtRest(p, s);
  }

  /** From every reachable state the outstanding requests can be drained in at most Work(s) events. */
  lemma {:induction false} Drain(p: Protocol, s: Sys) returns (evs: seq<Event>, t: Sys)
    requires Invariant(p, s)
    ensures AllProductive(p, s, evs) && |evs| <= Work(s)
    ensures Run(p, s, evs) == To(t) && AtRest(t)
    decreases Work(s)
  {
    if Work(s) == 0 {
      evs, t := [], s;
      NoWorkAtRest(p, s);
    } else {
      var ev := NoDeadlock(p, s);
      var r := Step(p, s, ev).sys;
      EventKeepsInvariant(p, s, ev);
      ProductiveLowersWork(p, s, ev);
      var rest;
      rest, t := Drain(p, r);
      evs := [ev] + rest;
    }
  }
}
