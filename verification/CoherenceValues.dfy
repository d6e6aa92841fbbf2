/** The data behind the protocols' messages. The simulator moves no data; here each message that stands for a copy
    carries one, and every answered load returns what the last answered store to its block wrote. */
module CoherenceValues {
  import opened Options
  import opened CoherenceTypes
  import opened Protocols
  import opened CoherenceSystem
  import opened CoherenceInvariant
  import opened HandlerProof
  import opened ProtocolProof
  import opened CoherenceSafety

  /** A copy is known by the number of the store it comes from; 0 is the initial content. copies are the caches',
      inbound and outbound what is on its way from and to the directory, stores how many have been answered. */
  datatype Values = Values(copies: seq<nat>, inbound: seq<nat>, outbound: seq<nat>, memory: nat, stores: nat)

  function Untouched(n: nat): Values { Values(seq(n, _ => 0), seq(n, _ => 0), seq(n, _ => 0), 0, 0) }

  // ----- what an event does to the data -----

  /** The event that led from s to t answered processor i. */
  predicate Answers(s: Sys, t: Sys, i: nat)
    requires |t.nodes| == |s.nodes|
  {
    i < |s.nodes| && t.nodes[i].cpu.Replied? && (s.nodes[i].cpu.Slot? || s.nodes[i].cpu.Waiting?)
  }

  /** An answered store writes its processor's copy. */
  function Performed(s: Sys, t: Sys, i: nat, v: Values): Values
    requires |t.nodes| == |s.nodes| && Sized(s, v)
  {
    if Answers(s, t, i) && s.nodes[i].cpu.op.Store?
    then v.(copies := v.copies[i := v.stores + 1], stores := v.stores + 1)
    else v
  }

  predicate CarriesCopy(k: Kind) { k.DATA? || k.DATA_E? }

  /** A copy has been sent to node j. */
  predicate SentCopy(s: Sys, t: Sys, j: nat)
    requires j < |s.nodes| == |t.nodes|
  {
    var was, now := s.nodes[j].down, t.nodes[j].down;
    |now| > |was| && CarriesCopy(now[|now| - 1])
  }

  /** The agent keeps what it receives, and sends what it has. */
  function Received(s: Sys, t: Sys, i: nat, v: Values): Values
    requires i < |s.nodes| == |t.nodes| && Sized(s, v) && s.nodes[i].down != []
  {
    v.(copies := if CarriesCopy(s.nodes[i].down[0]) then v.copies[i := v.inbound[i]] else v.copies,
       outbound := if t.nodes[i].up.data > s.nodes[i].up.data then v.outbound[i := v.copies[i]] else v.outbound)
  }

  /** The directory passes on the copy that is in its hand; where it counts a memory write (MS), memory takes it. */
  function PassedOn(s: Sys, t: Sys, hand: nat, home: bool, v: Values): (w: Values)
    requires |t.nodes| == |s.nodes| && Sized(s, v)
    ensures Sized(s, w)
  {
    v.(inbound := seq(|s.nodes|, j requires 0 <= j < |s.nodes| => if SentCopy(s, t, j) then hand else v.inbound[j]),
       memory := if home then hand else v.memory)
  }

  predicate Sized(s: Sys, v: Values) { |v.copies| == |v.inbound| == |v.outbound| == |s.nodes| }

  /** The data after the event that led from s to t. */
  function Flow(s: Sys, ev: Event, t: Sys, v: Values): (w: Values)
    requires |t.nodes| == |s.nodes| && Sized(s, v)
    ensures Sized(t, w)
  {
    match ev
    case Lookup(i) => Performed(s, t, i, v)
    case Deliver(i) =>
      if i < |s.nodes| && s.nodes[i].down != [] then Performed(s, t, i, Received(s, t, i, v)) else v
    case Handle(i, k) =>
      if i >= |s.nodes| || t.nodes[i].up == s.nodes[i].up then v
      else PassedOn(s, t, if k.DATA? then v.outbound[i] else v.memory, k.DATA? && s.dir.state.MS?, v)
    case Respond => PassedOn(s, t, v.memory, false, v)
    case _ => v
  }

  // ----- every copy is the last one -----

  predicate Keeps(a: Agent) { !a.I? && !a.IS? && !a.IM? }

  /** Nobody has stored since memory was written. */
  predicate Clean(d: Dir) { d.I? || d.S? || d.SM? || d.E? || d.EM? || d.ES? || d.F? || d.FM? || d.EF? || d.FF? }

  predicate FreshAt(nd: Node, v: Values, i: nat)
    requires i < |v.copies| == |v.inbound| == |v.outbound|
  {
    && (Keeps(nd.agent) ==> v.copies[i] == v.stores)
    && (Granting(nd) && CarriesCopy(nd.down[0]) ==> v.inbound[i] == v.stores)
    && (nd.up.data > 0 ==> v.outbound[i] == v.stores)
  }

  predicate Fresh(s: Sys, v: Values) {
    && Sized(s, v)
    && (forall i :: 0 <= i < |s.nodes| ==> FreshAt(s.nodes[i], v, i))
    && (Clean(s.dir.state) || s.latch.Some? ==> v.memory == v.stores)
  }

  // ----- answers -----

  /** Who can write is alone: no copy elsewhere, in flight, or read from memory. */
  lemma Alone(p: Protocol, s: Sys, i: nat, j: nat)
    requires Invariant(p, s) && i < |s.nodes| && j < |s.nodes| && s.nodes[i].agent.M?
    ensures !Granting(s.nodes[j]) && s.nodes[j].up.data == 0 && s.latch.None? && !Clean(s.dir.state)
    ensures i != j ==> Empty(s, j)
  {
    assert AgreesAt(p, s, i) && AgreesAt(p, s, j);
    BooksSensible(p, s.dir, s.latch, i);
    ExclusiveHolds(p, s, i);
    NothingLatched(p, s, i);
    if i != j {
      if s.dir.presence[j] { CountTwo(s.dir.presence, i, j); }
      AbsentIsEmpty(p, s, j);
    }
  }

  lemma NothingLatched(p: Protocol, s: Sys, i: nat)
    requires Invariant(p, s) && i < |s.nodes| && s.nodes[i].agent.M?
    ensures s.latch.None?
  {
    if s.latch.Some? {
      var j := s.latch.value.target;
      assert AgreesAt(p, s, i) && AgreesAt(p, s, j);
      BooksSensible(p, s.dir, s.latch, j);
      ExclusiveHolds(p, s, i);
      if s.dir.presence[j] && i != j { CountTwo(s.dir.presence, i, j); }
    }
  }

  /** An answered store leaves its agent in M, an answered load with a copy. */
  lemma AnswerHolds(p: Protocol, s: Sys, ev: Event, t: Sys, i: nat)
    requires Invariant(p, s) && Step(p, s, ev) == To(t) && |t.nodes| == |s.nodes| && Answers(s, t, i)
    ensures HasCopy(t.nodes[i].agent) && (s.nodes[i].cpu.op.Store? ==> t.nodes[i].agent.M?)
    ensures (ev.Lookup? || ev.Deliver?) && ev.i == i
  {
    assert AgreesAt(p, s, i);
    AnsweredBy(p, s, ev, t, i);
    var nd := s.nodes[i];
    if ev.Lookup? { LookupHolds(p, nd, AgentProc(p, nd.agent, nd.cpu.op)); }
    else { DeliveryHolds(p, ViewOf(s.dir, s.latch, i), nd, AgentNtwk(p, nd.agent, nd.down[0])); }
  }

  lemma AnsweredBy(p: Protocol, s: Sys, ev: Event, t: Sys, i: nat)
    requires Shaped(s) && Step(p, s, ev) == To(t) && |t.nodes| == |s.nodes| && Answers(s, t, i)
    ensures (ev.Lookup? || ev.Deliver?) && ev.i == i
  {
  }

  lemma LookupHolds(p: Protocol, nd: Node, r: Reaction)
    requires nd.cpu.Slot? && r == AgentProc(p, nd.agent, nd.cpu.op) && r.React? && r.reply
    ensures HasCopy(r.next) && (nd.cpu.op.Store? ==> r.next.M?)
  {
  }

  lemma DeliveryHolds(p: Protocol, x: View, nd: Node, r: Reaction)
    requires Agrees(p, x, nd) && nd.down != [] && r == AgentNtwk(p, nd.agent, nd.down[0]) && r.React? && r.reply
    ensures HasCopy(r.next) && (nd.cpu.Waiting? && nd.cpu.op.Store? ==> r.next.M?)
  {
  }

  /** The store of i makes its copy the last one, and there is no other. */
  lemma StoreFresh(p: Protocol, t: Sys, i: nat, v: Values)
    requires Invariant(p, t) && Sized(t, v) && i < |t.nodes| && t.nodes[i].agent.M?
    ensures Fresh(t, v.(copies := v.copies[i := v.stores + 1], stores := v.stores + 1))
  {
    var w := v.(copies := v.copies[i := v.stores + 1], stores := v.stores + 1);
    forall j | 0 <= j < |t.nodes| ensures FreshAt(t.nodes[j], w, j) { Alone(p, t, i, j); }
    Alone(p, t, i, i);
  }

  // ----- the events -----

  /** Where an event that answers nobody leaves the data. */
  lemma PerformedFresh(p: Protocol, s: Sys, ev: Event, t: Sys, i: nat, v: Values)
    requires Invariant(p, s) && Step(p, s, ev) == To(t) && |t.nodes| == |s.nodes| && Sized(s, v)
    requires Invariant(p, t) && i < |s.nodes|
    requires !(Answers(s, t, i) && s.nodes[i].cpu.op.Store?) ==> Fresh(t, v)
    ensures Fresh(t, Performed(s, t, i, v))
  {
    if Answers(s, t, i) && s.nodes[i].cpu.op.Store? {
      AnswerHolds(p, s, ev, t, i);
      StoreFresh(p, t, i, v);
    }
  }

  lemma LookupFresh(p: Protocol, s: Sys, i: nat, t: Sys, v: Values)
    requires Invariant(p, s) && Fresh(s, v) && Step(p, s, Lookup(i)) == To(t)
    ensures |t.nodes| == |s.nodes| && Fresh(t, Flow(s, Lookup(i), t, v))
  {
    EventKeepsInvariant(p, s, Lookup(i));
    var nd := t.nodes[i];
    assert AgreesAt(p, s, i);
    LookupKeeps(p, s.nodes[i], AgentProc(p, s.nodes[i].agent, s.nodes[i].cpu.op));
    assert FreshAt(nd, v, i);
    PerformedFresh(p, s, Lookup(i), t, i, v);
  }

  /** Looking up brings no copy. */
  lemma LookupKeeps(p: Protocol, nd: Node, r: Reaction)
    requires nd.cpu.Slot? && r == AgentProc(p, nd.agent, nd.cpu.op) && r.React?
    ensures Keeps(r.next) ==> Keeps(nd.agent)
    ensures Apply(nd, r).down == nd.down && Apply(nd, r).up.data == nd.up.data
  {
  }

  /** A delivery brings a copy or leaves the one that was there; what is sent is that copy. */
  lemma DeliverKeeps(p: Protocol, nd: Node, r: Reaction)
    requires nd.down != [] && r == AgentNtwk(p, nd.agent, nd.down[0]) && r.React?
    ensures Keeps(r.next) ==> Keeps(nd.agent) || CarriesCopy(nd.down[0])
    ensures Receive(nd, r).up.data > nd.up.data ==> Keeps(nd.agent)
  {
  }

  lemma DeliverFresh(p: Protocol, s: Sys, i: nat, t: Sys, v: Values)
    requires Invariant(p, s) && Fresh(s, v) && Step(p, s, Deliver(i)) == To(t)
    ensures |t.nodes| == |s.nodes| && Fresh(t, Flow(s, Deliver(i), t, v))
  {
    EventKeepsInvariant(p, s, Deliver(i));
    var nd, w := s.nodes[i], Received(s, t, i, v);
    assert AgreesAt(p, s, i);
    DeliverKeeps(p, nd, AgentNtwk(p, nd.agent, nd.down[0]));
    ReceivedFresh(p, ViewOf(s.dir, s.latch, i), nd, t.nodes[i], v, w, i);
    forall j | 0 <= j < |t.nodes| ensures FreshAt(t.nodes[j], w, j) { assert FreshAt(s.nodes[j], v, j); }
    PerformedFresh(p, s, Deliver(i), t, i, w);
  }

  lemma ReceivedFresh(p: Protocol, x: View, nd: Node, nd': Node, v: Values, w: Values, i: nat)
    requires i < |v.copies| == |v.inbound| == |v.outbound| && FreshAt(nd, v, i) && Agrees(p, x, nd) && nd.down != []
    requires AgentNtwk(p, nd.agent, nd.down[0]).React? && nd' == Receive(nd, AgentNtwk(p, nd.agent, nd.down[0]))
    requires w == v.(
      copies := if CarriesCopy(nd.down[0]) then v.copies[i := v.inbound[i]] else v.copies,
      outbound := if nd'.up.data > nd.up.data then v.outbound[i := v.copies[i]] else v.outbound)
    ensures FreshAt(nd', w, i)
  {
    DeliverKeeps(p, nd, AgentNtwk(p, nd.agent, nd.down[0]));
    assert !Granting(nd');
  }

  /** The directory sends a copy only when it has been sent one. */
  lemma HandlerSends(p: Protocol, e: Entry, i: nat, k: Kind, j: nat)
    requires i < |e.presence| && Handler(p, e, i, k).Done? && !k.DATA?
    ensures var q := Handler(p, e, i, k).sends.To(j); q != [] ==> !CarriesCopy(q[0])
  {
  }

  /** It reads memory only while that is clean. */
  lemma HandlerClean(p: Protocol, e: Entry, i: nat, k: Kind)
    requires i < |e.presence| && Handler(p, e, i, k).Done?
    ensures var o := Handler(p, e, i, k);
      && (Clean(o.entry.state) ==> Clean(e.state) || (k.DATA? && e.state.MS?))
      && (o.latch.Some? ==> Clean(e.state))
  {
  }

  lemma HandleFresh(p: Protocol, s: Sys, i: nat, k: Kind, t: Sys, v: Values)
    requires Invariant(p, s) && Fresh(s, v) && Step(p, s, Handle(i, k)) == To(t)
    ensures |t.nodes| == |s.nodes| && Fresh(t, Flow(s, Handle(i, k), t, v))
  {
    if Handler(p, s.dir, i, k).Done? {
      var o := Handler(p, s.dir, i, k);
      if !k.DATA? { forall j: nat { HandlerSends(p, s.dir, i, k, j); } }
      HandlerClean(p, s.dir, i, k);
      CommitFresh(s, i, k, o.entry, o.sends, o.latch, v);
    }
  }

  lemma CommitFresh(s: Sys, i: nat, k: Kind, e: Entry, out: Sends, latch: Option<Latch>, v: Values)
    requires Fresh(s, v) && i < |s.nodes| && s.nodes[i].up.Has(k) > 0
    requires !k.DATA? ==> forall j: nat :: out.To(j) != [] ==> !CarriesCopy(out.To(j)[0])
    requires Clean(e.state) ==> Clean(s.dir.state) || (k.DATA? && s.dir.state.MS?)
    requires latch.Some? ==> Clean(s.dir.state)
    ensures var t := Commit(s, i, k, e, out, latch); Fresh(t, Flow(s, Handle(i, k), t, v))
  {
    var t := Commit(s, i, k, e, out, latch);
    var w := Flow(s, Handle(i, k), t, v);
    assert FreshAt(s.nodes[i], v, i);
    forall j | 0 <= j < |t.nodes| ensures FreshAt(t.nodes[j], w, j) {
      assert FreshAt(s.nodes[j], v, j);
      SentFresh(s.nodes[j], t.nodes[j], out.To(j), v, w, j);
    }
  }

  /** A node whose channel has grown by what the directory has sent. */
  lemma SentFresh(nd: Node, nd': Node, more: seq<Kind>, v: Values, w: Values, j: nat)
    requires j < |v.copies| == |v.inbound| == |v.outbound| && FreshAt(nd, v, j)
    requires |w.inbound| == |v.inbound| && w.copies == v.copies && w.outbound == v.outbound && w.stores == v.stores
    requires nd'.agent == nd.agent && nd'.down == nd.down + more && nd'.up.data <= nd.up.data && |more| <= 1
    requires w.inbound[j] == v.inbound[j] || w.inbound[j] == v.stores
    requires more != [] && CarriesCopy(more[0]) ==> w.inbound[j] == v.stores
    ensures FreshAt(nd', w, j)
  {
  }

  lemma RespondFresh(p: Protocol, s: Sys, t: Sys, v: Values)
    requires Invariant(p, s) && Fresh(s, v) && Step(p, s, Respond) == To(t)
    ensures |t.nodes| == |s.nodes| && Fresh(t, Flow(s, Respond, t, v))
  {
    var l, w := s.latch.value, Flow(s, Respond, t, v);
    var g := if l.exclusive then DATA_E else DATA;
    forall j | 0 <= j < |t.nodes| ensures FreshAt(t.nodes[j], w, j) {
      assert FreshAt(s.nodes[j], v, j);
      assert t.nodes[j].down == s.nodes[j].down + One(l.target, g).To(j);
      SentFresh(s.nodes[j], t.nodes[j], One(l.target, g).To(j), v, w, j);
    }
  }

  lemma CpuFresh(p: Protocol, s: Sys, ev: Event, t: Sys, v: Values)
    requires Fresh(s, v) && Shaped(s) && Step(p, s, ev) == To(t)
    requires ev.Issue? || ev.Leave? || ev.Return? || ev.Accept?
    ensures |t.nodes| == |s.nodes| && Fresh(t, Flow(s, ev, t, v))
  {
    forall j | 0 <= j < |t.nodes| ensures FreshAt(t.nodes[j], v, j) { assert FreshAt(s.nodes[j], v, j); }
  }

  lemma EventFresh(p: Protocol, s: Sys, ev: Event, t: Sys, v: Values)
    requires Invariant(p, s) && Fresh(s, v) && Step(p, s, ev) == To(t)
    ensures |t.nodes| == |s.nodes| && Fresh(t, Flow(s, ev, t, v))
  {
    match ev
    case Lookup(i) => LookupFresh(p, s, i, t, v);
    case Deliver(i) => DeliverFresh(p, s, i, t, v);
    case Handle(i, k) => HandleFresh(p, s, i, k, t, v);
    case Respond => RespondFresh(p, s, t, v);
    case _ => CpuFresh(p, s, ev, t, v);
  }

  /** An answered load has the last store's copy, an answered store makes the next one. */
  lemma AnswerLast(p: Protocol, s: Sys, ev: Event, t: Sys, v: Values)
    requires Invariant(p, s) && Fresh(s, v) && Step(p, s, ev) == To(t) && |t.nodes| == |s.nodes|
    ensures var w := Flow(s, ev, t, v);
      && (forall i: nat :: Answers(s, t, i) && s.nodes[i].cpu.op.Store? ==>
            w.stores == v.stores + 1 && w.copies[i] == w.stores)
      && (forall i: nat :: Answers(s, t, i) && s.nodes[i].cpu.op.Load? ==>
            w.stores == v.stores && w.copies[i] == w.stores)
      && ((forall i: nat :: !Answers(s, t, i)) ==> w.stores == v.stores)
  {
    EventFresh(p, s, ev, t, v);
    forall i: nat | Answers(s, t, i)
      ensures s.nodes[i].cpu.op.Store? ==> Flow(s, ev, t, v).stores == v.stores + 1
      ensures s.nodes[i].cpu.op.Load? ==> Flow(s, ev, t, v).stores == v.stores
      ensures Flow(s, ev, t, v).copies[i] == Flow(s, ev, t, v).stores
    {
      AnswerHolds(p, s, ev, t, i);
      assert FreshAt(t.nodes[i], Flow(s, ev, t, v), i);
    }
  }
}
