/** What an agent asks for, and that readers share: while nobody stores, no cache ever loses its copy. */
module CoherenceSharing {
  import opened Options
  import opened CoherenceTypes
  import opened Protocols
  import opened CoherenceSystem
  import opened CoherenceInvariant
  import opened CoherenceSafety

  /** A load is answered at once exactly when there is a copy, a store when it may be written. A store asks for nothing
      but permission (GETX) exactly when its copy is the only one; a load asks to share, except in MI. */
  lemma AsksByPermission(p: Protocol, a: Agent, op: Op)
    requires !a.Transient()
    ensures var r := AgentProc(p, a, op);
      && r.React?
      && (r.reply <==> if op.Load? then HasCopy(a) else a.M?)
      && (r.reply ==> r.next == a)
      && (r.send == Some(GETX) <==> op.Store? && a.E?)
      && (r.send == Some(GETS) <==> op.Load? && a.I? && !p.MI?)
      && (r.send == Some(GETM) <==> !r.reply && !(op.Store? && a.E?) && !(op.Load? && !p.MI?))
  {
  }

  // ----- reading only -----

  predicate Reads(ev: Event) { ev.Issue? ==> ev.op.Load? }

  /** States of the directory before the first store. */
  predicate Read(d: Dir) { d.I? || d.S? || d.E? || d.ES? || d.EF? || d.F? || d.FF? }

  predicate ReadKind(k: Kind) { k.DATA? || k.DATA_E? || k.RECALL_GOTO_S? }

  predicate Reading(nd: Node) {
    && (nd.cpu.Slot? || nd.cpu.Waiting? ==> nd.cpu.op.Load?)
    && (nd.agent.I? || nd.agent.IS? || nd.agent.S? || nd.agent.E? || nd.agent.F?)
    && nd.up.getm == 0 && nd.up.getx == 0 && nd.up.invack == 0
    && forall x :: 0 <= x < |nd.down| ==> ReadKind(nd.down[x])
  }

  predicate OnlyRead(s: Sys) {
    Shaped(s) && Read(s.dir.state) && forall i :: 0 <= i < |s.nodes| ==> Reading(s.nodes[i])
  }

  /** The step keeps every copy. */
  predicate KeepsCopies(s: Sys, t: Sys) {
    && |t.nodes| == |s.nodes|
    && forall i :: 0 <= i < |s.nodes| && HasCopy(s.nodes[i].agent) ==> HasCopy(t.nodes[i].agent)
  }

  lemma HandlerReads(p: Protocol, e: Entry, i: nat, k: Kind)
    requires !p.MI? && i < |e.presence| && Read(e.state) && (k.GETS? || k.DATA?) && Handler(p, e, i, k).Done?
    ensures var o := Handler(p, e, i, k);
      Read(o.entry.state) && forall j: nat :: forall x :: 0 <= x < |o.sends.To(j)| ==> ReadKind(o.sends.To(j)[x])
  {
  }

  lemma NodeReads(p: Protocol, nd: Node)
    requires !p.MI? && Reading(nd)
    ensures nd.cpu.Slot? && AgentProc(p, nd.agent, nd.cpu.op).React? ==>
      var r := AgentProc(p, nd.agent, nd.cpu.op);
      Reading(Apply(nd, r)) && (HasCopy(nd.agent) ==> HasCopy(r.next))
    ensures nd.down != [] && AgentNtwk(p, nd.agent, nd.down[0]).React? ==>
      var r := AgentNtwk(p, nd.agent, nd.down[0]);
      Reading(Receive(nd, r)) && (HasCopy(nd.agent) ==> HasCopy(r.next))
  {
  }

  lemma StepReads(p: Protocol, s: Sys, ev: Event)
    requires !p.MI? && OnlyRead(s) && Reads(ev) && Step(p, s, ev).To?
    ensures OnlyRead(Step(p, s, ev).sys) && KeepsCopies(s, Step(p, s, ev).sys)
  {
    match ev
    case Lookup(i) => NodeReads(p, s.nodes[i]);
    case Deliver(i) => NodeReads(p, s.nodes[i]);
    case Handle(i, k) => HandleReads(p, s, i, k);
    case _ =>
  }

  lemma HandleReads(p: Protocol, s: Sys, i: nat, k: Kind)
    requires !p.MI? && OnlyRead(s) && Step(p, s, Handle(i, k)).To?
    ensures var t := Step(p, s, Handle(i, k)).sys; OnlyRead(t) && KeepsCopies(s, t)
  {
    if Handler(p, s.dir, i, k).Done? {
      var o := Handler(p, s.dir, i, k);
      assert Reading(s.nodes[i]);
      HandlerReads(p, s.dir, i, k);
      CommitReads(s, i, k, o.entry, o.sends, o.latch);
    }
  }

  lemma CommitReads(s: Sys, i: nat, k: Kind, e: Entry, out: Sends, latch: Option<Latch>)
    requires OnlyRead(s) && i < |s.nodes| && s.nodes[i].up.Has(k) > 0 && Read(e.state)
    requires |e.presence| == |s.nodes|
    requires forall j: nat :: forall x :: 0 <= x < |out.To(j)| ==> ReadKind(out.To(j)[x])
    ensures var t := Commit(s, i, k, e, out, latch); OnlyRead(t) && KeepsCopies(s, t)
  {
    var t := Commit(s, i, k, e, out, latch);
    forall j | 0 <= j < |t.nodes| ensures Reading(t.nodes[j]) { assert Reading(s.nodes[j]); }
  }

  lemma {:induction false} RunReads(p: Protocol, s: Sys, evs: seq<Event>)
    requires !p.MI? && OnlyRead(s) && forall ev :: ev in evs ==> Reads(ev)
    ensures Run(p, s, evs).To? ==> OnlyRead(Run(p, s, evs).sys) && KeepsCopies(s, Run(p, s, evs).sys)
    decreases |evs|
  {
    if evs != [] && Step(p, s, evs[0]).To? {
      StepReads(p, s, evs[0]);
      RunReads(p, Step(p, s, evs[0]).sys, evs[1..]);
    }
  }

  /** In MSI, MESI, MOSI and MOESIF, while only loads are issued, a cache that has a copy keeps it: loads share. */
  lemma ReadersShare(p: Protocol, n: nat, evs: seq<Event>, more: seq<Event>, s: Sys, t: Sys, i: nat)
    requires !p.MI? && (forall ev :: ev in evs ==> Reads(ev)) && (forall ev :: ev in more ==> Reads(ev))
    requires Reachable(p, n, evs, s) && Shaped(s) && Run(p, s, more) == To(t)
    requires i < |s.nodes| && HasCopy(s.nodes[i].agent)
    ensures i < |t.nodes| && HasCopy(t.nodes[i].agent)
  {
    RunReads(p, Init(n), evs);
    RunReads(p, s, more);
  }
}
