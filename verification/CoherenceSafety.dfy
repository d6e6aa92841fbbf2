/** Safety of every eviction-free run: any protocol, any number of processors, any interleaving. */
module CoherenceSafety {
  import opened Options
  import opened CoherenceTypes
  import opened Protocols
  import opened CoherenceSystem
  import opened CoherenceInvariant
  import opened HandlerProof
  import opened ProtocolProof

  /** The run that performs evs from s, one event after the other. */
  function Run(p: Protocol, s: Sys, evs: seq<Event>): Next
    requires Shaped(s)
    decreases |evs|
  {
    if evs == [] then To(s)
    else
      var r := Step(p, s, evs[0]);
      if r.To? && Shaped(r.sys) then Run(p, r.sys, evs[1..]) else r
  }

  predicate Reachable(p: Protocol, n: nat, evs: seq<Event>, s: Sys) {
    Run(p, Init(n), evs) == To(s)
  }

  lemma {:induction false} RunKeepsInvariant(p: Protocol, s: Sys, evs: seq<Event>)
    requires Invariant(p, s)
    ensures !Run(p, s, evs).Crash?
    ensures Run(p, s, evs).To? ==> Invariant(p, Run(p, s, evs).sys)
    decreases |evs|
  {
    if evs != [] {
      EventKeepsInvariant(p, s, evs[0]);
      var r := Step(p, s, evs[0]);
      if r.To? { RunKeepsInvariant(p, r.sys, evs[1..]); }
    }
  }

  lemma ReachableInvariant(p: Protocol, n: nat, evs: seq<Event>, s: Sys)
    requires Reachable(p, n, evs, s)
    ensures Invariant(p, s)
  {
    InitInvariant(p, n);
    RunKeepsInvariant(p, Init(n), evs);
  }

  /** No run reaches a throw: no unexpected (state, message) pair at an agent or at the directory,
      no surplus INVACK, no processor request at an agent in transition. */
  lemma NoThrow(p: Protocol, n: nat, evs: seq<Event>)
    ensures !Run(p, Init(n), evs).Crash?
  {
    InitInvariant(p, n);
    RunKeepsInvariant(p, Init(n), evs);
  }

  // ----- single writer -----

  predicate Exclusive(a: Agent) { a.M? || a.E? }

  predicate Owning(a: Agent) { a.M? || a.E? || a.O? || a.F? || a.EM? || a.OM? || a.FM? }

  /** No copy here, and none on its way. */
  predicate Empty(s: Sys, j: nat)
    requires j < |s.nodes|
  {
    && (s.nodes[j].agent.I? || s.nodes[j].agent.IS? || s.nodes[j].agent.IM?)
    && (forall x :: 0 <= x < |s.nodes[j].down| ==> !s.nodes[j].down[x].Grant())
    && !(s.latch.Some? && s.latch.value.target == j)
  }

  lemma ExclusiveHolds(p: Protocol, s: Sys, i: nat)
    requires Invariant(p, s) && i < |s.nodes| && Exclusive(s.nodes[i].agent)
    ensures s.dir.presence[i] && s.dir.sharers == 1
  {
    assert AgreesAt(p, s, i);
    BooksSensible(p, s.dir, s.latch, i);
  }

  lemma AbsentIsEmpty(p: Protocol, s: Sys, j: nat)
    requires Invariant(p, s) && j < |s.nodes| && !s.dir.presence[j]
    ensures Empty(s, j)
  {
    assert AgreesAt(p, s, j);
    BooksSensible(p, s.dir, s.latch, j);
  }

  /** While one agent can write (M or E), every other agent has no copy and none is on its way to it. */
  lemma SingleWriter(p: Protocol, n: nat, evs: seq<Event>, s: Sys, i: nat, j: nat)
    requires Reachable(p, n, evs, s) && i < |s.nodes| && j < |s.nodes| && i != j
    requires Exclusive(s.nodes[i].agent)
    ensures Empty(s, j)
  {
    ReachableInvariant(p, n, evs, s);
    ExclusiveHolds(p, s, i);
    if s.dir.presence[j] { CountTwo(s.dir.presence, i, j); }
    AbsentIsEmpty(p, s, j);
  }

  lemma OwningHolds(p: Protocol, s: Sys, i: nat)
    requires Invariant(p, s) && i < |s.nodes| && Owning(s.nodes[i].agent)
    ensures s.dir.presence[i]
    ensures s.dir.sharers == 1 || s.dir.owner == i
  {
    assert AgreesAt(p, s, i);
    BooksSensible(p, s.dir, s.latch, i);
  }

  /** At most one agent supplies the block: in MOESIF of M, E, O, F, EM, OM, FM; in MOSI of M, O, OM. */
  lemma SingleOwner(p: Protocol, n: nat, evs: seq<Event>, s: Sys, i: nat, j: nat)
    requires Reachable(p, n, evs, s) && i < |s.nodes| && j < |s.nodes|
    requires Owning(s.nodes[i].agent) && Owning(s.nodes[j].agent)
    ensures i == j
  {
    ReachableInvariant(p, n, evs, s);
    OwningHolds(p, s, i);
    OwningHolds(p, s, j);
    if i != j { CountTwo(s.dir.presence, i, j); }
  }

  // ----- who supplies the block -----

  /** The owner's state as the directory knows it. */
  predicate Owned(d: Dir) { !d.I? && !d.S? && !d.SM? }

  lemma OwnerKnown(p: Protocol, s: Sys, j: nat)
    requires Invariant(p, s) && j < |s.nodes| && Owning(s.nodes[j].agent)
    ensures Owned(s.dir.state)
    ensures s.dir.state.M? || s.dir.state.E? ==> Last(s.dir.presence) == j && First(s.dir.presence) == j
    ensures s.dir.state.O? || s.dir.state.F? ==> s.dir.owner == j
  {
    assert AgreesAt(p, s, j);
    BooksSensible(p, s.dir, s.latch, j);
    OwningHolds(p, s, j);
    var e := s.dir.presence;
    if (s.dir.state.M? || s.dir.state.E?) && Last(e) != j { CountTwo(e, Last(e), j); }
    if (s.dir.state.M? || s.dir.state.E?) && First(e) != j { CountTwo(e, First(e), j); }
  }

  /** Tables: memory is read only in these states, and where one node owns the block it is asked for a copy. */
  lemma HandlerSupplier(p: Protocol, e: Entry, i: nat, k: Kind)
    requires i < |e.presence| && Handler(p, e, i, k).Done?
    ensures Handler(p, e, i, k).latch.Some? ==> !Owned(e.state)
    ensures var o := Handler(p, e, i, k);
      var owner := if e.state.O? || e.state.F? then e.owner else if p.MSI? then First(e.presence) else Last(e.presence);
      k.GETS? && Owned(e.state) ==> o.latch.None? && owner >= 0 && o.sends == One(owner, RECALL_GOTO_S)
  {
  }

  /** The directory reads memory for a request only when no cache owns the block; a load is otherwise served by the
      owner, which keeps a copy. */
  lemma OwnerSupplies(p: Protocol, n: nat, evs: seq<Event>, s: Sys, i: nat, k: Kind, j: nat)
    requires Reachable(p, n, evs, s) && Shaped(s) && i < |s.nodes| && Handler(p, s.dir, i, k).Done?
    requires j < |s.nodes| && Owning(s.nodes[j].agent)
    ensures Handler(p, s.dir, i, k).latch.None?
    ensures k.GETS? ==> Handler(p, s.dir, i, k).sends == One(j, RECALL_GOTO_S)
  {
    ReachableInvariant(p, n, evs, s);
    OwnerKnown(p, s, j);
    HandlerSupplier(p, s.dir, i, k);
  }

  lemma HandlerGrant(p: Protocol, e: Entry, i: nat)
    requires i < |e.presence| && Handler(p, e, i, GETS).Done? && Handler(p, e, i, GETS).latch.Some?
    ensures Handler(p, e, i, GETS).latch.value == Latch(i, e.state.I? && (p.MESI? || p.MOESIF?))
    ensures e.state.I? || e.state.S?
  {
  }

  /** A load served from memory gets the block exclusively, in MESI and MOESIF and in no other protocol, exactly when
      the directory knows of no other copy; then there is none, nor one on its way. */
  lemma FirstReaderOwns(p: Protocol, n: nat, evs: seq<Event>, s: Sys, i: nat)
    requires Reachable(p, n, evs, s) && Shaped(s) && i < |s.nodes| && Handler(p, s.dir, i, GETS).Done?
    requires Handler(p, s.dir, i, GETS).latch.Some?
    ensures var l := Handler(p, s.dir, i, GETS).latch.value;
      && l.target == i && (l.exclusive <==> (p.MESI? || p.MOESIF?) && Count(s.dir.presence) == 0)
      && (l.exclusive ==> forall j :: 0 <= j < |s.nodes| ==> Empty(s, j))
  {
    ReachableInvariant(p, n, evs, s);
    HandlerGrant(p, s.dir, i);
    forall j | 0 <= j < |s.nodes| && Count(s.dir.presence) == 0 ensures Empty(s, j) {
      if s.dir.presence[j] { CountPositive(s.dir.presence, j); }
      AbsentIsEmpty(p, s, j);
    }
  }

  // ----- the directory's books -----

  /** The hidden counting facts behind the branches that have no zero-INVACK case. */
  lemma SharerCounts(p: Protocol, n: nat, evs: seq<Event>, s: Sys)
    requires Reachable(p, n, evs, s)
    ensures Shaped(s) && s.dir.sharers == Count(s.dir.presence)
    ensures p.MESI? && s.dir.state.S? ==> s.dir.sharers >= 2
    ensures s.dir.state.F? || s.dir.state.O? ==> s.dir.sharers >= 2
    ensures forall i :: 0 <= i < |s.nodes| && s.dir.state.O? && s.nodes[i].up.getx > 0 ==> !s.dir.presence[i]
    ensures forall i :: 0 <= i < |s.nodes| && s.dir.state.F? && s.nodes[i].up.getx > 0 ==> s.dir.owner == i
  {
    ReachableInvariant(p, n, evs, s);
    forall i | 0 <= i < |s.nodes| && s.nodes[i].up.getx > 0
      ensures s.dir.state.O? ==> !s.dir.presence[i]
      ensures s.dir.state.F? ==> s.dir.owner == i
    {
      assert AgreesAt(p, s, i);
    }
  }

  function Invalidations(q: seq<Kind>): nat {
    if q == [] then 0 else Invalidations(q[1..]) + (if q[0].REQ_INVALID? then 1 else 0)
  }

  /** REQ_INVALIDs and INVACKs in flight, over the first m nodes. */
  function AcksInFlight(nodes: seq<Node>): nat {
    if nodes == [] then 0
    else
      var l := nodes[|nodes| - 1];
      AcksInFlight(nodes[..|nodes| - 1]) + Invalidations(l.down) + l.up.invack
  }

  function AckMask(s: Sys): (m: seq<bool>)
    requires Shaped(s)
    ensures |m| == |s.nodes| && forall i :: 0 <= i < |m| ==> m[i] == AskOf(s.dir, i).Inv?
  {
    seq(|s.nodes|, i requires 0 <= i < |s.nodes| => AskOf(s.dir, i).Inv?)
  }

  lemma AckAt(p: Protocol, s: Sys, i: nat)
    requires Invariant(p, s) && i < |s.nodes|
    ensures Invalidations(s.nodes[i].down) + s.nodes[i].up.invack == if AskOf(s.dir, i).Inv? then 1 else 0
  {
    assert AgreesAt(p, s, i);
    AckNode(ViewOf(s.dir, s.latch, i), s.nodes[i]);
  }

  lemma AckNode(v: View, nd: Node)
    requires Asked(v, nd)
    ensures Invalidations(nd.down) + nd.up.invack == if v.ask.Inv? then 1 else 0
  {
    var rest := if Granting(nd) then nd.down[1..] else nd.down;
    assert Invalidations(nd.down) == Invalidations(rest);
    if rest != [] { assert rest[1..] == []; }
  }

  lemma {:induction false} AcksCounted(nodes: seq<Node>, m: seq<bool>)
    requires |m| == |nodes|
    requires forall i :: 0 <= i < |m| ==> Invalidations(nodes[i].down) + nodes[i].up.invack == if m[i] then 1 else 0
    ensures AcksInFlight(nodes) == Count(m)
  {
    if nodes != [] { AcksCounted(nodes[..|nodes| - 1], m[..|m| - 1]); }
  }

  /** inv_ack_waiting is exactly the number of REQ_INVALIDs and INVACKs in flight. */
  lemma AckConservation(p: Protocol, n: nat, evs: seq<Event>, s: Sys)
    requires Reachable(p, n, evs, s)
    ensures AcksInFlight(s.nodes) == if s.dir.state.SM? || s.dir.state.OM? || s.dir.state.FM? then s.dir.waiting else 0
  {
    ReachableInvariant(p, n, evs, s);
    var e, m := s.dir, AckMask(s);
    forall i | 0 <= i < |m|
      ensures Invalidations(s.nodes[i].down) + s.nodes[i].up.invack == if m[i] then 1 else 0
    {
      AckAt(p, s, i);
    }
    AcksCounted(s.nodes, m);
    if e.state.SM? { CountOthers(e.presence, m, e.req, -1); }
    else if (e.state.OM? || e.state.FM?) && e.waiting > 0 { CountOthers(e.presence, m, e.req, e.owner); }
    else { CountNone(m); }
  }

  /** Some node owes the directory an answer. */
  predicate Owes(s: Sys, i: nat)
    requires Shaped(s)
  {
    i < |s.nodes| && !AskOf(s.dir, i).Nil?
  }

  /** A directory in transition always has a demand or an answer in flight that will move it on. */
  lemma Debtor(p: Protocol, s: Sys) returns (i: nat)
    requires Invariant(p, s) && s.dir.state.Transient()
    ensures Owes(s, i)
    ensures (exists x :: 0 <= x < |s.nodes[i].down| && s.nodes[i].down[x].Demand()) || s.nodes[i].up.Answers() > 0
  {
    var e := s.dir;
    if e.state.SM? { i := CountOther(e.presence, e.req); }
    else if e.state.OM? || e.state.FM? {
      if e.waiting == 0 { i := e.owner; } else { i := OtherThan(e.presence, e.req, e.owner); }
    }
    else if e.state.FF? || e.state.OO? { i := e.owner; }
    else { i := CountWitness(e.presence); }
    assert AgreesAt(p, s, i);
    var d := s.nodes[i].down;
    if s.nodes[i].up.Answers() == 0 { assert d[|d| - 1].Demand(); }
  }

  lemma OtherThan(p: seq<bool>, a: nat, b: nat) returns (j: nat)
    requires a < |p| && b < |p| && p[b]
    requires Count(p) > 1 + (if a != b && p[a] then 1 else 0)
    ensures j < |p| && j != a && j != b && p[j]
  {
    CountUpdate(p, b, false);
    if a == b { j := CountWitness(p[b := false]); } else { j := CountOther(p[b := false], a); }
  }

  predicate Quiet(s: Sys) {
    s.latch.None? && forall i :: 0 <= i < |s.nodes| ==> s.nodes[i].down == [] && s.nodes[i].up == Bag(0, 0, 0, 0, 0)
  }

  predicate HasCopy(a: Agent) { a.S? || a.E? || a.M? || a.F? || a.O? }

  /** With nothing in flight, presence is exactly the set of agents with a copy, o_f_id names the
      owner or forwarder, and nobody is in transition. */
  lemma QuietBooks(p: Protocol, n: nat, evs: seq<Event>, s: Sys, i: nat)
    requires Reachable(p, n, evs, s) && Quiet(s) && i < |s.nodes|
    ensures Shaped(s) && !s.dir.state.Transient() && !s.nodes[i].agent.Transient()
    ensures s.dir.presence[i] <==> HasCopy(s.nodes[i].agent)
    ensures s.nodes[i].agent.O? <==> s.dir.state.O? && s.dir.owner == i
    ensures s.nodes[i].agent.F? <==> s.dir.state.F? && s.dir.owner == i
    ensures s.nodes[i].agent.M? <==> s.dir.state.M? && s.dir.presence[i]
    ensures s.nodes[i].agent.E? <==> s.dir.state.E? && s.dir.presence[i]
  {
    ReachableInvariant(p, n, evs, s);
    if s.dir.state.Transient() { var d := Debtor(p, s); }
    assert AgreesAt(p, s, i);
    var up := s.nodes[i].up;
    assert up.Requests() == 0 && up.Answers() == 0;
    QuietNode(p, ViewOf(s.dir, s.latch, i), s.nodes[i]);
    QuietHold(p, s.dir, i);
  }

  lemma QuietNode(p: Protocol, v: View, nd: Node)
    requires Staged(p, v, nd) && nd.down == [] && v.latched.None? && v.active.Not?
    requires nd.up.Requests() == 0 && nd.up.Answers() == 0
    ensures nd.agent == Stable(v.hold)
  {
  }

  /** What the directory's stable states say about a node. */
  lemma QuietHold(p: Protocol, e: Entry, i: nat)
    requires Books(p, e) && !e.state.Transient() && i < |e.presence|
    ensures var a := Stable(HoldOf(e, i));
      && !a.Transient() && (e.presence[i] <==> HasCopy(a))
      && (a.O? <==> e.state.O? && e.owner == i) && (a.F? <==> e.state.F? && e.owner == i)
      && (a.M? <==> e.state.M? && e.presence[i]) && (a.E? <==> e.state.E? && e.presence[i])
  {
    if e.presence[i] { CountPositive(e.presence, i); }
  }
}
