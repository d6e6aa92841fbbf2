/** The accounting laws of the five protocols: every miss, and every upgrade that a race turned into a miss, is served
    by exactly one cache-to-cache transfer or memory read; every recall leads to one transfer, every latched
    response to one memory read. */
module CoherenceAccounting {
  import opened Options
  import opened CoherenceTypes
  import opened Protocols
  import opened CoherenceSystem
  import opened CoherenceInvariant
  import opened HandlerProof
  import opened ProtocolProof
  import opened CoherenceSafety

  /** The statistics counters of one block: cache_misses, c2c_transfers, memory_reads without a shared cache. Beside
      them: the upgrades that lost their copy while they waited, the recalled copies that were acknowledged because
      the requester had one already, and those of them that MOESIF does not count as transfers. */
  datatype Tally = Tally(misses: nat, transfers: nat, fetches: nat, demoted: nat, regranted: nat, uncounted: nat)

  function Nothing(): Tally { Tally(0, 0, 0, 0, 0, 0) }

  predicate Private(p: Protocol) { p.MI? || p.MSI? || p.MESI? }

  predicate Upgrade(a: Agent) { a.SM? || a.EM? || a.FM? || a.OM? }

  /** The requester of a recalled copy has one, beside the owner's. */
  predicate Regrants(e: Entry) {
    (e.state.OM? || e.state.FM?) && Valid(e, e.req) && e.presence[e.req] && e.req != e.owner
  }

  /** What one event adds: the agent counts a miss when it leaves I, the directory a transfer when it
      passes a recalled copy on, and a memory read when it answers from its latch. */
  function Counted(p: Protocol, s: Sys, ev: Event, c: Tally): Tally
    requires Shaped(s)
  {
    match ev
    case Lookup(i) => if i < |s.nodes| && s.nodes[i].agent.I? then c.(misses := c.misses + 1) else c
    case Deliver(i) =>
      if i < |s.nodes| && s.nodes[i].down != [] && Demotes(p, s.nodes[i]) then c.(demoted := c.demoted + 1) else c
    case Handle(_, k) => if k.DATA? then PassedOn(p, s.dir, c) else c
    case Respond => c.(fetches := c.fetches + 1)
    case _ => c
  }

  function PassedOn(p: Protocol, e: Entry, c: Tally): Tally {
    if !Regrants(e) then c.(transfers := c.transfers + 1)
    else if p.MOESIF? && e.state.OM? then c.(regranted := c.regranted + 1, uncounted := c.uncounted + 1)
    else c.(regranted := c.regranted + 1, transfers := c.transfers + 1)
  }

  predicate Demotes(p: Protocol, nd: Node)
    requires nd.down != []
  {
    var r := AgentNtwk(p, nd.agent, nd.down[0]);
    Upgrade(nd.agent) && r.React? && r.next.IM?
  }

  predicate DataComing(down: seq<Kind>) { exists x :: 0 <= x < |down| && (down[x].DATA? || down[x].DATA_E?) }

  /** The agent waits for data nobody has sent yet. */
  function Wants(nd: Node): nat { if (nd.agent.IS? || nd.agent.IM?) && !DataComing(nd.down) then 1 else 0 }

  function Wanting(nodes: seq<Node>): nat {
    if nodes == [] then 0 else Wanting(nodes[..|nodes| - 1]) + Wants(nodes[|nodes| - 1])
  }

  predicate Balanced(s: Sys, c: Tally) {
    c.transfers + c.uncounted + c.fetches + Wanting(s.nodes) == c.misses + c.demoted + c.regranted
  }

  // ----- one node -----

  lemma LookupWants(p: Protocol, v: View, nd: Node)
    requires Agrees(p, v, nd) && nd.cpu.Slot? && AgentProc(p, nd.agent, nd.cpu.op).React?
    ensures Wants(Apply(nd, AgentProc(p, nd.agent, nd.cpu.op))) == Wants(nd) + (if nd.agent.I? then 1 else 0)
  {
    assert !nd.agent.Transient();
    assert !Granting(nd);
    if nd.agent.I? { assert v.ask.Nil? || nd.down == [] || nd.down[0] == Demand(v.ask); }
  }

  lemma GrantWants(p: Protocol, v: View, nd: Node)
    requires Agrees(p, v, nd) && Granting(nd) && AgentNtwk(p, nd.agent, nd.down[0]).React?
    ensures Wants(Receive(nd, AgentNtwk(p, nd.agent, nd.down[0]))) == Wants(nd) && !Demotes(p, nd)
  {
    if !nd.down[0].ACK? { assert DataComing(nd.down); }
  }

  lemma DemandAlone(v: View, nd: Node)
    requires Asked(v, nd) && nd.down != [] && !Granting(nd)
    ensures |nd.down| == 1 && nd.down[1..] == [] && !DataComing(nd.down) && !DataComing([])
  {
    assert nd.down == [Demand(v.ask)];
  }

  lemma DemandWants(p: Protocol, v: View, nd: Node)
    requires Asked(v, nd) && nd.down != [] && !Granting(nd) && AgentNtwk(p, nd.agent, nd.down[0]).React?
    ensures Wants(Receive(nd, AgentNtwk(p, nd.agent, nd.down[0]))) == Wants(nd) + (if Demotes(p, nd) then 1 else 0)
  {
    DemandAlone(v, nd);
  }

  lemma DeliverWants(p: Protocol, v: View, nd: Node)
    requires Agrees(p, v, nd) && nd.down != [] && AgentNtwk(p, nd.agent, nd.down[0]).React?
    ensures Wants(Receive(nd, AgentNtwk(p, nd.agent, nd.down[0]))) == Wants(nd) + (if Demotes(p, nd) then 1 else 0)
  {
    if Granting(nd) { GrantWants(p, v, nd); } else { DemandWants(p, v, nd); }
  }

  /** A node that is about to be sent its data wants it. */
  lemma Expectant(p: Protocol, v: View, nd: Node)
    requires Agrees(p, v, nd) && (v.latched.Some? || (!v.active.Not? && v.hold.No? && v.ask.Nil?))
    ensures Wants(nd) == 1 && nd.down == []
  {
  }

  lemma WantsSent(nd: Node, k: Kind)
    requires nd.down == [] && (k.DATA? || k.DATA_E?)
    ensures Wants(nd.(down := nd.down + [k])) == 0
  {
    assert (nd.down + [k])[0] == k;
  }

  lemma WantsOther(nd: Node, more: seq<Kind>, up: Bag)
    requires forall x :: 0 <= x < |more| ==> !more[x].DATA? && !more[x].DATA_E?
    ensures Wants(nd.(down := nd.down + more, up := up)) == Wants(nd)
  {
    forall x | 0 <= x < |nd.down| ensures (nd.down + more)[x] == nd.down[x] {}
    assert DataComing(nd.down) ==> DataComing(nd.down + more);
  }

  // ----- all nodes -----

  lemma {:induction false} WantingUpdate(nodes: seq<Node>, i: nat, nd: Node)
    requires i < |nodes|
    ensures Wanting(nodes[i := nd]) == Wanting(nodes) - Wants(nodes[i]) + Wants(nd)
  {
    var l := |nodes| - 1;
    if i == l { assert nodes[i := nd][..l] == nodes[..l]; }
    else {
      assert nodes[i := nd][..l] == nodes[..l][i := nd];
      WantingUpdate(nodes[..l], i, nd);
    }
  }

  /** Only node x stopped wanting (nobody, when x is not a node). */
  lemma {:induction false} WantingDrops(a: seq<Node>, b: seq<Node>, x: nat)
    requires |a| == |b|
    requires forall j :: 0 <= j < |a| ==> Wants(a[j]) == Wants(b[j]) + (if j == x then 1 else 0)
    ensures Wanting(a) == Wanting(b) + (if x < |a| then 1 else 0)
  {
    if a != [] { WantingDrops(a[..|a| - 1], b[..|b| - 1], x); }
  }

  // ----- events -----

  lemma LookupBalanced(p: Protocol, s: Sys, i: nat, c: Tally)
    requires Invariant(p, s) && Balanced(s, c) && Step(p, s, Lookup(i)).To?
    ensures Balanced(Step(p, s, Lookup(i)).sys, Counted(p, s, Lookup(i), c))
  {
    var nd := s.nodes[i];
    assert AgreesAt(p, s, i);
    LookupWants(p, ViewOf(s.dir, s.latch, i), nd);
    WantingUpdate(s.nodes, i, Apply(nd, AgentProc(p, nd.agent, nd.cpu.op)));
  }

  lemma DeliverBalanced(p: Protocol, s: Sys, i: nat, c: Tally)
    requires Invariant(p, s) && Balanced(s, c) && Step(p, s, Deliver(i)).To?
    ensures Balanced(Step(p, s, Deliver(i)).sys, Counted(p, s, Deliver(i), c))
  {
    var nd := s.nodes[i];
    assert AgreesAt(p, s, i);
    DeliverWants(p, ViewOf(s.dir, s.latch, i), nd);
    WantingUpdate(s.nodes, i, Receive(nd, AgentNtwk(p, nd.agent, nd.down[0])));
  }

  lemma RespondBalanced(p: Protocol, s: Sys, c: Tally)
    requires Invariant(p, s) && Balanced(s, c) && s.latch.Some?
    ensures Balanced(Step(p, s, Respond).sys, Counted(p, s, Respond, c))
  {
    var l, t := s.latch.value, Step(p, s, Respond).sys;
    forall j | 0 <= j < |s.nodes| ensures Wants(s.nodes[j]) == Wants(t.nodes[j]) + (if j == l.target then 1 else 0) {
      if j == l.target {
        assert AgreesAt(p, s, j);
        Expectant(p, ViewOf(s.dir, s.latch, j), s.nodes[j]);
        WantsSent(s.nodes[j], if l.exclusive then DATA_E else DATA);
      } else {
        WantsOther(s.nodes[j], [], s.nodes[j].up);
      }
    }
    WantingDrops(s.nodes, t.nodes, l.target);
  }

  /** Data leaves the directory only when recalled data has arrived, for the requester unless it has a copy. */
  lemma SendsData(p: Protocol, e: Entry, i: nat, k: Kind)
    requires i < |e.presence| && Books(p, e) && Handler(p, e, i, k).Done? && k.DATA?
    requires AskOf(e, i).RecI? || AskOf(e, i).RecS?
    ensures Valid(e, e.req) && Handler(p, e, i, k).sends == One(e.req, if Regrants(e) then ACK else DATA)
    ensures !Regrants(e) ==> !ActiveOf(e, e.req).Not? && HoldOf(e, e.req).No? && AskOf(e, e.req).Nil?
  {
  }

  /** Who returns a copy has been recalled. */
  lemma ReturnAsked(p: Protocol, s: Sys, i: nat)
    requires Invariant(p, s) && i < |s.nodes| && s.nodes[i].up.data > 0
    ensures AskOf(s.dir, i).RecI? || AskOf(s.dir, i).RecS?
  {
    assert AgreesAt(p, s, i);
  }

  lemma SendsNone(p: Protocol, e: Entry, i: nat, k: Kind, j: nat)
    requires i < |e.presence| && Handler(p, e, i, k).Done? && !k.DATA?
    ensures forall x :: 0 <= x < |Handler(p, e, i, k).sends.To(j)| ==>
              !Handler(p, e, i, k).sends.To(j)[x].DATA? && !Handler(p, e, i, k).sends.To(j)[x].DATA_E?
  {
  }

  lemma HandleBalanced(p: Protocol, s: Sys, i: nat, k: Kind, c: Tally)
    requires Invariant(p, s) && Balanced(s, c) && i < |s.nodes| && s.nodes[i].up.Has(k) > 0
    requires Handler(p, s.dir, i, k).Done?
    ensures var o := Handler(p, s.dir, i, k);
      Balanced(Commit(s, i, k, o.entry, o.sends, o.latch), Counted(p, s, Handle(i, k), c))
  {
    HandleWanting(p, s, i, k);
  }

  /** The recalled copy goes to the requester. */
  predicate Supplies(e: Entry, k: Kind) { k.DATA? && !Regrants(e) }

  lemma HandleWanting(p: Protocol, s: Sys, i: nat, k: Kind)
    requires Invariant(p, s) && i < |s.nodes| && s.nodes[i].up.Has(k) > 0 && Handler(p, s.dir, i, k).Done?
    ensures var o := Handler(p, s.dir, i, k);
      Wanting(s.nodes) ==
      Wanting(Commit(s, i, k, o.entry, o.sends, o.latch).nodes) + (if Supplies(s.dir, k) then 1 else 0)
  {
    var o := Handler(p, s.dir, i, k);
    var t := Commit(s, i, k, o.entry, o.sends, o.latch);
    var x := if Supplies(s.dir, k) then s.dir.req else |s.nodes|;
    if k.DATA? {
      ReturnAsked(p, s, i);
      SendsData(p, s.dir, i, k);
    }
    forall j | 0 <= j < |s.nodes| ensures Wants(s.nodes[j]) == Wants(t.nodes[j]) + (if j == x then 1 else 0) {
      HandleWants(p, s, i, k, j);
    }
    WantingDrops(s.nodes, t.nodes, x);
  }

  lemma HandleWants(p: Protocol, s: Sys, i: nat, k: Kind, j: nat)
    requires Invariant(p, s) && i < |s.nodes| && s.nodes[i].up.Has(k) > 0 && Handler(p, s.dir, i, k).Done?
    requires j < |s.nodes|
    ensures var o := Handler(p, s.dir, i, k);
      Wants(s.nodes[j]) == Wants(Commit(s, i, k, o.entry, o.sends, o.latch).nodes[j]) +
        (if Supplies(s.dir, k) && j == s.dir.req then 1 else 0)
  {
    var o, nd := Handler(p, s.dir, i, k), s.nodes[j];
    var up := if j == i then nd.up.Take(k) else nd.up;
    if k.DATA? {
      ReturnAsked(p, s, i);
      SendsData(p, s.dir, i, k);
    } else {
      SendsNone(p, s.dir, i, k, j);
    }
    if Supplies(s.dir, k) && j == s.dir.req {
      assert AgreesAt(p, s, j);
      Expectant(p, ViewOf(s.dir, s.latch, j), nd);
      WantsSent(nd, DATA);
      WantsUp(nd.(down := nd.down + [DATA]), up);
    } else {
      WantsOther(nd, o.sends.To(j), up);
    }
  }

  lemma WantsUp(nd: Node, up: Bag)
    ensures Wants(nd.(up := up)) == Wants(nd)
  {
  }

  lemma CpuBalanced(p: Protocol, s: Sys, ev: Event, c: Tally)
    requires Shaped(s) && Balanced(s, c) && Step(p, s, ev).To? && (ev.Issue? || ev.Leave? || ev.Return? || ev.Accept?)
    ensures Balanced(Step(p, s, ev).sys, Counted(p, s, ev, c))
  {
    WantingUpdate(s.nodes, ev.i, Step(p, s, ev).sys.nodes[ev.i]);
  }

  // ----- every run -----

  predicate Idles(p: Protocol, s: Sys, ev: Event)
    requires Shaped(s)
  {
    ev.Handle? && ev.i < |s.nodes| && Handler(p, s.dir, ev.i, ev.k).Cycle?
  }

  /** An event that is not possible changes nothing. */
  function After(p: Protocol, s: Sys, ev: Event): (t: Sys)
    requires Shaped(s)
    ensures Shaped(t)
  {
    var r := Step(p, s, ev);
    if r.To? && Shaped(r.sys) then r.sys else s
  }

  /** The counters after it; a message that only goes back into the queue is not counted. */
  function Counts(p: Protocol, s: Sys, ev: Event, c: Tally): Tally
    requires Shaped(s)
  {
    if Step(p, s, ev).To? && !Idles(p, s, ev) then Counted(p, s, ev, c) else c
  }

  function Account(p: Protocol, s: Sys, c: Tally, evs: seq<Event>): (r: (Sys, Tally))
    requires Shaped(s)
    ensures Shaped(r.0)
    decreases |evs|
  {
    if evs == [] then (s, c) else Account(p, After(p, s, evs[0]), Counts(p, s, evs[0], c), evs[1..])
  }

  lemma EventBalanced(p: Protocol, s: Sys, ev: Event, c: Tally)
    requires Invariant(p, s) && Balanced(s, c) && Step(p, s, ev).To? && !Idles(p, s, ev)
    ensures Balanced(Step(p, s, ev).sys, Counted(p, s, ev, c))
  {
    match ev
    case Lookup(i) => LookupBalanced(p, s, i, c);
    case Deliver(i) => DeliverBalanced(p, s, i, c);
    case Respond => RespondBalanced(p, s, c);
    case Handle(i, k) => HandleBalanced(p, s, i, k, c);
    case _ => CpuBalanced(p, s, ev, c);
  }

  lemma {:induction false} AccountBalanced(p: Protocol, s: Sys, c: Tally, evs: seq<Event>)
    requires Invariant(p, s) && Balanced(s, c)
    ensures var (t, d) := Account(p, s, c, evs); Invariant(p, t) && Balanced(t, d)
    decreases |evs|
  {
    if evs != [] {
      EventKeepsInvariant(p, s, evs[0]);
      if Step(p, s, evs[0]).To? && !Idles(p, s, evs[0]) { EventBalanced(p, s, evs[0], c); }
      AccountBalanced(p, After(p, s, evs[0]), Counts(p, s, evs[0], c), evs[1..]);
    }
  }

  lemma {:induction false} NobodyWants(n: nat)
    ensures Wanting(Init(n).nodes) == 0
  {
    if n > 0 {
      assert Init(n).nodes[..n - 1] == Init(n - 1).nodes;
      NobodyWants(n - 1);
    }
  }

  // ----- each counter by itself -----

  /** Copies on their way to the directory. */
  function Returning(nodes: seq<Node>): nat {
    if nodes == [] then 0 else Returning(nodes[..|nodes| - 1]) + nodes[|nodes| - 1].up.data
  }

  /** How many recalls the run delivers to agents. */
  function Recalls(p: Protocol, s: Sys, evs: seq<Event>): nat
    requires Shaped(s)
    decreases |evs|
  {
    if evs == [] then 0
    else (if Recalled(s, evs[0]) then 1 else 0) + Recalls(p, After(p, s, evs[0]), evs[1..])
  }

  predicate Recalled(s: Sys, ev: Event) {
    ev.Deliver? && ev.i < |s.nodes| && s.nodes[ev.i].down != [] &&
    (s.nodes[ev.i].down[0].RECALL_GOTO_I? || s.nodes[ev.i].down[0].RECALL_GOTO_S?)
  }

  /** How many responses the run latches. */
  function Latches(p: Protocol, s: Sys, evs: seq<Event>): nat
    requires Shaped(s)
    decreases |evs|
  {
    if evs == [] then 0
    else
      var t := After(p, s, evs[0]);
      (if s.latch.None? && t.latch.Some? then 1 else 0) + Latches(p, t, evs[1..])
  }

  lemma {:induction false} ReturningUpdate(a: seq<Node>, b: seq<Node>, i: nat)
    requires |a| == |b| && i < |a| && forall j :: 0 <= j < |a| && j != i ==> a[j].up.data == b[j].up.data
    ensures Returning(b) - b[i].up.data == Returning(a) - a[i].up.data
  {
    var l := |a| - 1;
    if i < l { ReturningUpdate(a[..l], b[..l], i); } else { ReturningSame(a[..l], b[..l]); }
  }

  lemma {:induction false} ReturningSame(a: seq<Node>, b: seq<Node>)
    requires |a| == |b| && forall j :: 0 <= j < |a| ==> a[j].up.data == b[j].up.data
    ensures Returning(b) == Returning(a)
  {
    if a != [] { ReturningSame(a[..|a| - 1], b[..|b| - 1]); }
  }

  /** Transfers follow recalls. */
  predicate Transferred(s: Sys, c: Tally, ev: Event, t: Sys, d: Tally) {
    d.transfers + d.uncounted + Returning(t.nodes) ==
    c.transfers + c.uncounted + Returning(s.nodes) + (if Recalled(s, ev) then 1 else 0)
  }

  /** Memory reads follow latched responses. */
  predicate Fetched(s: Sys, c: Tally, t: Sys, d: Tally) {
    d.fetches + (if t.latch.Some? then 1 else 0) ==
    c.fetches + (if s.latch.Some? then 1 else 0) + (if s.latch.None? && t.latch.Some? then 1 else 0)
  }

  lemma LookupCauses(p: Protocol, s: Sys, i: nat, t: Sys, c: Tally)
    requires Shaped(s) && Step(p, s, Lookup(i)) == To(t)
    ensures var d := Counted(p, s, Lookup(i), c); Transferred(s, c, Lookup(i), t, d) && Fetched(s, c, t, d)
  {
    ReturningUpdate(s.nodes, t.nodes, i);
  }

  lemma DeliverCauses(p: Protocol, s: Sys, i: nat, t: Sys, c: Tally)
    requires Shaped(s) && Step(p, s, Deliver(i)) == To(t)
    ensures var d := Counted(p, s, Deliver(i), c); Transferred(s, c, Deliver(i), t, d) && Fetched(s, c, t, d)
  {
    ReturningUpdate(s.nodes, t.nodes, i);
  }

  lemma HandleCauses(p: Protocol, s: Sys, i: nat, k: Kind, t: Sys, c: Tally)
    requires Shaped(s) && Step(p, s, Handle(i, k)) == To(t)
    ensures var d := Counts(p, s, Handle(i, k), c); Transferred(s, c, Handle(i, k), t, d) && Fetched(s, c, t, d)
  {
    if !Idles(p, s, Handle(i, k)) {
      var o := Handler(p, s.dir, i, k);
      CommitCauses(p, s, i, k, o.entry, o.sends, o.latch, c);
    }
  }

  lemma CommitCauses(p: Protocol, s: Sys, i: nat, k: Kind, e: Entry, out: Sends, latch: Option<Latch>, c: Tally)
    requires Shaped(s) && i < |s.nodes| && s.nodes[i].up.Has(k) > 0 && s.latch.None?
    ensures var t, d := Commit(s, i, k, e, out, latch), Counted(p, s, Handle(i, k), c);
      Transferred(s, c, Handle(i, k), t, d) && Fetched(s, c, t, d)
  {
    ReturningUpdate(s.nodes, Commit(s, i, k, e, out, latch).nodes, i);
  }

  lemma EventCauses(p: Protocol, s: Sys, ev: Event, c: Tally)
    requires Shaped(s) && (Step(p, s, ev).To? ==> Shaped(Step(p, s, ev).sys)) && !Step(p, s, ev).Crash?
    ensures var t, d := After(p, s, ev), Counts(p, s, ev, c); Transferred(s, c, ev, t, d) && Fetched(s, c, t, d)
  {
    var t := After(p, s, ev);
    if Step(p, s, ev).To? {
      match ev {
        case Lookup(i) => LookupCauses(p, s, i, t, c);
        case Deliver(i) => DeliverCauses(p, s, i, t, c);
        case Handle(i, k) => HandleCauses(p, s, i, k, t, c);
        case Respond => ReturningSame(s.nodes, t.nodes);
        case _ => ReturningUpdate(s.nodes, t.nodes, ev.i);
      }
    }
  }

  lemma {:induction false} AccountCauses(p: Protocol, s: Sys, c: Tally, evs: seq<Event>)
    requires Invariant(p, s)
    ensures var (t, d) := Account(p, s, c, evs);
      && d.transfers + d.uncounted + Returning(t.nodes) ==
         c.transfers + c.uncounted + Returning(s.nodes) + Recalls(p, s, evs)
      && d.fetches + (if t.latch.Some? then 1 else 0) ==
         c.fetches + (if s.latch.Some? then 1 else 0) + Latches(p, s, evs)
    decreases |evs|
  {
    if evs != [] {
      EventKeepsInvariant(p, s, evs[0]);
      EventCauses(p, s, evs[0], c);
      AccountCauses(p, After(p, s, evs[0]), Counts(p, s, evs[0], c), evs[1..]);
    }
  }

  /** Only some protocols acknowledge instead of passing on, and only MOESIF leaves some of that uncounted. */
  lemma {:induction false} AccountRegrants(p: Protocol, s: Sys, c: Tally, evs: seq<Event>)
    requires Invariant(p, s)
    ensures var d := Account(p, s, c, evs).1;
      && (Private(p) ==> d.regranted == c.regranted) && (!p.MOESIF? ==> d.uncounted == c.uncounted)
      && 0 <= d.uncounted - c.uncounted <= d.regranted - c.regranted
    decreases |evs|
  {
    if evs != [] {
      EventKeepsInvariant(p, s, evs[0]);
      AccountRegrants(p, After(p, s, evs[0]), Counts(p, s, evs[0], c), evs[1..]);
    }
  }

  lemma {:induction false} NothingReturns(n: nat)
    ensures Returning(Init(n).nodes) == 0
  {
    if n > 0 {
      assert Init(n).nodes[..n - 1] == Init(n - 1).nodes;
      NothingReturns(n - 1);
    }
  }

  /** In every reachable state: transfers plus memory reads plus the agents whose data has not been sent are the
      misses plus the upgrades that a race demoted, apart from transfers to requesters that had a copy; and each
      counter by itself: there is one transfer for each recall that a cache has received, unless its copy is still
      on its way, and one memory read for each response latched, unless it is still there. */
  lemma MissLaw(p: Protocol, n: nat, evs: seq<Event>)
    ensures var (s, c) := Account(p, Init(n), Nothing(), evs);
      && c.transfers + c.uncounted + c.fetches + Wanting(s.nodes) == c.misses + c.demoted + c.regranted
      && c.transfers + c.uncounted + Returning(s.nodes) == Recalls(p, Init(n), evs)
      && c.fetches + (if s.latch.Some? then 1 else 0) == Latches(p, Init(n), evs)
      && (Private(p) ==> c.regranted == 0) && (!p.MOESIF? ==> c.uncounted == 0) && c.uncounted <= c.regranted
  {
    InitInvariant(p, n);
    NobodyWants(n);
    NothingReturns(n);
    AccountBalanced(p, Init(n), Nothing(), evs);
    AccountCauses(p, Init(n), Nothing(), evs);
    AccountRegrants(p, Init(n), Nothing(), evs);
  }
}
