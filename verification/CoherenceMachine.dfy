/** The whole coherence mode: processors running traces, caches with one agent per block, and one
    directory controller whose queue and response latch serve every block. */
module CoherenceMachine {
  import opened Options
  import opened CoherenceTypes
  import opened Protocols
  import opened CoherenceSystem
  import opened CoherenceInvariant
  import opened HandlerProof
  import opened ProtocolProof
  import opened CoherenceSafety
  import B = CoherenceSystem
  import D = DirectoryController

  datatype Access = Access(op: Op, block: D.BlockId)

  /** FiciCpu: no request outstanding, or one, at some block, on its way through the cache. */
  datatype Phase = InSlot(op: Op) | Awaiting(op: Op) | Answered
  datatype Core = Free | Busy(block: D.BlockId, phase: Phase)

  datatype Down = Down(block: D.BlockId, kind: Kind)

  /** A processor node: its trace, CPU, agents, and the channels from and to the directory. */
  datatype Proc = Proc(
    trace: seq<Access>,
    core: Core,
    agents: map<D.BlockId, Agent>,
    down: seq<Down>,
    up: seq<D.Msg>
  )

  datatype Net = Net(procs: seq<Proc>, ctl: D.Ctl)

  datatype Event =
    | Fetch(i: nat)     // the CPU issues its next access
    | Lookup(i: nat)    // the cache hands it to the agent of its block
    | Deliver(i: nat)   // the cache receives the oldest message from the directory
    | Accept(i: nat)    // the CPU consumes its answer
    | Arrive(i: nat)    // a message reaches request_next
    | Tock              // request_next joins request_queue
    | Poll              // the directory handles or cycles the head of its queue
    | Respond           // the latched response is sent

  datatype Result = Stuck | Crash | Went(net: Net)

  function Start(traces: seq<seq<Access>>): (net: Net)
    ensures |net.procs| == |traces|
  {
    Net(seq(|traces|, i requires 0 <= i < |traces| => Proc(traces[i], Free, map[], [], [])),
        D.Ctl(map[], [], [], None))
  }

  function AgentAt(pr: Proc, b: D.BlockId): Agent {
    if b in pr.agents then pr.agents[b] else Agent.I
  }

  /** Well-formed messages: the source is a processor, the kind is one an agent sends. */
  predicate Proper(m: D.Msg, n: nat) { m.src < n && (m.kind.Request() || m.kind.Answer()) }

  predicate WellFormed(net: Net) {
    var n := |net.procs|;
    && D.Sized(net.ctl, n)
    && (forall m :: m in net.ctl.queue ==> Proper(m, n))
    && (forall m :: m in net.ctl.next ==> Proper(m, n))
    && (forall i :: 0 <= i < n ==> forall m :: m in net.procs[i].up ==> Proper(m, n) && m.src == i)
  }

  /** React at block b: the reaction of AgentProc or AgentNtwk, with the channel updates. */
  function Acted(pr: Proc, i: nat, b: D.BlockId, r: Reaction): Proc
    requires r.React?
  {
    pr.(agents := pr.agents[b := r.next],
        core := if r.reply then Busy(b, Answered) else pr.core,
        up := if r.send.Some? then pr.up + [D.Msg(i, b, r.send.value)] else pr.up)
  }

  /** What processor j receives out of a list of packets, in order. */
  function Inbox(ps: seq<D.Packet>, j: nat): seq<Down> {
    if ps == [] then []
    else (if ps[0].dst == j then [Down(ps[0].block, ps[0].kind)] else []) + Inbox(ps[1..], j)
  }

  function Scatter(procs: seq<Proc>, ps: seq<D.Packet>): (r: seq<Proc>)
    ensures |r| == |procs|
    ensures forall j :: 0 <= j < |r| ==> r[j] == procs[j].(down := procs[j].down + Inbox(ps, j))
  {
    seq(|procs|, j requires 0 <= j < |procs| => procs[j].(down := procs[j].down + Inbox(ps, j)))
  }

  function Next(p: Protocol, net: Net, ev: Event): Result {
    var n := |net.procs|;
    match ev
    case Fetch(i) =>
      if i < n && net.procs[i].core.Free? && net.procs[i].trace != [] then
        var a := net.procs[i].trace[0];
        var pr := net.procs[i].(core := Busy(a.block, InSlot(a.op)), trace := net.procs[i].trace[1..]);
        Went(net.(procs := net.procs[i := pr]))
      else Stuck
    case Lookup(i) =>
      if i < n && net.procs[i].core.Busy? && net.procs[i].core.phase.InSlot? then
        var pr := net.procs[i];
        var b := pr.core.block;
        var r := AgentProc(p, AgentAt(pr, b), pr.core.phase.op);
        if r.Bad? then Result.Crash
        else Went(net.(procs := net.procs[i := Acted(pr.(core := Busy(b, Awaiting(pr.core.phase.op))), i, b, r)]))
      else Stuck
    case Deliver(i) =>
      if i < n && net.procs[i].down != [] then
        var pr := net.procs[i];
        var d := pr.down[0];
        var r := AgentNtwk(p, AgentAt(pr, d.block), d.kind);
        if r.Bad? then Result.Crash
        else Went(net.(procs := net.procs[i := Acted(pr.(down := pr.down[1..]), i, d.block, r)]))
      else Stuck
    case Accept(i) =>
      if i < n && net.procs[i].core.Busy? && net.procs[i].core.phase.Answered?
      then Went(net.(procs := net.procs[i := net.procs[i].(core := Free)]))
      else Stuck
    case Arrive(i) =>
      if i < n && net.procs[i].up != [] then
        var pr := net.procs[i];
        Went(Net(net.procs[i := pr.(up := pr.up[1..])], net.ctl.(next := net.ctl.next + [pr.up[0]])))
      else Stuck
    case Tock => Went(net.(ctl := net.ctl.(queue := net.ctl.queue + net.ctl.next, next := [])))
    case Poll =>
      (match D.Poll(p, n, net.ctl)
       case Failed => Result.Crash
       case Ticked(c, out) => Went(Net(Scatter(net.procs, out), c)))
    case Respond =>
      var r := D.Answer(net.ctl, true);
      Went(Net(Scatter(net.procs, r.out), r.ctl))
  }

  // ----- one block of the machine -----

  /** The CPU as block b sees it. */
  function CpuAt(c: Core, b: D.BlockId): Cpu {
    if c.Free? then Idle
    else if c.block != b then Elsewhere
    else match c.phase
      case InSlot(op) => Slot(op)
      case Awaiting(op) => Waiting(op)
      case Answered => Replied
  }

  function DownAt(ds: seq<Down>, b: D.BlockId): seq<Kind> {
    if ds == [] then []
    else (if ds[0].block == b then [ds[0].kind] else []) + DownAt(ds[1..], b)
  }

  /** All messages on their way to the directory or waiting in it. */
  function Inbound(net: Net, i: nat): multiset<D.Msg>
    requires i < |net.procs|
  {
    multiset(net.procs[i].up) + multiset(net.ctl.next) + multiset(net.ctl.queue)
  }

  function BagAt(ms: multiset<D.Msg>, i: nat, b: D.BlockId): Bag {
    Bag(ms[D.Msg(i, b, GETS)], ms[D.Msg(i, b, GETM)], ms[D.Msg(i, b, GETX)], ms[D.Msg(i, b, INVACK)],
      ms[D.Msg(i, b, DATA)])
  }

  function NodeAt(net: Net, i: nat, b: D.BlockId): Node
    requires i < |net.procs|
  {
    var pr := net.procs[i];
    Node(CpuAt(pr.core, b), AgentAt(pr, b), DownAt(pr.down, b), BagAt(Inbound(net, i), i, b))
  }

  function LatchAt(pn: Option<D.Pending>, b: D.BlockId): Option<Latch> {
    if pn.Some? && pn.value.block == b then Some(Latch(pn.value.target, pn.value.exclusive)) else None
  }

  /** Block b of the machine, as a state of the one-block system. */
  function Block(net: Net, b: D.BlockId): (s: Sys)
    ensures |s.nodes| == |net.procs| && (WellFormed(net) ==> Shaped(s))
    ensures forall i :: 0 <= i < |s.nodes| ==> s.nodes[i] == NodeAt(net, i, b)
  {
    Sys(D.EntryOf(net.ctl, |net.procs|, b), LatchAt(net.ctl.pending, b),
        seq(|net.procs|, i requires 0 <= i < |net.procs| => NodeAt(net, i, b)))
  }

  // ----- simulation: every machine event is one event of a block, or invisible to it -----

  /** The one-block event ev takes s to t. */
  predicate Moves(p: Protocol, s: Sys, ev: B.Event, t: Sys) { Shaped(s) && Step(p, s, ev) == To(t) }

  /** Without an event nothing happens. */
  predicate Follows(p: Protocol, s: Sys, e: Option<B.Event>, t: Sys) {
    if e.Some? then Moves(p, s, e.value, t) else s == t
  }

  /** What an event of the machine is for block b. */
  function EventAt(p: Protocol, net: Net, ev: Event, b: D.BlockId): Option<B.Event> {
    var n := |net.procs|;
    match ev
    case Fetch(i) =>
      if i >= n || net.procs[i].trace == [] then None
      else if net.procs[i].trace[0].block == b then Some(B.Issue(i, net.procs[i].trace[0].op))
      else Some(B.Leave(i))
    case Accept(i) =>
      if i >= n || net.procs[i].core.Free? then None
      else if net.procs[i].core.block == b then Some(B.Accept(i))
      else Some(B.Return(i))
    case Lookup(i) =>
      if i < n && net.procs[i].core.Busy? && net.procs[i].core.block == b then Some(B.Lookup(i)) else None
    case Deliver(i) =>
      if i < n && net.procs[i].down != [] && net.procs[i].down[0].block == b then Some(B.Deliver(i)) else None
    case Poll => if Polls(p, net) && net.ctl.queue[0].block == b then Some(HeadEvent(net)) else None
    case Respond => if net.ctl.pending.Some? && net.ctl.pending.value.block == b then Some(B.Respond) else None
    case _ => None
  }

  /** A poll would handle the head of the queue, not cycle it. */
  predicate Polls(p: Protocol, net: Net) {
    net.ctl.pending.None? && net.ctl.queue != [] && Handleable(p, net, net.ctl.queue[0])
  }

  predicate Handleable(p: Protocol, net: Net, m: D.Msg) {
    D.HandlerOf(p, D.EntryOf(net.ctl, |net.procs|, m.block), m).Done?
  }

  function HeadEvent(net: Net): B.Event
    requires net.ctl.queue != []
  {
    Handle(net.ctl.queue[0].src, net.ctl.queue[0].kind)
  }

  ghost predicate BlocksInvariant(p: Protocol, net: Net) {
    WellFormed(net) && forall b :: Invariant(p, Block(net, b))
  }

  /** The event does not crash, leaves the machine well-formed, and is for every block what EventAt says. */
  ghost predicate Simulated(p: Protocol, net: Net, ev: Event) {
    var r := Next(p, net, ev);
    && !r.Crash?
    && (r.Went? ==>
          WellFormed(r.net) && forall b :: Follows(p, Block(net, b), EventAt(p, net, ev, b), Block(r.net, b)))
  }

  /** Two machines that agree at block b project to the same state. */
  lemma SameBlock(net: Net, net': Net, b: D.BlockId)
    requires |net.procs| == |net'.procs|
    requires D.EntryOf(net.ctl, |net.procs|, b) == D.EntryOf(net'.ctl, |net.procs|, b)
    requires LatchAt(net.ctl.pending, b) == LatchAt(net'.ctl.pending, b)
    requires forall i :: 0 <= i < |net.procs| ==> NodeAt(net, i, b) == NodeAt(net', i, b)
    ensures Block(net, b) == Block(net', b)
  {
    assert Block(net, b).nodes == Block(net', b).nodes;
  }

  function Put(net: Net, i: nat, pr: Proc): Net
    requires i < |net.procs|
  {
    net.(procs := net.procs[i := pr])
  }

  /** Replacing processor i keeps the machine well-formed if the new messages are proper. */
  lemma PutWellFormed(net: Net, i: nat, pr: Proc)
    requires WellFormed(net) && i < |net.procs|
    requires forall m :: m in pr.up ==> Proper(m, |net.procs|) && m.src == i
    ensures WellFormed(Put(net, i, pr))
  {
  }

  /** A processor's event changes one node of every block. */
  lemma LocalBlock(net: Net, i: nat, pr: Proc, b: D.BlockId)
    requires i < |net.procs| && WellFormed(Put(net, i, pr))
    ensures Block(Put(net, i, pr), b) ==
            Block(net, b).(nodes := Block(net, b).nodes[i := NodeAt(Put(net, i, pr), i, b)])
  {
    var s, t := Block(net, b), Block(Put(net, i, pr), b);
    assert t.nodes == s.nodes[i := NodeAt(Put(net, i, pr), i, b)];
  }

  /** The five ways a single node moves, each an event of the one-block system. */
  lemma NodeSimulates(p: Protocol, s: Sys, i: nat, nd: Node, ev: B.Event)
    requires Shaped(s) && i < |s.nodes| && (ev.Issue? || ev.Leave? || ev.Return? || ev.Accept?) && ev.i == i
    requires match ev
      case Issue(_, op) => s.nodes[i].cpu.Idle? && nd == s.nodes[i].(cpu := Slot(op))
      case Leave(_) => s.nodes[i].cpu.Idle? && nd == s.nodes[i].(cpu := Elsewhere)
      case Return(_) => s.nodes[i].cpu.Elsewhere? && nd == s.nodes[i].(cpu := Idle)
      case Accept(_) => s.nodes[i].cpu.Replied? && nd == s.nodes[i].(cpu := Idle)
      case _ => false
    ensures Moves(p, s, ev, s.(nodes := s.nodes[i := nd]))
  {
  }

  lemma LookupSimulates(p: Protocol, s: Sys, i: nat, r: Reaction)
    requires Shaped(s) && i < |s.nodes| && s.nodes[i].cpu.Slot?
    requires r == AgentProc(p, s.nodes[i].agent, s.nodes[i].cpu.op) && r.React?
    ensures Moves(p, s, B.Lookup(i), s.(nodes := s.nodes[i := Apply(s.nodes[i], r)]))
  {
  }

  lemma DeliverSimulates(p: Protocol, s: Sys, i: nat, r: Reaction)
    requires Shaped(s) && i < |s.nodes| && s.nodes[i].down != []
    requires r == AgentNtwk(p, s.nodes[i].agent, s.nodes[i].down[0]) && r.React?
    ensures Moves(p, s, B.Deliver(i), s.(nodes := s.nodes[i := Receive(s.nodes[i], r)]))
  {
  }

  lemma Untouched(s: Sys, i: nat, nd: Node)
    requires i < |s.nodes| && nd == s.nodes[i]
    ensures s == s.(nodes := s.nodes[i := nd])
  {
    assert s.nodes == s.nodes[i := nd];
  }

  lemma FetchBlock(p: Protocol, net: Net, i: nat, pr: Proc, b: D.BlockId)
    requires i < |net.procs| && net.procs[i].core.Free? && net.procs[i].trace != []
    requires
      var a := net.procs[i].trace[0];
      pr == net.procs[i].(core := Busy(a.block, InSlot(a.op)), trace := net.procs[i].trace[1..])
    requires WellFormed(Put(net, i, pr))
    ensures var a := net.procs[i].trace[0];
      Moves(p, Block(net, b), if a.block == b then B.Issue(i, a.op) else B.Leave(i), Block(Put(net, i, pr), b))
  {
    var a := net.procs[i].trace[0];
    var nd := NodeAt(Put(net, i, pr), i, b);
    assert Inbound(Put(net, i, pr), i) == Inbound(net, i);
    LocalBlock(net, i, pr, b);
    NodeSimulates(p, Block(net, b), i, nd, if a.block == b then B.Issue(i, a.op) else B.Leave(i));
  }

  lemma FetchSimulated(p: Protocol, net: Net, i: nat)
    requires WellFormed(net)
    ensures Simulated(p, net, Fetch(i))
  {
    var r := Next(p, net, Fetch(i));
    if r.Went? {
      PutWellFormed(net, i, r.net.procs[i]);
      forall b { FetchBlock(p, net, i, r.net.procs[i], b); }
    }
  }

  lemma AcceptBlock(p: Protocol, net: Net, i: nat, pr: Proc, b: D.BlockId)
    requires i < |net.procs| && net.procs[i].core.Busy? && net.procs[i].core.phase.Answered?
    requires pr == net.procs[i].(core := Free) && WellFormed(Put(net, i, pr))
    ensures var ev := if net.procs[i].core.block == b then B.Accept(i) else B.Return(i);
      Moves(p, Block(net, b), ev, Block(Put(net, i, pr), b))
  {
    assert Inbound(Put(net, i, pr), i) == Inbound(net, i);
    var nd := NodeAt(Put(net, i, pr), i, b);
    LocalBlock(net, i, pr, b);
    NodeSimulates(p, Block(net, b), i, nd, if net.procs[i].core.block == b then B.Accept(i) else B.Return(i));
  }

  lemma AcceptSimulated(p: Protocol, net: Net, i: nat)
    requires WellFormed(net)
    ensures Simulated(p, net, Event.Accept(i))
  {
    var r := Next(p, net, Event.Accept(i));
    if r.Went? {
      PutWellFormed(net, i, r.net.procs[i]);
      forall b { AcceptBlock(p, net, i, r.net.procs[i], b); }
    }
  }

  /** One more message in the bag of its block, and only there. */
  lemma BagPut(ms: multiset<D.Msg>, i: nat, b: D.BlockId, k: Kind, c: D.BlockId)
    requires k.Request() || k.Answer()
    ensures BagAt(ms + multiset{D.Msg(i, b, k)}, i, c) == if b == c then BagAt(ms, i, c).Put(k) else BagAt(ms, i, c)
  {
  }

  lemma BagOther(ms: multiset<D.Msg>, m: D.Msg, i: nat, c: D.BlockId)
    requires m.src != i || m.block != c
    ensures BagAt(ms + multiset{m}, i, c) == BagAt(ms, i, c)
  {
  }

  /** The effect of Acted on the node of block c. */
  lemma ActedNode(net: Net, i: nat, pr: Proc, b: D.BlockId, r: Reaction, c: D.BlockId)
    requires i < |net.procs| && r.React? && pr.up == net.procs[i].up
    requires r.send.Some? ==> r.send.value.Request() || r.send.value.Answer()
    requires c != b && r.reply ==> pr.core.Busy? && pr.core.block == b
    ensures var q := Acted(pr, i, b, r);
      NodeAt(Put(net, i, q), i, c) == Node(
        if r.reply && c == b then Replied else CpuAt(pr.core, c),
        if c == b then r.next else AgentAt(pr, c),
        DownAt(pr.down, c),
        if c == b && r.send.Some? then BagAt(Inbound(net, i), i, c).Put(r.send.value) else BagAt(Inbound(net, i), i, c))
  {
    ActedInbound(net, i, pr, b, r);
    if r.send.Some? { BagPut(Inbound(net, i), i, b, r.send.value, c); }
  }

  lemma ActedInbound(net: Net, i: nat, pr: Proc, b: D.BlockId, r: Reaction)
    requires i < |net.procs| && r.React? && pr.up == net.procs[i].up
    ensures Inbound(Put(net, i, Acted(pr, i, b, r)), i) ==
            Inbound(net, i) + (if r.send.Some? then multiset{D.Msg(i, b, r.send.value)} else multiset{})
  {
    var q := Acted(pr, i, b, r);
    if r.send.Some? { assert multiset(q.up) == multiset(pr.up) + multiset{D.Msg(i, b, r.send.value)}; }
  }

  lemma ActedProper(net: Net, i: nat, pr: Proc, b: D.BlockId, r: Reaction)
    requires WellFormed(net) && i < |net.procs| && r.React? && pr.up == net.procs[i].up
    requires r.send.Some? ==> r.send.value.Request() || r.send.value.Answer()
    ensures WellFormed(Put(net, i, Acted(pr, i, b, r)))
  {
    PutWellFormed(net, i, Acted(pr, i, b, r));
  }

  lemma LookupBlock(p: Protocol, net: Net, i: nat, pr: Proc, b: D.BlockId, r: Reaction, c: D.BlockId)
    requires i < |net.procs| && net.procs[i].core.Busy? && net.procs[i].core.phase.InSlot?
    requires b == net.procs[i].core.block && pr == net.procs[i].(core := Busy(b, Awaiting(net.procs[i].core.phase.op)))
    requires r == AgentProc(p, AgentAt(pr, b), net.procs[i].core.phase.op) && r.React?
    requires WellFormed(Put(net, i, Acted(pr, i, b, r)))
    ensures var s, t := Block(net, c), Block(Put(net, i, Acted(pr, i, b, r)), c);
      if c == b then Moves(p, s, B.Lookup(i), t) else s == t
  {
    ActedNode(net, i, pr, b, r, c);
    LocalBlock(net, i, Acted(pr, i, b, r), c);
    var s, nd := Block(net, c), NodeAt(Put(net, i, Acted(pr, i, b, r)), i, c);
    if c == b {
      assert nd == Apply(s.nodes[i], r);
      LookupSimulates(p, s, i, r);
    } else {
      Untouched(s, i, nd);
    }
  }

  /** The agent of a block in its invariant reacts to what it is handed. */
  lemma LookupReacts(p: Protocol, s: Sys, i: nat)
    requires Invariant(p, s) && i < |s.nodes| && s.nodes[i].cpu.Slot?
    ensures AgentProc(p, s.nodes[i].agent, s.nodes[i].cpu.op).React?
  {
    EventKeepsInvariant(p, s, B.Lookup(i));
  }

  lemma LookupWent(p: Protocol, net: Net, i: nat, pr: Proc, b: D.BlockId, r: Reaction)
    requires i < |net.procs| && net.procs[i].core.Busy? && net.procs[i].core.phase.InSlot?
    requires b == net.procs[i].core.block && pr == net.procs[i].(core := Busy(b, Awaiting(net.procs[i].core.phase.op)))
    requires r == AgentProc(p, AgentAt(pr, b), net.procs[i].core.phase.op) && r.React?
    ensures Next(p, net, Event.Lookup(i)) == Went(Put(net, i, Acted(pr, i, b, r)))
  {
  }

  lemma SimulatedTo(p: Protocol, net: Net, ev: Event, net': Net)
    requires WellFormed(net) && WellFormed(net') && Next(p, net, ev) == Went(net')
    requires forall b :: Follows(p, Block(net, b), EventAt(p, net, ev, b), Block(net', b))
    ensures Simulated(p, net, ev)
  {
  }

  lemma LookupSimulated(p: Protocol, net: Net, i: nat)
    requires BlocksInvariant(p, net)
    ensures Simulated(p, net, Event.Lookup(i))
  {
    if i < |net.procs| && net.procs[i].core.Busy? && net.procs[i].core.phase.InSlot? {
      var b := net.procs[i].core.block;
      var pr := net.procs[i].(core := Busy(b, Awaiting(net.procs[i].core.phase.op)));
      var r := AgentProc(p, AgentAt(pr, b), net.procs[i].core.phase.op);
      LookupReacts(p, Block(net, b), i);
      ActedProper(net, i, pr, b, r);
      var net' := Put(net, i, Acted(pr, i, b, r));
      LookupWent(p, net, i, pr, b, r);
      forall c ensures Follows(p, Block(net, c), EventAt(p, net, Event.Lookup(i), c), Block(net', c)) {
        LookupBlock(p, net, i, pr, b, r, c);
      }
      SimulatedTo(p, net, Event.Lookup(i), net');
    }
  }

  lemma DeliverBlock(p: Protocol, net: Net, i: nat, pr: Proc, b: D.BlockId, r: Reaction, c: D.BlockId)
    requires i < |net.procs| && net.procs[i].down != []
    requires b == net.procs[i].down[0].block && pr == net.procs[i].(down := net.procs[i].down[1..])
    requires r == AgentNtwk(p, AgentAt(pr, b), net.procs[i].down[0].kind) && r.React?
    requires r.reply ==> pr.core.Busy? && pr.core.block == b
    requires WellFormed(Put(net, i, Acted(pr, i, b, r)))
    ensures var s, t := Block(net, c), Block(Put(net, i, Acted(pr, i, b, r)), c);
      if c == b then Moves(p, s, B.Deliver(i), t) else s == t
  {
    ActedNode(net, i, pr, b, r, c);
    LocalBlock(net, i, Acted(pr, i, b, r), c);
    var d := net.procs[i].down;
    var s, nd := Block(net, c), NodeAt(Put(net, i, Acted(pr, i, b, r)), i, c);
    if c == b {
      assert DownAt(d, c) == [d[0].kind] + DownAt(pr.down, c);
      assert nd == Receive(s.nodes[i], r);
      DeliverSimulates(p, s, i, r);
    } else {
      assert DownAt(d, c) == [] + DownAt(pr.down, c) == DownAt(pr.down, c);
      Untouched(s, i, nd);
    }
  }

  lemma DeliverReacts(p: Protocol, s: Sys, i: nat)
    requires Invariant(p, s) && i < |s.nodes| && s.nodes[i].down != []
    ensures AgentNtwk(p, s.nodes[i].agent, s.nodes[i].down[0]).React?
    ensures AgentNtwk(p, s.nodes[i].agent, s.nodes[i].down[0]).reply ==> s.nodes[i].cpu.Waiting?
  {
    EventKeepsInvariant(p, s, B.Deliver(i));
    if AgentNtwk(p, s.nodes[i].agent, s.nodes[i].down[0]).reply { ReplyAwaited(p, s, i); }
  }

  lemma DeliverWent(p: Protocol, net: Net, i: nat, pr: Proc, b: D.BlockId, r: Reaction)
    requires i < |net.procs| && net.procs[i].down != []
    requires b == net.procs[i].down[0].block && pr == net.procs[i].(down := net.procs[i].down[1..])
    requires r == AgentNtwk(p, AgentAt(pr, b), net.procs[i].down[0].kind) && r.React?
    ensures Next(p, net, Event.Deliver(i)) == Went(Put(net, i, Acted(pr, i, b, r)))
  {
  }

  /** The agent of its block reacts to the head of a channel. */
  lemma HeadReacts(p: Protocol, net: Net, i: nat)
    requires BlocksInvariant(p, net) && i < |net.procs| && net.procs[i].down != []
    ensures var d, pr := net.procs[i].down[0], net.procs[i];
      var r := AgentNtwk(p, AgentAt(pr, d.block), d.kind);
      r.React? && (r.reply ==> pr.core.Busy? && pr.core.block == d.block)
  {
    var d, rest := net.procs[i].down[0], net.procs[i].down[1..];
    assert Block(net, d.block).nodes[i].down == [d.kind] + DownAt(rest, d.block);
    DeliverReacts(p, Block(net, d.block), i);
  }

  lemma DeliverSimulated(p: Protocol, net: Net, i: nat)
    requires BlocksInvariant(p, net)
    ensures Simulated(p, net, Event.Deliver(i))
  {
    if i < |net.procs| && net.procs[i].down != [] {
      var d := net.procs[i].down[0];
      var pr, b := net.procs[i].(down := net.procs[i].down[1..]), d.block;
      var r := AgentNtwk(p, AgentAt(pr, b), d.kind);
      HeadReacts(p, net, i);
      ActedProper(net, i, pr, b, r);
      var net' := Put(net, i, Acted(pr, i, b, r));
      DeliverWent(p, net, i, pr, b, r);
      forall c ensures Follows(p, Block(net, c), EventAt(p, net, Event.Deliver(i), c), Block(net', c)) {
        DeliverBlock(p, net, i, pr, b, r, c);
      }
      SimulatedTo(p, net, Event.Deliver(i), net');
    }
  }

  /** An agent answers its CPU only while the CPU waits for this block. */
  lemma ReplyAwaited(p: Protocol, s: Sys, i: nat)
    requires Invariant(p, s) && i < |s.nodes| && s.nodes[i].down != []
    requires AgentNtwk(p, s.nodes[i].agent, s.nodes[i].down[0]).React?
    requires AgentNtwk(p, s.nodes[i].agent, s.nodes[i].down[0]).reply
    ensures s.nodes[i].cpu.Waiting?
  {
    assert AgreesAt(p, s, i);
  }

  // ----- transport and directory -----

  lemma ArriveNode(net: Net, net': Net, i: nat, j: nat, b: D.BlockId)
    requires i < |net.procs| && j < |net.procs| && net.procs[i].up != [] && net.procs[i].up[0].src == i
    requires net' == Net(net.procs[i := net.procs[i].(up := net.procs[i].up[1..])],
                         net.ctl.(next := net.ctl.next + [net.procs[i].up[0]]))
    ensures NodeAt(net, j, b) == NodeAt(net', j, b)
  {
    var m, rest := net.procs[i].up[0], net.procs[i].up[1..];
    assert net.procs[i].up == [m] + rest;
    assert multiset(net'.ctl.next) == multiset(net.ctl.next) + multiset{m};
    if j != i {
      assert Inbound(net', j) == Inbound(net, j) + multiset{m};
      BagOther(Inbound(net, j), m, j, b);
    } else {
      assert multiset(net.procs[i].up) == multiset{m} + multiset(rest);
      assert Inbound(net', j) == Inbound(net, j);
    }
  }

  lemma ArriveSimulated(p: Protocol, net: Net, i: nat)
    requires WellFormed(net)
    ensures Simulated(p, net, Arrive(i))
  {
    var r := Next(p, net, Arrive(i));
    if r.Went? {
      var m := net.procs[i].up[0];
      assert m in net.procs[i].up;
      ArriveWellFormed(p, net, i, r.net);
      forall b ensures Block(net, b) == Block(r.net, b) {
        forall j | 0 <= j < |net.procs| { ArriveNode(net, r.net, i, j, b); }
        SameBlock(net, r.net, b);
      }
    }
  }

  lemma ArriveWellFormed(p: Protocol, net: Net, i: nat, net': Net)
    requires WellFormed(net) && Next(p, net, Arrive(i)) == Went(net')
    ensures WellFormed(net')
  {
    assert net.procs[i].up[0] in net.procs[i].up;
  }

  lemma TockSimulated(p: Protocol, net: Net)
    requires WellFormed(net)
    ensures Simulated(p, net, Tock)
  {
    var net' := Next(p, net, Tock).net;
    assert multiset(net.ctl.queue + net.ctl.next) == multiset(net.ctl.queue) + multiset(net.ctl.next);
    forall b ensures Block(net, b) == Block(net', b) {
      forall j | 0 <= j < |net.procs| ensures NodeAt(net, j, b) == NodeAt(net', j, b) {
        assert Inbound(net', j) == Inbound(net, j);
      }
      SameBlock(net, net', b);
    }
  }

  lemma {:induction false} DownAppend(x: seq<Down>, y: seq<Down>, b: D.BlockId)
    ensures DownAt(x + y, b) == DownAt(x, b) + DownAt(y, b)
  {
    if x == [] {
      assert x + y == y;
    } else {
      var head, front, back := if x[0].block == b then [x[0].kind] else [], DownAt(x[1..], b), DownAt(y, b);
      DownAppend(x[1..], y, b);
      DownHead(x[0], x[1..] + y, b);
      assert x + y == [x[0]] + (x[1..] + y);
      KindsAppend(head, front, back);
    }
  }

  lemma DownHead(d: Down, rest: seq<Down>, b: D.BlockId)
    ensures DownAt([d] + rest, b) == (if d.block == b then [d.kind] else []) + DownAt(rest, b)
  {
    assert ([d] + rest)[1..] == rest;
  }

  lemma KindsAppend(x: seq<Kind>, y: seq<Kind>, z: seq<Kind>)
    ensures (x + y) + z == x + (y + z)
  {
  }

  lemma {:induction false} InboxAt(ps: seq<D.Packet>, j: nat, b: D.BlockId)
    ensures DownAt(Inbox(ps, j), b) == D.Received(ps, j, b)
  {
    if ps != [] {
      InboxAt(ps[1..], j, b);
      var head := if ps[0].dst == j then [Down(ps[0].block, ps[0].kind)] else [];
      DownAppend(head, Inbox(ps[1..], j), b);
      if ps[0].dst == j { assert head[1..] == []; }
    }
  }

  /** Node j of block b after the controller, having consumed the messages in gone, sent ps. */
  lemma ScatterNode(net: Net, net': Net, ps: seq<D.Packet>, gone: multiset<D.Msg>, j: nat, b: D.BlockId)
    requires j < |net.procs| && net'.procs == Scatter(net.procs, ps)
    requires multiset(net.ctl.next) + multiset(net.ctl.queue) ==
      multiset(net'.ctl.next) + multiset(net'.ctl.queue) + gone
    ensures NodeAt(net', j, b) == NodeAt(net, j, b).(
              down := NodeAt(net, j, b).down + D.Received(ps, j, b),
              up := BagAt(Inbound(net, j) - gone, j, b))
  {
    DownAppend(net.procs[j].down, Inbox(ps, j), b);
    InboxAt(ps, j, b);
    var u := multiset(net.procs[j].up);
    assert net'.procs[j].up == net.procs[j].up;
    assert Inbound(net, j) == u + (multiset(net.ctl.next) + multiset(net.ctl.queue));
    assert Inbound(net', j) == u + (multiset(net'.ctl.next) + multiset(net'.ctl.queue));
    assert Inbound(net', j) == Inbound(net, j) - gone;
  }

  lemma RespondNode(net: Net, net': Net, l: D.Pending, g: Kind, j: nat, b: D.BlockId)
    requires j < |net.procs| && net'.procs == Scatter(net.procs, [D.Packet(l.target, l.block, g)])
    requires net'.ctl.queue == net.ctl.queue && net'.ctl.next == net.ctl.next
    ensures NodeAt(net', j, b) == NodeAt(net, j, b).(
              down := NodeAt(net, j, b).down + (if l.block == b then One(l.target, g).To(j) else []))
  {
    var ps := [D.Packet(l.target, l.block, g)];
    assert ps[1..] == [];
    ScatterNode(net, net', ps, multiset{}, j, b);
    assert Inbound(net, j) - multiset{} == Inbound(net, j);
    assert D.Received(ps, j, b) == if l.target == j && l.block == b then [g] else [];
  }

  lemma StepResponds(p: Protocol, s: Sys, t: Sys)
    requires Shaped(s) && s.latch.Some?
    requires t == s.(latch := None,
      nodes := Send(s.nodes, One(s.latch.value.target, if s.latch.value.exclusive then DATA_E else DATA)))
    ensures Moves(p, s, B.Respond, t)
  {
  }

  lemma RespondBlock(p: Protocol, net: Net, net': Net, b: D.BlockId)
    requires WellFormed(net) && WellFormed(net') && net.ctl.pending.Some?
    requires var r := D.Answer(net.ctl, true); net' == Net(Scatter(net.procs, r.out), r.ctl)
    ensures var s, t := Block(net, b), Block(net', b);
      if net.ctl.pending.value.block == b then Moves(p, s, B.Respond, t) else s == t
  {
    var l := net.ctl.pending.value;
    var g := if l.exclusive then DATA_E else DATA;
    var s, t := Block(net, b), Block(net', b);
    forall j | 0 <= j < |net.procs| { RespondNode(net, net', l, g, j, b); }
    if l.block == b {
      assert t.nodes == Send(s.nodes, One(l.target, g));
      StepResponds(p, s, t);
    } else {
      forall j | 0 <= j < |net.procs| ensures NodeAt(net', j, b) == NodeAt(net, j, b) {
        assert NodeAt(net, j, b).down + [] == NodeAt(net, j, b).down;
      }
      SameBlock(net, net', b);
    }
  }

  lemma RespondSimulated(p: Protocol, net: Net)
    requires WellFormed(net)
    ensures Simulated(p, net, Event.Respond)
  {
    var net' := Next(p, net, Event.Respond).net;
    if net.ctl.pending.Some? {
      forall b { RespondBlock(p, net, net', b); }
    } else {
      NothingSent(net.procs);
    }
  }

  // ----- polling -----

  /** The head of the queue waits, as far as its block is concerned, in the bag of its source. */
  lemma HeadInBag(net: Net)
    requires WellFormed(net) && net.ctl.queue != []
    ensures var m := net.ctl.queue[0];
      Proper(m, |net.procs|) && NodeAt(net, m.src, m.block).up.Has(m.kind) > 0
  {
    var m := net.ctl.queue[0];
    assert m in net.ctl.queue;
    assert m in Inbound(net, m.src);
  }

  lemma BagTake(ms: multiset<D.Msg>, m: D.Msg, j: nat, b: D.BlockId)
    requires (m.kind.Request() || m.kind.Answer()) && ms[m] > 0
    ensures BagAt(ms, m.src, m.block).Has(m.kind) > 0
    ensures BagAt(ms - multiset{m}, j, b)
         == if j == m.src && b == m.block then BagAt(ms, j, b).Take(m.kind) else BagAt(ms, j, b)
  {
  }

  lemma BagDrop(ms: multiset<D.Msg>, m: D.Msg, j: nat, b: D.BlockId)
    requires j != m.src || b != m.block
    ensures BagAt(ms - multiset{m}, j, b) == BagAt(ms, j, b)
  {
  }

  lemma HandledNode(net: Net, net': Net, m: D.Msg, out: Sends, j: nat, b: D.BlockId)
    requires WellFormed(net) && j < |net.procs| && net.ctl.queue != [] && m == net.ctl.queue[0]
    requires net'.procs == Scatter(net.procs, D.Packets(out, m.block))
    requires net'.ctl.queue == net.ctl.queue[1..] && net'.ctl.next == net.ctl.next
    ensures b == m.block && j == m.src ==> NodeAt(net, j, b).up.Has(m.kind) > 0
    ensures NodeAt(net', j, b) == NodeAt(net, j, b).(
              up := if b == m.block && j == m.src then NodeAt(net, j, b).up.Take(m.kind) else NodeAt(net, j, b).up,
              down := NodeAt(net, j, b).down + (if b == m.block then out.To(j) else []))
  {
    HeadInBag(net);
    assert net.ctl.queue == [m] + net.ctl.queue[1..];
    ScatterNode(net, net', D.Packets(out, m.block), multiset{m}, j, b);
    D.PacketsReceived(out, m.block, j, b);
    if j == m.src {
      assert m in Inbound(net, j);
      BagTake(Inbound(net, j), m, j, b);
    } else {
      BagDrop(Inbound(net, j), m, j, b);
    }
  }

  /** The controller's latch after a handler has run. */
  function LatchOf(b: D.BlockId, l: Option<Latch>): Option<D.Pending> {
    if l.Some? then Some(D.Pending(b, l.value.target, l.value.exclusive)) else None
  }

  lemma PollBlock(p: Protocol, net: Net, net': Net, m: D.Msg, o: Outcome, b: D.BlockId)
    requires WellFormed(net) && WellFormed(net') && net.ctl.pending.None? && net.ctl.queue != [] &&
      m == net.ctl.queue[0]
    requires o == Handler(p, D.EntryOf(net.ctl, |net.procs|, m.block), m.src, m.kind) && o.Done?
    requires net' == Net(
      Scatter(net.procs, D.Packets(o.sends, m.block)),
      net.ctl.(directory := net.ctl.directory[m.block := o.entry], queue := net.ctl.queue[1..],
               pending := LatchOf(m.block, o.latch)))
    ensures var s, t := Block(net, b), Block(net', b);
      if b == m.block then Moves(p, s, Handle(m.src, m.kind), t) else s == t
  {
    if b == m.block {
      HeadInBag(net);
      forall j | 0 <= j < |net.procs| { HandledNode(net, net', m, o.sends, j, b); }
      PollHandles(p, net, net', m, o);
    } else {
      forall j | 0 <= j < |net.procs| { HandledNode(net, net', m, o.sends, j, b); }
      PollElsewhere(net, net', m, b);
    }
  }

  lemma PollElsewhere(net: Net, net': Net, m: D.Msg, b: D.BlockId)
    requires |net.procs| == |net'.procs| && b != m.block
    requires D.EntryOf(net.ctl, |net.procs|, b) == D.EntryOf(net'.ctl, |net.procs|, b)
    requires LatchAt(net.ctl.pending, b).None? && LatchAt(net'.ctl.pending, b).None?
    requires forall j :: 0 <= j < |net.procs| ==>
      NodeAt(net', j, b) == NodeAt(net, j, b).(down := NodeAt(net, j, b).down + [])
    ensures Block(net, b) == Block(net', b)
  {
    forall j | 0 <= j < |net.procs| ensures NodeAt(net', j, b) == NodeAt(net, j, b) {
      assert NodeAt(net, j, b).down + [] == NodeAt(net, j, b).down;
    }
    SameBlock(net, net', b);
  }

  lemma StepHandles(p: Protocol, s: Sys, i: nat, k: Kind, o: Outcome)
    requires Shaped(s) && i < |s.nodes| && s.nodes[i].up.Has(k) > 0 && s.latch.None?
    requires o == Handler(p, s.dir, i, k) && o.Done?
    ensures Moves(p, s, Handle(i, k), Commit(s, i, k, o.entry, o.sends, o.latch))
  {
  }

  lemma PollHandles(p: Protocol, net: Net, net': Net, m: D.Msg, o: Outcome)
    requires WellFormed(net) && WellFormed(net') && net.ctl.pending.None? && |net.procs| == |net'.procs|
    requires Proper(m, |net.procs|) && NodeAt(net, m.src, m.block).up.Has(m.kind) > 0
    requires o == Handler(p, D.EntryOf(net.ctl, |net.procs|, m.block), m.src, m.kind) && o.Done?
    requires D.EntryOf(net'.ctl, |net.procs|, m.block) == o.entry && LatchAt(net'.ctl.pending, m.block) == o.latch
    requires forall j :: 0 <= j < |net.procs| ==> NodeAt(net', j, m.block) == NodeAt(net, j, m.block).(
                up := if j == m.src then NodeAt(net, j, m.block).up.Take(m.kind) else NodeAt(net, j, m.block).up,
                down := NodeAt(net, j, m.block).down + o.sends.To(j))
    ensures Moves(p, Block(net, m.block), Handle(m.src, m.kind), Block(net', m.block))
  {
    var s, t := Block(net, m.block), Block(net', m.block);
    assert Commit(s, m.src, m.kind, o.entry, o.sends, o.latch).nodes == t.nodes;
    StepHandles(p, s, m.src, m.kind, o);
  }

  lemma CycleBlock(net: Net, net': Net, b: D.BlockId)
    requires net.ctl.queue != []
    requires net' == Net(Scatter(net.procs, []),
      net.ctl.(queue := net.ctl.queue[1..], next := net.ctl.next + [net.ctl.queue[0]]))
    ensures Block(net, b) == Block(net', b)
  {
    forall j | 0 <= j < |net.procs| ensures NodeAt(net, j, b) == NodeAt(net', j, b) { CycleNode(net, net', j, b); }
    SameBlock(net, net', b);
  }

  lemma CycleNode(net: Net, net': Net, j: nat, b: D.BlockId)
    requires j < |net.procs| && net.ctl.queue != []
    requires net' == Net(Scatter(net.procs, []),
      net.ctl.(queue := net.ctl.queue[1..], next := net.ctl.next + [net.ctl.queue[0]]))
    ensures NodeAt(net, j, b) == NodeAt(net', j, b)
  {
    var m := net.ctl.queue[0];
    assert net.ctl.queue == [m] + net.ctl.queue[1..];
    ScatterNode(net, net', [], multiset{}, j, b);
    assert Inbound(net, j) - multiset{} == Inbound(net, j);
    assert NodeAt(net, j, b).down + [] == NodeAt(net, j, b).down;
  }

  /** In its invariant a block's handler does not throw. */
  lemma HeadHandled(p: Protocol, s: Sys, i: nat, k: Kind)
    requires Invariant(p, s) && i < |s.nodes| && s.nodes[i].up.Has(k) > 0 && s.latch.None?
    ensures !Handler(p, s.dir, i, k).Throw?
  {
    EventKeepsInvariant(p, s, Handle(i, k));
  }

  /** The head of the queue has its handler's outcome, which is not a throw. */
  lemma HeadOutcome(p: Protocol, net: Net) returns (o: Outcome)
    requires BlocksInvariant(p, net) && net.ctl.pending.None? && net.ctl.queue != []
    ensures var m := net.ctl.queue[0];
      && Proper(m, |net.procs|) && o == Handler(p, D.EntryOf(net.ctl, |net.procs|, m.block), m.src, m.kind) && !o.Throw?
  {
    var m := net.ctl.queue[0];
    HeadInBag(net);
    HeadHandled(p, Block(net, m.block), m.src, m.kind);
    o := Handler(p, D.EntryOf(net.ctl, |net.procs|, m.block), m.src, m.kind);
  }

  lemma NothingSent(procs: seq<Proc>)
    ensures Scatter(procs, []) == procs
  {
    assert forall pr: Proc :: pr.down + [] == pr.down;
  }

  lemma PollSimulated(p: Protocol, net: Net)
    requires BlocksInvariant(p, net)
    ensures Simulated(p, net, Poll)
  {
    if net.ctl.pending.Some? || net.ctl.queue == [] {
      NothingSent(net.procs);
    } else {
      var o := HeadOutcome(p, net);
      var net' := Next(p, net, Poll).net;
      PollWellFormed(p, net, net');
      forall b ensures Follows(p, Block(net, b), EventAt(p, net, Poll, b), Block(net', b)) {
        if o.Cycle? { CycleBlock(net, net', b); } else { PollBlock(p, net, net', net.ctl.queue[0], o, b); }
      }
      SimulatedTo(p, net, Poll, net');
    }
  }

  lemma PollWellFormed(p: Protocol, net: Net, net': Net)
    requires WellFormed(net) && Next(p, net, Poll) == Went(net')
    ensures WellFormed(net')
  {
  }

  // ----- whole runs of the machine -----

  lemma EventSimulated(p: Protocol, net: Net, ev: Event)
    requires BlocksInvariant(p, net)
    ensures Simulated(p, net, ev)
  {
    match ev
    case Fetch(i) => FetchSimulated(p, net, i);
    case Lookup(i) => LookupSimulated(p, net, i);
    case Deliver(i) => DeliverSimulated(p, net, i);
    case Accept(i) => AcceptSimulated(p, net, i);
    case Arrive(i) => ArriveSimulated(p, net, i);
    case Tock => TockSimulated(p, net);
    case Poll => PollSimulated(p, net);
    case Respond => RespondSimulated(p, net);
  }

  function RunNet(p: Protocol, net: Net, evs: seq<Event>): Result
    decreases |evs|
  {
    if evs == [] then Went(net)
    else
      var r := Next(p, net, evs[0]);
      if r.Went? then RunNet(p, r.net, evs[1..]) else r
  }

  lemma FollowingKeeps(p: Protocol, s: Sys, e: Option<B.Event>, t: Sys)
    requires Invariant(p, s) && Follows(p, s, e, t)
    ensures Invariant(p, t)
  {
    if e.Some? { EventKeepsInvariant(p, s, e.value); }
  }

  /** No event crashes, and every block keeps its invariant. */
  lemma EventKeepsBlocks(p: Protocol, net: Net, ev: Event)
    requires BlocksInvariant(p, net)
    ensures !Next(p, net, ev).Crash?
    ensures Next(p, net, ev).Went? ==> BlocksInvariant(p, Next(p, net, ev).net)
  {
    EventSimulated(p, net, ev);
    var r := Next(p, net, ev);
    if r.Went? {
      forall b ensures Invariant(p, Block(r.net, b)) {
        FollowingKeeps(p, Block(net, b), EventAt(p, net, ev, b), Block(r.net, b));
      }
    }
  }

  lemma {:induction false} RunKeepsBlocks(p: Protocol, net: Net, evs: seq<Event>)
    requires BlocksInvariant(p, net)
    ensures !RunNet(p, net, evs).Crash?
    ensures RunNet(p, net, evs).Went? ==> BlocksInvariant(p, RunNet(p, net, evs).net)
    decreases |evs|
  {
    if evs != [] {
      EventKeepsBlocks(p, net, evs[0]);
      var r := Next(p, net, evs[0]);
      if r.Went? { RunKeepsBlocks(p, r.net, evs[1..]); }
    }
  }

  lemma StartBlocks(p: Protocol, traces: seq<seq<Access>>)
    ensures BlocksInvariant(p, Start(traces))
  {
    var net := Start(traces);
    forall b ensures Invariant(p, Block(net, b)) {
      InitInvariant(p, |traces|);
      assert Block(net, b).nodes == Init(|traces|).nodes;
      assert Block(net, b) == Init(|traces|);
    }
  }

  /** Every run of the machine, over any traces, stays clear of every throw, and every block of it
      satisfies the one-block invariant at every moment. */
  lemma MachineSafe(p: Protocol, traces: seq<seq<Access>>, evs: seq<Event>)
    ensures !RunNet(p, Start(traces), evs).Crash?
    ensures RunNet(p, Start(traces), evs).Went? ==> BlocksInvariant(p, RunNet(p, Start(traces), evs).net)
  {
    StartBlocks(p, traces);
    RunKeepsBlocks(p, Start(traces), evs);
  }

  /** At no moment of any run can two processors hold the same block while one may write it: the others have no
      copy, and neither the channel to them nor the controller's latch holds one. */
  lemma MachineSingleWriter(p: Protocol, traces: seq<seq<Access>>, evs: seq<Event>, net: Net, b: D.BlockId, i: nat,
                            j: nat)
    requires RunNet(p, Start(traces), evs) == Went(net)
    requires i < |net.procs| && j < |net.procs| && i != j && Exclusive(AgentAt(net.procs[i], b))
    ensures AgentAt(net.procs[j], b).I? || AgentAt(net.procs[j], b).IS? || AgentAt(net.procs[j], b).IM?
    ensures forall x :: 0 <= x < |DownAt(net.procs[j].down, b)| ==> !DownAt(net.procs[j].down, b)[x].Grant()
    ensures net.ctl.pending.Some? && net.ctl.pending.value.block == b ==> net.ctl.pending.value.target != j
  {
    MachineSafe(p, traces, evs);
    BlockSingleWriter(p, net, b, i, j);
  }

  lemma BlockSingleWriter(p: Protocol, net: Net, b: D.BlockId, i: nat, j: nat)
    requires BlocksInvariant(p, net)
    requires i < |net.procs| && j < |net.procs| && i != j && Exclusive(AgentAt(net.procs[i], b))
    ensures AgentAt(net.procs[j], b).I? || AgentAt(net.procs[j], b).IS? || AgentAt(net.procs[j], b).IM?
    ensures forall x :: 0 <= x < |DownAt(net.procs[j].down, b)| ==> !DownAt(net.procs[j].down, b)[x].Grant()
    ensures net.ctl.pending.Some? && net.ctl.pending.value.block == b ==> net.ctl.pending.value.target != j
  {
    var s := Block(net, b);
    ExclusiveHolds(p, s, i);
    if s.dir.presence[j] { CountTwo(s.dir.presence, i, j); }
    AbsentIsEmpty(p, s, j);
  }

  // ----- the directory's tick -----

  lemma {:induction false} InboxAppend(a: seq<D.Packet>, b: seq<D.Packet>, j: nat)
    ensures Inbox(a + b, j) == Inbox(a, j) + Inbox(b, j)
  {
    if a == [] { assert a + b == b; }
    else {
      assert (a + b)[0] == a[0] && (a + b)[1..] == a[1..] + b;
      InboxAppend(a[1..], b, j);
      DownsAppend(if a[0].dst == j then [Down(a[0].block, a[0].kind)] else [], Inbox(a[1..], j), Inbox(b, j));
    }
  }

  lemma DownsAppend(x: seq<Down>, y: seq<Down>, z: seq<Down>)
    ensures (x + y) + z == x + (y + z)
  {
  }

  lemma ScatterAppend(procs: seq<Proc>, a: seq<D.Packet>, b: seq<D.Packet>)
    ensures Scatter(Scatter(procs, a), b) == Scatter(procs, a + b)
  {
    forall j | 0 <= j < |procs| ensures Scatter(Scatter(procs, a), b)[j] == Scatter(procs, a + b)[j] {
      InboxAppend(a, b, j);
      DownsAppend(procs[j].down, Inbox(a, j), Inbox(b, j));
    }
  }

  /** A tick of the directory is a poll followed, when a response is due, by that response. */
  lemma TickOfMachine(p: Protocol, net: Net, expired: bool)
    ensures var r := D.Tick(p, |net.procs|, net.ctl, expired);
      RunNet(p, net, if expired then [Poll, Event.Respond] else [Poll]) ==
      (if r.Failed? then Result.Crash else Went(Net(Scatter(net.procs, r.out), r.ctl)))
  {
    var polled := D.Poll(p, |net.procs|, net.ctl);
    if polled.Ticked? {
      var net' := Net(Scatter(net.procs, polled.out), polled.ctl);
      var r := D.Answer(polled.ctl, expired);
      ScatterAppend(net.procs, polled.out, r.out);
      assert polled.out + [] == polled.out;
      if expired {
        assert [Poll, Event.Respond][1..] == [Event.Respond];
        assert RunNet(p, net', [Event.Respond]) == Next(p, net', Event.Respond);
      }
    }
  }
}
