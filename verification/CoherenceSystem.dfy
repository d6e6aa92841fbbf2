/** One block, any number of processors, one directory: the transition system. */
module CoherenceSystem {
  import opened Options
  import opened CoherenceTypes
  import opened Protocols

  /** The processor as seen from this block. FiciCpu keeps one access outstanding over all
      blocks, so an access to another block shows here as Elsewhere. */
  datatype Cpu = Idle | Elsewhere | Slot(op: Op) | Waiting(op: Op) | Replied

  /** One processor node: its CPU, its agent for the block, the FIFO of messages on their way
      from the directory, and the bag of messages on their way to it. */
  datatype Node = Node(cpu: Cpu, agent: Agent, down: seq<Kind>, up: Bag)

  datatype Sys = Sys(dir: Entry, latch: Option<Latch>, nodes: seq<Node>)

  datatype Event =
    | Issue(i: nat, op: Op)     // the CPU puts a request for this block in its cache's slot
    | Leave(i: nat)             // the CPU starts an access to another block
    | Return(i: nat)            // that access completes
    | Lookup(i: nat)            // the cache hands the slot to the agent
    | Deliver(i: nat)           // the agent receives the oldest message from the directory
    | Accept(i: nat)            // the CPU consumes the reply
    | Handle(i: nat, k: Kind)   // the directory polls a message of kind k from node i
    | Respond                   // the directory sends its latched response

  datatype Next = Disabled | Crash | To(sys: Sys)

  function Init(n: nat): (s: Sys)
    ensures |s.nodes| == |s.dir.presence| == n
  {
    Sys(Entry(Dir.I, seq(n, i => false), 0, 0, 0, 0, false), None,
        seq(n, i => Node(Idle, Agent.I, [], Bag(0, 0, 0, 0, 0))))
  }

  predicate Shaped(s: Sys) { |s.dir.presence| == |s.nodes| }

  /** Deliver a handler's messages: each one joins the FIFO of its destination. */
  function Send(nodes: seq<Node>, out: Sends): (r: seq<Node>)
    ensures |r| == |nodes|
    ensures forall j :: 0 <= j < |r| ==> r[j] == nodes[j].(down := nodes[j].down + out.To(j))
  {
    seq(|nodes|, j requires 0 <= j < |nodes| => nodes[j].(down := nodes[j].down + out.To(j)))
  }

  /** An agent's reaction, applied to its node. */
  function Apply(nd: Node, r: Reaction): Node
    requires nd.cpu.Slot? && r.React? && (r.send.Some? ==> r.send.value.Request() || r.send.value.Answer())
  {
    nd.(agent := r.next,
        cpu := if r.reply then Replied else Waiting(nd.cpu.op),
        up := if r.send.Some? then nd.up.Put(r.send.value) else nd.up)
  }

  /** The state after the directory consumed message k of node i. */
  function Commit(s: Sys, i: nat, k: Kind, e: Entry, out: Sends, latch: Option<Latch>): (t: Sys)
    requires i < |s.nodes| && s.nodes[i].up.Has(k) > 0
    ensures |t.nodes| == |s.nodes| && t.dir == e && t.latch == latch
    ensures forall j :: 0 <= j < |s.nodes| ==>
              t.nodes[j] == s.nodes[j].(
                up := if j == i then s.nodes[i].up.Take(k) else s.nodes[j].up,
                down := s.nodes[j].down + out.To(j))
  {
    Sys(e, latch, Send(s.nodes[i := s.nodes[i].(up := s.nodes[i].up.Take(k))], out))
  }

  function Step(p: Protocol, s: Sys, ev: Event): Next
    requires Shaped(s)
  {
    match ev
    case Issue(i, op) =>
      if i < |s.nodes| && s.nodes[i].cpu.Idle?
      then To(s.(nodes := s.nodes[i := s.nodes[i].(cpu := Slot(op))]))
      else Disabled
    case Leave(i) =>
      if i < |s.nodes| && s.nodes[i].cpu.Idle?
      then To(s.(nodes := s.nodes[i := s.nodes[i].(cpu := Elsewhere)]))
      else Disabled
    case Return(i) =>
      if i < |s.nodes| && s.nodes[i].cpu.Elsewhere?
      then To(s.(nodes := s.nodes[i := s.nodes[i].(cpu := Idle)]))
      else Disabled
    case Accept(i) =>
      if i < |s.nodes| && s.nodes[i].cpu.Replied?
      then To(s.(nodes := s.nodes[i := s.nodes[i].(cpu := Idle)]))
      else Disabled
    case Lookup(i) =>
      if i < |s.nodes| && s.nodes[i].cpu.Slot?
      then
        var r := AgentProc(p, s.nodes[i].agent, s.nodes[i].cpu.op);
        if r.Bad? then Crash else To(s.(nodes := s.nodes[i := Apply(s.nodes[i], r)]))
      else Disabled
    case Deliver(i) =>
      if i < |s.nodes| && s.nodes[i].down != []
      then
        var nd := s.nodes[i];
        var r := AgentNtwk(p, nd.agent, nd.down[0]);
        if r.Bad? then Crash
        else To(s.(nodes := s.nodes[i := Receive(nd, r)]))
      else Disabled
    case Handle(i, k) =>
      if i < |s.nodes| && s.nodes[i].up.Has(k) > 0 && s.latch.None?
      then
        match Handler(p, s.dir, i, k)
        case Throw => Crash
        case Cycle => To(s)
        case Done(e, out, latch) => To(Commit(s, i, k, e, out, latch))
      else Disabled
    case Respond =>
      if s.latch.Some?
      then
        var l := s.latch.value;
        To(s.(latch := None, nodes := Send(s.nodes, One(l.target, if l.exclusive then DATA_E else DATA))))
      else Disabled
  }

  /** A network message: the CPU is answered only when the agent says so. */
  function Receive(nd: Node, r: Reaction): Node
    requires r.React? && (r.send.Some? ==> r.send.value.Request() || r.send.value.Answer())
    requires nd.down != []
  {
    nd.(agent := r.next,
        down := nd.down[1..],
        cpu := if r.reply then Replied else nd.cpu,
        up := if r.send.Some? then nd.up.Put(r.send.value) else nd.up)
  }
}
