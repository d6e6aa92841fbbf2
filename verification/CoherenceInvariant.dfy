/** What every reachable state satisfies: the directory's own shape (Books) and, node by node,
    the agreement between the directory's view and the node (Agrees). */
module CoherenceInvariant {
  import opened Options
  import opened CoherenceTypes
  import opened Protocols
  import opened CoherenceSystem

  datatype Hold = No | Sh | Ex | Mo | Fw | Ow
  datatype Ask = Nil | Inv | RecI | RecS
  datatype Active = Not | Read | Write

  /** All the directory knows about one node. */
  datatype View = View(hold: Hold, ask: Ask, active: Active, latched: Option<bool>, early: bool)

  function HoldOf(e: Entry, i: nat): Hold
    requires i < |e.presence|
  {
    if !e.presence[i] then No
    else match e.state
      case I => No
      case E => Ex case EM => Ex case EF => Ex case ES => Ex
      case M => Mo case MM => Mo case MO => Mo case MS => Mo
      case F => if i == e.owner then Fw else Sh
      case FF => if i == e.owner then Fw else Sh
      case FM => if i == e.owner then Fw else Sh
      case O => if i == e.owner then Ow else Sh
      case OO => if i == e.owner then Ow else Sh
      case OM => if i == e.owner then Ow else Sh
      case S => Sh
      case SM => Sh
  }

  function AskOf(e: Entry, i: nat): Ask
    requires i < |e.presence|
  {
    if !e.presence[i] then Nil
    else match e.state
      case MM => RecI case EM => RecI
      case MO => RecS case MS => RecS case EF => RecS case ES => RecS
      case FF => if i == e.owner then RecS else Nil
      case OO => if i == e.owner then RecS else Nil
      case FM => OwnerAsk(e, i)
      case OM => OwnerAsk(e, i)
      case SM => if i != e.req then Inv else Nil
      case _ => Nil
  }

  function OwnerAsk(e: Entry, i: nat): Ask {
    if e.waiting > 0 then (if i != e.req && i != e.owner then Inv else Nil)
    else if i == e.owner then RecI else Nil
  }

  function ActiveOf(e: Entry, i: nat): Active {
    if !e.state.Transient() || e.req != i then Not
    else if e.state.MO? || e.state.MS? || e.state.EF? || e.state.ES? || e.state.FF? || e.state.OO? then Read
    else Write
  }

  /** Before the block is first modified; the directory never comes back here. */
  predicate Early(d: Dir) {
    d.I? || d.E? || d.EF? || d.ES? || d.F? || d.FF? || d.EM? || d.FM?
  }

  function ViewOf(e: Entry, latch: Option<Latch>, i: nat): View
    requires i < |e.presence|
  {
    View(HoldOf(e, i), AskOf(e, i), ActiveOf(e, i),
         if latch.Some? && latch.value.target == i then Some(latch.value.exclusive) else None,
         Early(e.state))
  }

  /** The views that a protocol's books can produce. */
  predicate Sensible(p: Protocol, v: View) {
    && (v.hold.Sh? ==> !p.MI?)
    && (v.hold.Ex? ==> p.MESI? || p.MOESIF?)
    && (v.hold.Fw? ==> p.MOESIF?)
    && (v.hold.Ow? ==> p.MOSI? || p.MOESIF?)
    && (v.ask.Inv? ==> v.hold.Sh?)
    && (v.ask.RecI? || v.ask.RecS? ==> v.hold.Ex? || v.hold.Mo? || v.hold.Fw? || v.hold.Ow?)
    && (v.ask.RecS? ==> !p.MI?)
    && (!v.active.Not? ==> v.ask.Nil?)
  }

  /** What a holder is left with once it has answered a demand. */
  function After(p: Protocol, h: Hold, a: Ask): Hold {
    match a
    case Nil => h
    case Inv => No
    case RecI => No
    case RecS =>
      if h.Mo? then (if p.MSI? || p.MESI? then Sh else Ow)
      else if h.Ex? then (if p.MESI? then Sh else Fw)
      else h
  }

  function Demand(a: Ask): Kind
    requires !a.Nil?
  {
    match a case Inv => REQ_INVALID case RecI => RECALL_GOTO_I case RecS => RECALL_GOTO_S
  }

  function Answer(a: Ask): Kind
    requires !a.Nil?
  {
    if a.Inv? then INVACK else DATA
  }

  /** The stable agent state of a holder, and the one it is in while it waits to write. */
  function Stable(h: Hold): Agent {
    match h
    case No => Agent.I case Sh => Agent.S case Ex => Agent.E
    case Mo => Agent.M case Fw => Agent.F case Ow => Agent.O
  }

  function Upgrading(h: Hold): Agent {
    match h
    case No => Agent.IM case Sh => Agent.SM case Ex => Agent.EM
    case Mo => Agent.M case Fw => Agent.FM case Ow => Agent.OM
  }

  predicate Granting(nd: Node) { nd.down != [] && nd.down[0].Grant() }

  /** The demand outstanding on this node is either still on its way or already answered. */
  predicate Asked(v: View, nd: Node) {
    var rest := if Granting(nd) then nd.down[1..] else nd.down;
    if v.ask.Nil? then rest == [] && nd.up.Answers() == 0
    else
      || (rest == [Demand(v.ask)] && nd.up.Answers() == 0)
      || (nd.down == [] && nd.up.Answers() == 1 && nd.up.Has(Answer(v.ask)) == 1)
  }

  predicate Answered(nd: Node) { nd.up.Answers() > 0 }

  function Current(p: Protocol, v: View, nd: Node): Hold {
    if Answered(nd) then After(p, v.hold, v.ask) else v.hold
  }

  /** A queued request, and what its sender currently holds. */
  predicate Queued(p: Protocol, v: View, nd: Node, h: Hold) {
    && (nd.up.Has(GETS) > 0 ==> nd.agent == Agent.IS && h.No? && !p.MI?)
    && (nd.up.Has(GETM) > 0 ==> nd.agent == Upgrading(h) && !h.Mo? && !h.Ex?)
    && (nd.up.Has(GETX) > 0 ==>
          && nd.agent == Upgrading(h) && (p.MESI? || p.MOESIF?)
          && (v.hold.No? || v.hold.Ex? || (v.hold.Fw? && p.MOESIF?) || (v.hold.Sh? && p.MESI?))
          && (v.hold.No? ==> !v.early))
  }

  /** Where the node's transaction stands, and the agent state that goes with it. */
  predicate Staged(p: Protocol, v: View, nd: Node) {
    var h := Current(p, v, nd);
    if v.latched.Some? then
      && !Granting(nd) && nd.up.Requests() == 0 && v.active.Not? && v.ask.Nil?
      && (if v.latched.value then nd.agent == Agent.IS && h.Ex?
          else (nd.agent == Agent.IS && h.Sh?) || (nd.agent == Agent.IM && h.Mo?))
    else if Granting(nd) then
      && nd.up.Requests() == 0 && v.active.Not?
      && (nd.down[0].DATA? ==> (nd.agent == Agent.IS && h.Sh?) || (nd.agent == Agent.IM && h.Mo?))
      && (nd.down[0].DATA_E? ==> nd.agent == Agent.IS && h.Ex? && (p.MESI? || p.MOESIF?))
      && (nd.down[0].ACK? ==> (nd.agent.SM? || nd.agent.EM? || nd.agent.FM? || nd.agent.OM?) && h.Mo?)
    else if v.active.Read? then
      nd.up.Requests() == 0 && nd.agent == Agent.IS && v.hold.No?
    else if v.active.Write? then
      nd.up.Requests() == 0 && nd.agent == Upgrading(h) && !h.Mo? && !h.Ex?
    else if nd.up.Requests() > 0 then
      nd.up.Requests() == 1 && Queued(p, v, nd, h)
    else nd.agent == Stable(h)
  }

  predicate Agrees(p: Protocol, v: View, nd: Node) {
    && Asked(v, nd)
    && Staged(p, v, nd)
    && (nd.agent.Transient() <==> nd.cpu.Waiting?)
    && (nd.agent.IS? ==> nd.cpu.op.Load?)
  }

  /** The states a protocol's directory visits without evictions. */
  predicate Visits(p: Protocol, d: Dir) {
    match p
    case MI => d.I? || d.M? || d.MM?
    case MSI => d.I? || d.S? || d.M? || d.SM? || d.MM? || d.MS?
    case MESI => d.I? || d.S? || d.E? || d.M? || d.SM? || d.MM? || d.MS? || d.EM? || d.ES?
    case MOSI => d.I? || d.S? || d.O? || d.M? || d.SM? || d.MM? || d.MO? || d.OM? || d.OO?
    case MOESIF =>
      d.I? || d.E? || d.F? || d.O? || d.M? || d.MM? || d.MO? || d.EM? || d.EF? || d.FF? || d.FM? || d.OM? || d.OO?
  }

  /** The directory entry by itself. */
  predicate Books(p: Protocol, e: Entry) {
    && Visits(p, e.state)
    && e.sharers == Count(e.presence)
    && (e.state.I? ==> e.sharers == 0)
    && (e.state.S? ==> e.sharers >= (if p.MESI? then 2 else 1))
    && (e.state.E? || e.state.M? ==> e.sharers == 1)
    && (e.state.MM? || e.state.EM? || e.state.MO? || e.state.MS? || e.state.EF? || e.state.ES? ==>
          e.sharers == 1 && Valid(e, e.req) && !e.presence[e.req])
    && (e.state.MO? || e.state.EF? ==> Valid(e, e.owner) && e.presence[e.owner])
    && (e.state.F? || e.state.O? || e.state.FF? || e.state.OO? ==>
          e.sharers >= 2 && Valid(e, e.owner) && e.presence[e.owner])
    && (e.state.FF? || e.state.OO? ==> Valid(e, e.req) && !e.presence[e.req])
    && (e.state.SM? ==>
          && Valid(e, e.req) && e.waiting >= 1
          && e.waiting == e.sharers - (if e.presence[e.req] then 1 else 0)
          && (p.MSI? ==> e.upgrade == e.presence[e.req]))
    && (e.state.FM? || e.state.OM? ==>
          && Valid(e, e.req) && Valid(e, e.owner) && e.presence[e.owner] && e.waiting >= 0
          && e.waiting == e.sharers - 1 - (if e.req != e.owner && e.presence[e.req] then 1 else 0)
          && (e.waiting == 0 ==> e.req != e.owner))
  }

  predicate AgreesAt(p: Protocol, s: Sys, i: nat)
    requires Shaped(s) && i < |s.nodes|
  {
    Agrees(p, ViewOf(s.dir, s.latch, i), s.nodes[i])
  }

  predicate Invariant(p: Protocol, s: Sys) {
    && Shaped(s)
    && Books(p, s.dir)
    && (s.latch.Some? ==> s.latch.value.target < |s.nodes| && !s.dir.state.Transient())
    && (forall i :: 0 <= i < |s.nodes| ==> AgreesAt(p, s, i))
  }

  lemma InitInvariant(p: Protocol, n: nat)
    ensures Invariant(p, Init(n))
  {
    CountNone(Init(n).dir.presence);
  }
}
