/** The agent tables and the directory handlers of the five protocols, as functions. */
module Protocols {
  import opened Options
  import opened CoherenceTypes

  // ----- agents -----

  /** process_proc_request: a load or store from the processor. */
  function AgentProc(p: Protocol, a: Agent, op: Op): (r: Reaction)
    ensures r.React? ==> (r.send.Some? <==> !r.reply)
    ensures r.React? && r.send.Some? ==> r.send.value.Request()
  {
    match a
    case I =>
      if op.Load? && !p.MI? then React(Agent.IS, Some(GETS), false) else React(Agent.IM, Some(GETM), false)
    case M => React(Agent.M, None, true)
    case S => if op.Load? then React(a, None, true) else React(Agent.SM, Some(GETM), false)
    case E => if op.Load? then React(a, None, true) else React(Agent.EM, Some(GETX), false)
    case F => if op.Load? then React(a, None, true) else React(Agent.FM, Some(GETM), false)
    case O => if op.Load? then React(a, None, true) else React(Agent.OM, Some(GETM), false)
    case _ => Bad
  }

  /** Where RECALL_GOTO_S leaves a holder, protocol by protocol. */
  function Demoted(p: Protocol, a: Agent): Option<Agent> {
    match a
    case M => if p.MSI? || p.MESI? then Some(Agent.S) else if p.MI? then None else Some(Agent.O)
    case E => if p.MESI? then Some(Agent.S) else Some(Agent.F)
    case EM => if p.MESI? then Some(Agent.SM) else Some(Agent.FM)
    case F => Some(a)
    case O => Some(a)
    case FM => Some(a)
    case OM => Some(a)
    case _ => None
  }

  /** process_ntwk_request: a message from the directory. */
  function AgentNtwk(p: Protocol, a: Agent, k: Kind): (r: Reaction)
    ensures r.React? ==> (r.send.Some? <==> !r.reply)
    ensures r.React? && r.send.Some? ==> r.send.value.Answer()
  {
    match k
    case DATA =>
      if a.IS? then React(Agent.S, None, true)
      else if a.IM? || a.SM? || a.EM? || a.FM? || (a.OM? && p.MOESIF?) then React(Agent.M, None, true)
      else Bad
    case DATA_E =>
      if a.IS? && (p.MESI? || p.MOESIF?) then React(Agent.E, None, true) else Bad
    case ACK =>
      if a.SM? || a.EM? || a.FM? || a.OM? then React(Agent.M, None, true) else Bad
    case REQ_INVALID =>
      if a.S? then React(Agent.I, Some(INVACK), false)
      else if a.SM? then React(Agent.IM, Some(INVACK), false)
      else Bad
    case RECALL_GOTO_I =>
      if a.E? || a.M? || a.F? || a.O? then React(Agent.I, Some(DATA), false)
      else if a.EM? || a.FM? || a.OM? then React(Agent.IM, Some(DATA), false)
      else Bad
    case RECALL_GOTO_S =>
      (match Demoted(p, a) case Some(b) => React(b, Some(DATA), false) case None => Bad)
    case _ => Bad
  }

  // ----- directory: moves the handlers share -----

  function Add(e: Entry, i: nat): Entry
    requires i < |e.presence|
  {
    e.(presence := e.presence[i := true], sharers := e.sharers + 1)
  }

  function Drop(e: Entry, i: nat): Entry
    requires i < |e.presence|
  {
    e.(presence := e.presence[i := false], sharers := e.sharers - 1)
  }

  /** Add without counting a bit that is already set. */
  function AddOnce(e: Entry, i: nat): Entry
    requires i < |e.presence|
  {
    if e.presence[i] then e else Add(e, i)
  }

  predicate Valid(e: Entry, i: int) { 0 <= i < |e.presence| }

  /** Serve the requester from memory (or the shared cache): schedule_data_response. */
  function Fetch(e: Entry, src: nat, next: Dir, exclusive: bool): Outcome
    requires src < |e.presence|
  {
    Done(Add(e, src).(state := next), Nothing, Some(Latch(src, exclusive)))
  }

  /** Recall the only holder on behalf of src. */
  function Recall(e: Entry, src: nat, kind: Kind, next: Dir): Outcome {
    var holder := Last(e.presence);
    if holder < 0 then Throw
    else Done(e.(state := next, req := src), One(holder, kind), None)
  }

  /** As Recall, remembering the holder as owner or forwarder. */
  function RecallToOwner(e: Entry, src: nat, next: Dir): Outcome {
    var holder := Last(e.presence);
    if holder < 0 then Throw
    else Done(e.(state := next, req := src, owner := holder), One(holder, RECALL_GOTO_S), None)
  }

  /** The recalled holder's data arrived and it gave up its copy: pass the block on. */
  function HandOver(e: Entry, src: nat): Outcome
    requires src < |e.presence|
  {
    if !Valid(e, e.req) then Throw
    else Done(Add(Drop(e, src), e.req).(state := Dir.M), One(e.req, DATA), None)
  }

  /** The recalled holder's data arrived and it keeps a copy: the requester joins. */
  function Share(e: Entry, next: Dir): Outcome {
    if !Valid(e, e.req) then Throw
    else Done(Add(e, e.req).(state := next), One(e.req, DATA), None)
  }

  /** The sharers other than src and keep (keep may be -1). */
  function Others(e: Entry, src: int, keep: int): (m: seq<bool>)
    ensures |m| == |e.presence|
    ensures forall i :: 0 <= i < |m| ==> m[i] == (e.presence[i] && i != src && i != keep)
  {
    seq(|e.presence|, i requires 0 <= i < |e.presence| => e.presence[i] && i != src && i != keep)
  }

  /** Invalidate the sharers other than src and keep and wait for their answers. */
  function Purge(e: Entry, src: nat, keep: int, next: Dir): Outcome {
    var m := Others(e, src, keep);
    Done(e.(state := next, req := src, waiting := Count(m)), Invalidate(m), None)
  }

  /** GETM in O or F: with nobody to invalidate, recall the owner at once. */
  function PurgeThenRecall(e: Entry, src: nat, next: Dir): Outcome {
    if Count(Others(e, src, e.owner)) == 0
    then
      if !Valid(e, e.owner) then Throw
      else Done(e.(state := next, req := src, waiting := 0), One(e.owner, RECALL_GOTO_I), None)
    else Purge(e, src, e.owner, next)
  }

  /** GETS in O or F: the owner supplies the data and stays. */
  function AskOwner(e: Entry, src: nat, next: Dir): Outcome {
    if e.owner == src || !Valid(e, e.owner) then Throw
    else Done(e.(state := next, req := src), One(e.owner, RECALL_GOTO_S), None)
  }

  /** One INVACK while S sharers are purged (SM). */
  function SharerAck(e: Entry, src: nat): Outcome
    requires src < |e.presence|
  {
    if e.waiting < 1 || !Valid(e, e.req) then Throw
    else
      var d := Drop(e, src).(waiting := e.waiting - 1);
      if d.waiting > 0 then Done(d, Nothing, None)
      else if d.presence[d.req] then Done(d.(state := Dir.M), One(d.req, ACK), None)
      else Fetch(d, d.req, Dir.M, false)
  }

  /** One INVACK while the sharers around an owner are purged (OM, FM). */
  function OwnerAck(e: Entry, src: nat): Outcome
    requires src < |e.presence|
  {
    if e.waiting < 1 || !Valid(e, e.owner) then Throw
    else
      var d := Drop(e, src).(waiting := e.waiting - 1);
      if d.waiting > 0 then Done(d, Nothing, None)
      else if d.sharers == 1 && d.req == d.owner then Done(d.(state := Dir.M), One(d.req, ACK), None)
      else Done(d, One(d.owner, RECALL_GOTO_I), None)
  }

  /** The recalled owner's data arrived (OM, FM): the requester becomes the only holder. */
  function OwnerGone(e: Entry): Outcome {
    if !Valid(e, e.owner) || !Valid(e, e.req) then Throw
    else
      var d := Drop(e, e.owner);
      if d.presence[d.req] then Done(d.(state := Dir.M, owner := -1), One(d.req, ACK), None)
      else Done(Add(d, d.req).(state := Dir.M, owner := -1), One(d.req, DATA), None)
  }

  // ----- directory: one handler per protocol -----

  function MiHandle(e: Entry, src: nat, k: Kind): (o: Outcome)
    requires src < |e.presence|
    ensures o.Done? ==> |o.entry.presence| == |e.presence|
  {
    match e.state
    case I => if k.GETM? then Fetch(e, src, Dir.M, false) else Throw
    case M => if k.GETM? then Recall(e, src, RECALL_GOTO_I, Dir.MM) else Throw
    case MM => if k.DATA? then HandOver(e, src) else if k.GETM? then Cycle else Throw
    case _ => Throw
  }

  function MsiHandle(e: Entry, src: nat, k: Kind): (o: Outcome)
    requires src < |e.presence|
    ensures o.Done? ==> |o.entry.presence| == |e.presence|
  {
    match e.state
    case I =>
      if k.GETM? then Done(AddOnce(e, src).(state := Dir.M), Nothing, Some(Latch(src, false)))
      else if k.GETS? then Done(AddOnce(e, src).(state := Dir.S), Nothing, Some(Latch(src, false)))
      else Throw
    case M =>
      if k.GETM? then Done(e.(state := Dir.MM, req := src), One(First(e.presence), RECALL_GOTO_I), None)
      else if k.GETS? then Done(e.(state := Dir.MS, req := src), One(First(e.presence), RECALL_GOTO_S), None)
      else Throw
    case MM => if k.DATA? then MsiHandOver(e) else if k.GETM? || k.GETS? then Cycle else Throw
    case MS => if k.DATA? then Share(e, Dir.S) else if k.GETM? || k.GETS? then Cycle else Throw
    case S =>
      if k.GETM? then MsiPurge(e, src)
      else if k.GETS? then Done(AddOnce(e, src), Nothing, Some(Latch(src, false)))
      else Throw
    case SM => if k.INVACK? then MsiSharerAck(e, src) else if k.GETM? || k.GETS? then Cycle else Throw
    case _ => Throw
  }

  /** MSI keeps no owner: the first presence bit names the holder. */
  function MsiHandOver(e: Entry): Outcome {
    var holder := First(e.presence);
    if !Valid(e, e.req) then Throw
    else
      var d := if holder < |e.presence| && e.presence[holder] then Drop(e, holder) else e;
      Done(Add(d, e.req).(state := Dir.M), One(e.req, DATA), None)
  }

  function MsiPurge(e: Entry, src: nat): Outcome
    requires src < |e.presence|
  {
    var m := Others(e, src, -1);
    if Count(m) == 0 then Done(e.(state := Dir.M), One(src, ACK), None)
    else Done(e.(state := Dir.SM, req := src, waiting := Count(m), upgrade := e.presence[src]), Invalidate(m), None)
  }

  function MsiSharerAck(e: Entry, src: nat): Outcome
    requires src < |e.presence|
  {
    var d := Drop(e, src).(waiting := e.waiting - 1);
    if d.waiting != 0 then Done(d, Nothing, None)
    else if !Valid(e, e.req) then Throw
    else if d.upgrade then Done(d.(state := Dir.M), One(d.req, ACK), None)
    else Fetch(d, d.req, Dir.M, false)
  }

  function MesiHandle(e: Entry, src: nat, k: Kind): (o: Outcome)
    requires src < |e.presence|
    ensures o.Done? ==> |o.entry.presence| == |e.presence|
  {
    match e.state
    case I =>
      if k.GETS? then Fetch(e, src, Dir.E, true)
      else if k.GETM? || k.GETX? then Fetch(e, src, Dir.M, false)
      else Throw
    case M =>
      if k.GETS? then Recall(e, src, RECALL_GOTO_S, Dir.MS)
      else if k.GETM? || k.GETX? then Recall(e, src, RECALL_GOTO_I, Dir.MM)
      else Throw
    case E =>
      if k.GETS? then Recall(e, src, RECALL_GOTO_S, Dir.ES)
      else if k.GETM? then Recall(e, src, RECALL_GOTO_I, Dir.EM)
      else if k.GETX? then Done(e.(state := Dir.M), One(src, ACK), None)
      else Throw
    case S =>
      if k.GETS? then Fetch(e, src, Dir.S, false)
      else if k.GETM? || k.GETX? then Purge(e, src, -1, Dir.SM)
      else Throw
    case SM => if k.INVACK? then SharerAck(e, src) else if k.Request() then Cycle else Throw
    case MM => if k.DATA? then HandOver(e, src) else if k.Request() then Cycle else Throw
    case EM => if k.DATA? then HandOver(e, src) else if k.Request() then Cycle else Throw
    case MS => if k.DATA? then Share(e, Dir.S) else if k.Request() then Cycle else Throw
    case ES => if k.DATA? then Share(e, Dir.S) else if k.Request() then Cycle else Throw
    case _ => Throw
  }

  function MosiHandle(e: Entry, src: nat, k: Kind): (o: Outcome)
    requires src < |e.presence|
    ensures o.Done? ==> |o.entry.presence| == |e.presence|
  {
    match e.state
    case I =>
      if k.GETM? then Fetch(e, src, Dir.M, false) else if k.GETS? then Fetch(e, src, Dir.S, false) else Throw
    case M =>
      if k.GETM? then Recall(e, src, RECALL_GOTO_I, Dir.MM)
      else if k.GETS? then RecallToOwner(e, src, Dir.MO)
      else Throw
    case S =>
      if k.GETS? then Fetch(e, src, Dir.S, false)
      else if !k.GETM? then Throw
      else if Count(Others(e, src, -1)) == 0 then Done(e.(state := Dir.M, waiting := 0), One(src, ACK), None)
      else Purge(e, src, -1, Dir.SM)
    case O =>
      if k.GETM? then PurgeThenRecall(e, src, Dir.OM) else if k.GETS? then AskOwner(e, src, Dir.OO) else Throw
    case SM => if k.INVACK? then SharerAck(e, src) else if k.GETM? || k.GETS? then Cycle else Throw
    case MM => if k.DATA? then HandOver(e, src) else if k.GETM? || k.GETS? then Cycle else Throw
    case MO => if k.DATA? then Share(e, Dir.O) else if k.GETM? || k.GETS? then Cycle else Throw
    case OO => if k.DATA? then Share(e, Dir.O) else if k.GETM? || k.GETS? then Cycle else Throw
    case OM =>
      if k.INVACK? then OwnerAck(e, src)
      else if k.DATA? then OwnerGone(e)
      else if k.GETM? || k.GETS? then Cycle
      else Throw
    case _ => Throw
  }

  /** MOESIF with no forwarder or owner. */
  function MoesifPlain(e: Entry, src: nat, k: Kind): (o: Outcome)
    requires src < |e.presence|
    ensures o.Done? ==> |o.entry.presence| == |e.presence|
  {
    match e.state
    case I =>
      if k.GETS? then Fetch(e, src, Dir.E, true)
      else if k.GETM? || k.GETX? then Fetch(e, src, Dir.M, false)
      else Throw
    case S =>
      if k.GETS? then Done(AddOnce(e, src), Nothing, Some(Latch(src, false)))
      else if !(k.GETM? || k.GETX?) then Throw
      else if Count(Others(e, src, -1)) == 0
      then Done(AddOnce(e, src).(state := Dir.M, req := src, waiting := 0), One(src, ACK), None)
      else Purge(e, src, -1, Dir.SM)
    case M =>
      if k.GETS? then RecallToOwner(e, src, Dir.MO)
      else if k.GETM? || k.GETX? then Recall(e, src, RECALL_GOTO_I, Dir.MM)
      else Throw
    case E =>
      if k.GETS? then RecallToOwner(e, src, Dir.EF)
      else if k.GETM? then Recall(e, src, RECALL_GOTO_I, Dir.EM)
      else if k.GETX? then Done(e.(state := Dir.M), One(src, ACK), None)
      else Throw
    case SM => if k.INVACK? then SharerAck(e, src) else if k.Request() then Cycle else Throw
    case MM => if k.DATA? then HandOver(e, src) else if k.Request() then Cycle else Throw
    case EM => if k.DATA? then HandOver(e, src) else if k.Request() then Cycle else Throw
    case MO => if k.DATA? then Share(e, Dir.O) else if k.Request() then Cycle else Throw
    case EF => if k.DATA? then Share(e, Dir.F) else if k.Request() then Cycle else Throw
    case _ => Throw
  }

  /** MOESIF with a forwarder (F) or an owner (O). */
  function MoesifOwned(e: Entry, src: nat, k: Kind): (o: Outcome)
    requires src < |e.presence|
    ensures o.Done? ==> |o.entry.presence| == |e.presence|
  {
    match e.state
    case F =>
      if k.GETM? then PurgeThenRecall(e, src, Dir.FM)
      else if k.GETS? then AskOwner(e, src, Dir.FF)
      else if k.GETX? then Purge(e, src, -1, Dir.FM)
      else Throw
    case O =>
      if k.GETM? then PurgeThenRecall(e, src, Dir.OM)
      else if k.GETS? then AskOwner(e, src, Dir.OO)
      else if k.GETX? then Purge(e, src, e.owner, Dir.OM)
      else Throw
    case FF => if k.DATA? then Share(e, Dir.F) else if k.Request() then Cycle else Throw
    case OO => if k.DATA? then Share(e, Dir.O) else if k.Request() then Cycle else Throw
    case FM => OwnerWait(e, src, k)
    case OM => OwnerWait(e, src, k)
    case _ => Throw
  }

  function OwnerWait(e: Entry, src: nat, k: Kind): (o: Outcome)
    requires src < |e.presence|
    ensures o.Done? ==> |o.entry.presence| == |e.presence|
  {
    if k.INVACK? then OwnerAck(e, src) else if k.DATA? then OwnerGone(e) else if k.Request() then Cycle else Throw
  }

  predicate HasOwner(d: Dir) { d.F? || d.O? || d.FF? || d.OO? || d.FM? || d.OM? }

  function MoesifHandle(e: Entry, src: nat, k: Kind): (o: Outcome)
    requires src < |e.presence|
    ensures o.Done? ==> |o.entry.presence| == |e.presence|
  {
    if HasOwner(e.state) then MoesifOwned(e, src, k) else MoesifPlain(e, src, k)
  }

  function Handler(p: Protocol, e: Entry, src: nat, k: Kind): (o: Outcome)
    requires src < |e.presence|
    ensures o.Done? ==> |o.entry.presence| == |e.presence|
  {
    match p
    case MI => MiHandle(e, src, k)
    case MSI => MsiHandle(e, src, k)
    case MESI => MesiHandle(e, src, k)
    case MOSI => MosiHandle(e, src, k)
    case MOESIF => MoesifHandle(e, src, k)
  }
}
