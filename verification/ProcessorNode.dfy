/** FiciCpu and its cache in place: one outstanding access, and single-slot mailboxes that are filled in a
    tick and shifted in a tock. Each half-cycle is a few events of the machine. */
module ProcessorNode {
  import opened Options
  import opened CoherenceTypes
  import opened Protocols
  import opened CoherenceMachine
  import D = DirectoryController

  // ----- the machine's events, as far as one processor goes -----

  /** The CPU consumes its answer. */
  function Accepted(pr: Proc): Proc {
    if pr.core.Busy? && pr.core.phase.Answered? then pr.(core := Free) else pr
  }

  /** The CPU issues its next access. */
  function Issued(pr: Proc): Proc {
    if pr.core.Free? && pr.trace != []
    then pr.(core := Busy(pr.trace[0].block, InSlot(pr.trace[0].op)), trace := pr.trace[1..])
    else pr
  }

  /** The agent sees the CPU's request; None where it throws. */
  function LookedUp(p: Protocol, pr: Proc, i: nat): Option<Proc>
    requires pr.core.Busy? && pr.core.phase.InSlot?
  {
    var r := AgentProc(p, AgentAt(pr, pr.core.block), pr.core.phase.op);
    if r.Bad? then None
    else Some(Acted(pr.(core := Busy(pr.core.block, Awaiting(pr.core.phase.op))), i, pr.core.block, r))
  }

  /** The agent sees the oldest message from the directory. */
  function Delivered(p: Protocol, pr: Proc, i: nat): Option<Proc>
    requires pr.down != []
  {
    var r := AgentNtwk(p, AgentAt(pr, pr.down[0].block), pr.down[0].kind);
    if r.Bad? then None else Some(Acted(pr.(down := pr.down[1..]), i, pr.down[0].block, r))
  }

  function Outcome(net: Net, i: nat, pr: Option<Proc>): Result
    requires i < |net.procs|
  {
    if pr.None? then Result.Crash else Went(net.(procs := net.procs[i := pr.value]))
  }

  /** These are the events of the machine. */
  lemma EventsOfMachine(p: Protocol, net: Net, i: nat)
    requires WellFormed(net) && i < |net.procs|
    ensures var pr := net.procs[i];
      && Next(p, net, Fetch(i)) == (if pr.core.Free? && pr.trace != [] then Outcome(net, i, Some(Issued(pr)))
        else Stuck)
      && Next(p, net, Event.Accept(i)) ==
        (if pr.core.Busy? && pr.core.phase.Answered? then Outcome(net, i, Some(Accepted(pr))) else Stuck)
      && Next(p, net, Event.Lookup(i)) ==
        (if pr.core.Busy? && pr.core.phase.InSlot? then Outcome(net, i, LookedUp(p, pr, i)) else Stuck)
      && Next(p, net, Event.Deliver(i)) == (if pr.down != [] then Outcome(net, i, Delivered(p, pr, i)) else Stuck)
  {
  }

  // ----- the node -----

  class Node {
    const id: nat
    const protocol: Protocol
    const instrs: seq<Access>
    var curip: nat
    var traceDone: bool
    var outstanding: bool
    var answerNext: bool              // cache_in_next of the CPU
    var answer: bool                  // cache_in
    var cpuInNext: Option<Access>     // mailboxes of the cache
    var cpuIn: Option<Access>
    var ntwkInNext: Option<Down>
    var ntwkIn: Option<Down>
    var agents: map<D.BlockId, Agent>
    var outNext: seq<D.Msg>           // ntwk_out_next of the node
    ghost var current: Access         // the outstanding access

    /** One access at most is under way, and it is in one place. */
    ghost predicate Valid()
      reads this
    {
      && curip <= |instrs| && (traceDone <==> curip == |instrs|)
      && (!outstanding ==> !answer && !answerNext && cpuIn.None? && cpuInNext.None?)
      && (answer || answerNext ==> cpuIn.None? && cpuInNext.None?)
      && !(answer && answerNext) && !(cpuIn.Some? && cpuInNext.Some?)
      && (cpuIn.Some? ==> cpuIn.value == current)
      && (cpuInNext.Some? ==> cpuInNext.value == current)
    }

    ghost function CoreView(): Core
      reads this
    {
      if !outstanding then Free
      else if cpuIn.Some? then Busy(current.block, InSlot(current.op))
      else if cpuInNext.Some? then Busy(current.block, InSlot(current.op))
      else if answer || answerNext then Busy(current.block, Answered)
      else Busy(current.block, Awaiting(current.op))
    }

    /** The processor of the machine; wire is what the network still carries for this node. */
    ghost function View(wire: seq<Down>): Proc
      requires curip <= |instrs|
      reads this
    {
      Proc(instrs[curip..], CoreView(), agents,
           (if ntwkIn.Some? then [ntwkIn.value] else []) + (if ntwkInNext.Some? then [ntwkInNext.value] else []) + wire,
           outNext)
    }

    constructor (id: nat, p: Protocol, trace: seq<Access>)
      ensures Valid() && View([]) == Proc(trace, Free, map[], [], []) && instrs == trace && protocol == p &&
        this.id == id
    {
      this.id, protocol, instrs := id, p, trace;
      curip, traceDone, outstanding := 0, trace == [], false;
      answerNext, answer, cpuInNext, cpuIn, ntwkInNext, ntwkIn := false, false, None, None, None, None;
      agents, outNext, current := map[], [], Access(Load, 0);
    }

    /** FiciCpu::tick: take the answer, then issue the next access unless one is outstanding. */
    method CpuTick()
      requires Valid() && (cpuInNext.None? || outstanding)
      modifies this
      ensures Valid()
      ensures forall wire: seq<Down> ::
        View(wire) == Issued(if old(answer) then Accepted(old(View(wire))) else old(View(wire)))
    {
      if answer {
        answer := false;
        outstanding := false;
      }
      if traceDone || outstanding { return; }
      var inst := instrs[curip];
      cpuInNext := Some(inst);
      current := inst;
      outstanding := true;
      curip := curip + 1;
      if curip == |instrs| { traceDone := true; }
    }

    method CpuTock()
      requires Valid()
      modifies this`answer, this`answerNext
      ensures Valid() && !answerNext && answer == (old(answer) || old(answerNext))
      ensures forall wire: seq<Down> :: View(wire) == old(View(wire))
    {
      if answerNext {
        answer := true;
        answerNext := false;
      }
    }

    method IsDone() returns (done: bool)
      requires Valid()
      ensures done <==> View([]).trace == [] && View([]).core.Free?
    {
      done := traceDone && !outstanding;
    }

    /** What an agent's reaction does here; a reply fills the CPU's mailbox. */
    method React(b: D.BlockId, r: Reaction)
      requires Valid() && r.React?
      requires r.reply ==> CoreView().Busy? && CoreView().phase.Awaiting? && CoreView().block == b
      modifies this`agents, this`outNext, this`answerNext
      ensures Valid()
      ensures forall wire: seq<Down> :: View(wire) == Acted(old(View(wire)), id, b, r)
    {
      agents := agents[b := r.next];
      if r.send.Some? { outNext := outNext + [D.Msg(id, b, r.send.value)]; }
      if r.reply { answerNext := true; }
    }

    /** The CPU half of Cache::tick. */
    method HandleCpu() returns (ok: bool)
      requires Valid() && cpuIn.Some?
      modifies this
      ensures Valid() && (ok ==> cpuIn.None?) && ntwkIn == old(ntwkIn)
      ensures forall wire: seq<Down> :: LookedUp(protocol, old(View(wire)), id) == if ok then Some(View(wire)) else None
    {
      var req := cpuIn.value;
      var agent := if req.block in agents then agents[req.block] else Agent.I;
      var r := AgentProc(protocol, agent, req.op);
      if r.Bad? { return false; }
      cpuIn := None;
      React(req.block, r);
      return true;
    }

    /** The network half; an agent replies only to the access its CPU waits for. */
    method HandleNetwork() returns (ok: bool)
      requires Valid() && ntwkIn.Some?
      requires var m := ntwkIn.value;
        var r := AgentNtwk(protocol, if m.block in agents then agents[m.block] else Agent.I, m.kind);
        r.React? && r.reply ==> CoreView().Busy? && CoreView().phase.Awaiting? && CoreView().block == m.block
      modifies this
      ensures Valid() && (ok ==> ntwkIn.None?)
      ensures forall wire: seq<Down> ::
        Delivered(protocol, old(View(wire)), id) == if ok then Some(View(wire)) else None
    {
      var m := ntwkIn.value;
      var agent := if m.block in agents then agents[m.block] else Agent.I;
      var r := AgentNtwk(protocol, agent, m.kind);
      if r.Bad? { return false; }
      ghost var rest := if ntwkInNext.Some? then [ntwkInNext.value] else [];
      forall wire: seq<Down> ensures ([m] + rest + wire)[1..] == [] + rest + wire {}
      ntwkIn := None;
      React(m.block, r);
      return true;
    }

    /** Cache::tock: the mailboxes shift, and the next message of the network moves into its slot order. */
    method CacheTock()
      requires Valid() && (cpuInNext.None? || cpuIn.None?) && ntwkIn.None?
      modifies this`cpuIn, this`cpuInNext, this`ntwkIn, this`ntwkInNext
      ensures Valid() && cpuInNext.None? && ntwkInNext.None?
      ensures forall wire: seq<Down> :: View(wire) == old(View(wire))
    {
      if cpuInNext.Some? {
        cpuIn := cpuInNext;
        cpuInNext := None;
      }
      if ntwkInNext.Some? {
        ntwkIn := ntwkInNext;
        ntwkInNext := None;
      }
    }

    /** The node hands the cache one message if its mailbox is free. */
    method Receive(m: Down) returns (taken: bool)
      requires Valid()
      modifies this`ntwkInNext
      ensures Valid() && taken == old(ntwkInNext).None?
      ensures forall wire: seq<Down> ::
        if taken then View(wire) == old(View([m] + wire)) else View(wire) == old(View(wire))
    {
      taken := ntwkInNext.None?;
      if taken { ntwkInNext := Some(m); }
    }
  }
}
