/** One cache's agent for one block, as the program runs it: a switch on the state that sends to
    the directory, answers the processor and moves on. The five agent classes are the same switch
    with different rows, so the protocol selects the row where they differ. */
module CacheAgent {
  import opened Options
  import opened CoherenceTypes
  import opened Protocols

  /** The states each protocol's agent has. */
  predicate Has(p: Protocol, a: Agent) {
    match p
    case MI => a.I? || a.M? || a.IM?
    case MSI => a.I? || a.S? || a.M? || a.IS? || a.IM? || a.SM?
    case MESI => a.I? || a.S? || a.E? || a.M? || a.IS? || a.IM? || a.SM? || a.EM?
    case MOSI => a.I? || a.S? || a.M? || a.O? || a.IS? || a.IM? || a.SM? || a.OM?
    case MOESIF => true
  }

  class CacheAgent {
    const protocol: Protocol
    var state: Agent
    var toDirectory: seq<Kind>   // ntwk_out_next of the node
    var replies: nat             // how often cache_in_next of the CPU was filled
    var misses: nat              // cache_misses

    constructor (p: Protocol)
      ensures protocol == p && state == Agent.I && toDirectory == [] && replies == 0 && misses == 0
    {
      protocol, state, toDirectory, replies, misses := p, Agent.I, [], 0, 0;
    }

    method SendDirectory(k: Kind)
      modifies this`toDirectory
      ensures toDirectory == old(toDirectory) + [k]
    {
      toDirectory := toDirectory + [k];
    }

    method SendProcessor()
      modifies this`replies
      ensures replies == old(replies) + 1
    {
      replies := replies + 1;
    }

    /** What reaction r leaves behind, starting from the outputs sent and answered. */
    ghost predicate Reacted(r: Reaction, ok: bool, sent: seq<Kind>, answered: nat)
      reads this
    {
      match r
      case Bad => !ok
      case React(next, send, reply) =>
        && ok && state == next
        && toDirectory == sent + (if send.Some? then [send.value] else [])
        && replies == answered + (if reply then 1 else 0)
    }

    method ProcessProcRequest(op: Op) returns (ok: bool)
      requires Has(protocol, state)
      modifies this
      ensures Reacted(AgentProc(protocol, old(state), op), ok, old(toDirectory), old(replies))
      ensures ok ==> Has(protocol, state)
      ensures misses == old(misses) + (if old(state).I? then 1 else 0)
    {
      ok := true;
      match state {
        case I =>
          if op.Load? && !protocol.MI? { SendDirectory(GETS); state := Agent.IS; }
          else { SendDirectory(GETM); state := Agent.IM; }
          misses := misses + 1;
        case S =>
          if op.Load? { SendProcessor(); } else { SendDirectory(GETM); state := Agent.SM; }
        case E =>
          if op.Load? { SendProcessor(); } else { SendDirectory(GETX); state := Agent.EM; }
        case M => SendProcessor();
        case F =>
          if op.Load? { SendProcessor(); } else { SendDirectory(GETM); state := Agent.FM; }
        case O =>
          if op.Load? { SendProcessor(); } else { SendDirectory(GETM); state := Agent.OM; }
        case _ => ok := false;
      }
    }

    method ProcessNtwkRequest(k: Kind) returns (ok: bool)
      requires Has(protocol, state)
      modifies this`state, this`toDirectory, this`replies
      ensures Reacted(AgentNtwk(protocol, old(state), k), ok, old(toDirectory), old(replies))
      ensures ok ==> Has(protocol, state)
    {
      ok := true;
      match state {
        case I => ok := false;
        case S =>
          if k == REQ_INVALID { SendDirectory(INVACK); state := Agent.I; } else { ok := false; }
        case E =>
          if k == RECALL_GOTO_I { SendDirectory(DATA); state := Agent.I; }
          else if k == RECALL_GOTO_S {
            SendDirectory(DATA);
            state := if protocol.MESI? then Agent.S else Agent.F;
          } else { ok := false; }
        case M =>
          if k == RECALL_GOTO_I { SendDirectory(DATA); state := Agent.I; }
          else if k == RECALL_GOTO_S && !protocol.MI? {
            SendDirectory(DATA);
            state := if protocol.MSI? || protocol.MESI? then Agent.S else Agent.O;
          } else { ok := false; }
        case F => ok := SupplierRecalled(k);
        case O => ok := SupplierRecalled(k);
        case IS =>
          if k == DATA { SendProcessor(); state := Agent.S; }
          else if k == DATA_E && (protocol.MESI? || protocol.MOESIF?) { SendProcessor(); state := Agent.E; }
          else { ok := false; }
        case IM =>
          if k == DATA { SendProcessor(); state := Agent.M; } else { ok := false; }
        case SM =>
          if k == REQ_INVALID { SendDirectory(INVACK); state := Agent.IM; }
          else if k == ACK || k == DATA { SendProcessor(); state := Agent.M; }
          else { ok := false; }
        case EM =>
          if k == RECALL_GOTO_I { SendDirectory(DATA); state := Agent.IM; }
          else if k == RECALL_GOTO_S {
            SendDirectory(DATA);
            state := if protocol.MESI? then Agent.SM else Agent.FM;
          } else if k == ACK || k == DATA { SendProcessor(); state := Agent.M; }
          else { ok := false; }
        case FM =>
          if k == RECALL_GOTO_I { SendDirectory(DATA); state := Agent.IM; }
          else if k == RECALL_GOTO_S { SendDirectory(DATA); }
          else if k == ACK || k == DATA { SendProcessor(); state := Agent.M; }
          else { ok := false; }
        case OM =>
          if k == RECALL_GOTO_I { SendDirectory(DATA); state := Agent.IM; }
          else if k == RECALL_GOTO_S { SendDirectory(DATA); }
          else if k == ACK || (k == DATA && protocol.MOESIF?) { SendProcessor(); state := Agent.M; }
          else { ok := false; }
      }
    }

    /** F and O under a recall. */
    method SupplierRecalled(k: Kind) returns (ok: bool)
      requires state.F? || state.O?
      modifies this`state, this`toDirectory
      ensures ok <==> k == RECALL_GOTO_I || k == RECALL_GOTO_S
      ensures ok ==> toDirectory == old(toDirectory) + [DATA]
      ensures state == if k == RECALL_GOTO_I then Agent.I else old(state)
    {
      ok := true;
      if k == RECALL_GOTO_I { SendDirectory(DATA); state := Agent.I; }
      else if k == RECALL_GOTO_S { SendDirectory(DATA); }
      else { ok := false; }
    }
  }
}
