/** Every event keeps the invariant: agents, channels, latch, and the branches of the five handlers. */
module ProtocolProof {
  import opened Options
  import opened CoherenceTypes
  import opened Protocols
  import opened CoherenceSystem
  import opened CoherenceInvariant
  import opened HandlerProof

  /** An event keeps the invariant and does not crash. */
  predicate Preserved(p: Protocol, s: Sys, ev: Event)
    requires Shaped(s)
  {
    && !Step(p, s, ev).Crash?
    && (Step(p, s, ev).To? ==> Invariant(p, Step(p, s, ev).sys))
  }

  lemma LookupHit(p: Protocol, v: View, nd: Node, r: Reaction)
    requires Agrees(p, v, nd) && nd.cpu.Slot?
    requires r == AgentProc(p, nd.agent, nd.cpu.op) && r.React? && r.reply
    ensures Agrees(p, v, Apply(nd, r))
  {
    assert r.next == nd.agent;
  }

  lemma LookupMiss(p: Protocol, v: View, nd: Node, r: Reaction)
    requires Agrees(p, v, nd) && nd.cpu.Slot? && Sensible(p, v)
    requires r == AgentProc(p, nd.agent, nd.cpu.op) && r.React? && !r.reply
    ensures Agrees(p, v, Apply(nd, r))
  {
    var nd' := Apply(nd, r);
    var k := r.send.value;
    assert nd.up.Requests() == 0 && nd.agent == Stable(Current(p, v, nd));
    assert nd'.up.Answers() == nd.up.Answers();
    assert Current(p, v, nd') == Current(p, v, nd);
    assert nd'.up.Requests() == 1;
    assert Asked(v, nd');
  }

  lemma GrantNode(p: Protocol, v: View, nd: Node)
    requires Agrees(p, v, nd) && Granting(nd)
    ensures AgentNtwk(p, nd.agent, nd.down[0]).React?
    ensures Agrees(p, v, Receive(nd, AgentNtwk(p, nd.agent, nd.down[0])))
  {
  }

  lemma DemandReact(p: Protocol, v: View, nd: Node)
    requires Agrees(p, v, nd) && nd.down != [] && !Granting(nd) && Sensible(p, v)
    ensures !v.ask.Nil? && nd.down == [Demand(v.ask)]
    ensures AgentNtwk(p, nd.agent, nd.down[0]).React?
    ensures AgentNtwk(p, nd.agent, nd.down[0]).send == Some(Answer(v.ask))
    ensures !AgentNtwk(p, nd.agent, nd.down[0]).reply
  {
  }

  lemma DemandNode(p: Protocol, v: View, nd: Node)
    requires Agrees(p, v, nd) && nd.down != [] && !Granting(nd) && Sensible(p, v)
    ensures AgentNtwk(p, nd.agent, nd.down[0]).React?
    ensures Agrees(p, v, Receive(nd, AgentNtwk(p, nd.agent, nd.down[0])))
  {
    DemandReact(p, v, nd);
    var r := AgentNtwk(p, nd.agent, nd.down[0]);
    var nd' := Receive(nd, r);
    assert nd'.down == [];
    var k := Answer(v.ask);
    assert nd'.up.Requests() == nd.up.Requests();
    assert Asked(v, nd');
  }

  lemma OneNode(p: Protocol, s: Sys, i: nat, nd: Node)
    requires Invariant(p, s) && i < |s.nodes|
    requires Agrees(p, ViewOf(s.dir, s.latch, i), nd)
    ensures Invariant(p, s.(nodes := s.nodes[i := nd]))
  {
    var t := s.(nodes := s.nodes[i := nd]);
    forall j | 0 <= j < |t.nodes| ensures AgreesAt(p, t, j) {
      assert AgreesAt(p, s, j);
    }
  }

  lemma Nudge(p: Protocol, v: View, nd: Node, c: Cpu)
    requires Agrees(p, v, nd) && !nd.cpu.Waiting? && !c.Waiting?
    ensures Agrees(p, v, nd.(cpu := c))
  {
  }

  lemma LookupStep(p: Protocol, s: Sys, i: nat)
    requires Invariant(p, s)
    ensures Preserved(p, s, Lookup(i))
  {
    if i < |s.nodes| && s.nodes[i].cpu.Slot? {
      assert AgreesAt(p, s, i);
      var v, nd := ViewOf(s.dir, s.latch, i), s.nodes[i];
      BooksSensible(p, s.dir, s.latch, i);
      var r := AgentProc(p, nd.agent, nd.cpu.op);
      if r.reply { LookupHit(p, v, nd, r); } else { LookupMiss(p, v, nd, r); }
      OneNode(p, s, i, Apply(nd, r));
    }
  }

  lemma DeliverStep(p: Protocol, s: Sys, i: nat)
    requires Invariant(p, s)
    ensures Preserved(p, s, Deliver(i))
  {
    if i < |s.nodes| && s.nodes[i].down != [] {
      assert AgreesAt(p, s, i);
      var v, nd := ViewOf(s.dir, s.latch, i), s.nodes[i];
      BooksSensible(p, s.dir, s.latch, i);
      if Granting(nd) { GrantNode(p, v, nd); } else { DemandNode(p, v, nd); }
      OneNode(p, s, i, Receive(nd, AgentNtwk(p, nd.agent, nd.down[0])));
    }
  }

  lemma CpuStep(p: Protocol, s: Sys, ev: Event)
    requires Invariant(p, s) && (ev.Issue? || ev.Leave? || ev.Return? || ev.Accept?)
    ensures Preserved(p, s, ev)
  {
    var r := Step(p, s, ev);
    if r.To? {
      assert AgreesAt(p, s, ev.i);
      var c := r.sys.nodes[ev.i].cpu;
      Nudge(p, ViewOf(s.dir, s.latch, ev.i), s.nodes[ev.i], c);
      OneNode(p, s, ev.i, s.nodes[ev.i].(cpu := c));
    }
  }

  lemma RespondNode(p: Protocol, v: View, w: View, nd: Node, l: Latch, i: nat)
    requires Agrees(p, v, nd) && Sensible(p, v) && w == v.(latched := None)
    requires v.latched == if l.target == i then Some(l.exclusive) else None
    ensures Agrees(p, w, nd.(down := nd.down + One(l.target, if l.exclusive then DATA_E else DATA).To(i)))
  {
    if l.target == i {
      var g := if l.exclusive then DATA_E else DATA;
      assert nd.down == [];
      assert nd.down + [g] == [g] && [g][1..] == [];
    } else {
      assert nd.down + [] == nd.down;
    }
  }

  lemma RespondStep(p: Protocol, s: Sys)
    requires Invariant(p, s)
    ensures Preserved(p, s, Respond)
  {
    if s.latch.Some? {
      var t := Step(p, s, Respond).sys;
      forall j | 0 <= j < |s.nodes| ensures AgreesAt(p, t, j) {
        assert AgreesAt(p, s, j);
        BooksSensible(p, s.dir, s.latch, j);
        RespondNode(p, ViewOf(s.dir, s.latch, j), ViewOf(s.dir, None, j), s.nodes[j], s.latch.value, j);
      }
    }
  }

  // ----- the directory, protocol by protocol -----

  /** The handler does not throw, and what it does keeps the invariant. */
  predicate Handled(p: Protocol, s: Sys, i: nat, k: Kind, o: Outcome)
    requires Pending(p, s, i, k)
  {
    && !o.Throw?
    && (o.Done? ==> Invariant(p, Commit(s, i, k, o.entry, o.sends, o.latch)))
  }

  lemma Holder(p: Protocol, s: Sys, i: nat, k: Kind)
    requires Pending(p, s, i, k) && s.dir.sharers > 0
    ensures Last(s.dir.presence) >= 0
    ensures First(s.dir.presence) < |s.dir.presence| && s.dir.presence[First(s.dir.presence)]
  {
    var h := CountWitness(s.dir.presence);
  }

  /** A queued message makes sense in the directory's state. */
  lemma Expected(p: Protocol, s: Sys, i: nat, k: Kind)
    requires Pending(p, s, i, k)
    ensures k.Request() || k.Answer()
    ensures k.Answer() ==> !AskOf(s.dir, i).Nil? && Answer(AskOf(s.dir, i)) == k && s.dir.presence[i]
    ensures k.GETX? ==> p.MESI? || p.MOESIF?
    ensures k.GETS? ==> !p.MI?
  {
    assert AgreesAt(p, s, i);
    BooksSensible(p, s.dir, s.latch, i);
  }

  lemma MoesifAnswer(s: Sys, i: nat, k: Kind)
    requires Pending(MOESIF, s, i, k) && k.Answer()
    ensures Handled(MOESIF, s, i, k, MoesifHandle(s.dir, i, k))
  {
    var p, e := MOESIF, s.dir;
    var o := MoesifHandle(e, i, k);
    AnswerIn(p, s, i, k);
    match e.state {
      case MM => HandOverStep(p, s, i, o.entry);
      case EM => HandOverStep(p, s, i, o.entry);
      case MO => ShareStep(p, s, i, Dir.O, o.entry);
      case OO => ShareStep(p, s, i, Dir.O, o.entry);
      case EF => ShareStep(p, s, i, Dir.F, o.entry);
      case FF => ShareStep(p, s, i, Dir.F, o.entry);
      case OM => OwnerAnswer(p, s, i, k, o);
      case FM => OwnerAnswer(p, s, i, k, o);
      case _ => assert false;
    }
  }

  /** An answer in OM or FM. */
  lemma OwnerAnswer(p: Protocol, s: Sys, i: nat, k: Kind, o: Outcome)
    requires Pending(p, s, i, k) && k.Answer() && (p.MOSI? || p.MOESIF?)
    requires s.dir.state.OM? || s.dir.state.FM?
    requires o == if k.INVACK? then OwnerAck(s.dir, i) else OwnerGone(s.dir)
    ensures Handled(p, s, i, k, o)
  {
    AnswerIn(p, s, i, k);
    if k.INVACK? { OwnerAckStep(p, s, i, o.entry, o.sends); } else { OwnerGoneStep(p, s, i, o.entry, o.sends.kind); }
  }

  lemma MoesifRequest(s: Sys, i: nat, k: Kind)
    requires Pending(MOESIF, s, i, k) && k.Request() && !s.dir.state.Transient()
    ensures Handled(MOESIF, s, i, k, MoesifHandle(s.dir, i, k))
  {
    var p, e := MOESIF, s.dir;
    var o := MoesifHandle(e, i, k);
    Expected(p, s, i, k);
    if e.sharers > 0 { Holder(p, s, i, k); }
    Asker(p, s, i, k);
    match e.state {
      case I => FetchStep(p, s, i, k, o.entry.state, k.GETS?, o.entry);
      case M => RecallStep(p, s, i, k, Last(e.presence), o.entry, o.sends.kind);
      case E =>
        if k.GETX? { UpgradeStep(p, s, i, k, o.entry); }
        else { RecallStep(p, s, i, k, Last(e.presence), o.entry, o.sends.kind); }
      case F => OwnerRequest(p, s, i, k, o);
      case O => OwnerRequest(p, s, i, k, o);
      case _ => assert false;
    }
  }

  lemma MoesifStep(s: Sys, i: nat, k: Kind)
    requires Pending(MOESIF, s, i, k)
    ensures Handled(MOESIF, s, i, k, MoesifHandle(s.dir, i, k))
  {
    if k.Answer() { MoesifAnswer(s, i, k); }
    else {
      Expected(MOESIF, s, i, k);
      if !s.dir.state.Transient() { MoesifRequest(s, i, k); }
    }
  }

  /** A request in O or F. */
  lemma OwnerRequest(p: Protocol, s: Sys, i: nat, k: Kind, o: Outcome)
    requires Pending(p, s, i, k) && k.Request() && (p.MOSI? || p.MOESIF?)
    requires s.dir.state.O? || (p.MOESIF? && s.dir.state.F?)
    requires p.MOSI? ==> !k.GETX?
    requires o == Handler(p, s.dir, i, k)
    ensures Handled(p, s, i, k, o)
  {
    var e := s.dir;
    Expected(p, s, i, k);
    Asker(p, s, i, k);
    if k.GETS? { AskOwnerStep(p, s, i, e.(state := if e.state.O? then Dir.OO else Dir.FF, req := i)); }
    else if k.GETM? && Count(Others(e, i, e.owner)) == 0 { OwnerRecallStep(p, s, i, k, o.entry); }
    else {
      var keep := if k.GETX? && e.state.F? then -1 else e.owner;
      CountOthers(e.presence, Others(e, i, keep), i, keep);
      PurgeStep(p, s, i, k, keep, o.entry, Others(e, i, keep));
    }
  }

  lemma MosiStep(s: Sys, i: nat, k: Kind)
    requires Pending(MOSI, s, i, k)
    ensures Handled(MOSI, s, i, k, MosiHandle(s.dir, i, k))
  {
    var p, e := MOSI, s.dir;
    var o := MosiHandle(e, i, k);
    Expected(p, s, i, k);
    if k.Answer() {
      AnswerIn(p, s, i, k);
      match e.state {
        case MM => HandOverStep(p, s, i, o.entry);
        case MO => ShareStep(p, s, i, Dir.O, o.entry);
        case OO => ShareStep(p, s, i, Dir.O, o.entry);
        case SM => SharerAckStep(p, s, i, o.entry, o.sends, o.latch);
        case OM => OwnerAnswer(p, s, i, k, o);
        case _ => assert false;
      }
    } else if !e.state.Transient() {
      if e.sharers > 0 { Holder(p, s, i, k); }
      match e.state {
        case I => FetchStep(p, s, i, k, o.entry.state, false, o.entry);
        case M => RecallStep(p, s, i, k, Last(e.presence), o.entry, o.sends.kind);
        case S =>
          if k.GETS? { FetchStep(p, s, i, k, Dir.S, false, o.entry); }
          else if Count(Others(e, i, -1)) == 0 { UpgradeStep(p, s, i, k, o.entry); }
          else { PurgeStep(p, s, i, k, -1, o.entry, Others(e, i, -1)); }
        case O => OwnerRequest(p, s, i, k, o);
        case _ => assert false;
      }
    }
  }

  lemma MesiAnswer(s: Sys, i: nat, k: Kind)
    requires Pending(MESI, s, i, k) && k.Answer()
    ensures Handled(MESI, s, i, k, MesiHandle(s.dir, i, k))
  {
    var p, o := MESI, MesiHandle(s.dir, i, k);
    Expected(p, s, i, k);
    AnswerIn(p, s, i, k);
    match s.dir.state {
      case MM => HandOverStep(p, s, i, o.entry);
      case EM => HandOverStep(p, s, i, o.entry);
      case MS => ShareStep(p, s, i, Dir.S, o.entry);
      case ES => ShareStep(p, s, i, Dir.S, o.entry);
      case SM => SharerAckStep(p, s, i, o.entry, o.sends, o.latch);
      case _ => assert false;
    }
  }

  /** In S there are two sharers at least, so one of them is not the writer. */
  lemma MesiPurgeStep(s: Sys, i: nat, k: Kind)
    requires Pending(MESI, s, i, k) && k.Request() && !k.GETS? && s.dir.state.S?
    ensures Handled(MESI, s, i, k, MesiHandle(s.dir, i, k))
  {
    var p, e := MESI, s.dir;
    Expected(p, s, i, k);
    Asker(p, s, i, k);
    CountOthers(e.presence, Others(e, i, -1), i, -1);
    PurgeStep(p, s, i, k, -1, MesiHandle(e, i, k).entry, Others(e, i, -1));
  }

  lemma MesiRequest(s: Sys, i: nat, k: Kind)
    requires Pending(MESI, s, i, k) && k.Request() && !s.dir.state.Transient()
    ensures Handled(MESI, s, i, k, MesiHandle(s.dir, i, k))
  {
    var p, e := MESI, s.dir;
    var o := MesiHandle(e, i, k);
    Expected(p, s, i, k);
    if e.sharers > 0 { Holder(p, s, i, k); }
    Asker(p, s, i, k);
    match e.state {
      case I => FetchStep(p, s, i, k, o.entry.state, k.GETS?, o.entry);
      case M => RecallStep(p, s, i, k, Last(e.presence), o.entry, o.sends.kind);
      case E =>
        if k.GETX? { UpgradeStep(p, s, i, k, o.entry); }
        else { RecallStep(p, s, i, k, Last(e.presence), o.entry, o.sends.kind); }
      case S =>
        if k.GETS? { FetchStep(p, s, i, k, Dir.S, false, o.entry); } else { MesiPurgeStep(s, i, k); }
      case _ => assert false;
    }
  }

  lemma MesiStep(s: Sys, i: nat, k: Kind)
    requires Pending(MESI, s, i, k)
    ensures Handled(MESI, s, i, k, MesiHandle(s.dir, i, k))
  {
    if k.Answer() { MesiAnswer(s, i, k); }
    else {
      Expected(MESI, s, i, k);
      if !s.dir.state.Transient() { MesiRequest(s, i, k); }
    }
  }

  lemma MsiStep(s: Sys, i: nat, k: Kind)
    requires Pending(MSI, s, i, k)
    ensures Handled(MSI, s, i, k, MsiHandle(s.dir, i, k))
  {
    var p, e := MSI, s.dir;
    var o := MsiHandle(e, i, k);
    Expected(p, s, i, k);
    if e.sharers > 0 { Holder(p, s, i, k); }
    if k.Answer() {
      AnswerIn(p, s, i, k);
      match e.state {
        case MM =>
          if First(e.presence) != i { CountTwo(e.presence, i, First(e.presence)); }
          HandOverStep(p, s, i, o.entry);
        case MS => ShareStep(p, s, i, Dir.S, o.entry);
        case SM => SharerAckStep(p, s, i, o.entry, o.sends, o.latch);
        case _ => assert false;
      }
    } else if !e.state.Transient() {
      Asker(p, s, i, k);
      match e.state {
        case I => FetchStep(p, s, i, k, o.entry.state, false, o.entry);
        case M => RecallStep(p, s, i, k, First(e.presence), o.entry, o.sends.kind);
        case S =>
          if k.GETS? { FetchStep(p, s, i, k, Dir.S, false, o.entry); }
          else if Count(Others(e, i, -1)) == 0 { UpgradeStep(p, s, i, k, o.entry); }
          else { PurgeStep(p, s, i, k, -1, o.entry, Others(e, i, -1)); }
        case _ => assert false;
      }
    }
  }

  lemma MiStep(s: Sys, i: nat, k: Kind)
    requires Pending(MI, s, i, k)
    ensures Handled(MI, s, i, k, MiHandle(s.dir, i, k))
  {
    var p, e := MI, s.dir;
    var o := MiHandle(e, i, k);
    Expected(p, s, i, k);
    if k.Answer() {
      AnswerIn(p, s, i, k);
      HandOverStep(p, s, i, o.entry);
    } else if !e.state.Transient() {
      if e.sharers > 0 { Holder(p, s, i, k); }
      if e.state.I? { FetchStep(p, s, i, k, Dir.M, false, o.entry); }
      else { RecallStep(p, s, i, k, Last(e.presence), o.entry, o.sends.kind); }
    }
  }

  lemma HandleStep(p: Protocol, s: Sys, i: nat, k: Kind)
    requires Invariant(p, s)
    ensures Preserved(p, s, Handle(i, k))
  {
    if i < |s.nodes| && s.nodes[i].up.Has(k) > 0 && s.latch.None? {
      match p {
        case MI => MiStep(s, i, k);
        case MSI => MsiStep(s, i, k);
        case MESI => MesiStep(s, i, k);
        case MOSI => MosiStep(s, i, k);
        case MOESIF => MoesifStep(s, i, k);
      }
    }
  }

  /** No event of any protocol crashes, and every event keeps the invariant. */
  lemma EventKeepsInvariant(p: Protocol, s: Sys, ev: Event)
    requires Invariant(p, s)
    ensures !Step(p, s, ev).Crash?
    ensures Step(p, s, ev).To? ==> Invariant(p, Step(p, s, ev).sys)
  {
    match ev
    case Issue(_, _) => CpuStep(p, s, ev);
    case Leave(_) => CpuStep(p, s, ev);
    case Return(_) => CpuStep(p, s, ev);
    case Accept(_) => CpuStep(p, s, ev);
    case Lookup(i) => LookupStep(p, s, i);
    case Deliver(i) => DeliverStep(p, s, i);
    case Handle(i, k) => HandleStep(p, s, i, k);
    case Respond => RespondStep(p, s);
  }
}
