/** The directory controller as the program runs it: a map of entries, a queue that rotates, a
    latched response, and handlers that update one entry field by field and send as they go. */
module DirectoryController {
  import opened Options
  import opened CoherenceTypes
  import opened Protocols

  type BlockId = nat

  /** A message on its way to the directory, and one it sends. */
  datatype Msg = Msg(src: nat, block: BlockId, kind: Kind)
  datatype Packet = Packet(dst: int, block: BlockId, kind: Kind)

  /** The latch fields between schedule_data_response and the response. */
  datatype Pending = Pending(block: BlockId, target: nat, exclusive: bool)

  /** The controller's state as a value. */
  datatype Ctl = Ctl(
    directory: map<BlockId, Entry>,
    queue: seq<Msg>,
    next: seq<Msg>,
    pending: Option<Pending>
  )

  datatype TickResult = Failed | Ticked(ctl: Ctl, out: seq<Packet>)

  function Fresh(n: nat): (e: Entry)
    ensures |e.presence| == n
  {
    Entry(Dir.I, seq(n, i => false), 0, 0, 0, 0, false)
  }

  /** get_entry: a block seen for the first time is in I. */
  function EntryOf(c: Ctl, n: nat, b: BlockId): (e: Entry)
    ensures Sized(c, n) ==> |e.presence| == n
  {
    if b in c.directory then c.directory[b] else Fresh(n)
  }

  predicate Sized(c: Ctl, n: nat) {
    && (forall b :: b in c.directory ==> |c.directory[b].presence| == n)
    && (forall m :: m in c.queue ==> m.src < n)
    && (forall m :: m in c.next ==> m.src < n)
  }

  /** The REQ_INVALIDs of a mask, in node order, from node i on. */
  function InvalidateFrom(m: seq<bool>, i: nat, b: BlockId): seq<Packet>
    requires i <= |m|
    decreases |m| - i
  {
    if i == |m| then []
    else (if m[i] then [Packet(i, b, REQ_INVALID)] else []) + InvalidateFrom(m, i + 1, b)
  }

  function Packets(s: Sends, b: BlockId): seq<Packet> {
    match s
    case Nothing => []
    case One(d, k) => [Packet(d, b, k)]
    case Invalidate(m) => InvalidateFrom(m, 0, b)
  }

  /** What node j receives of block b out of a list of packets. */
  function Received(ps: seq<Packet>, j: nat, b: BlockId): seq<Kind> {
    if ps == [] then []
    else (if ps[0].dst == j && ps[0].block == b then [ps[0].kind] else []) + Received(ps[1..], j, b)
  }

  lemma {:induction false} InvalidateReceived(m: seq<bool>, i: nat, b: BlockId, j: nat, c: BlockId)
    requires i <= |m|
    ensures Received(InvalidateFrom(m, i, b), j, c) == if b == c && i <= j < |m| && m[j] then [REQ_INVALID] else []
    decreases |m| - i
  {
    if i < |m| {
      var rest := InvalidateFrom(m, i + 1, b);
      InvalidateReceived(m, i + 1, b, j, c);
      if m[i] {
        var ps := [Packet(i, b, REQ_INVALID)] + rest;
        assert InvalidateFrom(m, i, b) == ps && ps[1..] == rest;
        assert Received(ps, j, c) == (if i == j && b == c then [REQ_INVALID] else []) + Received(rest, j, c);
      } else {
        assert InvalidateFrom(m, i, b) == rest;
      }
    }
  }

  /** Sending one by one delivers what the handler meant to send, to the block it handled and no other. */
  lemma PacketsReceived(s: Sends, b: BlockId, j: nat, c: BlockId)
    ensures Received(Packets(s, b), j, c) == if b == c then s.To(j) else []
  {
    match s
    case Nothing =>
    case One(d, k) => assert Packets(s, b)[1..] == [];
    case Invalidate(m) => InvalidateReceived(m, 0, b, j, c);
  }

  /** The protocol's handler; no entry has a presence bit for a source that is not a node. */
  function HandlerOf(p: Protocol, e: Entry, m: Msg): Outcome {
    if m.src < |e.presence| then Handler(p, e, m.src, m.kind) else Throw
  }

  /** The request half of a tick: poll the head of the queue unless a response is latched. */
  function Poll(p: Protocol, n: nat, c: Ctl): TickResult {
    if c.pending.Some? || c.queue == [] then Ticked(c, [])
    else
      var m := c.queue[0];
      match HandlerOf(p, EntryOf(c, n, m.block), m)
      case Throw => Failed
      case Cycle => Ticked(c.(queue := c.queue[1..], next := c.next + [m]), [])
      case Done(e, s, l) =>
        Ticked(
          c.(directory := c.directory[m.block := e],
             queue := c.queue[1..],
             pending := if l.Some? then Some(Pending(m.block, l.value.target, l.value.exclusive)) else None),
          Packets(s, m.block))
  }

  /** The response half: once the latency has expired, answer the latched target. */
  function Answer(c: Ctl, expired: bool): TickResult {
    if c.pending.Some? && expired then
      var l := c.pending.value;
      Ticked(c.(pending := None), [Packet(l.target, l.block, if l.exclusive then DATA_E else DATA)])
    else Ticked(c, [])
  }

  function Tick(p: Protocol, n: nat, c: Ctl, expired: bool): TickResult {
    match Poll(p, n, c)
    case Failed => Failed
    case Ticked(d, out) => var r := Answer(d, expired); Ticked(r.ctl, out + r.out)
  }

  predicate InRange(e: Entry, i: int) { Protocols.Valid(e, i) }

  /** An all-clear mask sends nothing. */
  lemma {:induction false} NobodyInvalidated(m: seq<bool>, i: nat, b: BlockId)
    requires i <= |m| && Count(m) == 0
    ensures InvalidateFrom(m, i, b) == []
    decreases |m| - i
  {
    if i < |m| {
      if m[i] { CountPositive(m, i); }
      NobodyInvalidated(m, i + 1, b);
    }
  }

  lemma OneInvalidation(out: seq<Packet>, m: seq<bool>, i: nat, b: BlockId)
    requires i < |m|
    ensures out + InvalidateFrom(m, i, b) ==
      (if m[i] then out + [Packet(i, b, REQ_INVALID)] else out) + InvalidateFrom(m, i + 1, b)
  {
  }

  lemma CountNext(m: seq<bool>, i: nat)
    requires i < |m|
    ensures Count(m[..i + 1]) == Count(m[..i]) + (if m[i] then 1 else 0)
  {
    assert m[..i + 1][..i] == m[..i];
  }

  class Controller {
    const numProcs: nat
    var directory: map<BlockId, Entry>
    var requestQueue: seq<Msg>
    var requestNext: seq<Msg>
    var sendE: bool
    var tagToSend: BlockId
    var targetNode: int
    var inProgress: bool
    var outbox: seq<Packet>

    constructor (n: nat)
      ensures numProcs == n && Valid() && outbox == []
      ensures State() == Ctl(map[], [], [], None)
    {
      numProcs := n;
      directory, requestQueue, requestNext := map[], [], [];
      sendE, tagToSend, targetNode, inProgress, outbox := false, 0, 0, false, [];
    }

    ghost predicate Valid()
      reads this
    {
      && (inProgress ==> targetNode >= 0)
      && (sendE ==> inProgress)
      && Sized(State(), numProcs)
    }

    ghost function State(): Ctl
      reads this
    {
      Ctl(directory, requestQueue, requestNext,
          if inProgress && targetNode >= 0 then Some(Pending(tagToSend, targetNode, sendE)) else None)
    }

    /** send_Request. */
    method Send(dst: int, block: BlockId, kind: Kind)
      modifies this`outbox
      ensures outbox == old(outbox) + [Packet(dst, block, kind)]
    {
      outbox := outbox + [Packet(dst, block, kind)];
    }

    /** schedule_data_response: latch who gets the block once the latency has passed. */
    method ScheduleDataResponse(block: BlockId, target: nat)
      modifies this`inProgress, this`targetNode, this`tagToSend
      ensures inProgress && targetNode == target && tagToSend == block
    {
      inProgress, targetNode, tagToSend := true, target, block;
    }

    /** The loop that looks for the holder of a block in M or E, with target_node as its variable. */
    method FindHolder(e: Entry)
      modifies this`targetNode
      ensures targetNode == Last(e.presence)
    {
      targetNode := -1;
      for i := 0 to |e.presence|
        invariant targetNode == Last(e.presence[..i])
      {
        assert e.presence[..i + 1][..i] == e.presence[..i];
        if e.presence[i] { targetNode := i; }
      }
      assert e.presence[..|e.presence|] == e.presence;
    }

    /** MSI's loop, which stops at the first holder and falls back on node 0. */
    method FindFirstHolder(e: Entry) returns (holder: nat)
      ensures holder == First(e.presence)
    {
      for i := 0 to |e.presence|
        invariant First(e.presence) == FirstFrom(e.presence, i)
      {
        if e.presence[i] { return i; }
      }
      return 0;
    }

    /** The loop that invalidates every sharer but src and keep. */
    method InvalidateSharers(e: Entry, src: nat, keep: int, block: BlockId) returns (waiting: int)
      modifies this`outbox, this`tagToSend, this`targetNode
      ensures waiting == Count(Others(e, src, keep))
      ensures outbox == old(outbox) + Packets(Invalidate(Others(e, src, keep)), block)
    {
      ghost var m := Others(e, src, keep);
      ghost var total := outbox + InvalidateFrom(m, 0, block);
      waiting := 0;
      for i := 0 to |e.presence|
        invariant waiting == Count(m[..i])
        invariant outbox + InvalidateFrom(m, i, block) == total
      {
        CountNext(m, i);
        OneInvalidation(outbox, m, i, block);
        if e.presence[i] && i != src && i != keep {
          tagToSend, targetNode := block, i;
          waiting := waiting + 1;
          Send(i, block, REQ_INVALID);
        }
      }
      assert m[..|m|] == m;
      assert outbox + [] == outbox;
    }

    /** The controller, having started from the outbox before, has reached outcome o for block. */
    ghost predicate Reached(o: Outcome, before: seq<Packet>, ok: bool, cycle: bool, e: Entry, block: BlockId)
      reads this
    {
      match o
      case Throw => !ok
      case Cycle => ok && cycle && outbox == before && !inProgress && !sendE
      case Done(f, s, l) =>
        && ok && !cycle && e == f && outbox == before + Packets(s, block)
        && inProgress == l.Some?
        && sendE == (l.Some? && l.value.exclusive)
        && (l.Some? ==> tagToSend == block && targetNode == l.value.target)
    }

    /** GETS in I where E is supported. */
    method GrantExclusive(entry: Entry, src: nat, block: BlockId) returns (e: Entry)
      requires src < |entry.presence| && !inProgress && !sendE
      modifies this`tagToSend, this`targetNode, this`inProgress, this`sendE
      ensures Reached(Fetch(entry, src, Dir.E, true), outbox, true, false, e, block)
    {
      e := entry.(state := Dir.E);
      sendE := true;
      e := e.(presence := e.presence[src := true], sharers := e.sharers + 1);
      ScheduleDataResponse(block, src);
    }

    /** Any other first fetch from memory. */
    method Grant(entry: Entry, src: nat, block: BlockId, next: Dir) returns (e: Entry)
      requires src < |entry.presence| && !inProgress && !sendE
      modifies this`tagToSend, this`targetNode, this`inProgress
      ensures Reached(Fetch(entry, src, next, false), outbox, true, false, e, block)
    {
      e := entry.(state := next, presence := entry.presence[src := true], sharers := entry.sharers + 1);
      ScheduleDataResponse(block, src);
    }

    /** One invalidation round-trip less; the last one in SM, see MOESIF_tick, MESI_tick and MOSI_tick. */
    method CountSharerAck(entry: Entry, src: nat, block: BlockId) returns (ok: bool, e: Entry)
      requires src < |entry.presence| && !inProgress && !sendE
      modifies this`outbox, this`tagToSend, this`targetNode, this`inProgress
      ensures Reached(SharerAck(entry, src), old(outbox), ok, false, e, block)
    {
      ok, e := true, entry;
      if e.waiting < 1 || !InRange(e, e.req) { ok := false; return; }
      e := e.(presence := e.presence[src := false]);
      e := e.(waiting := e.waiting - 1);
      e := e.(sharers := e.sharers - 1);
      if e.waiting == 0 {
        if e.presence[e.req] {
          Send(e.req, block, ACK);
          e := e.(state := Dir.M);
        } else {
          e := e.(presence := e.presence[e.req := true], sharers := e.sharers + 1);
          e := e.(state := Dir.M);
          ScheduleDataResponse(block, e.req);
        }
      }
    }

    /** One invalidation round-trip less in OM or FM. */
    method CountOwnerAck(entry: Entry, src: nat, block: BlockId) returns (ok: bool, e: Entry)
      requires src < |entry.presence| && !inProgress && !sendE
      modifies this`outbox, this`tagToSend, this`targetNode
      ensures Reached(OwnerAck(entry, src), old(outbox), ok, false, e, block)
    {
      ok, e := true, entry;
      if e.waiting < 1 || !InRange(e, e.owner) { ok := false; return; }
      e := e.(presence := e.presence[src := false]);
      e := e.(waiting := e.waiting - 1);
      e := e.(sharers := e.sharers - 1);
      if e.waiting == 0 {
        tagToSend := block;
        if e.sharers == 1 && e.req == e.owner {
          targetNode := e.req;
          Send(e.req, block, ACK);
          e := e.(state := Dir.M);
        } else {
          Send(e.owner, block, RECALL_GOTO_I);
        }
      }
    }

    /** The owner's data in OM or FM. */
    method RetireOwner(entry: Entry, block: BlockId) returns (ok: bool, e: Entry)
      requires !inProgress && !sendE
      modifies this`outbox, this`tagToSend, this`targetNode
      ensures Reached(OwnerGone(entry), old(outbox), ok, false, e, block)
    {
      ok, e := true, entry;
      if !InRange(e, e.owner) || !InRange(e, e.req) { ok := false; return; }
      e := e.(presence := e.presence[e.owner := false]);
      e := e.(sharers := e.sharers - 1);
      tagToSend, targetNode := block, e.req;
      if e.presence[e.req] {
        Send(e.req, block, ACK);
      } else {
        Send(e.req, block, DATA);
        e := e.(presence := e.presence[e.req := true], sharers := e.sharers + 1);
      }
      e := e.(owner := -1, state := Dir.M);
    }

    /** GETM in O or F. */
    method PurgeOwned(entry: Entry, src: nat, block: BlockId, next: Dir) returns (ok: bool, e: Entry)
      requires src < |entry.presence| && !inProgress && !sendE
      modifies this`outbox, this`tagToSend, this`targetNode
      ensures Reached(PurgeThenRecall(entry, src, next), old(outbox), ok, false, e, block)
    {
      ok, e := true, entry;
      var waiting := InvalidateSharers(e, src, e.owner, block);
      e := e.(waiting := waiting);
      if e.waiting == 0 {
        NobodyInvalidated(Others(entry, src, entry.owner), 0, block);
        if !InRange(e, e.owner) { ok := false; return; }
        tagToSend := block;
        Send(e.owner, block, RECALL_GOTO_I);
      }
      e := e.(req := src, state := next);
    }

    /** Recall the holder of a block in M or E on behalf of src. */
    method RecallHolder(entry: Entry, src: nat, block: BlockId, kind: Kind, next: Dir) returns (ok: bool, e: Entry)
      requires !inProgress && !sendE
      modifies this`outbox, this`tagToSend, this`targetNode
      ensures Reached(Recall(entry, src, kind, next), old(outbox), ok, false, e, block)
    {
      ok, e := true, entry;
      tagToSend := block;
      FindHolder(e);
      if targetNode < 0 { ok := false; return; }
      Send(targetNode, block, kind);
      e := e.(state := next, req := src);
    }

    /** The same, recording the holder in o_f_id. */
    method RecallOwner(entry: Entry, src: nat, block: BlockId, next: Dir) returns (ok: bool, e: Entry)
      requires !inProgress && !sendE
      modifies this`outbox, this`tagToSend, this`targetNode
      ensures Reached(RecallToOwner(entry, src, next), old(outbox), ok, false, e, block)
    {
      ok, e := true, entry;
      tagToSend := block;
      FindHolder(e);
      if targetNode < 0 { ok := false; return; }
      e := e.(owner := targetNode);
      Send(targetNode, block, RECALL_GOTO_S);
      e := e.(state := next, req := src);
    }

    /** MM or EM with DATA. */
    method PassOn(entry: Entry, src: nat, block: BlockId) returns (ok: bool, e: Entry)
      requires src < |entry.presence| && !inProgress && !sendE
      modifies this`outbox, this`tagToSend, this`targetNode
      ensures Reached(HandOver(entry, src), old(outbox), ok, false, e, block)
    {
      ok, e := true, entry;
      if !InRange(e, e.req) { ok := false; return; }
      tagToSend, targetNode := block, e.req;
      e := e.(presence := e.presence[src := false]);
      e := e.(sharers := e.sharers - 1);
      Send(e.req, block, DATA);
      e := e.(state := Dir.M);
      e := e.(presence := e.presence[e.req := true], sharers := e.sharers + 1);
    }

    /** MO, MS, EF, ES, FF or OO with DATA. */
    method Join(entry: Entry, block: BlockId, next: Dir) returns (ok: bool, e: Entry)
      requires !inProgress && !sendE
      modifies this`outbox, this`tagToSend, this`targetNode
      ensures Reached(Share(entry, next), old(outbox), ok, false, e, block)
    {
      ok, e := true, entry;
      if !InRange(e, e.req) { ok := false; return; }
      tagToSend, targetNode := block, e.req;
      Send(e.req, block, DATA);
      e := e.(state := next);
      e := e.(presence := e.presence[e.req := true], sharers := e.sharers + 1);
    }

    /** GETS in O or F. */
    method AskForCopy(entry: Entry, src: nat, block: BlockId, next: Dir) returns (ok: bool, e: Entry)
      requires !inProgress && !sendE
      modifies this`outbox, this`tagToSend
      ensures Reached(AskOwner(entry, src, next), old(outbox), ok, false, e, block)
    {
      ok, e := true, entry;
      if e.owner == src || !InRange(e, e.owner) { ok := false; return; }
      tagToSend := block;
      Send(e.owner, block, RECALL_GOTO_S);
      e := e.(req := src, state := next);
    }

    method MoesifPurge(entry: Entry, src: nat, kind: Kind, block: BlockId) returns (e: Entry)
      requires src < |entry.presence| && !inProgress && !sendE && entry.state == Dir.S && (kind == GETM || kind == GETX)
      modifies this`outbox, this`tagToSend, this`targetNode
      ensures Reached(MoesifPlain(entry, src, kind), old(outbox), true, false, e, block)
    {
      e := entry;
      var waiting := InvalidateSharers(e, src, -1, block);
      e := e.(waiting := waiting, req := src);
      if e.waiting == 0 {
        NobodyInvalidated(Others(entry, src, -1), 0, block);
        Send(src, block, ACK);
        if !e.presence[src] { e := e.(presence := e.presence[src := true], sharers := e.sharers + 1); }
        e := e.(state := Dir.M);
      } else {
        e := e.(state := Dir.SM);
      }
    }

    /** The branches of MOESIF_tick without a forwarder or an owner. */
    method MoesifPlainEntry(entry: Entry, src: nat, kind: Kind, block: BlockId)
        returns (ok: bool, cycle: bool, e: Entry)
      requires src < |entry.presence| && !inProgress && !sendE
      modifies this`outbox, this`tagToSend, this`targetNode, this`inProgress, this`sendE
      ensures Reached(MoesifPlain(entry, src, kind), old(outbox), ok, cycle, e, block)
    {
      ok, cycle, e := true, false, entry;
      if e.state == Dir.I && kind == GETM {
        e := Grant(e, src, block, Dir.M);
      } else if e.state == Dir.I && kind == GETS {
        e := GrantExclusive(e, src, block);
      } else if e.state == Dir.I && kind == GETX {
        e := Grant(e, src, block, Dir.M);
      } else if e.state == Dir.S && kind == GETS {
        if !e.presence[src] { e := e.(presence := e.presence[src := true], sharers := e.sharers + 1); }
        ScheduleDataResponse(block, src);
      } else if e.state == Dir.S && (kind == GETM || kind == GETX) {
        e := MoesifPurge(e, src, kind, block);
      } else if e.state == Dir.SM && kind == INVACK {
        ok, e := CountSharerAck(e, src, block);
      } else if e.state == Dir.M && kind == GETM {
        ok, e := RecallHolder(e, src, block, RECALL_GOTO_I, Dir.MM);
      } else if e.state == Dir.M && kind == GETS {
        ok, e := RecallOwner(e, src, block, Dir.MO);
      } else if e.state == Dir.M && kind == GETX {
        ok, e := RecallHolder(e, src, block, RECALL_GOTO_I, Dir.MM);
      } else if e.state == Dir.MM && kind == DATA {
        ok, e := PassOn(e, src, block);
      } else if e.state == Dir.MO && kind == DATA {
        ok, e := Join(e, block, Dir.O);
      } else if e.state == Dir.E && kind == GETM {
        ok, e := RecallHolder(e, src, block, RECALL_GOTO_I, Dir.EM);
      } else if e.state == Dir.E && kind == GETS {
        ok, e := RecallOwner(e, src, block, Dir.EF);
      } else if e.state == Dir.E && kind == GETX {
        tagToSend, targetNode := block, src;
        Send(src, block, ACK);
        e := e.(state := Dir.M);
      } else if e.state == Dir.EF && kind == DATA {
        ok, e := Join(e, block, Dir.F);
      } else if e.state == Dir.EM && kind == DATA {
        ok, e := PassOn(e, src, block);
      } else if (e.state == Dir.MM || e.state == Dir.MO || e.state == Dir.EM || e.state == Dir.EF ||
         e.state == Dir.SM) &&
                (kind == GETM || kind == GETS || kind == GETX) {
        cycle := true;
      } else {
        ok := false;
      }
    }

    /** The branches of MOESIF_tick with a forwarder or an owner. */
    method MoesifOwnedEntry(entry: Entry, src: nat, kind: Kind, block: BlockId)
        returns (ok: bool, cycle: bool, e: Entry)
      requires src < |entry.presence| && !inProgress && !sendE
      modifies this`outbox, this`tagToSend, this`targetNode
      ensures Reached(MoesifOwned(entry, src, kind), old(outbox), ok, cycle, e, block)
    {
      ok, cycle, e := true, false, entry;
      if e.state == Dir.F && kind == GETM {
        ok, e := PurgeOwned(e, src, block, Dir.FM);
      } else if e.state == Dir.F && kind == GETS {
        ok, e := AskForCopy(e, src, block, Dir.FF);
      } else if e.state == Dir.F && kind == GETX {
        var waiting := InvalidateSharers(e, src, -1, block);
        e := e.(waiting := waiting, state := Dir.FM, req := src);
      } else if e.state == Dir.FF && kind == DATA {
        ok, e := Join(e, block, Dir.F);
      } else if e.state == Dir.FM && kind == INVACK {
        ok, e := CountOwnerAck(e, src, block);
      } else if e.state == Dir.FM && kind == DATA {
        ok, e := RetireOwner(e, block);
      } else if e.state == Dir.O && kind == GETM {
        ok, e := PurgeOwned(e, src, block, Dir.OM);
      } else if e.state == Dir.O && kind == GETS {
        ok, e := AskForCopy(e, src, block, Dir.OO);
      } else if e.state == Dir.O && kind == GETX {
        var waiting := InvalidateSharers(e, src, e.owner, block);
        e := e.(waiting := waiting, state := Dir.OM, req := src);
      } else if e.state == Dir.OM && kind == INVACK {
        ok, e := CountOwnerAck(e, src, block);
      } else if e.state == Dir.OM && kind == DATA {
        ok, e := RetireOwner(e, block);
      } else if e.state == Dir.OO && kind == DATA {
        ok, e := Join(e, block, Dir.O);
      } else if (e.state == Dir.FM || e.state == Dir.FF || e.state == Dir.OM || e.state == Dir.OO) &&
                (kind == GETM || kind == GETS || kind == GETX) {
        cycle := true;
      } else {
        ok := false;
      }
    }

    method MesiPurge(entry: Entry, src: nat, kind: Kind, block: BlockId) returns (e: Entry)
      requires src < |entry.presence| && !inProgress && !sendE && entry.state == Dir.S && (kind == GETM || kind == GETX)
      modifies this`outbox, this`tagToSend, this`targetNode
      ensures Reached(MesiHandle(entry, src, kind), old(outbox), true, false, e, block)
    {
      e := entry;
      var waiting := InvalidateSharers(e, src, -1, block);
      e := e.(waiting := waiting, state := Dir.SM, req := src);
    }

    method MesiEntry(entry: Entry, src: nat, kind: Kind, block: BlockId) returns (ok: bool, cycle: bool, e: Entry)
      requires src < |entry.presence| && !inProgress && !sendE
      modifies this`outbox, this`tagToSend, this`targetNode, this`inProgress, this`sendE
      ensures Reached(MesiHandle(entry, src, kind), old(outbox), ok, cycle, e, block)
    {
      ok, cycle, e := true, false, entry;
      if e.state == Dir.I && kind == GETM {
        e := Grant(e, src, block, Dir.M);
      } else if e.state == Dir.I && kind == GETS {
        e := GrantExclusive(e, src, block);
      } else if e.state == Dir.I && kind == GETX {
        e := Grant(e, src, block, Dir.M);
      } else if e.state == Dir.M && kind == GETM {
        ok, e := RecallHolder(e, src, block, RECALL_GOTO_I, Dir.MM);
      } else if e.state == Dir.M && kind == GETS {
        ok, e := RecallHolder(e, src, block, RECALL_GOTO_S, Dir.MS);
      } else if e.state == Dir.M && kind == GETX {
        ok, e := RecallHolder(e, src, block, RECALL_GOTO_I, Dir.MM);
      } else if e.state == Dir.MM && kind == DATA {
        ok, e := PassOn(e, src, block);
      } else if e.state == Dir.MS && kind == DATA {
        ok, e := Join(e, block, Dir.S);
      } else if e.state == Dir.E && kind == GETM {
        ok, e := RecallHolder(e, src, block, RECALL_GOTO_I, Dir.EM);
      } else if e.state == Dir.E && kind == GETS {
        ok, e := RecallHolder(e, src, block, RECALL_GOTO_S, Dir.ES);
      } else if e.state == Dir.E && kind == GETX {
        tagToSend, targetNode := block, src;
        Send(src, block, ACK);
        e := e.(state := Dir.M);
      } else if e.state == Dir.ES && kind == DATA {
        ok, e := Join(e, block, Dir.S);
      } else if e.state == Dir.EM && kind == DATA {
        ok, e := PassOn(e, src, block);
      } else if e.state == Dir.S && (kind == GETM || kind == GETX) {
        e := MesiPurge(e, src, kind, block);
      } else if e.state == Dir.S && kind == GETS {
        e := Grant(e, src, block, Dir.S);
      } else if e.state == Dir.SM && kind == INVACK {
        ok, e := CountSharerAck(e, src, block);
      } else if (e.state == Dir.SM || e.state == Dir.MM || e.state == Dir.MS || e.state == Dir.EM ||
         e.state == Dir.ES) &&
                (kind == GETM || kind == GETS || kind == GETX) {
        cycle := true;
      } else {
        ok := false;
      }
    }

    method MosiPurge(entry: Entry, src: nat, block: BlockId) returns (e: Entry)
      requires src < |entry.presence| && !inProgress && !sendE && entry.state == Dir.S
      modifies this`outbox, this`tagToSend, this`targetNode
      ensures Reached(MosiHandle(entry, src, GETM), old(outbox), true, false, e, block)
    {
      e := entry;
      var waiting := InvalidateSharers(e, src, -1, block);
      e := e.(waiting := waiting);
      if e.waiting == 0 {
        NobodyInvalidated(Others(entry, src, -1), 0, block);
        tagToSend, targetNode := block, src;
        Send(src, block, ACK);
        e := e.(state := Dir.M);
      } else {
        e := e.(state := Dir.SM, req := src);
      }
    }

    method MosiEntry(entry: Entry, src: nat, kind: Kind, block: BlockId) returns (ok: bool, cycle: bool, e: Entry)
      requires src < |entry.presence| && !inProgress && !sendE
      modifies this`outbox, this`tagToSend, this`targetNode, this`inProgress
      ensures Reached(MosiHandle(entry, src, kind), old(outbox), ok, cycle, e, block)
    {
      ok, cycle, e := true, false, entry;
      if e.state == Dir.I && kind == GETM {
        e := Grant(e, src, block, Dir.M);
      } else if e.state == Dir.I && kind == GETS {
        e := Grant(e, src, block, Dir.S);
      } else if e.state == Dir.M && kind == GETM {
        ok, e := RecallHolder(e, src, block, RECALL_GOTO_I, Dir.MM);
      } else if e.state == Dir.M && kind == GETS {
        ok, e := RecallOwner(e, src, block, Dir.MO);
      } else if e.state == Dir.MO && kind == DATA {
        ok, e := Join(e, block, Dir.O);
      } else if e.state == Dir.MM && kind == DATA {
        ok, e := PassOn(e, src, block);
      } else if e.state == Dir.S && kind == GETM {
        e := MosiPurge(e, src, block);
      } else if e.state == Dir.S && kind == GETS {
        e := Grant(e, src, block, Dir.S);
      } else if e.state == Dir.SM && kind == INVACK {
        ok, e := CountSharerAck(e, src, block);
      } else if e.state == Dir.O && kind == GETM {
        ok, e := PurgeOwned(e, src, block, Dir.OM);
      } else if e.state == Dir.O && kind == GETS {
        ok, e := AskForCopy(e, src, block, Dir.OO);
      } else if e.state == Dir.OM && kind == INVACK {
        ok, e := CountOwnerAck(e, src, block);
      } else if e.state == Dir.OM && kind == DATA {
        ok, e := RetireOwner(e, block);
      } else if e.state == Dir.OO && kind == DATA {
        ok, e := Join(e, block, Dir.O);
      } else if (e.state == Dir.SM || e.state == Dir.MM || e.state == Dir.MO || e.state == Dir.OM ||
         e.state == Dir.OO) &&
                (kind == GETM || kind == GETS) {
        cycle := true;
      } else {
        ok := false;
      }
    }

    /** MSI recalls the first holder it finds. */
    method MsiRecall(entry: Entry, src: nat, kind: Kind, block: BlockId) returns (e: Entry)
      requires src < |entry.presence| && !inProgress && !sendE && entry.state == Dir.M && (kind == GETM || kind == GETS)
      modifies this`outbox, this`tagToSend
      ensures Reached(MsiHandle(entry, src, kind), old(outbox), true, false, e, block)
    {
      e := entry;
      var holder := FindFirstHolder(e);
      e := e.(req := src);
      if kind == GETM {
        Send(holder, block, RECALL_GOTO_I);
        tagToSend := block;
        e := e.(state := Dir.MM);
      } else {
        Send(holder, block, RECALL_GOTO_S);
        tagToSend := block;
        e := e.(state := Dir.MS);
      }
    }

    method MsiPassOn(entry: Entry, src: nat, block: BlockId) returns (ok: bool, e: Entry)
      requires src < |entry.presence| && !inProgress && !sendE && entry.state == Dir.MM
      modifies this`outbox
      ensures Reached(MsiHandle(entry, src, DATA), old(outbox), ok, false, e, block)
    {
      ok, e := true, entry;
      if !InRange(e, e.req) { ok := false; return; }
      var holder := FindFirstHolder(e);
      if holder < |e.presence| && e.presence[holder] {
        e := e.(presence := e.presence[holder := false], sharers := e.sharers - 1);
      }
      Send(e.req, block, DATA);
      e := e.(presence := e.presence[e.req := true], sharers := e.sharers + 1);
      e := e.(state := Dir.M);
    }

    method MsiPurge(entry: Entry, src: nat, block: BlockId) returns (e: Entry)
      requires src < |entry.presence| && !inProgress && !sendE && entry.state == Dir.S
      modifies this`outbox, this`tagToSend, this`targetNode
      ensures Reached(MsiHandle(entry, src, GETM), old(outbox), true, false, e, block)
    {
      e := entry;
      var sent := InvalidateSharers(e, src, -1, block);
      if sent == 0 {
        NobodyInvalidated(Others(entry, src, -1), 0, block);
        Send(src, block, ACK);
        e := e.(state := Dir.M);
      } else {
        e := e.(req := src, waiting := sent, upgrade := e.presence[src], state := Dir.SM);
      }
    }

    method MsiCountAck(entry: Entry, src: nat, block: BlockId) returns (ok: bool, e: Entry)
      requires src < |entry.presence| && !inProgress && !sendE && entry.state == Dir.SM
      modifies this`outbox, this`tagToSend, this`targetNode, this`inProgress
      ensures Reached(MsiHandle(entry, src, INVACK), old(outbox), ok, false, e, block)
    {
      ok, e := true, entry;
      e := e.(presence := e.presence[src := false], sharers := e.sharers - 1, waiting := e.waiting - 1);
      if e.waiting == 0 {
        if !InRange(e, e.req) { ok := false; return; }
        if e.upgrade {
          Send(e.req, block, ACK);
          e := e.(state := Dir.M);
        } else {
          e := e.(presence := e.presence[e.req := true], sharers := e.sharers + 1, state := Dir.M);
          ScheduleDataResponse(block, e.req);
        }
      }
    }

    method MsiEntry(entry: Entry, src: nat, kind: Kind, block: BlockId) returns (ok: bool, cycle: bool, e: Entry)
      requires src < |entry.presence| && !inProgress && !sendE
      modifies this`outbox, this`tagToSend, this`targetNode, this`inProgress
      ensures Reached(MsiHandle(entry, src, kind), old(outbox), ok, cycle, e, block)
    {
      ok, cycle, e := true, false, entry;
      if e.state == Dir.I && (kind == GETM || kind == GETS) {
        e := e.(state := if kind == GETM then Dir.M else Dir.S);
        if !e.presence[src] { e := e.(presence := e.presence[src := true], sharers := e.sharers + 1); }
        ScheduleDataResponse(block, src);
      } else if e.state == Dir.M && (kind == GETM || kind == GETS) {
        e := MsiRecall(e, src, kind, block);
      } else if e.state == Dir.MM && kind == DATA {
        ok, e := MsiPassOn(e, src, block);
      } else if e.state == Dir.MS && kind == DATA {
        ok, e := Join(e, block, Dir.S);
      } else if e.state == Dir.S && kind == GETM {
        e := MsiPurge(e, src, block);
      } else if e.state == Dir.S && kind == GETS {
        if !e.presence[src] { e := e.(presence := e.presence[src := true], sharers := e.sharers + 1); }
        ScheduleDataResponse(block, src);
      } else if e.state == Dir.SM && kind == INVACK {
        ok, e := MsiCountAck(e, src, block);
      } else if (e.state == Dir.SM || e.state == Dir.MM || e.state == Dir.MS) && (kind == GETM || kind == GETS) {
        cycle := true;
      } else {
        ok := false;
      }
    }

    method MiEntry(entry: Entry, src: nat, kind: Kind, block: BlockId) returns (ok: bool, cycle: bool, e: Entry)
      requires src < |entry.presence| && !inProgress && !sendE
      modifies this`outbox, this`tagToSend, this`targetNode, this`inProgress
      ensures Reached(MiHandle(entry, src, kind), old(outbox), ok, cycle, e, block)
    {
      ok, cycle, e := true, false, entry;
      if e.state == Dir.I && kind == GETM {
        e := Grant(e, src, block, Dir.M);
      } else if e.state == Dir.M && kind == GETM {
        ok, e := RecallHolder(e, src, block, RECALL_GOTO_I, Dir.MM);
      } else if e.state == Dir.MM && kind == DATA {
        ok, e := PassOn(e, src, block);
      } else if e.state == Dir.MM && kind == GETM {
        cycle := true;
      } else {
        ok := false;
      }
    }

    /** tick: the protocol's request half, then the response half. */
    method DoTick(p: Protocol, expired: bool) returns (ok: bool)
      requires Valid()
      modifies this
      ensures ok <==> Tick(p, numProcs, old(State()), expired).Ticked?
      ensures ok ==> Valid()
      ensures ok ==> State() == Tick(p, numProcs, old(State()), expired).ctl
      ensures ok ==> outbox == old(outbox) + Tick(p, numProcs, old(State()), expired).out
    {
      ok := DoPoll(p);
      if ok { DoAnswer(expired); }
    }

    /** The protocol's branch for this message. */
    method Dispatch(p: Protocol, entry: Entry, m: Msg) returns (ok: bool, cycle: bool, e: Entry)
      requires m.src < |entry.presence| && !inProgress && !sendE
      modifies this`outbox, this`tagToSend, this`targetNode, this`inProgress, this`sendE
      ensures Reached(Handler(p, entry, m.src, m.kind), old(outbox), ok, cycle, e, m.block)
    {
      match p {
        case MI => ok, cycle, e := MiEntry(entry, m.src, m.kind, m.block);
        case MSI => ok, cycle, e := MsiEntry(entry, m.src, m.kind, m.block);
        case MESI => ok, cycle, e := MesiEntry(entry, m.src, m.kind, m.block);
        case MOSI => ok, cycle, e := MosiEntry(entry, m.src, m.kind, m.block);
        case MOESIF =>
          if HasOwner(entry.state) { ok, cycle, e := MoesifOwnedEntry(entry, m.src, m.kind, m.block); }
          else { ok, cycle, e := MoesifPlainEntry(entry, m.src, m.kind, m.block); }
      }
    }

    method DoPoll(p: Protocol) returns (ok: bool)
      requires Valid()
      modifies this
      ensures ok <==> Poll(p, numProcs, old(State())).Ticked?
      ensures ok ==> Valid()
      ensures ok ==> State() == Poll(p, numProcs, old(State())).ctl
      ensures ok ==> outbox == old(outbox) + Poll(p, numProcs, old(State())).out
    {
      ok := true;
      if !inProgress && requestQueue != [] {
        var m := requestQueue[0];
        var entry := EntryOf(Ctl(directory, requestQueue, requestNext, None), numProcs, m.block);
        var cycle, e;
        ok, cycle, e := Dispatch(p, entry, m);
        if ok {
          if cycle {
            requestQueue, requestNext := requestQueue[1..], requestNext + [m];
          } else {
            directory := directory[m.block := e];
            requestQueue := requestQueue[1..];
          }
        }
      }
    }

    method DoAnswer(expired: bool)
      requires Valid()
      modifies this`outbox, this`inProgress, this`sendE
      ensures Valid()
      ensures State() == Answer(old(State()), expired).ctl
      ensures outbox == old(outbox) + Answer(old(State()), expired).out
    {
      if inProgress && expired {
        if sendE {
          Send(targetNode, tagToSend, DATA_E);
          sendE := false;
        } else {
          Send(targetNode, tagToSend, DATA);
        }
        inProgress := false;
      }
    }

    /** tock: what was cycled or arrived during the tick joins the end of the queue. */
    method DoTock()
      requires Valid()
      modifies this`requestQueue, this`requestNext
      ensures Valid() && requestNext == []
      ensures State() == old(State()).(queue := old(requestQueue) + old(requestNext), next := [])
    {
      requestQueue, requestNext := requestQueue + requestNext, [];
    }
  }
}
