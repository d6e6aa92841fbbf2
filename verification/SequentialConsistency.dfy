/** Sequential consistency of the machine: whatever the traces, the protocol and the order of events, the accesses
    that have been answered are, in the order of their answers, what the traces would do one after the other on a
    single memory, each processor in its program's order. */
module SequentialConsistency {
  import opened Options
  import opened CoherenceTypes
  import opened CoherenceMachine
  import opened CoherenceInvariant
  import B = CoherenceSystem
  import C = CoherenceTermination
  import D = DirectoryController
  import R = CoherenceOverRing
  import S = CoherenceSafety
  import V = CoherenceValues

  type Contents = D.BlockId -> V.Values

  /** Processor i's access has been answered, with the content that this store to its block wrote; 0 is the initial
      content. A store is answered with its own. */
  datatype Reply = Reply(i: nat, access: Access, version: nat)

  /** The machine, the data behind each block, and the answers so far. */
  datatype History = History(net: Net, contents: Contents, log: seq<Reply>)

  /** The access that processor i was busy with has been answered. */
  predicate Answered(net: Net, net': Net, i: nat) {
    && i < |net.procs| == |net'.procs| && net.procs[i].core.Busy? && !net.procs[i].core.phase.Answered?
    && net'.procs[i].core == Busy(net.procs[i].core.block, Phase.Answered)
  }

  /** The event is one that answers its processor. */
  predicate Replying(net: Net, ev: Event, net': Net) { (ev.Lookup? || ev.Deliver?) && Answered(net, net', ev.i) }

  /** The data of block b after an event. */
  function Flowed(p: Protocol, net: Net, ev: Event, net': Net, b: D.BlockId, v: V.Values): V.Values {
    After(Block(net, b), EventAt(p, net, ev, b), Block(net', b), v)
  }

  function Replies(net: Net, ev: Event, net': Net, contents: Contents): seq<Reply> {
    if Replying(net, ev, net') then
      var core := net.procs[ev.i].core;
      var v := contents(core.block);
      [Reply(ev.i, Access(core.phase.op, core.block), if ev.i < |v.copies| then v.copies[ev.i] else 0)]
    else []
  }

  /** An event that is not possible changes nothing. */
  ghost function Tell(p: Protocol, h: History, ev: Event): History {
    if !Next(p, h.net, ev).Went? then h
    else
      var net' := Next(p, h.net, ev).net;
      var contents := (b: D.BlockId) => Flowed(p, h.net, ev, net', b, h.contents(b));
      History(net', contents, h.log + Replies(h.net, ev, net', contents))
  }

  ghost function Play(p: Protocol, h: History, evs: seq<Event>): History
    decreases |evs|
  {
    if evs == [] then h else Play(p, Tell(p, h, evs[0]), evs[1..])
  }

  ghost function Opening(traces: seq<seq<Access>>): History {
    History(Start(traces), (b: D.BlockId) => V.Untouched(|traces|), [])
  }

  // ----- what the log is -----

  function StoresTo(log: seq<Reply>, b: D.BlockId): nat {
    if log == [] then 0
    else
      var last := log[|log| - 1].access;
      StoresTo(log[..|log| - 1], b) + (if last.op.Store? && last.block == b then 1 else 0)
  }

  /** Each load returns the last store to its block, each store is the next one. */
  predicate Legal(log: seq<Reply>) {
    forall k :: 0 <= k < |log| ==>
      log[k].version == StoresTo(log[..k], log[k].access.block) + (if log[k].access.op.Store? then 1 else 0)
  }

  function Mine(log: seq<Reply>, i: nat): seq<Access> {
    if log == [] then []
    else Mine(log[..|log| - 1], i) + (if log[|log| - 1].i == i then [log[|log| - 1].access] else [])
  }

  /** The access under way. */
  function Pending(core: Core): seq<Access> {
    if core.Busy? && !core.phase.Answered? then [Access(core.phase.op, core.block)] else []
  }

  ghost predicate Tracked(p: Protocol, traces: seq<seq<Access>>, h: History) {
    && BlocksInvariant(p, h.net) && |h.net.procs| == |traces| && Legal(h.log)
    && (forall b :: V.Fresh(Block(h.net, b), h.contents(b)) && h.contents(b).stores == StoresTo(h.log, b))
    && (forall i :: 0 <= i < |traces| ==>
          traces[i] == Mine(h.log, i) + Pending(h.net.procs[i].core) + h.net.procs[i].trace)
  }

  // ----- one event -----

  /** A block sees an answer exactly when its processor has been given one. */
  lemma AnswerSeen(net: Net, net': Net, b: D.BlockId, i: nat)
    requires |net.procs| == |net'.procs|
    ensures V.Answers(Block(net, b), Block(net', b), i) <==> Answered(net, net', i) && net.procs[i].core.block == b
    ensures Answered(net, net', i) && net.procs[i].core.block == b ==>
      Block(net, b).nodes[i].cpu.op == net.procs[i].core.phase.op
  {
  }

  /** Only its own lookup or delivery answers a processor. */
  lemma AnsweredBy(p: Protocol, net: Net, ev: Event, net': Net, i: nat)
    requires BlocksInvariant(p, net) && Next(p, net, ev) == Went(net') && Answered(net, net', i)
    ensures (ev.Lookup? || ev.Deliver?) && ev.i == i
  {
    var b := net.procs[i].core.block;
    EventSimulated(p, net, ev);
    AnswerSeen(net, net', b, i);
    V.AnswerHolds(p, Block(net, b), EventAt(p, net, ev, b).value, Block(net', b), i);
  }

  /** What processor i has still to do, after an event that answers it or not. */
  lemma OrderKept(p: Protocol, net: Net, ev: Event, net': Net, i: nat)
    requires BlocksInvariant(p, net) && Next(p, net, ev) == Went(net') && i < |net.procs|
    ensures |net'.procs| == |net.procs| && Kept(net, net', i)
  {
    match ev
    case Deliver(j) => DeliveryKept(p, net, j, net', i);
    case Lookup(j) => LookupKept(p, net, j, net', i);
    case Fetch(j) => CpuKept(p, net, ev, net', i);
    case Accept(j) => CpuKept(p, net, ev, net', i);
    case _ => DirectoryKept(p, net, ev, net', i);
  }

  /** What processor i has still to do, before and after. */
  predicate Kept(net: Net, net': Net, i: nat)
    requires i < |net.procs| == |net'.procs|
  {
    var pr, pr' := net.procs[i], net'.procs[i];
    Pending(pr.core) + pr.trace ==
    (if Answered(net, net', i) then [Access(pr.core.phase.op, pr.core.block)] else []) + Pending(pr'.core) + pr'.trace
  }

  lemma DeliveryKept(p: Protocol, net: Net, j: nat, net': Net, i: nat)
    requires BlocksInvariant(p, net) && Next(p, net, Event.Deliver(j)) == Went(net') && i < |net.procs|
    ensures |net'.procs| == |net.procs| && Kept(net, net', i)
  {
    HeadReacts(p, net, j);
  }

  lemma LookupKept(p: Protocol, net: Net, j: nat, net': Net, i: nat)
    requires Next(p, net, Event.Lookup(j)) == Went(net') && i < |net.procs|
    ensures |net'.procs| == |net.procs| && Kept(net, net', i)
  {
  }

  lemma CpuKept(p: Protocol, net: Net, ev: Event, net': Net, i: nat)
    requires Next(p, net, ev) == Went(net') && i < |net.procs| && (ev.Fetch? || ev.Accept?)
    ensures |net'.procs| == |net.procs| && Kept(net, net', i)
  {
  }

  lemma DirectoryKept(p: Protocol, net: Net, ev: Event, net': Net, i: nat)
    requires Next(p, net, ev) == Went(net') && i < |net.procs|
    requires !ev.Deliver? && !ev.Lookup? && !ev.Fetch? && !ev.Accept?
    ensures |net'.procs| == |net.procs| && Kept(net, net', i)
  {
  }

  lemma StoresMore(log: seq<Reply>, r: Reply, b: D.BlockId)
    ensures StoresTo(log + [r], b) == StoresTo(log, b) + (if r.access.op.Store? && r.access.block == b then 1 else 0)
  {
    assert (log + [r])[..|log|] == log;
  }

  lemma MineMore(log: seq<Reply>, r: Reply, i: nat)
    ensures Mine(log + [r], i) == Mine(log, i) + (if r.i == i then [r.access] else [])
  {
    assert (log + [r])[..|log|] == log;
  }

  lemma LegalMore(log: seq<Reply>, r: Reply)
    requires Legal(log)
    requires r.version == StoresTo(log, r.access.block) + (if r.access.op.Store? then 1 else 0)
    ensures Legal(log + [r])
  {
    var more := log + [r];
    forall k | 0 <= k < |more|
      ensures more[k].version == StoresTo(more[..k], more[k].access.block) + (if more[k].access.op.Store? then 1 else 0)
    {
      assert more[..k] == if k < |log| then log[..k] else log;
    }
  }

  /** The data of a block after one of its events, or none. */
  function After(s: B.Sys, e: Option<B.Event>, t: B.Sys, v: V.Values): V.Values {
    if e.Some? && V.Sized(s, v) && |t.nodes| == |s.nodes| then V.Flow(s, e.value, t, v) else v
  }

  lemma BlockFresh(p: Protocol, s: B.Sys, e: Option<B.Event>, t: B.Sys, v: V.Values)
    requires Invariant(p, s) && V.Fresh(s, v) && Follows(p, s, e, t)
    ensures |t.nodes| == |s.nodes| && V.Fresh(t, After(s, e, t, v))
    ensures var w := After(s, e, t, v);
      && (forall i: nat :: V.Answers(s, t, i) ==>
            w.copies[i] == w.stores && w.stores == v.stores + (if s.nodes[i].cpu.op.Store? then 1 else 0))
      && ((forall i: nat :: !V.Answers(s, t, i)) ==> w.stores == v.stores)
  {
    if e.Some? {
      V.EventFresh(p, s, e.value, t, v);
      V.AnswerLast(p, s, e.value, t, v);
    }
  }

  /** The data of every block stay fresh, and its stores are counted. */
  lemma BlockFlowed(p: Protocol, net: Net, ev: Event, net': Net, b: D.BlockId, v: V.Values)
    requires BlocksInvariant(p, net) && V.Fresh(Block(net, b), v) && Next(p, net, ev) == Went(net')
    ensures var w := Flowed(p, net, ev, net', b, v);
      && V.Fresh(Block(net', b), w)
      && (if Replying(net, ev, net') && net.procs[ev.i].core.block == b then
            && w.copies[ev.i] == w.stores
            && w.stores == v.stores + (if net.procs[ev.i].core.phase.op.Store? then 1 else 0)
          else w.stores == v.stores)
  {
    var s, t, e := Block(net, b), Block(net', b), EventAt(p, net, ev, b);
    EventSimulated(p, net, ev);
    BlockFresh(p, s, e, t, v);
    forall i: nat { AnswerSeen(net, net', b, i); }
    forall i: nat | V.Answers(s, t, i) { AnsweredBy(p, net, ev, net', i); }
  }

  lemma BlockTold(p: Protocol, h: History, ev: Event, b: D.BlockId)
    requires BlocksInvariant(p, h.net) && V.Fresh(Block(h.net, b), h.contents(b)) && Next(p, h.net, ev).Went?
    ensures var net', g := Next(p, h.net, ev).net, Tell(p, h, ev);
      var v, w := h.contents(b), g.contents(b);
      && g.net == net' && V.Fresh(Block(net', b), w)
      && (if Replying(h.net, ev, net') && h.net.procs[ev.i].core.block == b then
            && w.copies[ev.i] == w.stores
            && w.stores == v.stores + (if h.net.procs[ev.i].core.phase.op.Store? then 1 else 0)
          else w.stores == v.stores)
  {
    BlockFlowed(p, h.net, ev, Next(p, h.net, ev).net, b, h.contents(b));
  }

  /** The log after an event. */
  lemma LogTold(p: Protocol, h: History, ev: Event, b: D.BlockId)
    requires BlocksInvariant(p, h.net) && Next(p, h.net, ev).Went? && Legal(h.log)
    requires forall c :: V.Fresh(Block(h.net, c), h.contents(c)) && h.contents(c).stores == StoresTo(h.log, c)
    ensures var g := Tell(p, h, ev);
      Legal(g.log) && V.Fresh(Block(g.net, b), g.contents(b)) && g.contents(b).stores == StoresTo(g.log, b)
  {
    BlockTold(p, h, ev, b);
    if Replying(h.net, ev, Next(p, h.net, ev).net) {
      var core := h.net.procs[ev.i].core;
      BlockTold(p, h, ev, core.block);
      var r := LoggedReply(p, h, ev, Tell(p, h, ev).contents(core.block));
      StoresMore(h.log, r, b);
      LegalMore(h.log, r);
    } else {
      NothingLogged(p, h, ev);
    }
  }

  /** What is logged is the answered access, with the content that its block has now. */
  lemma LoggedReply(p: Protocol, h: History, ev: Event, w: V.Values) returns (r: Reply)
    requires Next(p, h.net, ev).Went? && Replying(h.net, ev, Next(p, h.net, ev).net)
    requires w == Tell(p, h, ev).contents(h.net.procs[ev.i].core.block)
    requires ev.i < |w.copies| && w.copies[ev.i] == w.stores
    ensures var core := h.net.procs[ev.i].core; r == Reply(ev.i, Access(core.phase.op, core.block), w.stores)
    ensures Tell(p, h, ev).log == h.log + [r]
  {
    var core := h.net.procs[ev.i].core;
    r := Reply(ev.i, Access(core.phase.op, core.block), w.stores);
  }

  lemma NothingLogged(p: Protocol, h: History, ev: Event)
    requires Next(p, h.net, ev).Went? && !Replying(h.net, ev, Next(p, h.net, ev).net)
    ensures Tell(p, h, ev).log == h.log
  {
    assert h.log + [] == h.log;
  }

  /** Program order after an event. */
  lemma OrderTold(p: Protocol, h: History, ev: Event, i: nat)
    requires BlocksInvariant(p, h.net) && Next(p, h.net, ev).Went? && i < |h.net.procs|
    ensures |Tell(p, h, ev).net.procs| == |h.net.procs|
    ensures var pr, pr' := h.net.procs[i], Tell(p, h, ev).net.procs[i];
      Mine(h.log, i) + Pending(pr.core) + pr.trace == Mine(Tell(p, h, ev).log, i) + Pending(pr'.core) + pr'.trace
  {
    var net', g := Next(p, h.net, ev).net, Tell(p, h, ev);
    var pr, pr' := h.net.procs[i], net'.procs[i];
    OrderKept(p, h.net, ev, net', i);
    if Answered(h.net, net', i) { AnsweredBy(p, h.net, ev, net', i); }
    if Replying(h.net, ev, net') { MineMore(h.log, g.log[|h.log|], i); } else { NothingLogged(p, h, ev); }
    Regrouped(Mine(h.log, i), [], Pending(pr.core), pr.trace);
    Regrouped(Mine(h.log, i), if Answered(h.net, net', i) then [Access(pr.core.phase.op, pr.core.block)] else [],
              Pending(pr'.core), pr'.trace);
  }

  lemma Regrouped(a: seq<Access>, b: seq<Access>, c: seq<Access>, d: seq<Access>)
    ensures a + b + c + d == a + (b + c + d)
    ensures b == [] ==> a + c + d == a + (c + d) && b + c + d == c + d
  {
    if b == [] { assert b + c + d == c + d; }
  }

  lemma EventTracked(p: Protocol, traces: seq<seq<Access>>, h: History, ev: Event)
    requires Tracked(p, traces, h)
    ensures Tracked(p, traces, Tell(p, h, ev))
  {
    if Next(p, h.net, ev).Went? {
      EventKeepsBlocks(p, h.net, ev);
      forall b { LogTold(p, h, ev, b); }
      forall i | 0 <= i < |traces| { OrderTold(p, h, ev, i); }
      LogTold(p, h, ev, 0);
    }
  }

  lemma {:induction false} PlayTracked(p: Protocol, traces: seq<seq<Access>>, h: History, evs: seq<Event>)
    requires Tracked(p, traces, h)
    ensures Tracked(p, traces, Play(p, h, evs))
    decreases |evs|
  {
    if evs != [] {
      EventTracked(p, traces, h, evs[0]);
      PlayTracked(p, traces, Tell(p, h, evs[0]), evs[1..]);
    }
  }

  lemma OpeningTracked(p: Protocol, traces: seq<seq<Access>>)
    ensures Tracked(p, traces, Opening(traces))
  {
    StartBlocks(p, traces);
  }

  /** Sequential consistency. Of any run of the machine, the answers in their order are an interleaving of what the
      processors have done so far of their traces, in program order and each at most one access ahead of its answers;
      in that order each load returns the content that the last store to its block wrote. When the simulation is
      done the interleaving is of the whole traces. */
  lemma SequentiallyConsistent(p: Protocol, traces: seq<seq<Access>>, evs: seq<Event>)
    ensures var h := Play(p, Opening(traces), evs);
      && Legal(h.log) && |h.net.procs| == |traces|
      && (forall i :: 0 <= i < |traces| ==>
            traces[i] == Mine(h.log, i) + Pending(h.net.procs[i].core) + h.net.procs[i].trace)
      && (C.Done(h.net) ==> forall i :: 0 <= i < |traces| ==> Mine(h.log, i) == traces[i])
  {
    OpeningTracked(p, traces);
    PlayTracked(p, traces, Opening(traces), evs);
    var h := Play(p, Opening(traces), evs);
    forall i | C.Done(h.net) && 0 <= i < |traces| ensures Mine(h.log, i) == traces[i] {
      assert C.ProcDone(h.net.procs[i]);
    }
  }

  // ----- permission -----

  /** An answered store has write permission: its agent is in M, and nobody else has a copy or is being sent one. An
      answered load has a copy. */
  lemma AnswerPermission(p: Protocol, traces: seq<seq<Access>>, evs: seq<Event>, ev: Event, net: Net, net': Net, i: nat)
    requires RunNet(p, Start(traces), evs) == Went(net) && Next(p, net, ev) == Went(net') && Answered(net, net', i)
    ensures var core := net.procs[i].core;
      && S.HasCopy(AgentAt(net'.procs[i], core.block))
      && (core.phase.op.Store? ==>
            && AgentAt(net'.procs[i], core.block).M?
            && forall j :: 0 <= j < |net'.procs| && j != i ==> Without(net', core.block, j))
  {
    var b := net.procs[i].core.block;
    MachineSafe(p, traces, evs);
    EventSimulated(p, net, ev);
    AnswerSeen(net, net', b, i);
    AnswerAgent(p, Block(net, b), EventAt(p, net, ev, b), Block(net', b), i);
    EventKeepsBlocks(p, net, ev);
    forall j | net.procs[i].core.phase.op.Store? && 0 <= j < |net'.procs| && j != i ensures Without(net', b, j) {
      BlockSingleWriter(p, net', b, i, j);
    }
  }

  /** Processor j has no copy of the block, and none is on its way or about to be sent. */
  predicate Without(net: Net, b: D.BlockId, j: nat)
    requires j < |net.procs|
  {
    var a, down, l := AgentAt(net.procs[j], b), DownAt(net.procs[j].down, b), net.ctl.pending;
    && (a.I? || a.IS? || a.IM?) && (forall x :: 0 <= x < |down| ==> !down[x].Grant())
    && (l.Some? && l.value.block == b ==> l.value.target != j)
  }

  lemma AnswerAgent(p: Protocol, s: B.Sys, e: Option<B.Event>, t: B.Sys, i: nat)
    requires Invariant(p, s) && Follows(p, s, e, t) && |t.nodes| == |s.nodes| && V.Answers(s, t, i)
    ensures S.HasCopy(t.nodes[i].agent) && (s.nodes[i].cpu.op.Store? ==> t.nodes[i].agent.M?)
  {
    V.AnswerHolds(p, s, e.value, t, i);
  }

  // ----- over the ring -----

  /** The events of the machine that the moves of a run over the ring are. */
  function EventsOf(p: Protocol, z: R.Sizes, sys: R.System, ms: seq<R.Move>): seq<Event>
    decreases |ms|
  {
    if ms == [] then []
    else
      var o, e := R.Go(p, z, sys, ms[0]), R.EventOf(sys, ms[0]);
      if o.Now? then (if e.Some? then [e.value] else []) + EventsOf(p, z, o.sys, ms[1..])
      else EventsOf(p, z, sys, ms[1..])
  }

  lemma {:induction false} RingRun(p: Protocol, z: R.Sizes, sys: R.System, ms: seq<R.Move>, h: History)
    requires R.Consistent(sys) && BlocksInvariant(p, R.Seen(sys)) && z.header >= 1 && h.net == R.Seen(sys)
    ensures var o := R.Run(p, z, sys, ms); o.Now? && Play(p, h, EventsOf(p, z, sys, ms)).net == R.Seen(o.sys)
    decreases |ms|
  {
    if ms != [] {
      var o, e := R.Go(p, z, sys, ms[0]), R.EventOf(sys, ms[0]);
      R.MoveMirrors(p, z, sys, ms[0]);
      R.MirrorKeeps(p, sys, e, o);
      if o.Now? {
        var rest := EventsOf(p, z, o.sys, ms[1..]);
        if e.Some? {
          assert ([e.value] + rest)[1..] == rest;
          RingRun(p, z, o.sys, ms[1..], Tell(p, h, e.value));
        } else {
          assert [] + rest == rest;
          RingRun(p, z, o.sys, ms[1..], h);
        }
      } else {
        RingRun(p, z, sys, ms[1..], h);
      }
    }
  }

  /** With the channels on the ring, and any contention there, the machine is still sequentially consistent. */
  lemma OverRingConsistent(p: Protocol, z: R.Sizes, traces: seq<seq<Access>>, ms: seq<R.Move>)
    requires z.header >= 1
    ensures var o, h := R.Run(p, z, R.Begin(traces), ms), Play(p, Opening(traces), EventsOf(p, z, R.Begin(traces), ms));
      && o.Now? && h.net == R.Seen(o.sys) && Legal(h.log) && |o.sys.local.procs| == |traces|
      && (forall i :: 0 <= i < |traces| ==>
            var pr := o.sys.local.procs[i]; traces[i] == Mine(h.log, i) + Pending(pr.core) + pr.trace)
  {
    R.BeginSeen(traces);
    StartBlocks(p, traces);
    RingRun(p, z, R.Begin(traces), ms, Opening(traces));
    SequentiallyConsistent(p, traces, EventsOf(p, z, R.Begin(traces), ms));
  }
}
