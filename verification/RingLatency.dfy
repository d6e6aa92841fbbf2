/** How long a message takes: on a ring that carries nothing else, a message of f flits that has r hops to go is taken
    exactly r * (f + 1) cycles after the cycle in which it was sent. */
module RingLatency {
  import opened Ring
  import opened RingNetwork

  /** Where the one message is: in x's queue, or on x's link with so many flits to go. */
  datatype Spot = Queued | Linked(tof: nat)

  function StationOf(n: nat, x: nat, p: Packet, s: Spot): Station
    requires x < n
  {
    var blank := Station([], [], [], Link.Free, Link.Free);
    if s.Queued? then blank.(outQ := [p]) else SetLink(blank, GoesLeft(n, x, p.dst), Carries(p, s.tof))
  }

  /** The ring with the message p at x, and nothing else. */
  function Lone(n: nat, x: nat, p: Packet, s: Spot): (net: Net)
    requires x < n
    ensures |net| == n
  {
    Empty(n)[x := StationOf(n, x, p, s)]
  }

  predicate Travels(n: nat, x: nat, p: Packet) { x < n && p.dst < n && x != p.dst && p.flits >= 1 }

  /** Engines that send nothing and have room. */
  predicate Quiet(engines: seq<Engine>, n: nat) {
    |engines| == n && forall i :: 0 <= i < n ==> engines[i].sends == [] && engines[i].room >= 1
  }

  lemma NeighbourBack(n: nat, x: nat, y: nat, left: bool)
    requires x < n && y < n
    ensures Neighbour(n, x, left) == y <==> Neighbour(n, y, !left) == x
  {
  }

  // ----- one node's tick -----

  /** A message waits for node x at its port. */
  predicate Arriving(net: Net, x: nat, port: nat)
    requires x < |net|
  {
    Enabled(net, Ring.Arrive(Neighbour(|net|, x, port == 0), port != 0))
  }

  lemma {:induction false} IdleHand(h: History, x: nat, room: nat)
    requires x < |h.net| && h.net[x].inQ == []
    ensures Hand(h, x, room) == h
    decreases room
  {
    if room > 0 { IdleHand(h, x, room - 1); }
  }

  /** A node that has nothing queued, nothing arriving and nothing in its inbox does nothing. */
  lemma IdleTick(h: History, x: nat, e: Engine)
    requires x < |h.net| && e.sends == [] && h.net[x].outQ == [] && h.net[x].inQ == []
    requires !Arriving(h.net, x, 0) && !Arriving(h.net, x, 1)
    ensures TickNode(h, x, e) == h
  {
    assert PullPort(h, x, 0) == h;
    assert PullPort(h, x, 1) == h;
    IdleHand(h, x, e.room);
  }

  /** Only a message that has crossed its link arrives, and only at the next node. */
  lemma ArrivesWhere(n: nat, x: nat, p: Packet, s: Spot, k: nat, port: nat)
    requires Travels(n, x, p) && k < n && port <= 1
    ensures Arriving(Lone(n, x, p, s), k, port) <==>
            (s == Linked(0) && k == Hop(n, x, p.dst) && (port != 0) == GoesLeft(n, x, p.dst))
  {
    NeighbourBack(n, k, x, port == 0);
  }

  lemma OthersTick(h: History, x: nat, p: Packet, s: Spot, k: nat, e: Engine)
    requires Travels(|h.net|, x, p) && h.net == Lone(|h.net|, x, p, s) && k < |h.net| && e.sends == []
    requires (s.Queued? ==> k != x) && (s == Linked(0) ==> k != Hop(|h.net|, x, p.dst))
    ensures TickNode(h, k, e) == h
  {
    ArrivesWhere(|h.net|, x, p, s, k, 0);
    ArrivesWhere(|h.net|, x, p, s, k, 1);
    IdleTick(h, k, e);
  }

  /** The holder puts it on its link. */
  lemma QueuedTick(h: History, x: nat, p: Packet, e: Engine)
    requires Travels(|h.net|, x, p) && h.net == Lone(|h.net|, x, p, Queued) && e.sends == []
    ensures TickNode(h, x, e) == History(Lone(|h.net|, x, p, Linked(p.flits)), h.sent, h.taken)
  {
    var n := |h.net|;
    var g := Record(h, Forward(x));
    assert [p][1..] == [];
    SameNet(g.net, Lone(n, x, p, Linked(p.flits)), x);
    assert Drain(h, x) == g;
    ArrivesWhere(n, x, p, Linked(p.flits), x, 0);
    ArrivesWhere(n, x, p, Linked(p.flits), x, 1);
    assert PullPort(g, x, 0) == g;
    assert PullPort(g, x, 1) == g;
    IdleHand(g, x, e.room);
  }

  /** The next node takes it off the link, for itself or to pass it on. */
  function Landed(h: History, x: nat, p: Packet): History
    requires Travels(|h.net|, x, p)
  {
    var n, y := |h.net|, Hop(|h.net|, x, p.dst);
    if y == p.dst then History(Empty(n), h.sent, h.taken + [p]) else History(Lone(n, y, p, Queued), h.sent, h.taken)
  }

  lemma LandingTick(h: History, x: nat, p: Packet, e: Engine)
    requires Travels(|h.net|, x, p) && h.net == Lone(|h.net|, x, p, Linked(0)) && e.sends == [] && e.room >= 1
    ensures TickNode(h, Hop(|h.net|, x, p.dst), e) == Landed(h, x, p)
  {
    var n, y := |h.net|, Hop(|h.net|, x, p.dst);
    var left := GoesLeft(n, x, p.dst);
    HopCloser(n, x, p.dst);
    assert Drain(h, y) == h;
    ArrivesWhere(n, x, p, Linked(0), y, 0);
    ArrivesWhere(n, x, p, Linked(0), y, 1);
    NeighbourBack(n, y, x, !left);
    var g := Record(h, Ring.Arrive(x, left));
    LandingNet(h, x, p);
    PullsOnce(h, y, left, g);
    if y == p.dst { HandOne(g, y, p, e.room); } else { IdleHand(g, y, e.room); }
  }

  lemma LandingNet(h: History, x: nat, p: Packet)
    requires Travels(|h.net|, x, p) && h.net == Lone(|h.net|, x, p, Linked(0))
    ensures var n, y, left := |h.net|, Hop(|h.net|, x, p.dst), GoesLeft(|h.net|, x, p.dst);
      && Enabled(h.net, Ring.Arrive(x, left)) && y != x
      && var g := Next(h.net, Ring.Arrive(x, left));
         g == if y == p.dst then Empty(n)[y := Empty(n)[y].(inQ := [p])] else Lone(n, y, p, Queued)
  {
    var n, y, left := |h.net|, Hop(|h.net|, x, p.dst), GoesLeft(|h.net|, x, p.dst);
    HopCloser(n, x, p.dst);
    var g := Next(h.net, Ring.Arrive(x, left));
    var freed := h.net[x := SetLink(h.net[x], left, Link.Free)];
    SameNet(freed, Empty(n), x);
    SameNet(g, if y == p.dst then Empty(n)[y := Empty(n)[y].(inQ := [p])] else Lone(n, y, p, Queued), y);
  }

  /** Two networks that agree beside x and at x. */
  lemma SameNet(a: Net, b: Net, x: nat)
    requires |a| == |b| && x < |a| && a[x] == b[x] && forall k :: 0 <= k < |a| && k != x ==> a[k] == b[k]
    ensures a == b
  {
  }

  /** The message is pulled at one port, and then nothing arrives at the other. */
  lemma PullsOnce(h: History, y: nat, left: bool, g: History)
    requires y < |h.net| == |g.net|
    requires Arriving(h.net, y, if left then 1 else 0) && !Arriving(h.net, y, if left then 0 else 1)
    requires g == Record(h, Ring.Arrive(Neighbour(|h.net|, y, !left), left))
    requires !Arriving(g.net, y, 0) && !Arriving(g.net, y, 1)
    ensures Pull(h, y) == g
  {
  }

  lemma {:induction false} HandOne(h: History, y: nat, p: Packet, room: nat)
    requires y < |h.net| && h.net == Empty(|h.net|)[y := Empty(|h.net|)[y].(inQ := [p])] && room >= 1
    ensures Hand(h, y, room) == History(Empty(|h.net|), h.sent, h.taken + [p])
    decreases room
  {
    if room > 1 { HandOne(h, y, p, room - 1); }
    else { assert Hand(h, y, 0) == h; }
    assert [p][1..] == [];
    SameNet(Next(h.net, Take(y)), Empty(|h.net|), y);
  }

  // ----- a cycle -----

  /** The tick of all nodes: the message goes onto its link, travels, or lands. */
  function Ticked(h: History, x: nat, p: Packet, s: Spot): History
    requires Travels(|h.net|, x, p)
  {
    match s
    case Queued => History(Lone(|h.net|, x, p, Linked(p.flits)), h.sent, h.taken)
    case Linked(t) => if t == 0 then Landed(h, x, p) else h
  }

  /** The node that acts. */
  function Actor(n: nat, x: nat, p: Packet, s: Spot): nat
    requires x < n
  {
    if s.Queued? then x else Hop(n, x, p.dst)
  }

  /** The ring when the first k nodes have ticked. */
  function Ticking(h: History, x: nat, p: Packet, s: Spot, k: nat): History
    requires Travels(|h.net|, x, p)
  {
    if k <= Actor(|h.net|, x, p, s) then h else Ticked(h, x, p, s)
  }

  lemma {:induction false} TicksLone(h: History, x: nat, p: Packet, s: Spot, k: nat, engines: seq<Engine>)
    requires Travels(|h.net|, x, p) && h.net == Lone(|h.net|, x, p, s) && k <= |h.net| && Quiet(engines, |h.net|)
    ensures TickNodes(h, k, engines) == Ticking(h, x, p, s, k)
  {
    if k > 0 {
      TicksLone(h, x, p, s, k - 1, engines);
      TickingNode(h, x, p, s, k - 1, engines[k - 1]);
    }
  }

  lemma TickingNode(h: History, x: nat, p: Packet, s: Spot, k: nat, e: Engine)
    requires Travels(|h.net|, x, p) && h.net == Lone(|h.net|, x, p, s) && k < |h.net| && e.sends == [] && e.room >= 1
    ensures TickNode(Ticking(h, x, p, s, k), k, e) == Ticking(h, x, p, s, k + 1)
  {
    if k > Actor(|h.net|, x, p, s) { AfterTick(h, x, p, s, k, e); } else { NodeTick(h, x, p, s, k, e); }
  }

  lemma NodeTick(h: History, x: nat, p: Packet, s: Spot, k: nat, e: Engine)
    requires Travels(|h.net|, x, p) && h.net == Lone(|h.net|, x, p, s) && k < |h.net| && e.sends == [] && e.room >= 1
    ensures TickNode(h, k, e) == if k == Actor(|h.net|, x, p, s) then Ticked(h, x, p, s) else h
  {
    if s.Queued? && k == x { QueuedTick(h, x, p, e); }
    else if s == Linked(0) && k == Hop(|h.net|, x, p.dst) { LandingTick(h, x, p, e); }
    else { OthersTick(h, x, p, s, k, e); }
  }

  /** The nodes that tick later leave it where it is. */
  lemma AfterTick(h: History, x: nat, p: Packet, s: Spot, k: nat, e: Engine)
    requires Travels(|h.net|, x, p) && h.net == Lone(|h.net|, x, p, s) && k < |h.net| && e.sends == [] && e.room >= 1
    requires k != Actor(|h.net|, x, p, s)
    ensures TickNode(Ticked(h, x, p, s), k, e) == Ticked(h, x, p, s)
  {
    var n, g := |h.net|, Ticked(h, x, p, s);
    HopCloser(n, x, p.dst);
    if s.Queued? { OthersTick(g, x, p, Linked(p.flits), k, e); }
    else if s.tof > 0 { OthersTick(g, x, p, s, k, e); }
    else if Hop(n, x, p.dst) == p.dst { IdleTick(g, k, e); }
    else { OthersTick(g, Hop(n, x, p.dst), p, Queued, k, e); }
  }

  lemma {:induction false} TocksEmpty(h: History, k: nat)
    requires h.net == Empty(|h.net|) && k <= |h.net|
    ensures TockNodes(h, k) == h
  {
    if k > 0 {
      TocksEmpty(h, k - 1);
      SameNet(Next(h.net, Tock(k - 1)), h.net, k - 1);
    }
  }

  function Aged(s: Spot): Spot { if s.Linked? && s.tof > 0 then Linked(s.tof - 1) else s }

  lemma {:induction false} TocksLone(h: History, x: nat, p: Packet, s: Spot, k: nat)
    requires Travels(|h.net|, x, p) && h.net == Lone(|h.net|, x, p, s) && k <= |h.net|
    ensures TockNodes(h, k) ==
            if k <= x then h else History(Lone(|h.net|, x, p, Aged(s)), h.sent, h.taken)
  {
    if k > 0 {
      TocksLone(h, x, p, s, k - 1);
      var n, g := |h.net|, TockNodes(h, k - 1);
      var r := if k <= x then h else History(Lone(n, x, p, Aged(s)), h.sent, h.taken);
      assert forall q: seq<Packet> :: q + [] == q;
      SameNet(Next(g.net, Tock(k - 1)), r.net, k - 1);
    }
  }

  /** One cycle of a ring that carries p alone. */
  lemma CycleLone(h: History, x: nat, p: Packet, s: Spot, engines: seq<Engine>)
    requires Travels(|h.net|, x, p) && h.net == Lone(|h.net|, x, p, s) && Quiet(engines, |h.net|)
    ensures var n, y := |h.net|, Hop(|h.net|, x, p.dst);
      Cycle(h, engines) ==
      match s
      case Queued => History(Lone(n, x, p, Linked(p.flits - 1)), h.sent, h.taken)
      case Linked(t) => if t > 0 then History(Lone(n, x, p, Linked(t - 1)), h.sent, h.taken) else Landed(h, x, p)
  {
    var n, g := |h.net|, Ticked(h, x, p, s);
    HopCloser(n, x, p.dst);
    TicksLone(h, x, p, s, n, engines);
    match s
    case Queued => TocksLone(g, x, p, Linked(p.flits), n);
    case Linked(t) =>
      if t > 0 { TocksLone(g, x, p, s, n); }
      else if Hop(n, x, p.dst) == p.dst { TocksEmpty(g, n); }
      else { TocksLone(g, Hop(n, x, p.dst), p, Queued, n); }
  }

  // ----- the whole way -----

  predicate AllQuiet(trace: seq<seq<Engine>>, n: nat) { forall i :: 0 <= i < |trace| ==> Quiet(trace[i], n) }

  /** Each of r hops takes a cycle more than the message has flits. */
  function Legs(r: int, flits: nat): nat
    decreases r
  {
    if r <= 0 then 0 else Legs(r - 1, flits) + flits + 1
  }

  lemma {:induction false} LegsTimes(r: nat, flits: nat)
    ensures Legs(r, flits) == r * (flits + 1)
  {
    if r > 0 {
      LegsTimes(r - 1, flits);
      assert (r - 1) * (flits + 1) + (flits + 1) == r * (flits + 1);
    }
  }

  /** Cycles until the message is taken. */
  function Wait(n: nat, x: nat, p: Packet, s: Spot): nat
    requires Travels(n, x, p)
  {
    Legs(Remaining(n, x, p.dst) - 1, p.flits) + (if s.Queued? then p.flits else s.tof) + 1
  }

  lemma WaitNext(n: nat, x: nat, p: Packet)
    requires Travels(n, x, p) && Hop(n, x, p.dst) != p.dst
    ensures var y := Hop(n, x, p.dst); Travels(n, y, p) && Wait(n, y, p, Queued) == Wait(n, x, p, Linked(0)) - 1
  {
    HopCloser(n, x, p.dst);
  }

  lemma WaitLast(n: nat, x: nat, p: Packet, s: Spot)
    requires Travels(n, x, p)
    ensures Wait(n, x, p, s) >= 1
    ensures Hop(n, x, p.dst) == p.dst ==> Wait(n, x, p, Linked(0)) == 1
  {
    HopCloser(n, x, p.dst);
  }

  lemma {:induction false} EmptyStays(h: History, trace: seq<seq<Engine>>)
    requires h.net == Empty(|h.net|) && AllQuiet(trace, |h.net|)
    ensures Cycles(h, trace) == h
    decreases |trace|
  {
    if trace != [] {
      EmptyTicks(h, |h.net|, trace[0]);
      TocksEmpty(h, |h.net|);
      EmptyStays(h, trace[1..]);
    }
  }

  lemma {:induction false} EmptyTicks(h: History, k: nat, engines: seq<Engine>)
    requires h.net == Empty(|h.net|) && k <= |h.net| && Quiet(engines, |h.net|)
    ensures TickNodes(h, k, engines) == h
  {
    if k > 0 {
      EmptyTicks(h, k - 1, engines);
      FreeTick(h, k - 1, engines[k - 1]);
    }
  }

  lemma {:induction false} Arrives(h: History, x: nat, p: Packet, s: Spot, trace: seq<seq<Engine>>)
    requires Travels(|h.net|, x, p) && h.net == Lone(|h.net|, x, p, s) && AllQuiet(trace, |h.net|)
    requires s.Linked? ==> s.tof < p.flits
    ensures Cycles(h, trace).taken == if |trace| >= Wait(|h.net|, x, p, s) then h.taken + [p] else h.taken
    decreases |trace|
  {
    var n := |h.net|;
    WaitLast(n, x, p, s);
    if trace != [] {
      CycleLone(h, x, p, s, trace[0]);
      var g := Cycle(h, trace[0]);
      if s.Queued? { Arrives(g, x, p, Linked(p.flits - 1), trace[1..]); }
      else if s.tof > 0 { Arrives(g, x, p, Linked(s.tof - 1), trace[1..]); }
      else if Hop(n, x, p.dst) == p.dst { EmptyStays(g, trace[1..]); }
      else {
        WaitNext(n, x, p);
        Arrives(g, Hop(n, x, p.dst), p, Queued, trace[1..]);
      }
    }
  }

  // ----- the cycle in which it is sent -----

  /** The engine of p's source sends p, and no other sends anything. */
  predicate Sends(engines: seq<Engine>, n: nat, p: Packet) {
    |engines| == n && forall i :: 0 <= i < n ==> engines[i].sends == if i == p.src then [p] else []
  }

  function Posted(n: nat, p: Packet): Net
    requires p.src < n
  {
    Empty(n)[p.src := Empty(n)[p.src].(outNext := [p])]
  }

  lemma PostingTick(h: History, p: Packet, e: Engine)
    requires h.net == Empty(|h.net|) && Enabled(h.net, Send(p)) && e.sends == [p]
    ensures TickNode(h, p.src, e) == History(Posted(|h.net|, p), h.sent + [p], h.taken)
  {
    var g := Record(h, Send(p));
    assert [p][1..] == [] && [] + [p] == [p];
    assert g.net == Posted(|h.net|, p);
    assert SendAll(h, [p]) == SendAll(g, []) == g;
    assert Drain(g, p.src) == g;
    assert PullPort(g, p.src, 0) == g;
    assert PullPort(g, p.src, 1) == g;
    IdleHand(g, p.src, e.room);
  }

  /** The ring when the first k nodes have ticked. */
  function Posting(h: History, p: Packet, k: nat): History
    requires p.src < |h.net|
  {
    if k <= p.src then h else History(Posted(|h.net|, p), h.sent + [p], h.taken)
  }

  lemma PostingNode(h: History, p: Packet, k: nat, e: Engine)
    requires h.net == Empty(|h.net|) && Enabled(h.net, Send(p)) && k < |h.net|
    requires e.sends == if k == p.src then [p] else []
    ensures TickNode(Posting(h, p, k), k, e) == Posting(h, p, k + 1)
  {
    if k == p.src { PostingTick(h, p, e); } else { FreeTick(Posting(h, p, k), k, e); }
  }

  lemma {:induction false} PostingTicks(h: History, p: Packet, k: nat, engines: seq<Engine>)
    requires h.net == Empty(|h.net|) && Enabled(h.net, Send(p)) && k <= |h.net| && Sends(engines, |h.net|, p)
    ensures TickNodes(h, k, engines) == Posting(h, p, k)
  {
    if k > 0 {
      PostingTicks(h, p, k - 1, engines);
      PostingNode(h, p, k - 1, engines[k - 1]);
    }
  }

  /** With all links free and nothing queued a node is idle. */
  lemma FreeTick(h: History, x: nat, e: Engine)
    requires x < |h.net| && e.sends == [] && h.net[x].outQ == [] && h.net[x].inQ == []
    requires forall k :: 0 <= k < |h.net| ==> h.net[k].left.Free? && h.net[k].right.Free?
    ensures TickNode(h, x, e) == h
  {
    IdleTick(h, x, e);
  }

  lemma {:induction false} PostingTocks(h: History, p: Packet, k: nat)
    requires p.src < |h.net| && h.net == Posted(|h.net|, p) && k <= |h.net|
    ensures TockNodes(h, k) == if k <= p.src then h else History(Lone(|h.net|, p.src, p, Queued), h.sent, h.taken)
  {
    if k > 0 {
      PostingTocks(h, p, k - 1);
      var g := TockNodes(h, k - 1);
      var r := if k <= p.src then h else History(Lone(|h.net|, p.src, p, Queued), h.sent, h.taken);
      assert [] + [p] == [p];
      SameNet(Next(g.net, Tock(k - 1)), r.net, k - 1);
    }
  }

  /** On an empty ring a message of f flits that has r hops to go is taken in the r * (f + 1)-th cycle (see LegsTimes)
      after the one in which it was sent, and not before, whatever room the engines have. */
  lemma AloneTakes(h: History, p: Packet, engines: seq<Engine>, trace: seq<seq<Engine>>)
    requires h.net == Empty(|h.net|) && h.taken == [] && Enabled(h.net, Send(p))
    requires Sends(engines, |h.net|, p) && AllQuiet(trace, |h.net|)
    ensures Cycles(h, [engines] + trace).taken ==
            if |trace| >= Legs(Remaining(|h.net|, p.src, p.dst), p.flits) then [p] else []
  {
    PostingCycle(h, p, engines);
    CyclesFirst(h, engines, trace);
    Underway(Cycle(h, engines), p, trace);
  }

  lemma Underway(h: History, p: Packet, trace: seq<seq<Engine>>)
    requires p.src < |h.net| && Travels(|h.net|, p.src, p) && h.net == Lone(|h.net|, p.src, p, Queued)
    requires h.taken == [] && AllQuiet(trace, |h.net|)
    ensures Cycles(h, trace).taken == if |trace| >= Legs(Remaining(|h.net|, p.src, p.dst), p.flits) then [p] else []
  {
    WaitQueued(|h.net|, p.src, p);
    Arrives(h, p.src, p, Queued, trace);
  }

  lemma WaitQueued(n: nat, x: nat, p: Packet)
    requires Travels(n, x, p)
    ensures Wait(n, x, p, Queued) == Legs(Remaining(n, x, p.dst), p.flits)
  {
    HopCloser(n, x, p.dst);
  }

  lemma PostingCycle(h: History, p: Packet, engines: seq<Engine>)
    requires h.net == Empty(|h.net|) && Enabled(h.net, Send(p)) && Sends(engines, |h.net|, p)
    ensures Cycle(h, engines) == History(Lone(|h.net|, p.src, p, Queued), h.sent + [p], h.taken)
  {
    PostingTicks(h, p, |h.net|, engines);
    PostingTocks(TickNodes(h, |h.net|, engines), p, |h.net|);
  }

  lemma CyclesFirst(h: History, engines: seq<Engine>, trace: seq<seq<Engine>>)
    requires |engines| == |h.net|
    ensures Cycles(h, [engines] + trace) == Cycles(Cycle(h, engines), trace)
  {
    assert ([engines] + trace)[1..] == trace;
  }
}
