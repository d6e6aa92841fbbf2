/** The network in place: nodes that drain their queues onto the ring, pull arrived messages off it and
    hand them to their engines, tick by tick and tock by tock. */
module RingNetwork {
  import opened Ring

  // ----- a cycle on values -----

  /** What the engine of a node does in one tick: the messages it sends, in order, and how many it has room
      for, which is two for the directory and at most one for a cache. */
  datatype Engine = Engine(sends: seq<Packet>, room: nat)

  function SendAll(h: History, pkts: seq<Packet>): (r: History)
    ensures |r.net| == |h.net|
    decreases |pkts|
  {
    if pkts == [] then h
    else SendAll(if Enabled(h.net, Send(pkts[0])) then Record(h, Send(pkts[0])) else h, pkts[1..])
  }

  /** Put queued messages on the links until one finds its link busy. */
  function Drain(h: History, x: nat): (r: History)
    requires x < |h.net|
    ensures |r.net| == |h.net|
    decreases |h.net[x].outQ|
  {
    if Enabled(h.net, Forward(x)) then Drain(Record(h, Forward(x)), x) else h
  }

  /** Take what has arrived on one of x's ports: port 0 hears the left neighbour, port 1 the right one. */
  function PullPort(h: History, x: nat, port: nat): (r: History)
    requires x < |h.net|
    ensures |r.net| == |h.net|
  {
    var ev := Arrive(Neighbour(|h.net|, x, port == 0), port != 0);
    if Enabled(h.net, ev) then Record(h, ev) else h
  }

  function Pull(h: History, x: nat): (r: History)
    requires x < |h.net|
    ensures |r.net| == |h.net|
  {
    PullPort(PullPort(h, x, 0), x, 1)
  }

  /** Hand up to room messages to the engine. */
  function Hand(h: History, x: nat, room: nat): (r: History)
    requires x < |h.net|
    ensures |r.net| == |h.net|
    decreases room
  {
    if room == 0 then h
    else
      var g := Hand(h, x, room - 1);
      if Enabled(g.net, Take(x)) then Record(g, Take(x)) else g
  }

  function TickNode(h: History, x: nat, e: Engine): (r: History)
    requires x < |h.net|
    ensures |r.net| == |h.net|
  {
    Hand(Pull(Drain(SendAll(h, e.sends), x), x), x, e.room)
  }

  /** The first k nodes tick. */
  function TickNodes(h: History, k: nat, engines: seq<Engine>): (r: History)
    requires k <= |h.net| == |engines|
    ensures |r.net| == |h.net|
  {
    if k == 0 then h else TickNode(TickNodes(h, k - 1, engines), k - 1, engines[k - 1])
  }

  /** The first k nodes tock. */
  function TockNodes(h: History, k: nat): (r: History)
    requires k <= |h.net|
    ensures |r.net| == |h.net|
  {
    if k == 0 then h else Record(TockNodes(h, k - 1), Tock(k - 1))
  }

  /** All nodes tick, then all nodes tock. */
  function Cycle(h: History, engines: seq<Engine>): (r: History)
    requires |engines| == |h.net|
    ensures |r.net| == |h.net|
  {
    TockNodes(TickNodes(h, |h.net|, engines), |h.net|)
  }

  // ----- every cycle keeps the channels -----

  lemma {:induction false} SendAllFaithful(h: History, pkts: seq<Packet>)
    requires Faithful(h)
    ensures Faithful(SendAll(h, pkts))
    decreases |pkts|
  {
    if pkts != [] {
      if Enabled(h.net, Send(pkts[0])) {
        RecordFaithful(h, Send(pkts[0]));
        SendAllFaithful(Record(h, Send(pkts[0])), pkts[1..]);
      } else {
        SendAllFaithful(h, pkts[1..]);
      }
    }
  }

  lemma {:induction false} DrainFaithful(h: History, x: nat)
    requires Faithful(h) && x < |h.net|
    ensures Faithful(Drain(h, x))
    decreases |h.net[x].outQ|
  {
    if Enabled(h.net, Forward(x)) {
      RecordFaithful(h, Forward(x));
      DrainFaithful(Record(h, Forward(x)), x);
    }
  }

  lemma PullFaithful(h: History, x: nat, port: nat)
    requires Faithful(h) && x < |h.net|
    ensures Faithful(PullPort(h, x, port))
  {
    var ev := Arrive(Neighbour(|h.net|, x, port == 0), port != 0);
    if Enabled(h.net, ev) { RecordFaithful(h, ev); }
  }

  lemma {:induction false} HandFaithful(h: History, x: nat, room: nat)
    requires Faithful(h) && x < |h.net|
    ensures Faithful(Hand(h, x, room))
    decreases room
  {
    if room > 0 {
      HandFaithful(h, x, room - 1);
      var g := Hand(h, x, room - 1);
      if Enabled(g.net, Take(x)) { RecordFaithful(g, Take(x)); }
    }
  }

  lemma TickNodeFaithful(h: History, x: nat, e: Engine)
    requires Faithful(h) && x < |h.net|
    ensures Faithful(TickNode(h, x, e))
  {
    SendAllFaithful(h, e.sends);
    var a := SendAll(h, e.sends);
    DrainFaithful(a, x);
    var b := Drain(a, x);
    PullFaithful(b, x, 0);
    PullFaithful(PullPort(b, x, 0), x, 1);
    HandFaithful(Pull(b, x), x, e.room);
  }

  lemma {:induction false} TickFaithful(h: History, k: nat, engines: seq<Engine>)
    requires Faithful(h) && k <= |h.net| == |engines|
    ensures Faithful(TickNodes(h, k, engines))
  {
    if k > 0 {
      TickFaithful(h, k - 1, engines);
      TickNodeFaithful(TickNodes(h, k - 1, engines), k - 1, engines[k - 1]);
    }
  }

  lemma {:induction false} TockFaithful(h: History, k: nat)
    requires Faithful(h) && k <= |h.net|
    ensures Faithful(TockNodes(h, k))
  {
    if k > 0 {
      TockFaithful(h, k - 1);
      RecordFaithful(TockNodes(h, k - 1), Tock(k - 1));
    }
  }

  /** A whole cycle of the network, whatever the engines do, keeps every channel a FIFO. */
  lemma CycleFaithful(h: History, engines: seq<Engine>)
    requires Faithful(h) && |engines| == |h.net|
    ensures Faithful(Cycle(h, engines))
  {
    TickFaithful(h, |h.net|, engines);
    TockFaithful(TickNodes(h, |h.net|, engines), |h.net|);
  }

  function Cycles(h: History, trace: seq<seq<Engine>>): (r: History)
    ensures |r.net| == |h.net|
    decreases |trace|
  {
    if trace == [] then h
    else Cycles(if |trace[0]| == |h.net| then Cycle(h, trace[0]) else h, trace[1..])
  }

  lemma {:induction false} CyclesFaithful(h: History, trace: seq<seq<Engine>>)
    requires Faithful(h)
    ensures Faithful(Cycles(h, trace))
    decreases |trace|
  {
    if trace != [] {
      if |trace[0]| == |h.net| {
        CycleFaithful(h, trace[0]);
        CyclesFaithful(Cycle(h, trace[0]), trace[1..]);
      } else {
        CyclesFaithful(h, trace[1..]);
      }
    }
  }

  /** A prefix of what s sent to d, in order and without loss, is what d has received: in the running
      network, for any number of nodes and cycles and any behaviour of the engines. */
  lemma NetworkIsFifo(n: nat, trace: seq<seq<Engine>>, s: nat, d: nat)
    requires s < n && d < n
    ensures var h := Cycles(History(Empty(n), [], []), trace);
      Only(h.taken, s, d) <= Only(h.sent, s, d)
  {
    var h := History(Empty(n), [], []);
    forall s, d | 0 <= s < n && 0 <= d < n ensures Only(h.sent, s, d) == Only(h.taken, s, d) + Channel(h.net, s, d) {
      EmptyChannel(n, s, s, d);
    }
    CyclesFaithful(h, trace);
  }

  // ----- the network in place -----

  /** Per node: the queues, the link slot of each outgoing port, and outgoing_packets, the sender's own mark
      that its port is busy. */
  class Network {
    const outNext: array<seq<Packet>>
    const outQueue: array<seq<Packet>>
    const inQueue: array<seq<Packet>>
    const left: array<Link>
    const right: array<Link>
    const sendingLeft: array<bool>
    const sendingRight: array<bool>
    ghost var sent: seq<Packet>
    ghost var taken: seq<Packet>

    ghost predicate Shaped() {
      && outNext.Length == outQueue.Length == inQueue.Length == left.Length == right.Length
      && sendingLeft.Length == sendingRight.Length == left.Length
      && outNext != outQueue && outNext != inQueue && outQueue != inQueue && left != right &&
        sendingLeft != sendingRight
    }

    ghost function NetView(): (net: Net)
      requires Shaped()
      reads outNext, outQueue, inQueue, left, right
      ensures |net| == left.Length
      ensures forall x :: 0 <= x < left.Length ==>
        net[x] == Station(outNext[x], outQueue[x], inQueue[x], left[x], right[x])
    {
      seq(left.Length, x requires 0 <= x < left.Length reads outNext, outQueue, inQueue, left, right =>
        Station(outNext[x], outQueue[x], inQueue[x], left[x], right[x]))
    }

    ghost function View(): History
      requires Shaped()
      reads this, outNext, outQueue, inQueue, left, right
    {
      History(NetView(), sent, taken)
    }

    /** A port is marked busy exactly while its message is still leaving. */
    ghost predicate Valid()
      reads this, outNext, outQueue, inQueue, left, right, sendingLeft, sendingRight
    {
      && Shaped()
      && (forall x :: 0 <= x < left.Length ==> sendingLeft[x] == (left[x].Carries? && left[x].tof > 0))
      && (forall x :: 0 <= x < left.Length ==> sendingRight[x] == (right[x].Carries? && right[x].tof > 0))
      && (forall x, i :: 0 <= x < left.Length && 0 <= i < |outNext[x]| ==> outNext[x][i].flits >= 1)
      && (forall x, i :: 0 <= x < left.Length && 0 <= i < |outQueue[x]| ==> outQueue[x][i].flits >= 1)
      && (forall x :: 0 <= x < left.Length && left[x].Carries? ==> left[x].pkt.flits >= 1)
      && (forall x :: 0 <= x < left.Length && right[x].Carries? ==> right[x].pkt.flits >= 1)
    }

    constructor (n: nat)
      ensures Valid() && View() == History(Empty(n), [], [])
      ensures fresh(outNext) && fresh(outQueue) && fresh(inQueue) && fresh(left) && fresh(right)
      ensures fresh(sendingLeft) && fresh(sendingRight)
    {
      outNext := new seq<Packet>[n](_ => []);
      outQueue := new seq<Packet>[n](_ => []);
      inQueue := new seq<Packet>[n](_ => []);
      left := new Link[n](_ => Free);
      right := new Link[n](_ => Free);
      sendingLeft := new bool[n](_ => false);
      sendingRight := new bool[n](_ => false);
      sent, taken := [], [];
      new;
      assert NetView() == Empty(n);
    }

    /** An engine pushes a message for its node to send. */
    method Push(p: Packet)
      requires Valid() && Enabled(NetView(), Send(p))
      modifies this`sent, outNext
      ensures Valid() && View() == Record(old(View()), Send(p))
    {
      outNext[p.src] := outNext[p.src] + [p];
      sent := sent + [p];
      assert NetView() == Next(old(NetView()), Send(p));
    }

    /** The head of x's queue goes onto its link. */
    method Transmit(x: nat)
      requires Valid() && Enabled(NetView(), Forward(x))
      modifies outQueue, left, right, sendingLeft, sendingRight
      ensures Valid() && View() == Record(old(View()), Forward(x))
    {
      var p := outQueue[x][0];
      if GoesLeft(left.Length, x, p.dst) {
        sendingLeft[x] := true;
        left[x] := Carries(p, p.flits);
      } else {
        sendingRight[x] := true;
        right[x] := Carries(p, p.flits);
      }
      outQueue[x] := outQueue[x][1..];
      assert NetView() == Next(old(NetView()), Forward(x));
    }

    /** Step 2 of Node::tick. A port is free when neither end is busy; the first message that finds its
        port busy ends the loop. */
    method DrainQueue(x: nat)
      requires Valid() && x < left.Length
      modifies outQueue, left, right, sendingLeft, sendingRight
      ensures Valid() && View() == Drain(old(View()), x)
    {
      while outQueue[x] != []
        invariant Valid() && Drain(View(), x) == Drain(old(View()), x)
        decreases |outQueue[x]|
      {
        var goesLeft := GoesLeft(left.Length, x, outQueue[x][0].dst);
        var free := if goesLeft then !sendingLeft[x] && left[x].Free? else !sendingRight[x] && right[x].Free?;
        if !free { return; }
        Transmit(x);
      }
    }

    /** Step 3 of Node::tick for one port. */
    method PullFrom(x: nat, port: nat)
      requires Valid() && x < left.Length
      modifies outQueue, inQueue, left, right
      ensures Valid() && View() == PullPort(old(View()), x, port)
    {
      var y := Neighbour(left.Length, x, port == 0);
      var slot := if port == 0 then right[y] else left[y];
      if slot.Free? || slot.tof > 0 { return; }
      Back(left.Length, x, port == 0);
      Vacate(y, port != 0);
      Land(x, slot.pkt);
    }

    /** The receiver clears incoming_packets. */
    method Vacate(y: nat, goesLeft: bool)
      requires Valid() && y < left.Length
      requires var slot := if goesLeft then left[y] else right[y]; slot.Carries? && slot.tof <= 0
      modifies left, right
      ensures Valid() && NetView() == old(NetView())[y := SetLink(old(NetView())[y], goesLeft, Free)]
    {
      if goesLeft { left[y] := Free; } else { right[y] := Free; }
    }

    /** A message joins the inbox of its destination or travels on. */
    method Land(x: nat, p: Packet)
      requires Valid() && x < left.Length && p.flits >= 1
      modifies outQueue, inQueue
      ensures Valid() && NetView() == old(NetView())[x := Landed(old(NetView())[x], x, p)]
    {
      if p.dst == x {
        inQueue[x] := inQueue[x] + [p];
      } else {
        outQueue[x] := outQueue[x] + [p];
      }
    }

    /** Step 4 of Node::tick; got is what the engine receives. */
    method HandOver(x: nat, room: nat) returns (got: seq<Packet>)
      requires Valid() && x < left.Length
      modifies this`taken, inQueue
      ensures Valid() && View() == Hand(old(View()), x, room) && taken == old(taken) + got
    {
      got := [];
      for i := 0 to room
        invariant Valid() && View() == Hand(old(View()), x, i) && taken == old(taken) + got
      {
        if inQueue[x] != [] {
          var m := PopInbox(x);
          got := got + [m];
        }
      }
    }

    method PopInbox(x: nat) returns (m: Packet)
      requires Valid() && x < left.Length && inQueue[x] != []
      modifies this`taken, inQueue
      ensures Valid() && View() == Record(old(View()), Take(x)) && taken == old(taken) + [m]
    {
      m := inQueue[x][0];
      taken := taken + [m];
      inQueue[x] := inQueue[x][1..];
      assert NetView() == Next(old(NetView()), Take(x));
    }

    method TickOne(x: nat, room: nat) returns (got: seq<Packet>)
      requires Valid() && x < left.Length
      modifies this`taken, outQueue, inQueue, left, right, sendingLeft, sendingRight
      ensures Valid() && View() == Hand(Pull(Drain(old(View()), x), x), x, room) && taken == old(taken) + got
    {
      DrainQueue(x);
      PullFrom(x, 0);
      PullFrom(x, 1);
      got := HandOver(x, room);
    }

    /** Step 1 of Node::tick: the engine runs and pushes its messages. */
    method RunEngine(pkts: seq<Packet>)
      requires Valid()
      modifies this`sent, outNext
      ensures Valid() && View() == SendAll(old(View()), pkts)
    {
      var rest := pkts;
      while rest != []
        invariant Valid() && SendAll(View(), rest) == SendAll(old(View()), pkts)
        decreases |rest|
      {
        var p := rest[0];
        if p.src < left.Length && p.dst < left.Length && p.src != p.dst && p.flits >= 1 { Push(p); }
        rest := rest[1..];
      }
    }

    /** Node::tick. */
    method TickAt(x: nat, e: Engine)
      requires Valid() && x < left.Length
      modifies this`sent, this`taken, outNext, outQueue, inQueue, left, right, sendingLeft, sendingRight
      ensures Valid() && View() == TickNode(old(View()), x, e)
    {
      RunEngine(e.sends);
      var got := TickOne(x, e.room);
    }

    /** Network::tick. */
    method TickAll(engines: seq<Engine>)
      requires Valid() && |engines| == left.Length
      modifies this`sent, this`taken, outNext, outQueue, inQueue, left, right, sendingLeft, sendingRight
      ensures Valid() && View() == TickNodes(old(View()), left.Length, engines)
    {
      ghost var before := View();
      for x := 0 to left.Length
        invariant Valid() && View() == TickNodes(before, x, engines)
      {
        ghost var h := View();
        TickAt(x, engines[x]);
        OneMoreTick(before, x, engines, h, View());
      }
    }

    /** Node::tock: fresh messages join the queue, and each message that is leaving comes one flit closer. */
    method TockOne(x: nat)
      requires Valid() && x < left.Length
      modifies outNext, outQueue, left, right, sendingLeft, sendingRight
      ensures Valid() && View() == Record(old(View()), Tock(x))
    {
      JoinQueue(x);
      AgePort(x, true);
      AgePort(x, false);
      assert NetView() == Next(old(NetView()), Tock(x));
    }

    method JoinQueue(x: nat)
      requires Valid() && x < left.Length
      modifies outNext, outQueue
      ensures Valid() && NetView() ==
        old(NetView())[x := old(NetView())[x].(outQ := old(outQueue[x]) + old(outNext[x]), outNext := [])]
    {
      outQueue[x] := outQueue[x] + outNext[x];
      outNext[x] := [];
    }

    /** Only a message that is still leaving gets closer. */
    method AgePort(x: nat, goesLeft: bool)
      requires Valid() && x < left.Length
      modifies left, right, sendingLeft, sendingRight
      ensures Valid()
      ensures var st := old(NetView())[x];
        NetView() == old(NetView())[x := SetLink(st, goesLeft, Age(OutLink(st, goesLeft)))]
    {
      if goesLeft && sendingLeft[x] {
        left[x] := left[x].(tof := left[x].tof - 1);
        if left[x].tof <= 0 { sendingLeft[x] := false; }
      }
      if !goesLeft && sendingRight[x] {
        right[x] := right[x].(tof := right[x].tof - 1);
        if right[x].tof <= 0 { sendingRight[x] := false; }
      }
    }

    method TockAll()
      requires Valid()
      modifies outNext, outQueue, left, right, sendingLeft, sendingRight
      ensures Valid() && View() == TockNodes(old(View()), left.Length)
    {
      for x := 0 to left.Length
        invariant Valid() && View() == TockNodes(old(View()), x)
      {
        TockOne(x);
      }
    }
  }

  /** Going one way and then the other leads back. */
  lemma Back(n: nat, x: nat, left: bool)
    requires x < n
    ensures Neighbour(n, Neighbour(n, x, left), !left) == x
  {
  }

  lemma OneMoreTick(before: History, x: nat, engines: seq<Engine>, h: History, h': History)
    requires x < |before.net| == |engines| && h == TickNodes(before, x, engines) && h' == TickNode(h, x, engines[x])
    ensures h' == TickNodes(before, x + 1, engines)
  {
  }
}
