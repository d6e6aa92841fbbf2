/** The ring interconnect: queues and link slots of every node, and the FIFO channel between any
    two nodes that they implement. */
module Ring {

  /** A message in flight; id tells messages apart, flits is its length on a link. */
  datatype Packet = Packet(src: nat, dst: nat, flits: nat, id: nat)

  /** A link slot: the sender's outgoing_packets entry and the receiver's incoming_packets entry.
      The outgoing entry is cleared when tof reaches zero, the incoming one when the receiver
      takes the message, so the pair is free exactly when the incoming entry is. */
  datatype Link = Free | Carries(pkt: Packet, tof: int)

  /** left is the link towards id - 1 (port 0), right the one towards id + 1 (port 1). */
  datatype Station = Station(outNext: seq<Packet>, outQ: seq<Packet>, inQ: seq<Packet>, left: Link, right: Link)

  // ----- routing -----

  /** How far d is from x going right; the program computes it modulo n, see Routing. */
  function Distance(n: nat, x: nat, d: nat): nat
    requires x < n
  {
    if d >= x then d - x else d + n - x
  }

  predicate GoesLeft(n: nat, x: nat, d: nat)
    requires x < n
  {
    Distance(n, x, d) > n / 2
  }

  function Neighbour(n: nat, x: nat, left: bool): (y: nat)
    requires x < n
    ensures y < n
  {
    if left then (if x == 0 then n - 1 else x - 1) else (if x == n - 1 then 0 else x + 1)
  }

  /** The next node on the way from x to d. */
  function Hop(n: nat, x: nat, d: nat): (y: nat)
    requires x < n
    ensures y < n
  {
    Neighbour(n, x, GoesLeft(n, x, d))
  }

  /** Hops left from x to d. */
  function Remaining(n: nat, x: nat, d: nat): int
    requires x < n
    ensures d < n ==> Remaining(n, x, d) >= 0
  {
    if GoesLeft(n, x, d) then n - Distance(n, x, d) else Distance(n, x, d)
  }

  lemma ModIs(a: int, n: nat, q: nat)
    requires n > 0 && q <= 2 && q * n <= a < q * n + n
    ensures a % n == a - q * n
  {
    var t := a / n;
    assert a == n * t + a % n;
    assert t < q ==> n * t <= n * (q - 1);
    assert t > q ==> n * t >= n * (q + 1);
  }

  lemma ModOnce(a: int, n: nat)
    requires n > 0 && 0 <= a <= 2 * n
    ensures a % n == if a < n then a else if a < 2 * n then a - n else 0
  {
    ModIs(a, n, if a < n then 0 else if a < 2 * n then 1 else 2);
  }

  /** The modular arithmetic of Node::tick computes these. */
  lemma Routing(n: nat, x: nat, d: nat)
    requires x < n && d < n
    ensures (d + n - x) % n == Distance(n, x, d)
    ensures ((if (d + n - x) % n > n / 2 then x - 1 else x + 1) + n) % n == Hop(n, x, d)
  {
    ModOnce(d + n - x, n);
    ModOnce((if GoesLeft(n, x, d) then x - 1 else x + 1) + n, n);
  }

  /** Every hop brings the message one step closer, and it never turns around. */
  lemma HopCloser(n: nat, x: nat, d: nat)
    requires x < n && d < n && x != d
    ensures Remaining(n, Hop(n, x, d), d) == Remaining(n, x, d) - 1
    ensures Hop(n, x, d) != d ==> (GoesLeft(n, Hop(n, x, d), d) <==> GoesLeft(n, x, d))
  {
  }

  // ----- the network's moves -----

  type Net = seq<Station>

  function OutLink(st: Station, left: bool): Link { if left then st.left else st.right }

  function SetLink(st: Station, left: bool, l: Link): Station {
    if left then st.(left := l) else st.(right := l)
  }

  datatype Event =
    | Send(pkt: Packet)            // the engine of pkt.src pushes a message
    | Forward(x: nat)              // node x puts the head of its queue on a link
    | Arrive(x: nat, left: bool)   // the neighbour of x takes the message off x's link
    | Take(x: nat)                 // node x hands a message to its engine
    | Tock(x: nat)                 // the second half-cycle of node x

  predicate Enabled(net: Net, ev: Event) {
    var n := |net|;
    match ev
    case Send(p) => p.src < n && p.dst < n && p.src != p.dst && p.flits >= 1
    case Forward(x) =>
      x < n && net[x].outQ != [] && OutLink(net[x], GoesLeft(n, x, net[x].outQ[0].dst)).Free?
    case Arrive(x, left) => x < n && OutLink(net[x], left).Carries? && OutLink(net[x], left).tof <= 0
    case Take(x) => x < n && net[x].inQ != []
    case Tock(x) => x < n
  }

  function Age(l: Link): Link {
    if l.Carries? && l.tof > 0 then l.(tof := l.tof - 1) else l
  }

  function Next(net: Net, ev: Event): (r: Net)
    requires Enabled(net, ev)
    ensures |r| == |net|
  {
    var n := |net|;
    match ev
    case Send(p) => net[p.src := net[p.src].(outNext := net[p.src].outNext + [p])]
    case Forward(x) =>
      var p := net[x].outQ[0];
      net[x := SetLink(net[x], GoesLeft(n, x, p.dst), Carries(p, p.flits)).(outQ := net[x].outQ[1..])]
    case Arrive(x, left) =>
      var p, y := OutLink(net[x], left).pkt, Neighbour(n, x, left);
      var freed := net[x := SetLink(net[x], left, Free)];
      if p.dst == y then freed[y := freed[y].(inQ := freed[y].inQ + [p])]
      else freed[y := freed[y].(outQ := freed[y].outQ + [p])]
    case Take(x) => net[x := net[x].(inQ := net[x].inQ[1..])]
    case Tock(x) =>
      net[x := net[x].(outQ := net[x].outQ + net[x].outNext, outNext := [],
                       left := Age(net[x].left), right := Age(net[x].right))]
  }

  // ----- where messages may be -----

  /** x lies on the route from s to d. */
  predicate OnRoute(n: nat, s: nat, d: nat, x: nat)
    requires s < n && d < n
    decreases Remaining(n, s, d)
  {
    s == x || (s != d && (HopCloser(n, s, d); OnRoute(n, Hop(n, s, d), d, x)))
  }

  predicate Transit(n: nat, x: nat, p: Packet) {
    p.src < n && p.dst < n && p.dst != x && p.flits >= 1 && OnRoute(n, p.src, p.dst, x)
  }

  predicate Placed(net: Net, x: nat)
    requires x < |net|
  {
    var n := |net|;
    && (forall p :: p in net[x].outNext ==> p.src == x && Transit(n, x, p))
    && (forall p :: p in net[x].outQ ==> Transit(n, x, p))
    && (forall p :: p in net[x].inQ ==> p.dst == x && p.src < n && p.src != x)
    && (net[x].left.Carries? ==> Transit(n, x, net[x].left.pkt) && GoesLeft(n, x, net[x].left.pkt.dst))
    && (net[x].right.Carries? ==> Transit(n, x, net[x].right.pkt) && !GoesLeft(n, x, net[x].right.pkt.dst))
  }

  predicate WellPlaced(net: Net) { forall x :: 0 <= x < |net| ==> Placed(net, x) }

  lemma {:induction false} RouteExtends(n: nat, s: nat, d: nat, x: nat)
    requires s < n && d < n && x < n && x != d && OnRoute(n, s, d, x)
    ensures Hop(n, x, d) < n && OnRoute(n, s, d, Hop(n, x, d))
    decreases Remaining(n, s, d)
  {
    HopCloser(n, x, d);
    if s != x {
      HopCloser(n, s, d);
      RouteExtends(n, Hop(n, s, d), d, x);
    }
  }

  lemma ForwardPlaced(net: Net, x: nat, z: nat)
    requires WellPlaced(net) && Enabled(net, Forward(x)) && z < |net|
    ensures Placed(Next(net, Forward(x)), z)
  {
    assert Placed(net, z) && Placed(net, x);
    assert net[x].outQ[0] in net[x].outQ;
    assert forall q :: q in net[x].outQ[1..] ==> q in net[x].outQ;
  }

  lemma {:induction false} RouteShrinks(n: nat, s: nat, d: nat, x: nat)
    requires s < n && d < n && x < n && OnRoute(n, s, d, x)
    ensures Remaining(n, x, d) <= Remaining(n, s, d)
    decreases Remaining(n, s, d)
  {
    if s != x {
      HopCloser(n, s, d);
      RouteShrinks(n, Hop(n, s, d), d, x);
    }
  }

  /** Where a message goes when it leaves x's link. */
  lemma ArriveTarget(net: Net, x: nat, left: bool)
    requires WellPlaced(net) && Enabled(net, Arrive(x, left))
    ensures var p, y := OutLink(net[x], left).pkt, Neighbour(|net|, x, left);
      && p.src < |net| && p.dst < |net| && p.dst != x && p.src != p.dst && p.flits >= 1
      && y == Hop(|net|, x, p.dst) && y < |net| && y != x && y != p.src
      && OnRoute(|net|, p.src, p.dst, x) && OnRoute(|net|, p.src, p.dst, y)
      && GoesLeft(|net|, x, p.dst) == left
      && Remaining(|net|, y, p.dst) == Remaining(|net|, x, p.dst) - 1
  {
    var n, p := |net|, OutLink(net[x], left).pkt;
    assert Placed(net, x);
    RouteExtends(n, p.src, p.dst, x);
    HopCloser(n, x, p.dst);
    BeforeArrival(n, p.src, p.dst, x);
    RouteShrinks(n, p.src, p.dst, x);
  }

  lemma ArriveElsewhere(net: Net, x: nat, left: bool, z: nat)
    requires Enabled(net, Arrive(x, left)) && z < |net| && z != x && z != Neighbour(|net|, x, left)
    ensures Next(net, Arrive(x, left))[z] == net[z]
  {
  }

  lemma ArriveLands(net: Net, x: nat, left: bool)
    requires Enabled(net, Arrive(x, left)) && Neighbour(|net|, x, left) != x
    ensures var y, net', p := Neighbour(|net|, x, left), Next(net, Arrive(x, left)), OutLink(net[x], left).pkt;
      && net'[y].left == net[y].left && net'[y].right == net[y].right && net'[y].outNext == net[y].outNext
      && net'[y].outQ == (if p.dst == y then net[y].outQ else net[y].outQ + [p])
      && net'[y].inQ == (if p.dst == y then net[y].inQ + [p] else net[y].inQ)
  {
  }

  lemma ArrivePlaced(net: Net, x: nat, left: bool, z: nat)
    requires WellPlaced(net) && Enabled(net, Arrive(x, left)) && z < |net|
    ensures Placed(Next(net, Arrive(x, left)), z)
  {
    var y, net' := Neighbour(|net|, x, left), Next(net, Arrive(x, left));
    assert Placed(net, z);
    ArriveTarget(net, x, left);
    if z == y { ArriveLands(net, x, left); }
    else if z != x { ArriveElsewhere(net, x, left, z); }
  }

  /** A message that still has to hop is not at home yet. */
  lemma {:induction false} BeforeArrival(n: nat, s: nat, d: nat, x: nat)
    requires s < n && d < n && x < n && x != d && OnRoute(n, s, d, x)
    ensures s != d
  {
  }

  lemma OtherPlaced(net: Net, ev: Event, z: nat)
    requires WellPlaced(net) && Enabled(net, ev) && z < |net| && (ev.Send? || ev.Take? || ev.Tock?)
    ensures Placed(Next(net, ev), z)
  {
    assert Placed(net, z);
    if ev.Take? { assert forall q :: q in net[ev.x].inQ[1..] ==> q in net[ev.x].inQ; }
  }

  /** Every message stays on the route from its source to its destination. */
  lemma NextPlaced(net: Net, ev: Event)
    requires WellPlaced(net) && Enabled(net, ev)
    ensures WellPlaced(Next(net, ev))
  {
    forall z | 0 <= z < |net| ensures Placed(Next(net, ev), z) {
      match ev
      case Forward(x) => ForwardPlaced(net, x, z);
      case Arrive(x, left) => ArrivePlaced(net, x, left, z);
      case _ => OtherPlaced(net, ev, z);
    }
  }

  // ----- the channel between two nodes -----

  predicate Of(p: Packet, s: nat, d: nat) { p.src == s && p.dst == d }

  /** The messages from s to d in q. */
  function Only(q: seq<Packet>, s: nat, d: nat): seq<Packet> {
    if q == [] then [] else (if Of(q[0], s, d) then [q[0]] else []) + Only(q[1..], s, d)
  }

  function OnLink(l: Link): seq<Packet> { if l.Carries? then [l.pkt] else [] }

  /** Node x's messages from s to d, oldest first: on the link towards d, queued, fresh. */
  function At(net: Net, x: nat, s: nat, d: nat): seq<Packet>
    requires x < |net|
  {
    Held(net[x], GoesLeft(|net|, x, d), s, d)
  }

  function Held(st: Station, left: bool, s: nat, d: nat): seq<Packet> {
    Only(OnLink(OutLink(st, left)), s, d) + Only(st.outQ, s, d) + Only(st.outNext, s, d)
  }

  /** The messages from s to d between node x and the engine of d, oldest first. */
  function Flow(net: Net, x: nat, s: nat, d: nat): seq<Packet>
    requires x < |net| && d < |net|
    decreases Remaining(|net|, x, d)
  {
    if x == d then Only(net[d].inQ, s, d)
    else
      HopCloser(|net|, x, d);
      Flow(net, Hop(|net|, x, d), s, d) + At(net, x, s, d)
  }

  /** All that s has sent to d and d has not taken yet. */
  function Channel(net: Net, s: nat, d: nat): seq<Packet>
    requires s < |net| && d < |net|
  {
    Flow(net, s, s, d)
  }

  lemma Associate(a: seq<Packet>, b: seq<Packet>, c: seq<Packet>)
    ensures (a + b) + c == a + (b + c)
  {
  }

  lemma {:induction false} OnlyAppend(q: seq<Packet>, r: seq<Packet>, s: nat, d: nat)
    ensures Only(q + r, s, d) == Only(q, s, d) + Only(r, s, d)
  {
    if q == [] { assert q + r == r; }
    else {
      assert (q + r)[0] == q[0] && (q + r)[1..] == q[1..] + r;
      OnlyAppend(q[1..], r, s, d);
      Associate(if Of(q[0], s, d) then [q[0]] else [], Only(q[1..], s, d), Only(r, s, d));
    }
  }

  lemma OnlyOne(p: Packet, s: nat, d: nat)
    ensures Only([p], s, d) == if Of(p, s, d) then [p] else []
  {
    assert [p][1..] == [];
  }

  lemma {:induction false} OnlyNone(q: seq<Packet>, s: nat, d: nat)
    requires forall p :: p in q ==> p.src != s
    ensures Only(q, s, d) == []
  {
    if q != [] {
      assert q[0] in q;
      OnlyNone(q[1..], s, d);
    }
  }

  lemma {:induction false} SameFlow(net: Net, net': Net, x: nat, s: nat, d: nat)
    requires |net| == |net'| && x < |net| && d < |net|
    requires Only(net[d].inQ, s, d) == Only(net'[d].inQ, s, d)
    requires forall z :: 0 <= z < |net| && z != d && Remaining(|net|, z, d) <= Remaining(|net|, x, d) ==>
                           At(net, z, s, d) == At(net', z, s, d)
    ensures Flow(net, x, s, d) == Flow(net', x, s, d)
    decreases Remaining(|net|, x, d)
  {
    if x != d {
      HopCloser(|net|, x, d);
      SameFlow(net, net', Hop(|net|, x, d), s, d);
    }
  }

  // Send

  lemma HeldSent(st: Station, left: bool, p: Packet, s: nat, d: nat)
    ensures Held(st.(outNext := st.outNext + [p]), left, s, d) ==
      Held(st, left, s, d) + (if Of(p, s, d) then [p] else [])
  {
    OnlyAppend(st.outNext, [p], s, d);
    OnlyOne(p, s, d);
  }

  lemma SendFlow(net: Net, p: Packet, s: nat, d: nat)
    requires WellPlaced(net) && Enabled(net, Send(p)) && s < |net| && d < |net|
    ensures Channel(Next(net, Send(p)), s, d) == Channel(net, s, d) + (if Of(p, s, d) then [p] else [])
  {
    var net', n := Next(net, Send(p)), |net|;
    forall z | 0 <= z < n ensures At(net', z, s, d) == At(net, z, s, d) + (if Of(p, s, d) && z == s then [p] else []) {
      HeldSent(net[z], GoesLeft(n, z, d), p, s, d);
    }
    if Of(p, s, d) {
      HopCloser(n, s, d);
      SameFlow(net, net', Hop(n, s, d), s, d);
    } else {
      SameFlow(net, net', s, s, d);
    }
  }

  // Forward and Tock move messages inside one node

  lemma HeldForward(st: Station, to: bool, left: bool, s: nat, d: nat)
    requires st.outQ != [] && OutLink(st, to).Free?
    requires Of(st.outQ[0], s, d) ==> to == left
    ensures var p := st.outQ[0];
      Held(SetLink(st, to, Carries(p, p.flits)).(outQ := st.outQ[1..]), left, s, d) == Held(st, left, s, d)
  {
    var p, rest := st.outQ[0], st.outQ[1..];
    assert st.outQ == [p] + rest;
    OnlyAppend([p], rest, s, d);
    OnlyOne(p, s, d);
    assert Only(st.outQ, s, d) == Only([p], s, d) + Only(rest, s, d);
    if to == left {
      assert [] + Only(st.outQ, s, d) == Only([p], s, d) + Only(rest, s, d);
    } else {
      assert [] + Only(rest, s, d) == Only(rest, s, d);
    }
  }

  lemma ForwardAt(net: Net, x: nat, s: nat, d: nat, z: nat)
    requires Enabled(net, Forward(x)) && z < |net|
    ensures At(Next(net, Forward(x)), z, s, d) == At(net, z, s, d)
  {
    if z == x {
      HeldForward(net[x], GoesLeft(|net|, x, net[x].outQ[0].dst), GoesLeft(|net|, x, d), s, d);
    }
  }

  lemma AgeKeeps(l: Link)
    ensures OnLink(Age(l)) == OnLink(l)
  {
  }

  lemma TockAt(net: Net, x: nat, s: nat, d: nat, z: nat)
    requires Enabled(net, Tock(x)) && z < |net|
    ensures At(Next(net, Tock(x)), z, s, d) == At(net, z, s, d)
  {
    if z == x {
      OnlyAppend(net[x].outQ, net[x].outNext, s, d);
      AgeKeeps(net[x].left);
      AgeKeeps(net[x].right);
    }
  }

  lemma InsideFlow(net: Net, ev: Event, s: nat, d: nat)
    requires Enabled(net, ev) && (ev.Forward? || ev.Tock?) && s < |net| && d < |net|
    ensures Channel(Next(net, ev), s, d) == Channel(net, s, d)
  {
    forall z | 0 <= z < |net| ensures At(Next(net, ev), z, s, d) == At(net, z, s, d) {
      if ev.Forward? { ForwardAt(net, ev.x, s, d, z); } else { TockAt(net, ev.x, s, d, z); }
    }
    SameFlow(net, Next(net, ev), s, s, d);
  }

  // Take

  lemma {:induction false} TakeFrom(net: Net, x: nat, h: Packet, z: nat, s: nat, d: nat)
    requires Enabled(net, Take(x)) && h == net[x].inQ[0] && h.dst == x && z < |net| && d < |net|
    ensures Flow(net, z, s, d) == (if Of(h, s, d) then [h] else []) + Flow(Next(net, Take(x)), z, s, d)
    decreases Remaining(|net|, z, d)
  {
    if z == d {
      if d == x {
        assert net[x].inQ == [h] + net[x].inQ[1..];
        OnlyAppend([h], net[x].inQ[1..], s, d);
        OnlyOne(h, s, d);
      }
    } else {
      HopCloser(|net|, z, d);
      var net' := Next(net, Take(x));
      TakeFrom(net, x, h, Hop(|net|, z, d), s, d);
      assert At(net', z, s, d) == At(net, z, s, d);
      Associate(if Of(h, s, d) then [h] else [], Flow(net', Hop(|net|, z, d), s, d), At(net', z, s, d));
    }
  }

  // Arrive moves a message from the end of one node to the start of the next

  lemma ArriveAtOther(net: Net, x: nat, left: bool, s: nat, d: nat)
    requires WellPlaced(net) && Enabled(net, Arrive(x, left)) && !Of(OutLink(net[x], left).pkt, s, d)
    ensures At(Next(net, Arrive(x, left)), x, s, d) == At(net, x, s, d)
  {
    var net' := Next(net, Arrive(x, left));
    ArriveTarget(net, x, left);
    OnlyOne(OutLink(net[x], left).pkt, s, d);
    assert OutLink(net'[x], left).Free? && OutLink(net'[x], !left) == OutLink(net[x], !left);
    assert net'[x].outQ == net[x].outQ && net'[x].outNext == net[x].outNext;
    assert Only([], s, d) == [];
  }

  lemma HeldQueued(st: Station, left: bool, p: Packet, s: nat, d: nat)
    requires Of(p, s, d) ==> Only(st.outNext, s, d) == []
    ensures Held(st.(outQ := st.outQ + [p]), left, s, d) == Held(st, left, s, d) + (if Of(p, s, d) then [p] else [])
  {
    OnlyAppend(st.outQ, [p], s, d);
    OnlyOne(p, s, d);
  }

  function Landed(st: Station, y: nat, p: Packet): Station {
    if p.dst == y then st.(inQ := st.inQ + [p]) else st.(outQ := st.outQ + [p])
  }

  lemma ArriveStation(net: Net, x: nat, left: bool)
    requires Enabled(net, Arrive(x, left)) && Neighbour(|net|, x, left) != x
    ensures var y := Neighbour(|net|, x, left);
      Next(net, Arrive(x, left))[y] == Landed(net[y], y, OutLink(net[x], left).pkt)
  {
  }

  lemma LandedHolds(st: Station, y: nat, left: bool, p: Packet, s: nat, d: nat)
    requires !Of(p, s, d)
    ensures Held(Landed(st, y, p), left, s, d) == Held(st, left, s, d)
  {
    HeldQueued(st, left, p, s, d);
  }

  lemma ArriveAtNext(net: Net, x: nat, left: bool, s: nat, d: nat)
    requires WellPlaced(net) && Enabled(net, Arrive(x, left)) && !Of(OutLink(net[x], left).pkt, s, d)
    requires Neighbour(|net|, x, left) < |net|
    ensures At(Next(net, Arrive(x, left)), Neighbour(|net|, x, left), s, d) == At(net, Neighbour(|net|, x, left), s, d)
  {
    var p, y := OutLink(net[x], left).pkt, Neighbour(|net|, x, left);
    ArriveTarget(net, x, left);
    ArriveStation(net, x, left);
    LandedHolds(net[y], y, GoesLeft(|net|, y, d), p, s, d);
  }

  lemma ArriveAt(net: Net, x: nat, left: bool, s: nat, d: nat, z: nat)
    requires WellPlaced(net) && Enabled(net, Arrive(x, left)) && z < |net|
    requires Of(OutLink(net[x], left).pkt, s, d) ==> z != x && z != Neighbour(|net|, x, left)
    ensures At(Next(net, Arrive(x, left)), z, s, d) == At(net, z, s, d)
  {
    if z == x { ArriveAtOther(net, x, left, s, d); }
    else if z == Neighbour(|net|, x, left) { ArriveAtNext(net, x, left, s, d); }
    else { ArriveElsewhere(net, x, left, z); }
  }

  lemma ArriveInbox(net: Net, x: nat, left: bool, s: nat, d: nat)
    requires Enabled(net, Arrive(x, left)) && d < |net|
    ensures var p, y := OutLink(net[x], left).pkt, Neighbour(|net|, x, left);
      Only(Next(net, Arrive(x, left))[d].inQ, s, d) ==
        Only(net[d].inQ, s, d) + (if Of(p, s, d) && y == d then [p] else [])
  {
    var p, y := OutLink(net[x], left).pkt, Neighbour(|net|, x, left);
    OnlyAppend(net[d].inQ, [p], s, d);
    OnlyOne(p, s, d);
  }

  /** Beyond the next node nothing changes. */
  lemma ArriveBeyond(net: Net, x: nat, left: bool)
    requires WellPlaced(net) && Enabled(net, Arrive(x, left))
    requires OutLink(net[x], left).pkt.dst != Neighbour(|net|, x, left) && OutLink(net[x], left).pkt.dst < |net|
    ensures var p, y, net' := OutLink(net[x], left).pkt, Neighbour(|net|, x, left), Next(net, Arrive(x, left));
      Flow(net', Hop(|net|, y, p.dst), p.src, p.dst) == Flow(net, Hop(|net|, y, p.dst), p.src, p.dst)
  {
    var n, p, y, net' := |net|, OutLink(net[x], left).pkt, Neighbour(|net|, x, left), Next(net, Arrive(x, left));
    var s, d := p.src, p.dst;
    ArriveTarget(net, x, left);
    ArriveInbox(net, x, left, s, d);
    HopCloser(n, y, d);
    forall z | 0 <= z < n && z != d && Remaining(n, z, d) <= Remaining(n, Hop(n, y, d), d)
      ensures At(net, z, s, d) == At(net', z, s, d)
    {
      ArriveAt(net, x, left, s, d, z);
    }
    SameFlow(net, net', Hop(n, y, d), s, d);
  }

  /** The flow from the next node on gains the message at its end. */
  lemma ArriveBehind(net: Net, x: nat, left: bool)
    requires WellPlaced(net) && Enabled(net, Arrive(x, left))
    ensures var p, y, net' := OutLink(net[x], left).pkt, Neighbour(|net|, x, left), Next(net, Arrive(x, left));
      && y < |net| && p.src < |net| && p.dst < |net|
      && Flow(net', y, p.src, p.dst) == Flow(net, y, p.src, p.dst) + [p]
  {
    var p, y := OutLink(net[x], left).pkt, Neighbour(|net|, x, left);
    ArriveTarget(net, x, left);
    if y == p.dst {
      ArriveInbox(net, x, left, p.src, p.dst);
    } else {
      ArriveBeyond(net, x, left);
      ArriveQueued(net, x, left);
      Associate(Flow(net, Hop(|net|, y, p.dst), p.src, p.dst), At(net, y, p.src, p.dst), [p]);
    }
  }

  lemma ArriveQueued(net: Net, x: nat, left: bool)
    requires WellPlaced(net) && Enabled(net, Arrive(x, left))
    requires OutLink(net[x], left).pkt.dst != Neighbour(|net|, x, left)
    ensures var p, y, net' := OutLink(net[x], left).pkt, Neighbour(|net|, x, left), Next(net, Arrive(x, left));
      y < |net| && At(net', y, p.src, p.dst) == At(net, y, p.src, p.dst) + [p]
  {
    var p, y := OutLink(net[x], left).pkt, Neighbour(|net|, x, left);
    ArriveTarget(net, x, left);
    assert Placed(net, y);
    OnlyNone(net[y].outNext, p.src, p.dst);
    HeldQueued(net[y], GoesLeft(|net|, y, p.dst), p, p.src, p.dst);
  }

  /** The node it leaves loses its oldest message. */
  lemma ArriveLeaves(net: Net, x: nat, left: bool)
    requires WellPlaced(net) && Enabled(net, Arrive(x, left))
    ensures var p := OutLink(net[x], left).pkt;
      At(net, x, p.src, p.dst) == [p] + At(Next(net, Arrive(x, left)), x, p.src, p.dst)
  {
    var p, net' := OutLink(net[x], left).pkt, Next(net, Arrive(x, left));
    ArriveTarget(net, x, left);
    OnlyOne(p, p.src, p.dst);
    assert OutLink(net'[x], left).Free? && net'[x].outQ == net[x].outQ && net'[x].outNext == net[x].outNext;
    assert Only([], p.src, p.dst) == [];
  }

  lemma {:induction false} ArriveFrom(net: Net, x: nat, left: bool, z: nat)
    requires WellPlaced(net) && Enabled(net, Arrive(x, left)) && z < |net|
    requires OutLink(net[x], left).pkt.dst < |net|
    requires OnRoute(|net|, z, OutLink(net[x], left).pkt.dst, x)
    ensures var p := OutLink(net[x], left).pkt;
      Flow(Next(net, Arrive(x, left)), z, p.src, p.dst) == Flow(net, z, p.src, p.dst)
    decreases Remaining(|net|, z, OutLink(net[x], left).pkt.dst)
  {
    var n, p, y, net' := |net|, OutLink(net[x], left).pkt, Neighbour(|net|, x, left), Next(net, Arrive(x, left));
    var s, d := p.src, p.dst;
    ArriveTarget(net, x, left);
    if z == x {
      ArriveBehind(net, x, left);
      ArriveLeaves(net, x, left);
      Associate(Flow(net, y, s, d), [p], At(net', x, s, d));
    } else {
      HopCloser(n, z, d);
      RouteShrinks(n, Hop(n, z, d), d, x);
      ArriveAt(net, x, left, s, d, z);
      ArriveFrom(net, x, left, Hop(n, z, d));
    }
  }

  lemma ArriveFlow(net: Net, x: nat, left: bool, s: nat, d: nat)
    requires WellPlaced(net) && Enabled(net, Arrive(x, left)) && s < |net| && d < |net|
    ensures Channel(Next(net, Arrive(x, left)), s, d) == Channel(net, s, d)
  {
    var p := OutLink(net[x], left).pkt;
    assert Placed(net, x);
    if Of(p, s, d) {
      ArriveFrom(net, x, left, s);
    } else {
      ArriveInbox(net, x, left, s, d);
      forall z | 0 <= z < |net| ensures At(Next(net, Arrive(x, left)), z, s, d) == At(net, z, s, d) {
        ArriveAt(net, x, left, s, d, z);
      }
      SameFlow(net, Next(net, Arrive(x, left)), s, s, d);
    }
  }

  // ----- whole runs -----

  /** The ring with everything sent and taken so far, in order. */
  datatype History = History(net: Net, sent: seq<Packet>, taken: seq<Packet>)

  function Record(h: History, ev: Event): History
    requires Enabled(h.net, ev)
  {
    History(Next(h.net, ev),
            if ev.Send? then h.sent + [ev.pkt] else h.sent,
            if ev.Take? then h.taken + [h.net[ev.x].inQ[0]] else h.taken)
  }

  /** Disabled events are skipped. */
  function Run(h: History, evs: seq<Event>): History
    decreases |evs|
  {
    if evs == [] then h
    else Run(if Enabled(h.net, evs[0]) then Record(h, evs[0]) else h, evs[1..])
  }

  function Empty(n: nat): (net: Net)
    ensures |net| == n
  {
    seq(n, i => Station([], [], [], Free, Free))
  }

  /** For every pair of nodes: what was taken, then what is in the channel, is what was sent. */
  ghost predicate Faithful(h: History) {
    && WellPlaced(h.net)
    && forall s, d :: 0 <= s < |h.net| && 0 <= d < |h.net| ==>
         Only(h.sent, s, d) == Only(h.taken, s, d) + Channel(h.net, s, d)
  }

  lemma RecordFaithful(h: History, ev: Event)
    requires Faithful(h) && Enabled(h.net, ev)
    ensures Faithful(Record(h, ev))
  {
    var g := Record(h, ev);
    NextPlaced(h.net, ev);
    forall s, d | 0 <= s < |h.net| && 0 <= d < |h.net|
      ensures Only(g.sent, s, d) == Only(g.taken, s, d) + Channel(g.net, s, d)
    {
      RecordChannel(h, ev, s, d);
    }
  }

  lemma RecordChannel(h: History, ev: Event, s: nat, d: nat)
    requires WellPlaced(h.net) && Enabled(h.net, ev) && s < |h.net| && d < |h.net|
    requires Only(h.sent, s, d) == Only(h.taken, s, d) + Channel(h.net, s, d)
    ensures Only(Record(h, ev).sent, s, d) == Only(Record(h, ev).taken, s, d) + Channel(Record(h, ev).net, s, d)
  {
    var t, c := Only(h.taken, s, d), Channel(h.net, s, d);
    match ev
    case Send(p) =>
      SendFlow(h.net, p, s, d);
      OnlyAppend(h.sent, [p], s, d);
      OnlyOne(p, s, d);
      Associate(t, c, if Of(p, s, d) then [p] else []);
    case Take(x) =>
      var m := h.net[x].inQ[0];
      assert Placed(h.net, x);
      assert m in h.net[x].inQ;
      TakeFrom(h.net, x, m, s, s, d);
      OnlyAppend(h.taken, [m], s, d);
      OnlyOne(m, s, d);
      Associate(t, if Of(m, s, d) then [m] else [], Channel(Next(h.net, ev), s, d));
    case Arrive(x, left) => ArriveFlow(h.net, x, left, s, d);
    case Forward(_) => InsideFlow(h.net, ev, s, d);
    case Tock(_) => InsideFlow(h.net, ev, s, d);
  }

  lemma {:induction false} RunFaithful(h: History, evs: seq<Event>)
    requires Faithful(h)
    ensures Faithful(Run(h, evs)) && |Run(h, evs).net| == |h.net|
    decreases |evs|
  {
    if evs != [] {
      if Enabled(h.net, evs[0]) {
        RecordFaithful(h, evs[0]);
        RunFaithful(Record(h, evs[0]), evs[1..]);
      } else {
        RunFaithful(h, evs[1..]);
      }
    }
  }

  lemma {:induction false} EmptyChannel(n: nat, x: nat, s: nat, d: nat)
    requires x < n && d < n
    ensures Flow(Empty(n), x, s, d) == []
    decreases Remaining(n, x, d)
  {
    if x != d {
      HopCloser(n, x, d);
      EmptyChannel(n, Hop(n, x, d), s, d);
    }
  }

  /** The ring is a FIFO channel between any two nodes, whatever the contention: at every moment of
      every run, what d has taken from s, followed by the messages still under way, is exactly what
      s has sent to d. So nothing is lost, duplicated or overtaken. */
  lemma FifoChannels(n: nat, evs: seq<Event>, s: nat, d: nat)
    requires s < n && d < n
    ensures var h := Run(History(Empty(n), [], []), evs);
      && |h.net| == n
      && Only(h.sent, s, d) == Only(h.taken, s, d) + Channel(h.net, s, d)
  {
    var h := History(Empty(n), [], []);
    forall s, d | 0 <= s < n && 0 <= d < n ensures Only(h.sent, s, d) == Only(h.taken, s, d) + Channel(h.net, s, d) {
      EmptyChannel(n, s, s, d);
    }
    RunFaithful(h, evs);
  }
}
