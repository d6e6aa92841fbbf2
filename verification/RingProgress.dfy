/** The ring delivers: head-of-line blocking and busy links never stop it for good. */
module RingProgress {
  import opened Ring
  import opened FairRuns

  /** Everything but a new message; a Tock counts when it moves or ages something. */
  predicate Productive(net: Net, ev: Event) {
    Enabled(net, ev) && !ev.Send? &&
    (ev.Tock? ==>
       net[ev.x].outNext != [] || Ticking(net[ev.x].left) || Ticking(net[ev.x].right))
  }

  predicate Ticking(l: Link) { l.Carries? && l.tof > 0 }

  function Times(c: nat, r: int): nat { if r <= 0 then 0 else c + Times(c, r - 1) }

  /** What it still takes to bring p from the queue of x to the engine of its destination. */
  function Journey(n: nat, x: nat, p: Packet): nat
    requires x < n
  {
    Times(p.flits + 2, Remaining(n, x, p.dst)) + 1
  }

  function LinkWork(n: nat, x: nat, l: Link): nat
    requires x < n
  {
    if l.Free? then 0
    else
      Times(l.pkt.flits + 2, Remaining(n, x, l.pkt.dst))
      - (if Remaining(n, x, l.pkt.dst) > 0 then l.pkt.flits + 2 else 0)
         + 2 + (if l.tof > 0 then l.tof else 0)
  }

  function QueueWork(n: nat, x: nat, q: seq<Packet>): nat
    requires x < n
  {
    if q == [] then 0 else Journey(n, x, q[0]) + QueueWork(n, x, q[1..])
  }

  function StationWork(n: nat, x: nat, st: Station): nat
    requires x < n
  {
    QueueWork(n, x, st.outNext) + |st.outNext| + QueueWork(n, x, st.outQ) + |st.inQ|
    + LinkWork(n, x, st.left) + LinkWork(n, x, st.right)
  }

  /** Work of the first m stations. */
  function Work(net: Net, m: nat): nat
    requires m <= |net|
  {
    if m == 0 then 0 else Work(net, m - 1) + StationWork(|net|, m - 1, net[m - 1])
  }

  lemma {:induction false} WorkUpdate(net: Net, x: nat, st: Station, m: nat)
    requires x < |net| && m <= |net|
    ensures Work(net[x := st], m) ==
            Work(net, m) + (if x < m then StationWork(|net|, x, st) - StationWork(|net|, x, net[x]) else 0)
  {
    if m > 0 { WorkUpdate(net, x, st, m - 1); }
  }

  lemma {:induction false} QueueAppend(n: nat, x: nat, q: seq<Packet>, r: seq<Packet>)
    requires x < n
    ensures QueueWork(n, x, q + r) == QueueWork(n, x, q) + QueueWork(n, x, r)
  {
    if q == [] { assert q + r == r; }
    else {
      assert (q + r)[0] == q[0] && (q + r)[1..] == q[1..] + r;
      QueueAppend(n, x, q[1..], r);
    }
  }

  lemma ForwardStation(n: nat, x: nat, st: Station)
    requires x < n && st.outQ != [] && Remaining(n, x, st.outQ[0].dst) > 0
    requires OutLink(st, GoesLeft(n, x, st.outQ[0].dst)).Free?
    ensures var p := st.outQ[0];
      StationWork(n, x, SetLink(st, GoesLeft(n, x, p.dst), Carries(p, p.flits)).(outQ := st.outQ[1..])) ==
        StationWork(n, x, st) - 1
  {
    var p := st.outQ[0];
    assert LinkWork(n, x, Carries(p, p.flits)) == Times(p.flits + 2, Remaining(n, x, p.dst));
    assert QueueWork(n, x, st.outQ) == Journey(n, x, p) + QueueWork(n, x, st.outQ[1..]);
  }

  lemma ForwardWork(net: Net, x: nat)
    requires WellPlaced(net) && Enabled(net, Forward(x))
    ensures Work(Next(net, Forward(x)), |net|) < Work(net, |net|)
  {
    var n, p := |net|, net[x].outQ[0];
    assert Placed(net, x);
    assert p in net[x].outQ;
    HopCloser(n, x, p.dst);
    ForwardStation(n, x, net[x]);
    WorkUpdate(net, x, Next(net, Forward(x))[x], n);
  }

  lemma TakeWork(net: Net, x: nat)
    requires Enabled(net, Take(x))
    ensures Work(Next(net, Take(x)), |net|) < Work(net, |net|)
  {
    WorkUpdate(net, x, Next(net, Take(x))[x], |net|);
  }

  lemma AgeWork(n: nat, x: nat, l: Link)
    requires x < n
    ensures LinkWork(n, x, Age(l)) == LinkWork(n, x, l) - (if Ticking(l) then 1 else 0)
  {
  }

  lemma TockWork(net: Net, x: nat)
    requires Productive(net, Tock(x))
    ensures Work(Next(net, Tock(x)), |net|) < Work(net, |net|)
  {
    var n := |net|;
    QueueAppend(n, x, net[x].outQ, net[x].outNext);
    AgeWork(n, x, net[x].left);
    AgeWork(n, x, net[x].right);
    WorkUpdate(net, x, Next(net, Tock(x))[x], n);
  }

  lemma NextArrive(net: Net, x: nat, left: bool)
    requires Enabled(net, Arrive(x, left))
    ensures Next(net, Arrive(x, left)) == Moved(net, x, left, Neighbour(|net|, x, left), OutLink(net[x], left).pkt)
  {
  }

  function Moved(net: Net, x: nat, left: bool, y: nat, p: Packet): (r: Net)
    requires x < |net| && y < |net|
    ensures |r| == |net|
  {
    var freed := net[x := SetLink(net[x], left, Free)];
    freed[y := Landed(freed[y], y, p)]
  }

  lemma MovedWork(net: Net, x: nat, left: bool, y: nat, p: Packet, r: int)
    requires x < |net| && y < |net| && r >= 0
    requires OutLink(net[x], left).Carries? && OutLink(net[x], left).tof <= 0 && OutLink(net[x], left).pkt == p
    requires Remaining(|net|, x, p.dst) == r + 1 && Remaining(|net|, y, p.dst) == r
    ensures Work(Moved(net, x, left, y, p), |net|) < Work(net, |net|)
  {
    UnlinkedWork(net, x, left, r);
    LinkedWork(net[x := SetLink(net[x], left, Free)], y, p, r);
  }

  lemma ArriveWork(net: Net, x: nat, left: bool)
    requires WellPlaced(net) && Enabled(net, Arrive(x, left))
    ensures Work(Next(net, Arrive(x, left)), |net|) < Work(net, |net|)
  {
    var n, p, y := |net|, OutLink(net[x], left).pkt, Neighbour(|net|, x, left);
    ArriveTarget(net, x, left);
    NextArrive(net, x, left);
    MovedWork(net, x, left, y, p, Remaining(n, y, p.dst));
  }

  /** Taking a message off x's link. */
  lemma UnlinkedWork(net: Net, x: nat, left: bool, r: int)
    requires x < |net| && OutLink(net[x], left).Carries? && OutLink(net[x], left).tof <= 0 && r >= 0
    requires Remaining(|net|, x, OutLink(net[x], left).pkt.dst) == r + 1
    ensures Work(net[x := SetLink(net[x], left, Free)], |net|) ==
            Work(net, |net|) - Times(OutLink(net[x], left).pkt.flits + 2, r) - 2
  {
    UnlinkWork(|net|, x, net[x], left, r);
    WorkUpdate(net, x, SetLink(net[x], left, Free), |net|);
  }

  /** Queueing it at y. */
  lemma LinkedWork(net: Net, y: nat, p: Packet, r: int)
    requires y < |net| && Remaining(|net|, y, p.dst) == r && r >= 0
    ensures Work(net[y := Landed(net[y], y, p)], |net|) <= Work(net, |net|) + Times(p.flits + 2, r) + 1
  {
    LandedWork(|net|, y, net[y], p, r);
    WorkUpdate(net, y, Landed(net[y], y, p), |net|);
  }

  lemma UnlinkWork(n: nat, x: nat, st: Station, left: bool, r: int)
    requires x < n && OutLink(st, left).Carries? && OutLink(st, left).tof <= 0 && r >= 0
    requires Remaining(n, x, OutLink(st, left).pkt.dst) == r + 1
    ensures StationWork(n, x, SetLink(st, left, Free)) + Times(OutLink(st, left).pkt.flits + 2, r) + 2 ==
      StationWork(n, x, st)
  {
  }

  lemma LandedWork(n: nat, y: nat, st: Station, p: Packet, r: int)
    requires y < n && Remaining(n, y, p.dst) == r && r >= 0
    ensures StationWork(n, y, Landed(st, y, p)) <= StationWork(n, y, st) + Times(p.flits + 2, r) + 1
  {
    QueueAppend(n, y, st.outQ, [p]);
    assert [p][1..] == [];
    assert QueueWork(n, y, [p]) == Journey(n, y, p);
  }

  /** Every productive event brings the ring closer to empty. */
  lemma ProductiveLowersWork(net: Net, ev: Event)
    requires WellPlaced(net) && Productive(net, ev)
    ensures Work(Next(net, ev), |net|) < Work(net, |net|)
  {
    match ev
    case Forward(x) => ForwardWork(net, x);
    case Arrive(x, left) => ArriveWork(net, x, left);
    case Take(x) => TakeWork(net, x);
    case Tock(x) => TockWork(net, x);
  }

  lemma {:induction false} BusyStation(net: Net, m: nat) returns (x: nat)
    requires m <= |net| && Work(net, m) > 0
    ensures x < |net| && StationWork(|net|, x, net[x]) > 0
  {
    if StationWork(|net|, m - 1, net[m - 1]) > 0 { x := m - 1; } else { x := BusyStation(net, m - 1); }
  }

  /** A ring with anything in it can move: no node waits for ever behind a busy link. */
  lemma NeverStuck(net: Net) returns (ev: Event)
    requires Work(net, |net|) > 0
    ensures Productive(net, ev)
  {
    var x := BusyStation(net, |net|);
    var st := net[x];
    if st.inQ != [] { ev := Take(x); }
    else if st.outNext != [] || Ticking(st.left) || Ticking(st.right) { ev := Tock(x); }
    else if st.left.Carries? { ev := Arrive(x, true); }
    else if st.right.Carries? { ev := Arrive(x, false); }
    else { ev := Forward(x); }
  }

  predicate Drained(net: Net) {
    forall x :: 0 <= x < |net| ==> net[x] == Station([], [], [], Free, Free)
  }

  lemma {:induction false} NoWorkEmpty(net: Net, m: nat, x: nat)
    requires m <= |net| && Work(net, m) == 0 && x < m
    ensures net[x] == Station([], [], [], Free, Free)
  {
    if x < m - 1 { NoWorkEmpty(net, m - 1, x); }
    else {
      var st := net[x];
      assert StationWork(|net|, x, st) == 0;
      assert st.left.Free? && st.right.Free?;
      assert |st.inQ| == 0 && |st.outNext| == 0;
    }
  }

  /** A ring that is empty has handed over everything. */
  lemma DrainedTaken(h: History)
    requires Faithful(h) && Drained(h.net)
    ensures forall s, d :: 0 <= s < |h.net| && 0 <= d < |h.net| ==> Only(h.taken, s, d) == Only(h.sent, s, d)
  {
    assert h.net == Empty(|h.net|);
    forall s, d | 0 <= s < |h.net| && 0 <= d < |h.net| ensures Only(h.taken, s, d) == Only(h.sent, s, d) {
      EmptyChannel(|h.net|, s, s, d);
    }
  }

  /** From any state of a run the ring can be emptied: every message reaches its destination's engine,
      after at most Work events. */
  lemma {:induction false} Deliver(h: History) returns (evs: seq<Event>)
    requires Faithful(h)
    ensures |evs| <= Work(h.net, |h.net|) && Drained(Run(h, evs).net)
    ensures |Run(h, evs).net| == |h.net| && Run(h, evs).sent == h.sent
    ensures forall s, d :: 0 <= s < |h.net| && 0 <= d < |h.net| ==> Only(Run(h, evs).taken, s, d) == Only(h.sent, s, d)
    decreases Work(h.net, |h.net|)
  {
    if Work(h.net, |h.net|) == 0 {
      evs := [];
      forall x | 0 <= x < |h.net| ensures h.net[x] == Station([], [], [], Free, Free) {
        NoWorkEmpty(h.net, |h.net|, x);
      }
      DrainedTaken(h);
    } else {
      var ev := NeverStuck(h.net);
      ProductiveLowersWork(h.net, ev);
      RecordFaithful(h, ev);
      var rest := Deliver(Record(h, ev));
      evs := [ev] + rest;
    }
  }

  // ----- under every fair schedule -----

  /** The events of the n nodes; their engines send nothing new. */
  predicate Inside(ev: Event, n: nat) {
    match ev
    case Send(_) => false
    case Forward(x) => x < n
    case Arrive(x, _) => x < n
    case Take(x) => x < n
    case Tock(x) => x < n
  }

  function Go(h: History, ev: Event): History { if Enabled(h.net, ev) && !ev.Send? then Record(h, ev) else h }

  ghost predicate Sound(h: History, n: nat, sent: seq<Packet>) { Faithful(h) && |h.net| == n && h.sent == sent }

  ghost function Delivery(n: nat, sent: seq<Packet>): Process<History, Event> {
    Process((h: History, ev: Event) => Go(h, ev), (ev: Event) => Inside(ev, n), (h: History) => Sound(h, n, sent),
            (h: History) => (Work(h.net, |h.net|), 0),
            (h: History, ev: Event, r: nat) => r == 0 && Productive(h.net, ev), (h: History) => Drained(h.net))
  }

  /** An event that is not productive changes nothing. */
  lemma IdleNothing(h: History, ev: Event)
    requires !Productive(h.net, ev)
    ensures Go(h, ev) == h
  {
    if Enabled(h.net, ev) && ev.Tock? {
      var st := h.net[ev.x];
      assert st.outQ + [] == st.outQ;
      assert Next(h.net, ev) == h.net;
    }
  }

  lemma GoSound(h: History, ev: Event, n: nat, sent: seq<Packet>)
    requires Sound(h, n, sent)
    ensures Sound(Go(h, ev), n, sent)
    ensures if Productive(h.net, ev) then Work(Go(h, ev).net, n) < Work(h.net, n) else Go(h, ev) == h
  {
    if Productive(h.net, ev) {
      ProductiveLowersWork(h.net, ev);
      RecordFaithful(h, ev);
    } else {
      IdleNothing(h, ev);
    }
  }

  lemma DeliveryEnding(n: nat, sent: seq<Packet>, sys: Process<History, Event>)
    requires sys == Delivery(n, sent)
    ensures Ending(sys) && Final(sys)
  {
    forall h, d | sys.kept(h)
      ensures sys.kept(sys.go(h, d)) && NotAbove(sys.measure(sys.go(h, d)), sys.measure(h))
      ensures sys.goal(h) ==> sys.goal(sys.go(h, d))
    {
      GoSound(h, d, n, sent);
    }
    forall h, ev, r: nat, d | sys.kept(h) && sys.tried(ev) && sys.helps(h, ev, r) ensures Onward(sys, h, ev, r, d) {
      GoSound(h, d, n, sent);
    }
    forall h | sys.kept(h) && !sys.goal(h) ensures Helped(sys, h) { SomethingHelps(h, n, sent); }
  }

  lemma SomethingHelps(h: History, n: nat, sent: seq<Packet>)
    requires Sound(h, n, sent) && !Drained(h.net)
    ensures Helped(Delivery(n, sent), h)
  {
    if Work(h.net, n) == 0 {
      forall x | 0 <= x < n ensures h.net[x] == Station([], [], [], Free, Free) { NoWorkEmpty(h.net, n, x); }
    }
    var ev := NeverStuck(h.net);
    assert Delivery(n, sent).tried(ev) && Delivery(n, sent).helps(h, ev, 0);
  }

  /** h at moment m of a schedule. */
  function Later(h: History, sigma: nat -> Event, m: nat): History {
    FairRuns.After((g: History, ev: Event) => Go(g, ev), h, sigma, 0, m)
  }

  /** Under every fair schedule of forwards, arrivals, hand-overs and tocks the ring empties, from any state of a run:
      from some moment on every engine has taken exactly what was sent to it, each channel in order. */
  lemma FairDelivery(h: History, sigma: nat -> Event) returns (n: nat)
    requires Faithful(h) && Fair(sigma, (ev: Event) => Inside(ev, |h.net|))
    ensures forall m: nat :: m >= n ==> Arrived(h, Later(h, sigma, m))
  {
    var sys := Delivery(|h.net|, h.sent);
    DeliveryEnding(|h.net|, h.sent, sys);
    n := FairRunEnds(sys, h, sigma);
    forall m: nat | m >= n ensures Arrived(h, Later(h, sigma, m)) {
      var g := Later(h, sigma, m);
      assert g == FairRuns.After(sys.go, h, sigma, 0, m);
      assert sys.goal(g) && sys.kept(g);
      DrainedTaken(g);
    }
  }

  /** Everything that h has sent has been taken in g. */
  predicate Arrived(h: History, g: History) {
    && Drained(g.net) && |g.net| == |h.net| && g.sent == h.sent
    && forall s, d :: 0 <= s < |h.net| && 0 <= d < |h.net| ==> Only(g.taken, s, d) == Only(h.sent, s, d)
  }
}
