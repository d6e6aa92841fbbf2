/** The coherence machine over the ring: its channels are the ring's, message by message. Processor i is node i of
    the ring, the directory the node after the last processor. */
module CoherenceOverRing {
  import opened Options
  import opened CoherenceTypes
  import opened CoherenceMachine
  import CoherenceSafety
  import Protocols
  import D = DirectoryController
  import R = Ring

  // ----- the wire: a ring whose packets carry messages -----

  /** letters[id] is what the packet with that id carries. */
  datatype Wire = Wire(ring: R.Net, letters: seq<Down>)

  /** header_flits and payload_flits; a header has at least one flit. */
  datatype Sizes = Sizes(header: nat, payload: nat)

  function Flits(z: Sizes, k: Kind): nat { z.header + (if k.DATA? || k.DATA_E? then z.payload else 0) }

  function LetterOf(letters: seq<Down>, p: R.Packet): Down {
    if p.id < |letters| then letters[p.id] else Down(0, GETS)
  }

  function Read(q: seq<R.Packet>, letters: seq<Down>): seq<Down> {
    if q == [] then [] else [LetterOf(letters, q[0])] + Read(q[1..], letters)
  }

  /** The messages under way from s to d, oldest first. */
  function Between(w: Wire, s: nat, d: nat): seq<Down> {
    if s < |w.ring| && d < |w.ring| then Read(R.Channel(w.ring, s, d), w.letters) else []
  }

  type Table = (nat, nat) -> seq<Down>

  /** All of them. */
  function Under(w: Wire): Table { (s: nat, d: nat) => Between(w, s, d) }

  /** ls joined the end of the channel from s to d, nothing else changed. */
  ghost predicate Gains(f: Table, g: Table, n: nat, s: nat, d: nat, ls: seq<Down>) {
    forall s', d' :: 0 <= s' <= n && 0 <= d' <= n ==> g(s', d') == f(s', d') + (if s == s' && d == d' then ls else [])
  }

  /** l left the front of the channel from s to d, nothing else changed. */
  ghost predicate Loses(f: Table, g: Table, n: nat, s: nat, d: nat, l: Down) {
    forall s', d' :: 0 <= s' <= n && 0 <= d' <= n ==> f(s', d') == (if s == s' && d == d' then [l] else []) + g(s', d')
  }

  predicate Known(q: seq<R.Packet>, letters: seq<Down>) { forall p :: p in q ==> p.id < |letters| }

  /** Every packet carries a letter, and one end of its way is the directory at node n. */
  ghost predicate Wired(w: Wire, n: nat) {
    && |w.ring| == n + 1 && R.WellPlaced(w.ring)
    && (forall s, d :: 0 <= s <= n && 0 <= d <= n ==> Known(R.Channel(w.ring, s, d), w.letters))
    && (forall s, d :: 0 <= s < n && 0 <= d < n ==> R.Channel(w.ring, s, d) == [])
  }

  lemma {:induction false} ReadAppend(q: seq<R.Packet>, r: seq<R.Packet>, letters: seq<Down>)
    ensures Read(q + r, letters) == Read(q, letters) + Read(r, letters)
  {
    if q == [] { assert q + r == r; }
    else {
      assert (q + r)[0] == q[0] && (q + r)[1..] == q[1..] + r;
      ReadAppend(q[1..], r, letters);
    }
  }

  lemma ReadOne(p: R.Packet, letters: seq<Down>)
    ensures Read([p], letters) == [LetterOf(letters, p)]
  {
    assert [p][1..] == [];
  }

  lemma {:induction false} ReadMore(q: seq<R.Packet>, letters: seq<Down>, l: Down)
    requires Known(q, letters)
    ensures Read(q, letters + [l]) == Read(q, letters)
  {
    if q != [] {
      assert q[0] in q;
      ReadMore(q[1..], letters, l);
    }
  }

  function PacketFor(w: Wire, z: Sizes, s: nat, d: nat, l: Down): R.Packet {
    R.Packet(s, d, Flits(z, l.kind), |w.letters|)
  }

  /** A message from s to d enters the ring at s. */
  function Post(w: Wire, z: Sizes, s: nat, d: nat, l: Down): Wire {
    var ev := R.Send(PacketFor(w, z, s, d, l));
    if R.Enabled(w.ring, ev) then Wire(R.Next(w.ring, ev), w.letters + [l]) else w
  }

  predicate Ends(n: nat, s: nat, d: nat) { s <= n && d <= n && s != d && (s == n || d == n) }

  lemma PostBetween(w: Wire, n: nat, z: Sizes, s: nat, d: nat, l: Down, s': nat, d': nat)
    requires Wired(w, n) && Ends(n, s, d) && z.header >= 1 && s' <= n && d' <= n
    ensures |Post(w, z, s, d, l).ring| == n + 1
    ensures Between(Post(w, z, s, d, l), s', d') == Between(w, s', d') + (if s == s' && d == d' then [l] else [])
    ensures Known(R.Channel(Post(w, z, s, d, l).ring, s', d'), Post(w, z, s, d, l).letters)
    ensures s' < n && d' < n ==> R.Channel(Post(w, z, s, d, l).ring, s', d') == []
  {
    var p := PacketFor(w, z, s, d, l);
    var q := R.Channel(w.ring, s', d');
    var letters := w.letters + [l];
    R.SendFlow(w.ring, p, s', d');
    assert Known(q, w.letters);
    ReadMore(q, w.letters, l);
    ReadOne(p, letters);
    ReadAppend(q, [p], letters);
    assert q + [] == q && Read(q, letters) + [] == Read(q, letters);
  }

  lemma PostWired(w: Wire, n: nat, z: Sizes, s: nat, d: nat, l: Down)
    requires Wired(w, n) && Ends(n, s, d) && z.header >= 1
    ensures Wired(Post(w, z, s, d, l), n)
  {
    R.NextPlaced(w.ring, R.Send(PacketFor(w, z, s, d, l)));
    forall s', d' | 0 <= s' <= n && 0 <= d' <= n
      ensures Known(R.Channel(Post(w, z, s, d, l).ring, s', d'), Post(w, z, s, d, l).letters)
      ensures s' < n && d' < n ==> R.Channel(Post(w, z, s, d, l).ring, s', d') == []
    {
      PostBetween(w, n, z, s, d, l, s', d');
    }
  }

  function PostAll(w: Wire, z: Sizes, s: nat, d: nat, ls: seq<Down>): Wire
    decreases |ls|
  {
    if ls == [] then w else PostAll(Post(w, z, s, d, ls[0]), z, s, d, ls[1..])
  }

  lemma {:induction false} PostAllBetween(w: Wire, n: nat, z: Sizes, s: nat, d: nat, ls: seq<Down>)
    requires Wired(w, n) && Ends(n, s, d) && z.header >= 1
    ensures Wired(PostAll(w, z, s, d, ls), n)
    ensures Gains(Under(w), Under(PostAll(w, z, s, d, ls)), n, s, d, ls)
    decreases |ls|
  {
    if ls == [] {
      GainsNone(Under(w), n, s, d);
    } else {
      var w' := Post(w, z, s, d, ls[0]);
      PostWired(w, n, z, s, d, ls[0]);
      PostAllBetween(w', n, z, s, d, ls[1..]);
      forall s', d' | 0 <= s' <= n && 0 <= d' <= n
        ensures Between(w', s', d') == Between(w, s', d') + (if s == s' && d == d' then [ls[0]] else [])
      {
        PostBetween(w, n, z, s, d, ls[0], s', d');
      }
      GainsMore(Under(w), Under(w'), Under(PostAll(w, z, s, d, ls)), n, s, d, ls);
    }
  }

  lemma GainsNone(f: Table, n: nat, s: nat, d: nat)
    ensures Gains(f, f, n, s, d, [])
  {
  }

  lemma GainsMore(f: Table, g: Table, h: Table, n: nat, s: nat, d: nat, ls: seq<Down>)
    requires ls != [] && Gains(f, g, n, s, d, [ls[0]]) && Gains(g, h, n, s, d, ls[1..])
    ensures Gains(f, h, n, s, d, ls)
  {
    forall s', d' | 0 <= s' <= n && 0 <= d' <= n
      ensures h(s', d') == f(s', d') + (if s == s' && d == d' then ls else [])
    {
      assert ls == [ls[0]] + ls[1..];
      assert g(s', d') == f(s', d') + (if s == s' && d == d' then [ls[0]] else []);
    }
  }

  /** The oldest message in x's inbox leaves the ring. */
  lemma TakeBetween(w: Wire, n: nat, x: nat)
    requires Wired(w, n) && R.Enabled(w.ring, R.Take(x))
    ensures var p, w' := w.ring[x].inQ[0], Wire(R.Next(w.ring, R.Take(x)), w.letters);
      && Ends(n, p.src, x) && p.dst == x && Wired(w', n)
      && Loses(Under(w), Under(w'), n, p.src, x, LetterOf(w.letters, p))
  {
    var p, ring' := w.ring[x].inQ[0], R.Next(w.ring, R.Take(x));
    assert R.Placed(w.ring, x) && p in w.ring[x].inQ;
    R.NextPlaced(w.ring, R.Take(x));
    forall s, d | 0 <= s <= n && 0 <= d <= n
      ensures R.Channel(w.ring, s, d) == (if R.Of(p, s, d) then [p] else []) + R.Channel(ring', s, d)
      ensures Known(R.Channel(ring', s, d), w.letters)
      ensures Between(w, s, d) == (if p.src == s && x == d then [LetterOf(w.letters, p)] else []) +
        Read(R.Channel(ring', s, d), w.letters)
    {
      TakeAt(w, n, x, s, d);
    }
    assert R.Channel(w.ring, p.src, x) != [];
  }

  lemma TakeAt(w: Wire, n: nat, x: nat, s: nat, d: nat)
    requires Wired(w, n) && R.Enabled(w.ring, R.Take(x)) && w.ring[x].inQ[0].dst == x && s <= n && d <= n
    ensures var p, ring' := w.ring[x].inQ[0], R.Next(w.ring, R.Take(x));
      && R.Channel(w.ring, s, d) == (if R.Of(p, s, d) then [p] else []) + R.Channel(ring', s, d)
      && Known(R.Channel(ring', s, d), w.letters)
      && Between(w, s, d) == (if p.src == s && x == d then [LetterOf(w.letters, p)] else []) +
        Read(R.Channel(ring', s, d), w.letters)
  {
    var p, ring' := w.ring[x].inQ[0], R.Next(w.ring, R.Take(x));
    R.TakeFrom(w.ring, x, p, s, s, d);
    assert Known(R.Channel(w.ring, s, d), w.letters);
    ReadOne(p, w.letters);
    ReadAppend(if R.Of(p, s, d) then [p] else [], R.Channel(ring', s, d), w.letters);
  }

  lemma InsideChannel(net: R.Net, ev: R.Event, s: nat, d: nat)
    requires R.WellPlaced(net) && R.Enabled(net, ev) && !ev.Send? && !ev.Take? && s < |net| && d < |net|
    ensures R.Channel(R.Next(net, ev), s, d) == R.Channel(net, s, d)
  {
    if ev.Arrive? { R.ArriveFlow(net, ev.x, ev.left, s, d); } else { R.InsideFlow(net, ev, s, d); }
  }

  /** What happens inside the ring is invisible at its ends. */
  lemma MoveBetween(w: Wire, n: nat, ev: R.Event)
    requires Wired(w, n) && R.Enabled(w.ring, ev) && !ev.Send? && !ev.Take?
    ensures var w' := Wire(R.Next(w.ring, ev), w.letters);
      Wired(w', n) && forall s, d :: 0 <= s <= n && 0 <= d <= n ==> Between(w', s, d) == Between(w, s, d)
  {
    R.NextPlaced(w.ring, ev);
    forall s, d | 0 <= s <= n && 0 <= d <= n ensures R.Channel(R.Next(w.ring, ev), s, d) == R.Channel(w.ring, s, d) {
      InsideChannel(w.ring, ev, s, d);
    }
  }

  // ----- the system -----

  /** local is the machine with empty channels: what it would put on a channel goes onto the wire. */
  datatype System = System(local: Net, wire: Wire)

  datatype Move =
    | Act(ev: Event)       // a processor or the directory acts: Fetch, Lookup, Accept, Tock, Poll, Respond
    | Receive(i: nat)      // processor i takes a message off the ring and handles it
    | Collect              // the directory takes a message off the ring
    | Inside(move: R.Event)  // the ring moves

  datatype Outcome = Blocked | Crashed | Now(sys: System)

  function Letters(ms: seq<D.Msg>): seq<Down> {
    if ms == [] then [] else [Down(ms[0].block, ms[0].kind)] + Letters(ms[1..])
  }

  function Msgs(ls: seq<Down>, i: nat): seq<D.Msg> {
    if ls == [] then [] else [D.Msg(i, ls[0].block, ls[0].kind)] + Msgs(ls[1..], i)
  }

  /** Everything on the channels of the processors from i on enters the ring, in processor order: that is the
      order in which one event sends. */
  function Flush(w: Wire, z: Sizes, procs: seq<Proc>, i: nat): Wire
    requires i <= |procs|
    decreases |procs| - i
  {
    var n := |procs|;
    if i == n then w
    else Flush(Load(w, z, n, i, Letters(procs[i].up), procs[i].down), z, procs, i + 1)
  }

  function Emptied(net: Net): (r: Net)
    ensures |r.procs| == |net.procs| && r.ctl == net.ctl
    ensures forall i :: 0 <= i < |net.procs| ==> r.procs[i] == net.procs[i].(down := [], up := [])
  {
    net.(procs := seq(|net.procs|, i requires 0 <= i < |net.procs| => net.procs[i].(down := [], up := [])))
  }

  function Settle(r: Result, w: Wire, z: Sizes): Outcome {
    match r
    case Stuck => Blocked
    case Crash => Crashed
    case Went(net) => Now(System(Emptied(net), Flush(w, z, net.procs, 0)))
  }

  function Handed(local: Net, i: nat, l: Down): (net: Net)
    requires i < |local.procs|
    ensures |net.procs| == |local.procs|
  {
    local.(procs := local.procs[i := local.procs[i].(down := [l])])
  }

  function Go(p: Protocol, z: Sizes, sys: System, m: Move): Outcome {
    var n, ring := |sys.local.procs|, sys.wire.ring;
    match m
    case Act(ev) =>
      if ev.Deliver? || ev.Arrive? then Blocked else Settle(Next(p, sys.local, ev), sys.wire, z)
    case Receive(i) =>
      if i < n && R.Enabled(ring, R.Take(i)) then
        var net := Handed(sys.local, i, LetterOf(sys.wire.letters, ring[i].inQ[0]));
        var w := Wire(R.Next(ring, R.Take(i)), sys.wire.letters);
        Settle(Next(p, net, Event.Deliver(i)), w, z)
      else Blocked
    case Collect =>
      if R.Enabled(ring, R.Take(n)) then
        var l, src := LetterOf(sys.wire.letters, ring[n].inQ[0]), ring[n].inQ[0].src;
        Now(System(sys.local.(ctl := sys.local.ctl.(next := sys.local.ctl.next + [D.Msg(src, l.block, l.kind)])),
                   Wire(R.Next(ring, R.Take(n)), sys.wire.letters)))
      else Blocked
    case Inside(ev) =>
      if R.Enabled(ring, ev) && !ev.Send? && !ev.Take? then Now(sys.(wire := Wire(R.Next(ring, ev), sys.wire.letters)))
      else Blocked
  }

  // ----- the system is the machine -----

  /** What the channels of each processor hold. */
  datatype Cargo = Cargo(down: seq<seq<Down>>, up: seq<seq<D.Msg>>)

  predicate Sized(c: Cargo, n: nat) { |c.down| == n == |c.up| }

  function CargoOf(f: Table, n: nat): (c: Cargo)
    ensures Sized(c, n)
    ensures forall i :: 0 <= i < n ==> c.down[i] == f(n, i) && c.up[i] == Msgs(f(i, n), i)
  {
    Cargo(seq(n, i requires 0 <= i < n => f(n, i)), seq(n, i requires 0 <= i < n => Msgs(f(i, n), i)))
  }

  function Full(pr: Proc, down: seq<Down>, up: seq<D.Msg>): Proc { pr.(down := down + pr.down, up := up + pr.up) }

  /** The machine with what the ring carries on its channels. */
  function Joined(net: Net, c: Cargo): (r: Net)
    requires Sized(c, |net.procs|)
    ensures |r.procs| == |net.procs| && r.ctl == net.ctl
    ensures forall i :: 0 <= i < |net.procs| ==> r.procs[i] == Full(net.procs[i], c.down[i], c.up[i])
  {
    net.(procs := seq(|net.procs|, i requires 0 <= i < |net.procs| => Full(net.procs[i], c.down[i], c.up[i])))
  }

  predicate Bare(net: Net) { forall i :: 0 <= i < |net.procs| ==> net.procs[i].down == [] && net.procs[i].up == [] }

  ghost predicate Consistent(sys: System) { Wired(sys.wire, |sys.local.procs|) && Bare(sys.local) }

  function Seen(sys: System): Net { Joined(sys.local, CargoOf(Under(sys.wire), |sys.local.procs|)) }

  lemma {:induction false} MsgsAppend(x: seq<Down>, y: seq<Down>, i: nat)
    ensures Msgs(x + y, i) == Msgs(x, i) + Msgs(y, i)
  {
    if x == [] { assert x + y == y; }
    else {
      assert (x + y)[0] == x[0] && (x + y)[1..] == x[1..] + y;
      MsgsAppend(x[1..], y, i);
    }
  }

  lemma {:induction false} MsgsOfLetters(ms: seq<D.Msg>, i: nat)
    requires forall m :: m in ms ==> m.src == i
    ensures Msgs(Letters(ms), i) == ms
  {
    if ms != [] {
      assert ms[0] in ms;
      MsgsOfLetters(ms[1..], i);
      assert Letters(ms)[1..] == Letters(ms[1..]);
    }
  }

  /** What one processor and the directory have for each other enters the ring. */
  function Load(w: Wire, z: Sizes, n: nat, i: nat, up: seq<Down>, down: seq<Down>): Wire {
    PostAll(PostAll(w, z, i, n, up), z, n, i, down)
  }

  lemma LoadBetween(w: Wire, z: Sizes, n: nat, i: nat, up: seq<Down>, down: seq<Down>)
    requires Wired(w, n) && z.header >= 1 && i < n
    ensures Wired(Load(w, z, n, i, up, down), n)
    ensures Loaded(Under(w), Under(Load(w, z, n, i, up, down)), n, i, up, down)
  {
    var a := PostAll(w, z, i, n, up);
    PostAllBetween(w, n, z, i, n, up);
    PostAllBetween(a, n, z, n, i, down);
    GainsLoad(Under(w), Under(a), Under(Load(w, z, n, i, up, down)), n, i, up, down);
  }

  ghost predicate Loaded(f: Table, g: Table, n: nat, i: nat, up: seq<Down>, down: seq<Down>) {
    forall j :: 0 <= j < n ==>
      g(n, j) == f(n, j) + (if j == i then down else []) && g(j, n) == f(j, n) + (if j == i then up else [])
  }

  lemma GainsLoad(f: Table, g: Table, h: Table, n: nat, i: nat, up: seq<Down>, down: seq<Down>)
    requires Gains(f, g, n, i, n, up) && Gains(g, h, n, n, i, down) && i < n
    ensures Loaded(f, h, n, i, up, down)
  {
    forall j | 0 <= j < n
      ensures h(n, j) == f(n, j) + (if j == i then down else []) && h(j, n) == f(j, n) + (if j == i then up else [])
    {
      assert g(n, j) == f(n, j) + [];
      assert h(j, n) == g(j, n) + [];
    }
  }

  /** What is on the channels moves onto the wire, behind what is there. */
  lemma {:induction false} FlushBetween(w: Wire, z: Sizes, procs: seq<Proc>, i: nat)
    requires Wired(w, |procs|) && z.header >= 1 && i <= |procs|
    ensures Wired(Flush(w, z, procs, i), |procs|)
    ensures Flushed(Under(w), Under(Flush(w, z, procs, i)), procs, i)
    decreases |procs| - i
  {
    var n := |procs|;
    if i == n {
      FlushedNone(Under(w), procs);
    } else {
      var b := Load(w, z, n, i, Letters(procs[i].up), procs[i].down);
      LoadBetween(w, z, n, i, Letters(procs[i].up), procs[i].down);
      FlushBetween(b, z, procs, i + 1);
      FlushedOn(w, b, z, procs, i);
    }
  }

  lemma FlushedOn(w: Wire, b: Wire, z: Sizes, procs: seq<Proc>, i: nat)
    requires i < |procs| && b == Load(w, z, |procs|, i, Letters(procs[i].up), procs[i].down)
    requires Loaded(Under(w), Under(b), |procs|, i, Letters(procs[i].up), procs[i].down)
    requires Wired(Flush(b, z, procs, i + 1), |procs|)
    requires Flushed(Under(b), Under(Flush(b, z, procs, i + 1)), procs, i + 1)
    ensures Wired(Flush(w, z, procs, i), |procs|) && Flushed(Under(w), Under(Flush(w, z, procs, i)), procs, i)
  {
    FlushNext(w, z, procs, i);
    FlushedMore(Under(w), Under(b), Under(Flush(b, z, procs, i + 1)), procs, i);
  }

  lemma FlushNext(w: Wire, z: Sizes, procs: seq<Proc>, i: nat)
    requires i < |procs|
    ensures Flush(w, z, procs, i) ==
            Flush(Load(w, z, |procs|, i, Letters(procs[i].up), procs[i].down), z, procs, i + 1)
  {
  }

  /** Channels after a flush from processor i on. */
  ghost predicate Flushed(f: Table, g: Table, procs: seq<Proc>, i: nat) {
    forall j :: 0 <= j < |procs| ==>
      && g(|procs|, j) == f(|procs|, j) + (if j >= i then procs[j].down else [])
      && g(j, |procs|) == f(j, |procs|) + (if j >= i then Letters(procs[j].up) else [])
  }

  lemma FlushedNone(f: Table, procs: seq<Proc>)
    ensures Flushed(f, f, procs, |procs|)
  {
  }

  lemma FlushedMore(f: Table, g: Table, h: Table, procs: seq<Proc>, i: nat)
    requires i < |procs| && Loaded(f, g, |procs|, i, Letters(procs[i].up), procs[i].down) && Flushed(g, h, procs, i + 1)
    ensures Flushed(f, h, procs, i)
  {
    var n := |procs|;
    forall j | 0 <= j < n
      ensures h(n, j) == f(n, j) + (if j >= i then procs[j].down else [])
      ensures h(j, n) == f(j, n) + (if j >= i then Letters(procs[j].up) else [])
    {
      OnceAdded(f(n, j), g(n, j), h(n, j), procs[j].down, j == i, j >= i + 1);
      OnceAdded(f(j, n), g(j, n), h(j, n), Letters(procs[j].up), j == i, j >= i + 1);
    }
  }

  lemma OnceAdded(f: seq<Down>, g: seq<Down>, h: seq<Down>, x: seq<Down>, now: bool, later: bool)
    requires g == f + (if now then x else []) && h == g + (if later then x else []) && !(now && later)
    ensures h == f + (if now || later then x else [])
  {
  }

  lemma FullFlushed(pr: Proc, down: seq<Down>, ls: seq<Down>, i: nat)
    requires forall m :: m in pr.up ==> m.src == i
    ensures Full(pr.(down := [], up := []), down + pr.down, Msgs(ls + Letters(pr.up), i)) == Full(pr, down, Msgs(ls, i))
  {
    MsgsAppend(ls, Letters(pr.up), i);
    MsgsOfLetters(pr.up, i);
    assert down + pr.down + [] == down + pr.down;
    assert Msgs(ls, i) + pr.up + [] == Msgs(ls, i) + pr.up;
  }

  /** Each message carries its sender. */
  predicate Signed(net: Net) {
    forall i :: 0 <= i < |net.procs| ==> forall m :: m in net.procs[i].up ==> m.src == i
  }

  /** Flushing changes nothing for the machine. */
  lemma FlushSame(w: Wire, z: Sizes, net: Net)
    requires Wired(w, |net.procs|) && z.header >= 1
    requires Signed(net)
    ensures Wired(Flush(w, z, net.procs, 0), |net.procs|)
    ensures Joined(Emptied(net), CargoOf(Under(Flush(w, z, net.procs, 0)), |net.procs|)) ==
      Joined(net, CargoOf(Under(w), |net.procs|))
  {
    FlushBetween(w, z, net.procs, 0);
    FlushedSame(Under(w), Under(Flush(w, z, net.procs, 0)), net);
  }

  lemma FlushedSame(f: Table, g: Table, net: Net)
    requires Signed(net)
    requires Flushed(f, g, net.procs, 0)
    ensures Joined(Emptied(net), CargoOf(g, |net.procs|)) == Joined(net, CargoOf(f, |net.procs|))
  {
    var n := |net.procs|;
    var c, c' := CargoOf(f, n), CargoOf(g, n);
    forall i | 0 <= i < n
      ensures Full(net.procs[i].(down := [], up := []), c'.down[i], c'.up[i]) == Full(net.procs[i], c.down[i], c.up[i])
    {
      FullFlushed(net.procs[i], f(n, i), f(i, n), i);
    }
    assert Joined(Emptied(net), c').procs == Joined(net, c).procs;
  }

  lemma ActedFull(pr: Proc, down: seq<Down>, up: seq<D.Msg>, i: nat, b: D.BlockId, r: Reaction)
    requires r.React?
    ensures Acted(Full(pr, down, up), i, b, r) == Full(Acted(pr, i, b, r), down, up)
  {
    if r.send.Some? {
      assert up + pr.up + [D.Msg(i, b, r.send.value)] == up + (pr.up + [D.Msg(i, b, r.send.value)]);
    }
  }

  lemma PutJoined(net: Net, c: Cargo, i: nat, pr: Proc)
    requires Sized(c, |net.procs|) && i < |net.procs|
    ensures Joined(Put(net, i, pr), c) == Put(Joined(net, c), i, Full(pr, c.down[i], c.up[i]))
  {
    assert Joined(Put(net, i, pr), c).procs == Joined(net, c).procs[i := Full(pr, c.down[i], c.up[i])];
  }

  lemma FullInbox(pr: Proc, down: seq<Down>, up: seq<D.Msg>, more: seq<Down>)
    ensures Full(pr.(down := pr.down + more), down, up) == Full(pr, down, up).(down := Full(pr, down, up).down + more)
  {
    assert down + (pr.down + more) == down + pr.down + more;
  }

  lemma ScatterJoined(net: Net, c: Cargo, ps: seq<D.Packet>, ctl: D.Ctl)
    requires Sized(c, |net.procs|)
    ensures Joined(Net(Scatter(net.procs, ps), ctl), c) == Net(Scatter(Joined(net, c).procs, ps), ctl)
  {
    var a, b := Joined(Net(Scatter(net.procs, ps), ctl), c).procs, Scatter(Joined(net, c).procs, ps);
    forall j | 0 <= j < |net.procs| ensures a[j] == b[j] {
      FullInbox(net.procs[j], c.down[j], c.up[j], Inbox(ps, j));
    }
    assert a == b;
  }

  /** An event that takes nothing off a channel does the same with messages on the ring as without them. */
  predicate Lifted(r: Result, r': Result, c: Cargo) {
    match r
    case Stuck => r'.Stuck?
    case Crash => r'.Crash?
    case Went(net) => Sized(c, |net.procs|) && r' == Went(Joined(net, c))
  }

  lemma FetchLifts(p: Protocol, net: Net, c: Cargo, i: nat)
    requires Sized(c, |net.procs|)
    ensures Lifted(Next(p, net, Fetch(i)), Next(p, Joined(net, c), Fetch(i)), c)
  {
    if i < |net.procs| && net.procs[i].core.Free? && net.procs[i].trace != [] {
      var a := net.procs[i].trace[0];
      PutJoined(net, c, i, net.procs[i].(core := Busy(a.block, InSlot(a.op)), trace := net.procs[i].trace[1..]));
    }
  }

  lemma AcceptLifts(p: Protocol, net: Net, c: Cargo, i: nat)
    requires Sized(c, |net.procs|)
    ensures Lifted(Next(p, net, Event.Accept(i)), Next(p, Joined(net, c), Event.Accept(i)), c)
  {
    if i < |net.procs| { PutJoined(net, c, i, net.procs[i].(core := CoherenceMachine.Core.Free)); }
  }

  lemma LookupLifts(p: Protocol, net: Net, c: Cargo, i: nat)
    requires Sized(c, |net.procs|)
    ensures Lifted(Next(p, net, Event.Lookup(i)), Next(p, Joined(net, c), Event.Lookup(i)), c)
  {
    if i < |net.procs| && net.procs[i].core.Busy? && net.procs[i].core.phase.InSlot? {
      var b := net.procs[i].core.block;
      var pr := net.procs[i].(core := Busy(b, Awaiting(net.procs[i].core.phase.op)));
      var r := Protocols.AgentProc(p, AgentAt(pr, b), net.procs[i].core.phase.op);
      if r.React? {
        ActedFull(pr, c.down[i], c.up[i], i, b, r);
        PutJoined(net, c, i, Acted(pr, i, b, r));
      }
    }
  }

  lemma TockLifts(p: Protocol, net: Net, c: Cargo)
    requires Sized(c, |net.procs|)
    ensures Lifted(Next(p, net, Tock), Next(p, Joined(net, c), Tock), c)
  {
    var net' := Next(p, net, Tock).net;
    assert Joined(net', c).procs == Joined(net, c).procs;
  }

  lemma PollLifts(p: Protocol, net: Net, c: Cargo)
    requires Sized(c, |net.procs|)
    ensures Lifted(Next(p, net, Poll), Next(p, Joined(net, c), Poll), c)
  {
    var r := D.Poll(p, |net.procs|, net.ctl);
    if r.Ticked? { ScatterJoined(net, c, r.out, r.ctl); }
  }

  lemma RespondLifts(p: Protocol, net: Net, c: Cargo)
    requires Sized(c, |net.procs|)
    ensures Lifted(Next(p, net, Event.Respond), Next(p, Joined(net, c), Event.Respond), c)
  {
    var r := D.Answer(net.ctl, true);
    ScatterJoined(net, c, r.out, r.ctl);
  }

  lemma EventLifts(p: Protocol, net: Net, c: Cargo, ev: Event)
    requires Sized(c, |net.procs|) && !ev.Deliver? && !ev.Arrive?
    ensures Lifted(Next(p, net, ev), Next(p, Joined(net, c), ev), c)
  {
    match ev
    case Fetch(i) => FetchLifts(p, net, c, i);
    case Lookup(i) => LookupLifts(p, net, c, i);
    case Accept(i) => AcceptLifts(p, net, c, i);
    case Tock => TockLifts(p, net, c);
    case Poll => PollLifts(p, net, c);
    case Respond => RespondLifts(p, net, c);
  }

  /** So does a delivery of the message in hand, l, in front of what else is on its way. */
  lemma DeliverLifts(p: Protocol, net: Net, c: Cargo, i: nat, l: Down)
    requires Sized(c, |net.procs|) && i < |net.procs| && net.procs[i].down == []
    ensures var c' := c.(down := c.down[i := [l] + c.down[i]]);
      Lifted(Next(p, Handed(net, i, l), Event.Deliver(i)), Next(p, Joined(net, c'), Event.Deliver(i)), c)
  {
    var c' := c.(down := c.down[i := [l] + c.down[i]]);
    var pr := net.procs[i];
    var r := Protocols.AgentNtwk(p, AgentAt(pr, l.block), l.kind);
    var full := Joined(net, c').procs[i];
    assert full.down == [l] + c.down[i] && full.down[1..] == c.down[i] && [l][1..] == [];
    assert full.(down := c.down[i]) == Full(pr, c.down[i], c.up[i]);
    if r.React? {
      ActedFull(pr, c.down[i], c.up[i], i, l.block, r);
      DeliveredJoined(net, c, c', i, l, Acted(pr, i, l.block, r));
    }
  }

  lemma DeliveredJoined(net: Net, c: Cargo, c': Cargo, i: nat, l: Down, pr: Proc)
    requires Sized(c, |net.procs|) && i < |net.procs| && c' == c.(down := c.down[i := [l] + c.down[i]])
    ensures Joined(Put(Handed(net, i, l), i, pr), c) == Put(Joined(net, c'), i, Full(pr, c.down[i], c.up[i]))
  {
    assert Joined(Put(Handed(net, i, l), i, pr), c).procs ==
      Put(Joined(net, c'), i, Full(pr, c.down[i], c.up[i])).procs;
  }

  /** The event of the machine that a move is; moves inside the ring, and moves that find nothing, are none. */
  function EventOf(sys: System, m: Move): Option<Event> {
    var n, ring := |sys.local.procs|, sys.wire.ring;
    match m
    case Act(ev) => if ev.Deliver? || ev.Arrive? then None else Some(ev)
    case Receive(i) => if i < n && R.Enabled(ring, R.Take(i)) then Some(Event.Deliver(i)) else None
    case Collect => if R.Enabled(ring, R.Take(n)) then Some(Arrive(ring[n].inQ[0].src)) else None
    case Inside(_) => None
  }

  /** The outcome of a move is that of its event on the machine; without one it is invisible. */
  ghost predicate Mirrors(p: Protocol, sys: System, e: Option<Event>, o: Outcome) {
    match o
    case Blocked => e.Some? ==> Next(p, Seen(sys), e.value).Stuck?
    case Crashed => e.Some? && Next(p, Seen(sys), e.value).Crash?
    case Now(sys') =>
      && Consistent(sys') && |sys'.local.procs| == |sys.local.procs|
      && (if e.None? then Seen(sys') == Seen(sys) else Next(p, Seen(sys), e.value) == Went(Seen(sys')))
  }

  lemma SettleMirrors(p: Protocol, sys: System, z: Sizes, w: Wire, ev: Event, r: Result)
    requires Consistent(sys) && z.header >= 1 && Wired(w, |sys.local.procs|)
    requires Lifted(r, Next(p, Seen(sys), ev), CargoOf(Under(w), |sys.local.procs|))
    requires r.Went? ==> |r.net.procs| == |sys.local.procs| && Signed(r.net)
    ensures Mirrors(p, sys, Some(ev), Settle(r, w, z))
  {
    match r
    case Stuck =>
    case Crash => CrashMirrors(p, sys, ev);
    case Went(net) => FlushMirrors(p, sys, z, w, ev, net);
  }

  lemma CrashMirrors(p: Protocol, sys: System, ev: Event)
    requires Consistent(sys) && Next(p, Seen(sys), ev).Crash?
    ensures Mirrors(p, sys, Some(ev), Crashed)
  {
  }

  lemma FlushMirrors(p: Protocol, sys: System, z: Sizes, w: Wire, ev: Event, net: Net)
    requires Consistent(sys) && z.header >= 1 && Wired(w, |sys.local.procs|)
    requires |net.procs| == |sys.local.procs| && Signed(net)
    requires Next(p, Seen(sys), ev) == Went(Joined(net, CargoOf(Under(w), |net.procs|)))
    ensures Mirrors(p, sys, Some(ev), Now(System(Emptied(net), Flush(w, z, net.procs, 0))))
  {
    FlushSame(w, z, net);
    SettledSeen(p, sys, ev, System(Emptied(net), Flush(w, z, net.procs, 0)));
  }

  lemma SettledSeen(p: Protocol, sys: System, ev: Event, sys': System)
    requires Consistent(sys) && Consistent(sys') && |sys'.local.procs| == |sys.local.procs|
    requires Next(p, Seen(sys), ev) == Went(Seen(sys'))
    ensures Mirrors(p, sys, Some(ev), Now(sys'))
  {
  }

  lemma WentKeepsCount(p: Protocol, net: Net, ev: Event)
    requires Next(p, net, ev).Went?
    ensures |Next(p, net, ev).net.procs| == |net.procs|
  {
  }

  lemma LiftedSigned(p: Protocol, net: Net, ev: Event, c: Cargo, r': Result)
    requires Lifted(Next(p, net, ev), r', c) && (r'.Went? ==> WellFormed(r'.net))
    ensures var r := Next(p, net, ev); r.Went? ==> |r.net.procs| == |net.procs| && Signed(r.net)
  {
    var r := Next(p, net, ev);
    if r.Went? {
      WentKeepsCount(p, net, ev);
      JoinedSigned(r.net, c);
    }
  }

  lemma JoinedSigned(net: Net, c: Cargo)
    requires Sized(c, |net.procs|) && WellFormed(Joined(net, c))
    ensures Signed(net)
  {
    forall i, m | 0 <= i < |net.procs| && m in net.procs[i].up ensures m.src == i {
      assert m in c.up[i] + net.procs[i].up && Joined(net, c).procs[i].up == c.up[i] + net.procs[i].up;
    }
  }

  lemma ActMirrors(p: Protocol, z: Sizes, sys: System, ev: Event)
    requires Consistent(sys) && BlocksInvariant(p, Seen(sys)) && z.header >= 1
    ensures Mirrors(p, sys, EventOf(sys, Act(ev)), Go(p, z, sys, Act(ev)))
  {
    if !ev.Deliver? && !ev.Arrive? {
      var c := CargoOf(Under(sys.wire), |sys.local.procs|);
      EventLifts(p, sys.local, c, ev);
      EventKeepsBlocks(p, Seen(sys), ev);
      LiftedSigned(p, sys.local, ev, c, Next(p, Seen(sys), ev));
      SettleMirrors(p, sys, z, sys.wire, ev, Next(p, sys.local, ev));
    }
  }

  lemma ReceiveMirrors(p: Protocol, z: Sizes, sys: System, i: nat)
    requires Consistent(sys) && BlocksInvariant(p, Seen(sys)) && z.header >= 1
    ensures Mirrors(p, sys, EventOf(sys, Receive(i)), Go(p, z, sys, Receive(i)))
  {
    var n, w := |sys.local.procs|, sys.wire;
    if i < n && R.Enabled(w.ring, R.Take(i)) {
      var w' := Wire(R.Next(w.ring, R.Take(i)), w.letters);
      var l := LetterOf(w.letters, w.ring[i].inQ[0]);
      TakeBetween(w, n, i);
      ReceiveCargo(Under(w), Under(w'), n, i, l);
      HandedMirrors(p, z, sys, i, l, w');
    }
  }

  /** The message in hand is the head of the channel. */
  lemma ReceiveCargo(f: Table, g: Table, n: nat, i: nat, l: Down)
    requires i < n && Loses(f, g, n, n, i, l)
    ensures CargoOf(f, n) == CargoOf(g, n).(down := CargoOf(g, n).down[i := [l] + CargoOf(g, n).down[i]])
  {
    forall j | 0 <= j < n ensures f(j, n) == g(j, n) { assert f(j, n) == [] + g(j, n); }
    forall j | 0 <= j < n && j != i ensures f(n, j) == g(n, j) { assert f(n, j) == [] + g(n, j); }
    var c, c' := CargoOf(f, n), CargoOf(g, n);
    assert c.up == c'.up && c.down == c'.down[i := [l] + c'.down[i]];
  }

  lemma HandedMirrors(p: Protocol, z: Sizes, sys: System, i: nat, l: Down, w': Wire)
    requires Consistent(sys) && BlocksInvariant(p, Seen(sys)) && z.header >= 1 && i < |sys.local.procs|
    requires Wired(w', |sys.local.procs|)
    requires var n := |sys.local.procs|;
      CargoOf(Under(sys.wire), n) ==
        CargoOf(Under(w'), n).(down := CargoOf(Under(w'), n).down[i := [l] + CargoOf(Under(w'), n).down[i]])
    ensures Mirrors(p, sys, Some(Event.Deliver(i)), Settle(Next(p, Handed(sys.local, i, l), Event.Deliver(i)), w', z))
  {
    var c, net, ev := CargoOf(Under(w'), |sys.local.procs|), Handed(sys.local, i, l), Event.Deliver(i);
    DeliverLifts(p, sys.local, c, i, l);
    EventKeepsBlocks(p, Seen(sys), ev);
    LiftedSigned(p, net, ev, c, Next(p, Seen(sys), ev));
    SettleMirrors(p, sys, z, w', ev, Next(p, net, ev));
  }

  lemma CollectMirrors(p: Protocol, z: Sizes, sys: System)
    requires Consistent(sys) && BlocksInvariant(p, Seen(sys))
    ensures Mirrors(p, sys, EventOf(sys, Collect), Go(p, z, sys, Collect))
  {
    var n, w := |sys.local.procs|, sys.wire;
    if R.Enabled(w.ring, R.Take(n)) {
      var i, w' := w.ring[n].inQ[0].src, Wire(R.Next(w.ring, R.Take(n)), w.letters);
      var l := LetterOf(w.letters, w.ring[n].inQ[0]);
      TakeBetween(w, n, n);
      var m := D.Msg(i, l.block, l.kind);
      var sys' := System(sys.local.(ctl := sys.local.ctl.(next := sys.local.ctl.next + [m])), w');
      assert Go(p, z, sys, Collect) == Now(sys');
      CollectCargo(Under(w), Under(w'), n, i, l);
      CollectSeen(sys, i, m, sys');
      CollectedMirrors(p, sys, i, m, sys');
    }
  }

  lemma CollectCargo(f: Table, g: Table, n: nat, i: nat, l: Down)
    requires i < n && Loses(f, g, n, i, n, l)
    ensures var m, c := D.Msg(i, l.block, l.kind), CargoOf(g, n);
      CargoOf(f, n) == c.(up := c.up[i := [m] + c.up[i]])
  {
    forall j | 0 <= j < n ensures f(n, j) == g(n, j) { assert f(n, j) == [] + g(n, j); }
    forall j | 0 <= j < n && j != i ensures f(j, n) == g(j, n) { assert f(j, n) == [] + g(j, n); }
    MsgsAppend([l], g(i, n), i);
    assert [l][1..] == [];
    var c, c' := CargoOf(f, n), CargoOf(g, n);
    assert c.down == c'.down && c.up == c'.up[i := [D.Msg(i, l.block, l.kind)] + c'.up[i]];
  }

  lemma CollectSeen(sys: System, i: nat, m: D.Msg, sys': System)
    requires Bare(sys.local) && i < |sys.local.procs|
    requires sys'.local == sys.local.(ctl := sys.local.ctl.(next := sys.local.ctl.next + [m]))
    requires var n := |sys.local.procs|;
      var c' := CargoOf(Under(sys'.wire), n);
      CargoOf(Under(sys.wire), n) == c'.(up := c'.up[i := [m] + c'.up[i]])
    ensures var pr := Seen(sys).procs[i];
      && pr.up != [] && pr.up[0] == m
      && Seen(sys') == Net(Seen(sys).procs[i := pr.(up := pr.up[1..])], sys'.local.ctl)
  {
    var n := |sys.local.procs|;
    CollectJoined(sys.local, CargoOf(Under(sys.wire), n), CargoOf(Under(sys'.wire), n), i, m, sys'.local);
  }

  lemma CollectJoined(net: Net, c: Cargo, c': Cargo, i: nat, m: D.Msg, net': Net)
    requires Bare(net) && i < |net.procs| && Sized(c', |net.procs|) && c == c'.(up := c'.up[i := [m] + c'.up[i]])
    requires net'.procs == net.procs
    ensures var pr := Joined(net, c).procs[i];
      && pr.up != [] && pr.up[0] == m
      && Joined(net', c') == Net(Joined(net, c).procs[i := pr.(up := pr.up[1..])], net'.ctl)
  {
    var pr := Joined(net, c).procs[i];
    assert pr.up == [m] + c'.up[i] && pr.up[1..] == c'.up[i];
    assert c'.up[i] + [] == c'.up[i];
    assert Joined(net', c').procs[i] == pr.(up := pr.up[1..]);
    assert Joined(net', c').procs == Joined(net, c).procs[i := pr.(up := pr.up[1..])];
  }

  lemma CollectedMirrors(p: Protocol, sys: System, i: nat, m: D.Msg, sys': System)
    requires Consistent(sys) && i < |sys.local.procs| && Wired(sys'.wire, |sys.local.procs|)
    requires sys'.local == sys.local.(ctl := sys.local.ctl.(next := sys.local.ctl.next + [m]))
    requires var pr := Seen(sys).procs[i];
      && pr.up != [] && pr.up[0] == m
      && Seen(sys') == Net(Seen(sys).procs[i := pr.(up := pr.up[1..])], sys'.local.ctl)
    ensures Mirrors(p, sys, Some(Arrive(i)), Now(sys'))
  {
    ArriveWent(p, Seen(sys), i, m, Seen(sys'));
    SettledSeen(p, sys, Arrive(i), sys');
  }

  lemma ArriveWent(p: Protocol, net: Net, i: nat, m: D.Msg, net': Net)
    requires i < |net.procs| && net.procs[i].up != [] && net.procs[i].up[0] == m
    requires net' == Net(net.procs[i := net.procs[i].(up := net.procs[i].up[1..])],
      net.ctl.(next := net.ctl.next + [m]))
    ensures Next(p, net, Arrive(i)) == Went(net')
  {
  }

  lemma InsideMirrors(p: Protocol, z: Sizes, sys: System, ev: R.Event)
    requires Consistent(sys) 
    ensures Mirrors(p, sys, EventOf(sys, Inside(ev)), Go(p, z, sys, Inside(ev)))
  {
    if R.Enabled(sys.wire.ring, ev) && !ev.Send? && !ev.Take? {
      MoveBetween(sys.wire, |sys.local.procs|, ev);
      var n, w' := |sys.local.procs|, Wire(R.Next(sys.wire.ring, ev), sys.wire.letters);
      assert CargoOf(Under(sys.wire), n) == CargoOf(Under(w'), n);
    }
  }

  /** Refinement: whatever the ring does in between, the system is the machine with FIFO channels. */
  lemma MoveMirrors(p: Protocol, z: Sizes, sys: System, m: Move)
    requires Consistent(sys) && BlocksInvariant(p, Seen(sys)) && z.header >= 1
    ensures Mirrors(p, sys, EventOf(sys, m), Go(p, z, sys, m))
  {
    match m
    case Act(ev) => ActMirrors(p, z, sys, ev);
    case Receive(i) => ReceiveMirrors(p, z, sys, i);
    case Collect => CollectMirrors(p, z, sys);
    case Inside(ev) => InsideMirrors(p, z, sys, ev);
  }

  // ----- whole runs -----

  /** Moves that are not possible are skipped. */
  function Run(p: Protocol, z: Sizes, sys: System, ms: seq<Move>): Outcome
    decreases |ms|
  {
    if ms == [] then Now(sys)
    else match Go(p, z, sys, ms[0])
      case Blocked => Run(p, z, sys, ms[1..])
      case Crashed => Crashed
      case Now(sys') => Run(p, z, sys', ms[1..])
  }

  function Begin(traces: seq<seq<Access>>): System { System(Start(traces), Wire(R.Empty(|traces| + 1), [])) }

  lemma BeginSeen(traces: seq<seq<Access>>)
    ensures Consistent(Begin(traces)) && Seen(Begin(traces)) == Start(traces)
  {
    var sys, n := Begin(traces), |traces|;
    forall s, d | 0 <= s <= n && 0 <= d <= n ensures R.Channel(sys.wire.ring, s, d) == [] {
      R.EmptyChannel(n + 1, s, s, d);
    }
    assert Seen(sys).procs == Start(traces).procs;
  }

  lemma {:induction false} RunSafe(p: Protocol, z: Sizes, sys: System, ms: seq<Move>)
    requires Consistent(sys) && BlocksInvariant(p, Seen(sys)) && z.header >= 1
    ensures var o := Run(p, z, sys, ms); o.Now? && Consistent(o.sys) && BlocksInvariant(p, Seen(o.sys))
    decreases |ms|
  {
    if ms != [] {
      MoveMirrors(p, z, sys, ms[0]);
      MirrorKeeps(p, sys, EventOf(sys, ms[0]), Go(p, z, sys, ms[0]));
      match Go(p, z, sys, ms[0])
      case Blocked => RunSafe(p, z, sys, ms[1..]);
      case Now(sys') => RunSafe(p, z, sys', ms[1..]);
    }
  }

  lemma MirrorKeeps(p: Protocol, sys: System, e: Option<Event>, o: Outcome)
    requires Consistent(sys) && BlocksInvariant(p, Seen(sys)) && Mirrors(p, sys, e, o)
    ensures !o.Crashed? && (o.Now? ==> Consistent(o.sys) && BlocksInvariant(p, Seen(o.sys)))
  {
    if e.Some? { EventKeepsBlocks(p, Seen(sys), e.value); }
  }

  /** Over the ring, with any contention on its links, no run of any protocol throws, and every block keeps the
      one-block invariant at every moment. */
  lemma OverRingSafe(p: Protocol, z: Sizes, traces: seq<seq<Access>>, ms: seq<Move>)
    requires z.header >= 1
    ensures var o := Run(p, z, Begin(traces), ms); o.Now? && Consistent(o.sys) && BlocksInvariant(p, Seen(o.sys))
  {
    BeginSeen(traces);
    StartBlocks(p, traces);
    RunSafe(p, z, Begin(traces), ms);
  }

  /** Nor is there ever a second holder beside a writer, nor a grant for one on the ring or in the latch. */
  lemma OverRingSingleWriter(p: Protocol, z: Sizes, traces: seq<seq<Access>>, ms: seq<Move>, sys: System,
                             b: D.BlockId, i: nat, j: nat)
    requires z.header >= 1 && Run(p, z, Begin(traces), ms) == Now(sys)
    requires i < |sys.local.procs| && j < |sys.local.procs| && i != j
    requires CoherenceSafety.Exclusive(AgentAt(sys.local.procs[i], b))
    ensures var a := AgentAt(sys.local.procs[j], b); a.I? || a.IS? || a.IM?
    ensures var d := DownAt(Between(sys.wire, |sys.local.procs|, j), b); forall x :: 0 <= x < |d| ==> !d[x].Grant()
    ensures var l := sys.local.ctl.pending; l.Some? && l.value.block == b ==> l.value.target != j
  {
    OverRingSafe(p, z, traces, ms);
    SeenSingleWriter(p, sys.local, CargoOf(Under(sys.wire), |sys.local.procs|), b, i, j);
  }

  lemma SeenSingleWriter(p: Protocol, net: Net, c: Cargo, b: D.BlockId, i: nat, j: nat)
    requires Bare(net) && Sized(c, |net.procs|) && BlocksInvariant(p, Joined(net, c))
    requires i < |net.procs| && j < |net.procs| && i != j && CoherenceSafety.Exclusive(AgentAt(net.procs[i], b))
    ensures var a := AgentAt(net.procs[j], b); a.I? || a.IS? || a.IM?
    ensures var d := DownAt(c.down[j], b); forall x :: 0 <= x < |d| ==> !d[x].Grant()
    ensures var l := net.ctl.pending; l.Some? && l.value.block == b ==> l.value.target != j
  {
    var full := Joined(net, c);
    assert full.procs[j].down == c.down[j] + [] == c.down[j];
    BlockSingleWriter(p, full, b, i, j);
  }
}
