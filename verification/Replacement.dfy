/** Which lines a level keeps. With MIP insertion every row is true LRU of what the level was asked for; with LIP a line
    that is brought in is the next to go until it is used again. */
module Replacement {
  import opened Options
  import opened WriteBack
  import L = LlsCache

  /** What a level is asked: to write words at an address, or to read there. */
  datatype Call = Call(write: bool, address: nat, words: Words)

  function Run(h: Hierarchy, calls: seq<Call>): Hierarchy
    decreases |calls|
  {
    if calls == [] then h else Run(Access(h, calls[0].write, calls[0].address, calls[0].words).0, calls[1..])
  }

  lemma {:induction false} RunMore(h: Hierarchy, calls: seq<Call>, c: Call)
    ensures Run(h, calls + [c]) == Access(Run(h, calls), c.write, c.address, c.words).0
    decreases |calls|
  {
    var all := calls + [c];
    if calls == [] { assert all[1..] == []; }
    else {
      assert all[1..] == calls[1..] + [c];
      RunMore(Access(h, calls[0].write, calls[0].address, calls[0].words).0, calls[1..], c);
    }
  }

  function Names(row: Row): seq<nat> { seq(|row|, i requires 0 <= i < |row| => row[i].block) }

  /** The blocks in the order in which the level used them. A write that misses in a level that writes through is
      passed on and uses nothing. */
  function Uses(shape: Shape, calls: seq<Call>): seq<nat>
    requires shape.sets > 0
  {
    if calls == [] then []
    else
      var last, before := calls[|calls| - 1], Uses(shape, calls[..|calls| - 1]);
      var b := Shr(last.address, shape.bits);
      if shape.through && last.write && b !in L.Take(L.Recent(L.InSet(before, shape.sets, b % shape.sets)), shape.assoc)
      then before
      else before + [b]
  }

  // ----- one row -----

  lemma NamesIn(row: Row, b: nat)
    ensures b in Names(row) <==> IndexOf(row, b) < |row|
  {
    var i := IndexOf(row, b);
    if i < |row| { assert Names(row)[i] == b; }
  }

  lemma HitNames(row: Row, i: nat, l: Line)
    requires i < |row| && L.Distinct(Names(row)) && l.block == row[i].block
    ensures Names(Hit(row, i, l)) == [l.block] + L.Without(Names(row), l.block)
  {
    var q := Names(row);
    L.WithoutAt(q, l.block, i);
    assert q[..i] == Names(row[..i]) && q[i + 1..] == Names(row[i + 1..]);
    assert Names(Hit(row, i, l)) == [l.block] + q[..i] + q[i + 1..];
  }

  lemma InsertNames(row: Row, assoc: nat, lip: bool, l: Line)
    ensures var q := Names(row);
      var kept := if |q| >= assoc && q != [] then q[..|q| - 1] else q;
      Names(Insert(row, assoc, lip, l)) == if lip then kept + [l.block] else [l.block] + kept
  {
  }

  /** What an access does to the rows: a use of one row, or nothing. */
  lemma AccessRows(h: Hierarchy, c: Call)
    requires h.Level? && h.rows != [] && forall s :: 0 <= s < |h.rows| ==> L.Distinct(Names(h.rows[s]))
    ensures var b := Shr(c.address, h.shape.bits);
      var s, h' := b % |h.rows|, Access(h, c.write, c.address, c.words).0;
      && h'.Level? && h'.shape == h.shape && |h'.rows| == |h.rows|
      && (forall t :: 0 <= t < |h.rows| && t != s ==> h'.rows[t] == h.rows[t])
      && Names(h'.rows[s]) ==
         (if h.shape.through && c.write && b !in Names(h.rows[s]) then Names(h.rows[s])
          else if h.shape.lip then LipUse(Names(h.rows[s]), h.shape.assoc, b)
          else L.Access(Names(h.rows[s]), h.shape.assoc, b).0)
  {
    var b := Shr(c.address, h.shape.bits);
    var row := h.rows[b % |h.rows|];
    var i := IndexOf(row, b);
    NamesIn(row, b);
    if i < |row| { HitNames(row, i, Marked(row[i], h.shape, c.write, c.words)); }
    else if !(c.write && h.shape.through) {
      var (fetched, d) := Access(h.below, false, Shl(b, h.shape.bits), map[]);
      InsertNames(row, h.shape.assoc, h.shape.lip, Filled(b, h.shape, d, c.write, c.words));
    }
  }

  /** One use of a row with LIP insertion: a hit goes to the front, a miss to the back. */
  function LipUse(q: seq<nat>, assoc: nat, b: nat): seq<nat> {
    if b in q then [b] + L.Without(q, b)
    else (if |q| >= assoc && q != [] then q[..|q| - 1] else q) + [b]
  }

  // ----- MIP: true LRU -----

  predicate Usable(shape: Shape) { shape.assoc >= 1 && shape.sets >= 1 }

  /** An empty level. */
  function Empty(shape: Shape, below: Hierarchy): Hierarchy { Level(shape, NoLines(shape.sets), 0, 0, below) }

  ghost predicate Recency(h: Hierarchy, shape: Shape, uses: seq<nat>)
    requires Usable(shape)
  {
    && h.Level? && h.shape == shape && |h.rows| == shape.sets
    && forall s :: 0 <= s < shape.sets ==>
         Names(h.rows[s]) == L.Take(L.Recent(L.InSet(uses, shape.sets, s)), shape.assoc)
  }

  lemma RecencyDistinct(h: Hierarchy, shape: Shape, uses: seq<nat>)
    requires Usable(shape) && Recency(h, shape, uses)
    ensures forall s :: 0 <= s < shape.sets ==> L.Distinct(Names(h.rows[s]))
  {
    forall s | 0 <= s < shape.sets ensures L.Distinct(Names(h.rows[s])) {
      var u := L.InSet(uses, shape.sets, s);
      L.RecentDistinct(u);
      TakeDistinct(L.Recent(u), shape.assoc);
    }
  }

  lemma {:induction false} TakeDistinct(q: seq<nat>, n: nat)
    requires L.Distinct(q)
    ensures L.Distinct(L.Take(q, n))
  {
    if n > 0 && q != [] {
      L.DistinctTail(q);
      TakeDistinct(q[1..], n - 1);
      L.TakeSubset(q[1..], n - 1);
    }
  }

  lemma RecencyNext(h: Hierarchy, shape: Shape, uses: seq<nat>, c: Call)
    requires Usable(shape) && !shape.lip && Recency(h, shape, uses)
    ensures var b := Shr(c.address, shape.bits);
      Recency(Access(h, c.write, c.address, c.words).0, shape,
              if shape.through && c.write && b !in Names(h.rows[b % shape.sets]) then uses else uses + [b])
  {
    var b, n := Shr(c.address, shape.bits), shape.sets;
    RecencyDistinct(h, shape, uses);
    AccessRows(h, c);
    var u := L.InSet(uses, n, b % n);
    L.RecentDistinct(u);
    L.AccessRecent(L.Recent(u), shape.assoc, b);
    forall s | 0 <= s < n
      ensures L.InSet(uses + [b], n, s) == if s == b % n then L.InSet(uses, n, s) + [b] else L.InSet(uses, n, s)
    {
      L.InSetNext(uses, n, s, b);
    }
    assert (u + [b])[..|u|] == u;
  }

  /** Whatever a level with MIP insertion is asked, and whatever lies below it: each row holds the assoc blocks of its
      set that the level has used most recently, in that order. */
  lemma {:induction false} MostRecentStay(shape: Shape, below: Hierarchy, calls: seq<Call>)
    requires Usable(shape) && !shape.lip
    ensures Recency(Run(Empty(shape, below), calls), shape, Uses(shape, calls))
  {
    if calls == [] {
      forall s | 0 <= s < shape.sets ensures L.InSet([], shape.sets, s) == [] {}
    } else {
      var before := calls[..|calls| - 1];
      MostRecentStay(shape, below, before);
      RunMore(Empty(shape, below), before, calls[|calls| - 1]);
      assert calls == before + [calls[|calls| - 1]];
      RecencyNext(Run(Empty(shape, below), before), shape, Uses(shape, before), calls[|calls| - 1]);
    }
  }

  // ----- LIP: what is brought in goes next -----

  ghost predicate Rowed(h: Hierarchy) {
    && h.Level? && h.rows != [] && h.shape.assoc >= 1
    && forall s :: 0 <= s < |h.rows| ==> L.Distinct(Names(h.rows[s]))
  }

  predicate Resident(h: Hierarchy, b: nat)
    requires h.Level? && h.rows != []
  {
    b in Names(h.rows[b % |h.rows|])
  }

  /** The call brings its block in. */
  predicate BringsIn(h: Hierarchy, c: Call)
    requires h.Level? && h.rows != []
  {
    !Resident(h, Shr(c.address, h.shape.bits)) && !(h.shape.through && c.write)
  }

  /** None of the calls uses b, or brings anything into its row. */
  ghost predicate Spares(h: Hierarchy, calls: seq<Call>, b: nat)
    requires h.Level? && h.rows != []
    decreases |calls|
  {
    calls == [] ||
    (var c := Shr(calls[0].address, h.shape.bits);
     var next := Access(h, calls[0].write, calls[0].address, calls[0].words).0;
     && c != b && (c % |h.rows| == b % |h.rows| ==> !BringsIn(h, calls[0]))
     && next.Level? && next.rows != [] && Spares(next, calls[1..], b))
  }

  lemma DistinctAppend(q: seq<nat>, b: nat)
    requires L.Distinct(q) && b !in q
    ensures L.Distinct(q + [b]) && L.Distinct([b] + q)
  {
  }

  lemma LipUseDistinct(q: seq<nat>, assoc: nat, b: nat)
    requires L.Distinct(q)
    ensures L.Distinct(LipUse(q, assoc, b)) && L.Distinct(L.Access(q, assoc, b).0)
  {
    L.AccessDistinct(q, assoc, b);
    L.WithoutMeans(q, b);
    if b !in q { DistinctAppend(if |q| >= assoc && q != [] then q[..|q| - 1] else q, b); }
  }

  lemma RowedStays(h: Hierarchy, c: Call)
    requires Rowed(h)
    ensures Rowed(Access(h, c.write, c.address, c.words).0)
  {
    AccessRows(h, c);
    var b := Shr(c.address, h.shape.bits);
    LipUseDistinct(Names(h.rows[b % |h.rows|]), h.shape.assoc, b);
  }

  /** b is the next to go in its row. */
  predicate NextOut(h: Hierarchy, b: nat)
    requires h.Level? && h.rows != []
  {
    var q := Names(h.rows[b % |h.rows|]);
    q != [] && q[|q| - 1] == b
  }

  lemma {:induction false} WithoutKeepsLast(q: seq<nat>, b: nat)
    requires q != [] && q[|q| - 1] != b
    ensures var r := L.Without(q, b); r != [] && r[|r| - 1] == q[|q| - 1]
  {
    if |q| > 1 {
      WithoutKeepsLast(q[1..], b);
    } else {
      assert q[1..] == [];
    }
  }

  lemma SparedStays(h: Hierarchy, c: Call, b: nat)
    requires Rowed(h) && h.shape.lip && NextOut(h, b) && Shr(c.address, h.shape.bits) != b
    requires Shr(c.address, h.shape.bits) % |h.rows| == b % |h.rows| ==> !BringsIn(h, c)
    ensures var next := Access(h, c.write, c.address, c.words).0;
      Rowed(next) && next.shape == h.shape && NextOut(next, b)
  {
    var x := Shr(c.address, h.shape.bits);
    RowedStays(h, c);
    if x % |h.rows| == b % |h.rows| && Resident(h, x) {
      UsedGoesLast(h, c);
      WithoutKeepsLast(Names(h.rows[b % |h.rows|]), x);
    } else {
      SparedRow(h, c, b);
    }
  }

  lemma SparedRow(h: Hierarchy, c: Call, b: nat)
    requires Rowed(h)
    requires var x := Shr(c.address, h.shape.bits);
      x % |h.rows| == b % |h.rows| ==> !BringsIn(h, c) && !Resident(h, x)
    ensures var next := Access(h, c.write, c.address, c.words).0;
      |next.rows| == |h.rows| && Names(next.rows[b % |h.rows|]) == Names(h.rows[b % |h.rows|])
  {
    AccessRows(h, c);
  }

  lemma {:induction false} SparedRun(h: Hierarchy, calls: seq<Call>, b: nat)
    requires Rowed(h) && h.shape.lip && NextOut(h, b) && Spares(h, calls, b)
    ensures var g := Run(h, calls); Rowed(g) && g.shape == h.shape && NextOut(g, b)
    decreases |calls|
  {
    if calls != [] {
      SparedStays(h, calls[0], b);
      SparedRun(Access(h, calls[0].write, calls[0].address, calls[0].words).0, calls[1..], b);
    }
  }

  lemma BroughtIn(h: Hierarchy, c: Call)
    requires Rowed(h) && h.shape.lip && BringsIn(h, c)
    ensures var next := Access(h, c.write, c.address, c.words).0;
      Rowed(next) && next.shape == h.shape && NextOut(next, Shr(c.address, h.shape.bits))
  {
    RowedStays(h, c);
    AccessRows(h, c);
  }

  /** What the next block that comes into a full row does there. */
  lemma ReplacesLast(g: Hierarchy, d: Call, b: nat)
    requires Rowed(g) && g.shape.lip && NextOut(g, b) && BringsIn(g, d)
    requires Shr(d.address, g.shape.bits) % |g.rows| == b % |g.rows| && |g.rows[b % |g.rows|]| >= g.shape.assoc
    ensures var g', s := Access(g, d.write, d.address, d.words).0, b % |g.rows|;
      && Rowed(g') && |g'.rows| == |g.rows|
      && forall y :: y in Names(g'.rows[s]) <==>
           y == Shr(d.address, g.shape.bits) || (y in Names(g.rows[s]) && y != b)
  {
    RowedStays(g, d);
    AccessRows(g, d);
    var q := Names(g.rows[b % |g.rows|]);
    assert q == q[..|q| - 1] + [b];
    assert forall y :: y in q[..|q| - 1] <==> y in q && y != b;
  }

  /** With LIP insertion a block that is brought in is the next of its row to go, whatever else the level is asked, as
      long as it is not used itself: the next block that is brought into the full row replaces it and nothing else. */
  lemma BroughtInGoesNext(h: Hierarchy, c: Call, calls: seq<Call>, d: Call)
    requires Rowed(h) && h.shape.lip && BringsIn(h, c)
    requires var next := Access(h, c.write, c.address, c.words).0;
      next.Level? && next.rows != [] && Spares(next, calls, Shr(c.address, h.shape.bits))
    ensures var b, x := Shr(c.address, h.shape.bits), Shr(d.address, h.shape.bits);
      var g := Run(Access(h, c.write, c.address, c.words).0, calls);
      && Rowed(g) && g.shape == h.shape && NextOut(g, b)
      && var g', s := Access(g, d.write, d.address, d.words).0, b % |g.rows|;
         BringsIn(g, d) && x % |g.rows| == s && |g.rows[s]| >= g.shape.assoc ==>
           && Rowed(g') && |g'.rows| == |g.rows|
           && forall y :: y in Names(g'.rows[s]) <==> y == x || (y in Names(g.rows[s]) && y != b)
  {
    var next, b := Access(h, c.write, c.address, c.words).0, Shr(c.address, h.shape.bits);
    BroughtIn(h, c);
    SparedRun(next, calls, b);
    var g := Run(next, calls);
    if BringsIn(g, d) && Shr(d.address, h.shape.bits) % |g.rows| == b % |g.rows| &&
      |g.rows[b % |g.rows|]| >= g.shape.assoc { ReplacesLast(g, d, b); }
  }

  /** A block that is used goes to the front of its row, and the others keep their order. */
  lemma UsedGoesLast(h: Hierarchy, c: Call)
    requires Rowed(h) && Resident(h, Shr(c.address, h.shape.bits))
    ensures var b := Shr(c.address, h.shape.bits);
      var h', s := Access(h, c.write, c.address, c.words).0, b % |h.rows|;
      Rowed(h') && |h'.rows| == |h.rows| && Names(h'.rows[s]) == [b] + L.Without(Names(h.rows[s]), b)
  {
    RowedStays(h, c);
    AccessRows(h, c);
  }

  // ----- what the level below is asked -----

  /** On a miss the block, and where a dirty line has to make room, that line. */
  function Passed(h: Hierarchy, c: Call): seq<Call>
    requires h.Level?
  {
    var b := Shr(c.address, h.shape.bits);
    if h.rows == [] || Resident(h, b) || (h.shape.through && c.write) then []
    else
      var victim := Soiled(h.rows[b % |h.rows|], h.shape);
      [Call(false, Shl(b, h.shape.bits), map[])] +
      (if victim.Some? then [Call(true, Shl(victim.value.block, h.shape.bits), victim.value.data)] else [])
  }

  lemma RunOne(h: Hierarchy, c: Call)
    ensures Run(h, [c]) == Access(h, c.write, c.address, c.words).0
  {
    assert [c][1..] == [];
  }

  lemma RunTwo(h: Hierarchy, c: Call, d: Call)
    ensures Run(h, [c] + [d]) ==
            Access(Access(h, c.write, c.address, c.words).0, d.write, d.address, d.words).0
  {
    RunOne(h, c);
    RunMore(h, [c], d);
  }

  /** A level below is run by what it is asked. */
  lemma BelowRuns(h: Hierarchy, c: Call)
    requires h.Level?
    ensures var h' := Access(h, c.write, c.address, c.words).0; h'.Level? && h'.below == Run(h.below, Passed(h, c))
  {
    if h.rows != [] {
      var b := Shr(c.address, h.shape.bits);
      var victim := Soiled(h.rows[b % |h.rows|], h.shape);
      NamesIn(h.rows[b % |h.rows|], b);
      var first := Call(false, Shl(b, h.shape.bits), map[]);
      RunOne(h.below, first);
      if victim.Some? {
        RunTwo(h.below, first, Call(true, Shl(victim.value.block, h.shape.bits), victim.value.data));
      } else {
        assert [first] + [] == [first];
      }
    }
  }

  /** All that a level passes down while it is asked the calls. */
  function PassedOn(h: Hierarchy, calls: seq<Call>): seq<Call>
    requires h.Level?
    decreases |calls|
  {
    if calls == [] then []
    else Passed(h, calls[0]) + PassedOn(Access(h, calls[0].write, calls[0].address, calls[0].words).0, calls[1..])
  }

  lemma {:induction false} RunAppend(h: Hierarchy, xs: seq<Call>, ys: seq<Call>)
    ensures Run(h, xs + ys) == Run(Run(h, xs), ys)
    decreases |xs|
  {
    if xs == [] { assert xs + ys == ys; }
    else {
      assert (xs + ys)[1..] == xs[1..] + ys;
      RunAppend(Access(h, xs[0].write, xs[0].address, xs[0].words).0, xs[1..], ys);
    }
  }

  /** So is every level of a stack, and the theorems above hold of each of them. */
  lemma {:induction false} LevelsRun(h: Hierarchy, calls: seq<Call>)
    requires h.Level?
    ensures Run(h, calls).Level? && Run(h, calls).below == Run(h.below, PassedOn(h, calls))
    decreases |calls|
  {
    if calls != [] {
      var next := Access(h, calls[0].write, calls[0].address, calls[0].words).0;
      BelowRuns(h, calls[0]);
      LevelsRun(next, calls[1..]);
      RunAppend(h.below, Passed(h, calls[0]), PassedOn(next, calls[1..]));
    }
  }
}
