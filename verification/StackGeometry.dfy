/** Exactly which stacks of caches behave like memory: those whose levels all write back and whose blocks do not
    get smaller on the way down. */
module StackGeometry {
  import opened Options
  import opened WriteBack

  // ----- a shrinking block is fetched in part -----

  lemma {:induction false} ShlZero(n: nat)
    ensures Shl(0, n) == 0
  {
    if n > 0 { ShlZero(n - 1); }
  }

  /** Reading an empty stack up to address x never brings in x, the first word that the single access at the
      base of the wider block does not reach. */
  lemma {:induction false} ColdMiss(shapes: seq<Shape>, data: Words, k: nat, a: nat, w: Words, x: nat)
    requires Usable(shapes) && k + 1 < |shapes| && shapes[k].bits > shapes[k + 1].bits
    requires x == Shl(1, shapes[k + 1].bits) && a <= x
    ensures x !in Access(Build(shapes, data), false, a, w).1
    decreases |shapes|
  {
    var shape, rest := shapes[0], shapes[1..];
    var b := Shr(a, shape.bits);
    var base := Shl(b, shape.bits);
    assert NoLines(shape.sets)[b % shape.sets] == [];
    BlockRange(a, shape.bits);
    if k > 0 {
      ColdMiss(rest, data, k - 1, base, map[], x);
    } else {
      Wider(rest[0].bits, shape.bits);
      FirstBlock(a, shape.bits);
      ShlZero(shape.bits);
      FirstBlock(0, rest[0].bits);
      PowerPositive(rest[0].bits);
      BlockOfBase(1, rest[0].bits);
      assert NoLines(rest[0].sets)[0 % rest[0].sets] == [];
      assert x !in Access(Build(rest, data), false, base, map[]).1;
    }
  }

  lemma ServeOne(h: Hierarchy, r: Request)
    ensures Serve(h, [r]) ==
            (Access(h, r.write, r.address, map[r.address := r.value]).0,
             [Word(Access(h, r.write, r.address, map[r.address := r.value]).1, r.address)])
  {
    assert [r][1..] == [];
    var (next, d) := Access(h, r.write, r.address, map[r.address := r.value]);
    assert Serve(next, []) == (next, []);
    assert [Word(d, r.address)] + [] == [Word(d, r.address)];
  }

  lemma FlatOne(data: Words, r: Request)
    ensures ServeFlat(data, [r]) == [Word(data, r.address)]
  {
    assert [r][1..] == [];
  }

  lemma ShrinkingFails(shapes: seq<Shape>, k: nat)
    requires Usable(shapes) && k + 1 < |shapes| && shapes[k].bits > shapes[k + 1].bits
    ensures !TransparentStack(shapes)
  {
    var x := Shl(1, shapes[k + 1].bits);
    var data: Words := map[x := 1];
    var r := Request(false, x, 0);
    ColdMiss(shapes, data, k, x, map[x := 0], x);
    ServeOne(Build(shapes, data), r);
    FlatOne(data, r);
    assert Serve(Build(shapes, data), [r]).1[0] != ServeFlat(data, [r])[0];
  }

  // ----- below a write-through level nothing is ever written -----

  predicate BlankRow(row: Row) { forall i :: 0 <= i < |row| ==> !row[i].dirty && row[i].data == map[] }

  predicate Blank(h: Hierarchy) {
    match h
    case Memory(data) => data == map[]
    case Level(_, rows, _, _, below) => (forall s :: 0 <= s < |rows| ==> BlankRow(rows[s])) && Blank(below)
  }

  lemma BlankHit(row: Row, i: nat)
    requires i < |row| && BlankRow(row)
    ensures BlankRow(Hit(row, i, row[i]))
  {
    var r := Hit(row, i, row[i]);
    forall k | 0 <= k < |r| ensures !r[k].dirty && r[k].data == map[] {
      assert r[k] == row[if k == 0 then i else if k <= i then k - 1 else k];
    }
  }

  lemma BlankInsert(row: Row, shape: Shape, b: nat, w: Words)
    requires BlankRow(row)
    ensures BlankRow(Insert(row, shape.assoc, shape.lip, Filled(b, shape, map[], false, w)))
  {
  }

  lemma {:induction false} BlankRead(h: Hierarchy, a: nat, w: Words)
    requires Blank(h)
    ensures Blank(Access(h, false, a, w).0) && Access(h, false, a, w).1 == map[]
    decreases Depth(h)
  {
    if h.Level? && h.rows != [] {
      var b := Shr(a, h.shape.bits);
      var row := h.rows[b % |h.rows|];
      assert BlankRow(row);
      if LineOf(row, b).Some? {
        BlankHit(row, IndexOf(row, b));
      } else {
        BlankRead(h.below, Shl(b, h.shape.bits), map[]);
        BlankInsert(row, h.shape, b, w);
      }
    }
  }

  /** Lines have words of their block only, and rows are no longer than they may be. */
  predicate RowFits(row: Row, shape: Shape) {
    && |row| <= shape.assoc
    && forall i, x :: 0 <= i < |row| && x in row[i].data ==> Shr(x, shape.bits) == row[i].block
  }

  /** A level that writes through, over blank ones, perhaps with more levels above it. */
  predicate Lossy(h: Hierarchy) {
    && h.Level?
    && h.shape.assoc >= 1 && |h.rows| == h.shape.sets > 0
    && (forall s :: 0 <= s < |h.rows| ==> RowFits(h.rows[s], h.shape))
    && (if h.shape.through then Blank(h.below) else Lossy(h.below))
  }

  lemma HitFits(row: Row, i: nat, l: Line, shape: Shape)
    requires i < |row| && RowFits(row, shape) && forall x :: x in l.data ==> Shr(x, shape.bits) == l.block
    ensures RowFits(Hit(row, i, l), shape)
  {
    var r := Hit(row, i, l);
    forall k, x | 0 <= k < |r| && x in r[k].data ensures Shr(x, shape.bits) == r[k].block {
      if k > 0 { assert r[k] == row[if k <= i then k - 1 else k]; }
    }
  }

  lemma InsertFits(row: Row, l: Line, shape: Shape)
    requires shape.assoc >= 1 && RowFits(row, shape) && forall x :: x in l.data ==> Shr(x, shape.bits) == l.block
    ensures RowFits(Insert(row, shape.assoc, shape.lip, l), shape)
  {
    var r := Insert(row, shape.assoc, shape.lip, l);
    forall k, x | 0 <= k < |r| && x in r[k].data ensures Shr(x, shape.bits) == r[k].block {
      var j := if shape.lip then k else k - 1;
      if 0 <= j < |Kept(row, shape.assoc)| { assert r[k] == row[j]; }
    }
  }

  lemma {:induction false} LossyStays(h: Hierarchy, write: bool, a: nat, w: Words)
    requires Lossy(h)
    ensures Lossy(Access(h, write, a, w).0) && Capacity(Access(h, write, a, w).0) == Capacity(h)
    decreases Depth(h)
  {
    var b := Shr(a, h.shape.bits);
    var row := h.rows[b % |h.rows|];
    assert RowFits(row, h.shape);
    if LineOf(row, b).Some? {
      var i := IndexOf(row, b);
      HitFits(row, i, Marked(row[i], h.shape, write, w), h.shape);
    } else if h.shape.through {
      BlankRead(h.below, Shl(b, h.shape.bits), map[]);
      InsertFits(row, Filled(b, h.shape, map[], write, w), h.shape);
    } else {
      var (fetched, d) := Access(h.below, false, Shl(b, h.shape.bits), map[]);
      LossyStays(h.below, false, Shl(b, h.shape.bits), map[]);
      var victim := Soiled(row, h.shape);
      if victim.Some? { LossyStays(fetched, true, Shl(victim.value.block, h.shape.bits), victim.value.data); }
      InsertFits(row, Filled(b, h.shape, d, write, w), h.shape);
    }
  }

  // ----- so a write-through level keeps only so many words -----

  function RowWords(row: Row): set<nat> { if row == [] then {} else row[0].data.Keys + RowWords(row[1..]) }

  function RowsWords(rows: seq<Row>): set<nat> { if rows == [] then {} else RowWords(rows[0]) + RowsWords(rows[1..]) }

  /** The words in the lines down to the first level that writes through. */
  function Held(h: Hierarchy): set<nat> {
    if h.Memory? then {} else RowsWords(h.rows) + (if h.shape.through then {} else Held(h.below))
  }

  /** How many there can be. */
  function Capacity(h: Hierarchy): nat {
    if h.Memory? then 0
    else
      var here := Times(h.shape.sets, Times(h.shape.assoc, Shl(1, h.shape.bits)));
      if h.shape.through then here else here + Capacity(h.below)
  }

  lemma {:induction false} RangeSize(s: set<nat>, lo: nat, n: nat)
    requires forall x :: x in s ==> lo <= x < lo + n
    ensures |s| <= n
  {
    if n == 0 { assert s == {}; }
    else {
      RangeSize(s - {lo + n - 1}, lo, n - 1);
    }
  }

  /** n times k. */
  function Times(n: nat, k: nat): nat { if n == 0 then 0 else k + Times(n - 1, k) }

  lemma {:induction false} TimesMore(m: nat, n: nat, k: nat)
    requires m <= n
    ensures Times(m, k) <= Times(n, k)
  {
    if m < n { TimesMore(m, n - 1, k); }
  }

  lemma UnionSize(a: set<nat>, b: set<nat>)
    ensures |a + b| <= |a| + |b|
  {
    assert a + b == a + (b - a);
  }

  lemma {:induction false} RowSize(row: Row, k: nat)
    requires forall i :: 0 <= i < |row| ==> |row[i].data.Keys| <= k
    ensures |RowWords(row)| <= Times(|row|, k)
  {
    if row != [] {
      RowSize(row[1..], k);
      UnionSize(row[0].data.Keys, RowWords(row[1..]));
    }
  }

  lemma FittingSize(row: Row, shape: Shape)
    requires RowFits(row, shape)
    ensures |RowWords(row)| <= Times(shape.assoc, Shl(1, shape.bits))
  {
    forall i | 0 <= i < |row| ensures |row[i].data.Keys| <= Shl(1, shape.bits) {
      forall x | x in row[i].data.Keys
        ensures Shl(row[i].block, shape.bits) <= x < Shl(row[i].block, shape.bits) + Shl(1, shape.bits)
      {
        BlockRange(x, shape.bits);
      }
      RangeSize(row[i].data.Keys, Shl(row[i].block, shape.bits), Shl(1, shape.bits));
    }
    RowSize(row, Shl(1, shape.bits));
    TimesMore(|row|, shape.assoc, Shl(1, shape.bits));
  }

  lemma {:induction false} RowsSize(rows: seq<Row>, k: nat)
    requires forall s :: 0 <= s < |rows| ==> |RowWords(rows[s])| <= k
    ensures |RowsWords(rows)| <= Times(|rows|, k)
  {
    if rows != [] {
      RowsSize(rows[1..], k);
      UnionSize(RowWords(rows[0]), RowsWords(rows[1..]));
    }
  }

  lemma {:induction false} HeldSize(h: Hierarchy)
    requires Lossy(h)
    ensures |Held(h)| <= Capacity(h)
  {
    forall s | 0 <= s < |h.rows| ensures |RowWords(h.rows[s])| <= Times(h.shape.assoc, Shl(1, h.shape.bits)) {
      FittingSize(h.rows[s], h.shape);
    }
    RowsSize(h.rows, Times(h.shape.assoc, Shl(1, h.shape.bits)));
    if !h.shape.through {
      HeldSize(h.below);
      UnionSize(RowsWords(h.rows), Held(h.below));
    }
  }

  lemma {:induction false} InRow(row: Row, i: nat)
    requires i < |row|
    ensures row[i].data.Keys <= RowWords(row)
  {
    if i > 0 { InRow(row[1..], i - 1); }
  }

  lemma {:induction false} InRows(rows: seq<Row>, s: nat)
    requires s < |rows|
    ensures RowWords(rows[s]) <= RowsWords(rows)
  {
    if s > 0 { InRows(rows[1..], s - 1); }
  }

  /** A read answers with held words only. */
  lemma {:induction false} AnswerHeld(h: Hierarchy, a: nat, w: Words)
    requires Lossy(h)
    ensures Access(h, false, a, w).1.Keys <= Held(h)
    decreases Depth(h)
  {
    var b := Shr(a, h.shape.bits);
    var s := b % |h.rows|;
    if LineOf(h.rows[s], b).Some? {
      InRow(h.rows[s], IndexOf(h.rows[s], b));
      InRows(h.rows, s);
    } else if h.shape.through {
      BlankRead(h.below, Shl(b, h.shape.bits), map[]);
    } else {
      AnswerHeld(h.below, Shl(b, h.shape.bits), map[]);
    }
  }

  // ----- writing more words than that -----

  /** Write 1 to the addresses from i up to n. */
  function Writes(i: nat, n: nat): seq<Request>
    requires i <= n
    decreases n - i
  {
    if i == n then [] else [Request(true, i, 1)] + Writes(i + 1, n)
  }

  lemma {:induction false} WritesLossy(h: Hierarchy, i: nat, n: nat)
    requires Lossy(h) && i <= n
    ensures var h' := Serve(h, Writes(i, n)).0; Lossy(h') && Capacity(h') == Capacity(h)
    decreases n - i
  {
    if i < n {
      var w := map[i := 1];
      LossyStays(h, true, i, w);
      assert Writes(i, n)[1..] == Writes(i + 1, n);
      WritesLossy(Access(h, true, i, w).0, i + 1, n);
    }
  }

  lemma {:induction false} LastServed(h: Hierarchy, before: seq<Request>, r: Request)
    ensures var h' := Serve(h, before).0;
      && |Serve(h, before + [r]).1| == |before| + 1
      && Serve(h, before + [r]).1[|before|] ==
        Word(Access(h', r.write, r.address, map[r.address := r.value]).1, r.address)
    decreases |before|
  {
    if before == [] {
      assert before + [r] == [r];
      ServeOne(h, r);
    } else {
      var q := before[0];
      assert (before + [r])[0] == q && (before + [r])[1..] == before[1..] + [r];
      LastServed(Access(h, q.write, q.address, map[q.address := q.value]).0, before[1..], r);
    }
  }

  lemma {:induction false} LastFlat(data: Words, i: nat, n: nat, x: nat)
    requires i <= n && x < n && (x < i ==> Word(data, x) == 1)
    ensures var before := Writes(i, n);
      var got := ServeFlat(data, before + [Request(false, x, 0)]);
      |got| == |before| + 1 && got[|before|] == 1
    decreases n - i
  {
    var r := Request(false, x, 0);
    if i == n {
      assert Writes(i, n) + [r] == [r];
      FlatOne(data, r);
    } else {
      var all := Writes(i, n) + [r];
      assert all[0] == Request(true, i, 1) && all[1..] == Writes(i + 1, n) + [r];
      LastFlat(data[i := 1], i + 1, n, x);
    }
  }

  lemma {:induction false} BuildLossy(shapes: seq<Shape>, k: nat)
    requires Usable(shapes) && k < |shapes| && shapes[k].through
    ensures Lossy(Build(shapes, map[]))
  {
    if shapes[0].through { BuildBlank(shapes[1..]); }
    else { BuildLossy(shapes[1..], k - 1); }
  }

  lemma {:induction false} BuildBlank(shapes: seq<Shape>)
    ensures Blank(Build(shapes, map[]))
  {
    if shapes != [] { BuildBlank(shapes[1..]); }
  }

  lemma {:induction false} SomeMissing(s: set<nat>, n: nat) returns (x: nat)
    requires |s| < n
    ensures x < n && x !in s
  {
    if n - 1 !in s { x := n - 1; }
    else { x := SomeMissing(s - {n - 1}, n - 1); }
  }

  /** More words are written than the levels above the blank ones can hold, and one of them is read back. */
  lemma ThroughFails(shapes: seq<Shape>, k: nat)
    requires Usable(shapes) && k < |shapes| && shapes[k].through
    ensures !TransparentStack(shapes)
  {
    var h := Build(shapes, map[]);
    BuildLossy(shapes, k);
    var n := Capacity(h) + 1;
    var before := Writes(0, n);
    WritesLossy(h, 0, n);
    var full := Serve(h, before).0;
    HeldSize(full);
    var x := SomeMissing(Held(full), n);
    var r := Request(false, x, 0);
    AnswerHeld(full, x, map[x := 0]);
    LastServed(h, before, r);
    LastFlat(map[], 0, n, x);
    assert Serve(h, before + [r]).1[|before|] != ServeFlat(map[], before + [r])[|before|];
  }

  /** A stack of caches finds, whatever memory holds and whatever is asked, what plain memory would find, exactly
      when every level writes back and no level has smaller blocks than the one above it. */
  lemma TransparentIff(shapes: seq<Shape>)
    requires Usable(shapes)
    ensures TransparentStack(shapes) <==> WritesBack(shapes) && NonShrinking(shapes)
  {
    if WritesBack(shapes) && NonShrinking(shapes) {
      GoodStacks(shapes);
    } else if !WritesBack(shapes) {
      var k :| 0 <= k < |shapes| && shapes[k].through;
      ThroughFails(shapes, k);
    } else {
      var k :| 0 <= k < |shapes| - 1 && shapes[k].bits > shapes[k + 1].bits;
      ShrinkingFails(shapes, k);
    }
  }
}
