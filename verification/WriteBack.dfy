/** A stack of cache levels over main memory: write-back levels that allocate on writes, and write-through
    levels that do not. Lines carry the data they would hold; the simulator keeps tags only, and data is what
    makes its bookkeeping right or wrong. Memory is a map of words that are 0 at first. */
module WriteBack {
  import opened Options
  import opened Sums

  // ----- addresses -----

  /** The block of address a when a block has 2^n words. */
  function Shr(a: nat, n: nat): nat { if n == 0 then a else Shr(a / 2, n - 1) }

  /** The first address of block k. */
  function Shl(k: nat, n: nat): nat { if n == 0 then k else 2 * Shl(k, n - 1) }

  lemma {:induction false} BlockOfBase(k: nat, n: nat)
    ensures Shr(Shl(k, n), n) == k
  {
    if n > 0 { BlockOfBase(k, n - 1); }
  }

  /** A block's words lie together. */
  lemma {:induction false} BlockRange(a: nat, n: nat)
    ensures Shl(Shr(a, n), n) <= a < Shl(Shr(a, n), n) + Shl(1, n)
  {
    if n > 0 { BlockRange(a / 2, n - 1); }
  }

  /** A larger block is made of smaller ones. */
  lemma {:induction false} Coarser(a: nat, m: nat, n: nat)
    requires m <= n
    ensures Shr(a, n) == Shr(Shr(a, m), n - m)
  {
    if m > 0 { Coarser(a / 2, m - 1, n - 1); }
  }

  lemma {:induction false} FirstBlock(a: nat, n: nat)
    ensures a < Shl(1, n) <==> Shr(a, n) == 0
  {
    if n > 0 { FirstBlock(a / 2, n - 1); }
  }

  lemma {:induction false} Wider(m: nat, n: nat)
    requires m < n
    ensures Shl(1, m) < Shl(1, n)
  {
    if m > 0 { Wider(m - 1, n - 1); } else { PowerPositive(n - 1); }
  }

  lemma {:induction false} PowerPositive(n: nat)
    ensures Shl(1, n) >= 1
  {
    if n > 0 { PowerPositive(n - 1); }
  }

  // ----- levels -----

  type Words = map<nat, int>

  function Word(data: Words, x: nat): int { if x in data then data[x] else 0 }

  /** The words of data that lie in a block. */
  function Part(data: Words, bits: nat, block: nat): Words { map x | x in data && Shr(x, bits) == block :: data[x] }

  datatype Line = Line(block: nat, dirty: bool, data: Words)

  /** Most recently used first. */
  type Row = seq<Line>

  /** Blocks of 2^bits words; through: write through, no write allocate; lip: new lines go to the back of their
      row instead of the front. */
  datatype Shape = Shape(bits: nat, through: bool, assoc: nat, sets: nat, lip: bool)

  /** dirtied counts the lines that became dirty, writebacks the dirty victims. */
  datatype Hierarchy =
    | Memory(data: Words)
    | Level(shape: Shape, rows: seq<Row>, dirtied: nat, writebacks: nat, below: Hierarchy)

  // ----- one row -----

  function IndexOf(row: Row, b: nat): (i: nat)
    ensures i <= |row|
    ensures i < |row| ==> row[i].block == b
    ensures forall j :: 0 <= j < i ==> row[j].block != b
  {
    Find(row, (l: Line) => l.block == b, 0)
  }

  /** A hit moves the line, now l, to the front. */
  function Hit(row: Row, i: nat, l: Line): Row
    requires i < |row|
  {
    [l] + row[..i] + row[i + 1..]
  }

  function Victim(row: Row, assoc: nat): Option<Line> {
    if |row| >= assoc && row != [] then Some(row[|row| - 1]) else None
  }

  function Kept(row: Row, assoc: nat): Row { if Victim(row, assoc).Some? then row[..|row| - 1] else row }

  function Insert(row: Row, assoc: nat, lip: bool, l: Line): Row {
    if lip then Kept(row, assoc) + [l] else [l] + Kept(row, assoc)
  }

  // ----- the hierarchy -----

  function Depth(h: Hierarchy): nat { if h.Memory? then 0 else 1 + Depth(h.below) }

  /** What a hit makes of the line; only a write-back level marks it dirty. */
  function Marked(l: Line, shape: Shape, write: bool, w: Words): Line {
    if write then Line(l.block, !shape.through, l.data + Part(w, shape.bits, l.block)) else l
  }

  /** The line of block b that a miss brings in, from what the level below answered. */
  function Filled(b: nat, shape: Shape, d: Words, write: bool, w: Words): Line {
    Line(b, write, Part(d, shape.bits, b) + (if write then Part(w, shape.bits, b) else map[]))
  }

  function Soiled(row: Row, shape: Shape): Option<Line> {
    var victim := Victim(row, shape.assoc);
    if !shape.through && victim.Some? && victim.value.dirty then victim else None
  }

  /** Cache::access at byte address a, writing the words w or reading: the stack afterwards and the words that
      were there. The level below is asked for one address, the base of the block, whatever its own blocks
      are; so is a victim written down. */
  function Access(h: Hierarchy, write: bool, a: nat, w: Words): (r: (Hierarchy, Words))
    ensures Depth(r.0) == Depth(h)
    decreases Depth(h)
  {
    match h
    case Memory(data) => (if write then Memory(data + w) else h, data)
    case Level(shape, rows, dirtied, writebacks, below) =>
      if rows == [] then (h, map[])
      else
        var b := Shr(a, shape.bits);
        var s := b % |rows|;
        var i := IndexOf(rows[s], b);
        if i < |rows[s]| then
          (h.(rows := rows[s := Hit(rows[s], i, Marked(rows[s][i], shape, write, w))],
              dirtied := dirtied + (if write && !shape.through && !rows[s][i].dirty then 1 else 0)),
           rows[s][i].data)
        else if write && shape.through then (h, map[])
        else
          var (fetched, d) := Access(below, false, Shl(b, shape.bits), map[]);
          var victim := Soiled(rows[s], shape);
          var after := if victim.None? then fetched
                       else Access(fetched, true, Shl(victim.value.block, shape.bits), victim.value.data).0;
          (h.(rows := rows[s := Insert(rows[s], shape.assoc, shape.lip, Filled(b, shape, d, write, w))],
              dirtied := dirtied + (if write then 1 else 0),
              writebacks := writebacks + (if victim.Some? then 1 else 0),
              below := after),
           Part(d, shape.bits, b))
  }

  /** What a flat memory would hold: the topmost copy. */
  function View(h: Hierarchy, x: nat): int {
    match h
    case Memory(data) => Word(data, x)
    case Level(shape, rows, _, _, below) =>
      if rows == [] then 0
      else
        var b := Shr(x, shape.bits);
        match LineOf(rows[b % |rows|], b)
        case Some(l) => Word(l.data, x)
        case None => View(below, x)
  }

  predicate Distinct(row: Row) { forall i, j :: 0 <= i < j < |row| ==> row[i].block != row[j].block }

  /** A line has words of its block only; those that it cannot have changed agree with what lies below. */
  ghost predicate LineGood(l: Line, bits: nat, below: Hierarchy) {
    && (forall x :: x in l.data ==> Shr(x, bits) == l.block)
    && (forall x: nat :: Shr(x, bits) == l.block && (!l.dirty || x !in l.data) ==> Word(l.data, x) == View(below, x))
  }

  /** Lines are in their rows, once each. */
  ghost predicate RowGood(row: Row, s: nat, sets: nat, shape: Shape, below: Hierarchy)
    requires sets > 0
  {
    && |row| <= shape.assoc && Distinct(row)
    && (forall i :: 0 <= i < |row| ==> row[i].block % sets == s)
    && (forall i :: 0 <= i < |row| ==> LineGood(row[i], shape.bits, below))
  }

  /** Blocks do not get smaller on the way down. */
  predicate Covers(shape: Shape, below: Hierarchy) { below.Level? ==> shape.bits <= below.shape.bits }

  ghost predicate Good(h: Hierarchy) {
    match h
    case Memory(_) => true
    case Level(shape, rows, _, _, below) =>
      && shape.assoc >= 1 && !shape.through && rows != [] && Covers(shape, below)
      && (forall s :: 0 <= s < |rows| ==> RowGood(rows[s], s, |rows|, shape, below))
      && Good(below)
  }

  /** The line of b in a row, if any. */
  function LineOf(row: Row, b: nat): Option<Line> {
    var i := IndexOf(row, b);
    if i < |row| then Some(row[i]) else None
  }

  lemma LineUnique(row: Row, i: nat)
    requires Distinct(row) && i < |row|
    ensures LineOf(row, row[i].block) == Some(row[i])
  {
  }

  // ----- rows after an access -----

  lemma HitLine(row: Row, i: nat, l: Line, c: nat)
    requires i < |row| && Distinct(row) && l.block == row[i].block
    ensures Distinct(Hit(row, i, l))
    ensures LineOf(Hit(row, i, l), c) == if c != l.block then LineOf(row, c) else Some(l)
  {
    var r := Hit(row, i, l);
    assert Distinct(r);
    if c == row[i].block { LineUnique(r, 0); }
    else {
      var j := IndexOf(row, c);
      if j < |row| {
        var k := if j < i then j + 1 else j;
        assert r[k] == row[j];
        LineUnique(r, k);
      } else {
        forall k | 0 <= k < |r| ensures r[k].block != c {
          if k > 0 { assert r[k] == row[if k <= i then k - 1 else k]; }
        }
      }
    }
  }

  lemma HitRow(row: Row, i: nat, l: Line, s: nat, sets: nat, shape: Shape, below: Hierarchy)
    requires sets > 0 && i < |row| && RowGood(row, s, sets, shape, below)
    requires l.block == row[i].block && LineGood(l, shape.bits, below)
    ensures RowGood(Hit(row, i, l), s, sets, shape, below)
  {
    var r := Hit(row, i, l);
    HitLine(row, i, l, l.block);
    forall k | 0 <= k < |r| ensures r[k].block % sets == s && LineGood(r[k], shape.bits, below) {
      if k > 0 { assert r[k] == row[if k <= i then k - 1 else k]; }
    }
  }

  /** Writing into a line of a write-back level. */
  lemma MarkedGood(l: Line, shape: Shape, w: Words, write: bool, below: Hierarchy)
    requires LineGood(l, shape.bits, below) && !shape.through
    ensures LineGood(Marked(l, shape, write, w), shape.bits, below)
  {
  }

  lemma KeptLine(row: Row, assoc: nat, c: nat)
    requires Distinct(row)
    ensures Distinct(Kept(row, assoc))
    ensures LineOf(Kept(row, assoc), c) ==
            if Victim(row, assoc).Some? && Victim(row, assoc).value.block == c then None else LineOf(row, c)
  {
    var kept := Kept(row, assoc);
    var j := IndexOf(row, c);
    if j < |kept| { LineUnique(kept, j); }
  }

  lemma FrontLine(row: Row, l: Line, c: nat)
    requires Distinct(row) && LineOf(row, l.block).None?
    ensures Distinct([l] + row) && LineOf([l] + row, c) == if c == l.block then Some(l) else LineOf(row, c)
  {
    var r := [l] + row;
    forall i, j | 0 <= i < j < |r| ensures r[i].block != r[j].block {
      if i > 0 { assert r[i] == row[i - 1] && r[j] == row[j - 1]; }
    }
    if c == l.block { LineUnique(r, 0); }
    else {
      var j := IndexOf(row, c);
      if j < |row| { LineUnique(r, j + 1); }
    }
  }

  lemma BackLine(row: Row, l: Line, c: nat)
    requires Distinct(row) && LineOf(row, l.block).None?
    ensures Distinct(row + [l]) && LineOf(row + [l], c) == if c == l.block then Some(l) else LineOf(row, c)
  {
    var r := row + [l];
    if c == l.block { LineUnique(r, |row|); }
    else {
      var j := IndexOf(row, c);
      if j < |row| { LineUnique(r, j); }
    }
  }

  lemma InsertLine(row: Row, assoc: nat, lip: bool, l: Line, c: nat)
    requires Distinct(row) && LineOf(row, l.block).None?
    ensures Distinct(Insert(row, assoc, lip, l))
    ensures LineOf(Insert(row, assoc, lip, l), c) ==
            if c == l.block then Some(l)
            else if Victim(row, assoc).Some? && Victim(row, assoc).value.block == c then None
            else LineOf(row, c)
  {
    KeptLine(row, assoc, c);
    KeptLine(row, assoc, l.block);
    if lip { BackLine(Kept(row, assoc), l, c); } else { FrontLine(Kept(row, assoc), l, c); }
  }

  /** below became after: exactly the words w were written. */
  ghost predicate Merged(below: Hierarchy, after: Hierarchy, w: Words) {
    forall x: nat :: View(after, x) == if x in w then w[x] else View(below, x)
  }

  /** The words of a victim that is written down. */
  function Lost(victim: Option<Line>): Words { if victim.Some? then victim.value.data else map[] }

  /** A line of another block does not notice. */
  lemma LineStays(l: Line, bits: nat, below: Hierarchy, after: Hierarchy, victim: Option<Line>)
    requires LineGood(l, bits, below) && Merged(below, after, Lost(victim))
    requires victim.Some? ==> victim.value.block != l.block
    requires victim.Some? ==> forall x :: x in victim.value.data ==> Shr(x, bits) == victim.value.block
    ensures LineGood(l, bits, after)
  {
    forall x: nat | Shr(x, bits) == l.block ensures View(after, x) == View(below, x) {
      assert x !in Lost(victim);
    }
  }

  lemma InsertRow(row: Row, l: Line, s: nat, sets: nat, shape: Shape, below: Hierarchy, after: Hierarchy)
    requires sets > 0 && shape.assoc >= 1 && !shape.through && RowGood(row, s, sets, shape, below)
    requires LineOf(row, l.block).None? && l.block % sets == s
    requires Merged(below, after, Lost(Soiled(row, shape))) && LineGood(l, shape.bits, after)
    ensures RowGood(Insert(row, shape.assoc, shape.lip, l), s, sets, shape, after)
  {
    var r := Insert(row, shape.assoc, shape.lip, l);
    InsertLine(row, shape.assoc, shape.lip, l, l.block);
    var kept := Kept(row, shape.assoc);
    forall i | 0 <= i < |r| ensures r[i].block % sets == s && LineGood(r[i], shape.bits, after) {
      var j := if shape.lip then i else i - 1;
      if 0 <= j < |kept| {
        assert r[i] == row[j];
        LineStays(row[j], shape.bits, below, after, Soiled(row, shape));
      }
    }
  }

  /** Nor does another row. */
  lemma RowStays(row: Row, s: nat, sets: nat, shape: Shape, below: Hierarchy, after: Hierarchy, victim: Option<Line>)
    requires sets > 0 && RowGood(row, s, sets, shape, below) && Merged(below, after, Lost(victim))
    requires victim.Some? ==> victim.value.block % sets != s
    requires victim.Some? ==> forall x :: x in victim.value.data ==> Shr(x, shape.bits) == victim.value.block
    ensures RowGood(row, s, sets, shape, after)
  {
    forall i | 0 <= i < |row| ensures LineGood(row[i], shape.bits, after) {
      LineStays(row[i], shape.bits, below, after, victim);
    }
  }

  // ----- the whole access -----

  /** The words written lie in one block of the level that is accessed. */
  ghost predicate Fine(h: Hierarchy, a: nat, w: Words) {
    h.Level? ==> forall x :: x in w ==> Shr(x, h.shape.bits) == Shr(a, h.shape.bits)
  }

  function Stored(write: bool, w: Words): Words { if write then w else map[] }

  /** The answer has the words of the block. */
  ghost predicate Tells(h: Hierarchy, a: nat, d: Words) {
    forall x: nat :: (h.Level? ==> Shr(x, h.shape.bits) == Shr(a, h.shape.bits)) ==> Word(d, x) == View(h, x)
  }

  ghost predicate Right(h: Hierarchy, h': Hierarchy, write: bool, a: nat, w: Words, d: Words) {
    Good(h') && Merged(h, h', Stored(write, w)) && Tells(h, a, d)
  }

  lemma MarkedWord(l: Line, shape: Shape, write: bool, w: Words, x: nat)
    requires Shr(x, shape.bits) == l.block
    ensures Word(Marked(l, shape, write, w).data, x) == if x in Stored(write, w) then w[x] else Word(l.data, x)
  {
  }

  lemma HitRows(h: Hierarchy, write: bool, a: nat, w: Words, h': Hierarchy)
    requires h.Level? && Good(h) && LineOf(h.rows[Shr(a, h.shape.bits) % |h.rows|], Shr(a, h.shape.bits)).Some?
    requires h' == Access(h, write, a, w).0
    ensures Good(h')
  {
    var b := Shr(a, h.shape.bits);
    var s := b % |h.rows|;
    var i := IndexOf(h.rows[s], b);
    MarkedGood(h.rows[s][i], h.shape, w, write, h.below);
    HitRow(h.rows[s], i, Marked(h.rows[s][i], h.shape, write, w), s, |h.rows|, h.shape, h.below);
  }

  lemma HitRight(h: Hierarchy, write: bool, a: nat, w: Words)
    requires h.Level? && Good(h) && Fine(h, a, w)
    requires LineOf(h.rows[Shr(a, h.shape.bits) % |h.rows|], Shr(a, h.shape.bits)).Some?
    ensures var (h', d) := Access(h, write, a, w); Right(h, h', write, a, w, d)
  {
    var b, n := Shr(a, h.shape.bits), |h.rows|;
    var row := h.rows[b % n];
    var i := IndexOf(row, b);
    var l := Marked(row[i], h.shape, write, w);
    var h' := Access(h, write, a, w).0;
    HitRows(h, write, a, w, h');
    forall x: nat ensures View(h', x) == if x in Stored(write, w) then w[x] else View(h, x) {
      var c := Shr(x, h.shape.bits);
      HitLine(row, i, l, c);
      if c == b { MarkedWord(row[i], h.shape, write, w, x); }
    }
  }

  /** What fetching and writing down the victim do below. */
  lemma TwoSteps(below: Hierarchy, fetched: Hierarchy, after: Hierarchy, w: Words)
    requires Merged(below, fetched, map[]) && Merged(fetched, after, w)
    ensures Merged(below, after, w)
  {
    forall x: nat ensures View(after, x) == if x in w then w[x] else View(below, x) {
      assert View(fetched, x) == View(below, x);
    }
  }

  lemma FilledWord(h: Hierarchy, a: nat, d: Words, write: bool, w: Words, x: nat)
    requires h.Level? && Covers(h.shape, h.below) && Tells(h.below, Shl(Shr(a, h.shape.bits), h.shape.bits), d)
    requires Shr(x, h.shape.bits) == Shr(a, h.shape.bits)
    ensures var l := Filled(Shr(a, h.shape.bits), h.shape, d, write, w);
      && Word(Part(d, h.shape.bits, l.block), x) == View(h.below, x)
      && Word(l.data, x) == (if x in Stored(write, w) then w[x] else View(h.below, x))
      && (x in l.data && x !in Stored(write, w) ==> x in d)
  {
    var bits := h.shape.bits;
    var base := Shl(Shr(a, bits), bits);
    BlockOfBase(Shr(a, bits), bits);
    if h.below.Level? {
      Coarser(x, bits, h.below.shape.bits);
      Coarser(base, bits, h.below.shape.bits);
    }
    assert Word(d, x) == View(h.below, x);
  }

  /** The line that comes in fits what will lie below it. */
  lemma FilledGood(h: Hierarchy, a: nat, d: Words, write: bool, w: Words, after: Hierarchy, victim: Option<Line>)
    requires h.Level? && Covers(h.shape, h.below) && Tells(h.below, Shl(Shr(a, h.shape.bits), h.shape.bits), d)
    requires Merged(h.below, after, Lost(victim))
    requires victim.Some? ==> victim.value.block != Shr(a, h.shape.bits)
    requires victim.Some? ==> forall x :: x in victim.value.data ==> Shr(x, h.shape.bits) == victim.value.block
    ensures LineGood(Filled(Shr(a, h.shape.bits), h.shape, d, write, w), h.shape.bits, after)
  {
    var l := Filled(Shr(a, h.shape.bits), h.shape, d, write, w);
    forall x: nat | Shr(x, h.shape.bits) == l.block && (!l.dirty || x !in l.data)
      ensures Word(l.data, x) == View(after, x)
    {
      FilledWord(h, a, d, write, w, x);
      assert x !in Lost(victim);
      assert View(after, x) == View(h.below, x);
    }
  }

  lemma MissLine(h: Hierarchy, l: Line, c: nat)
    requires h.Level? && Good(h) && LineOf(h.rows[l.block % |h.rows|], l.block).None?
    ensures var n, s := |h.rows|, l.block % |h.rows|;
      var row := h.rows[s];
      var rows := h.rows[s := Insert(row, h.shape.assoc, h.shape.lip, l)];
      LineOf(rows[c % n], c) ==
        if c == l.block then Some(l)
        else if Victim(row, h.shape.assoc).Some? && c == Victim(row, h.shape.assoc).value.block then None
        else LineOf(h.rows[c % n], c)
  {
    var n, s := |h.rows|, l.block % |h.rows|;
    var row := h.rows[s];
    InsertLine(row, h.shape.assoc, h.shape.lip, l, c);
    if Victim(row, h.shape.assoc).Some? { assert row[|row| - 1].block % n == s; }
  }

  /** The victim of a miss is another block of the same row, with its own words. */
  lemma VictimApart(h: Hierarchy, b: nat)
    requires h.Level? && Good(h) && LineOf(h.rows[b % |h.rows|], b).None?
    ensures var row := h.rows[b % |h.rows|];
      var victim := Victim(row, h.shape.assoc);
      victim.Some? ==>
        && victim.value.block != b && victim.value.block % |h.rows| == b % |h.rows|
        && LineGood(victim.value, h.shape.bits, h.below)
        && LineOf(row, victim.value.block) == victim
  {
    var row := h.rows[b % |h.rows|];
    if Victim(row, h.shape.assoc).Some? {
      assert LineGood(row[|row| - 1], h.shape.bits, h.below);
      LineUnique(row, |row| - 1);
    }
  }

  lemma MissGood(h: Hierarchy, l: Line, after: Hierarchy, h': Hierarchy)
    requires h.Level? && Good(h) && Good(after)
    requires LineOf(h.rows[l.block % |h.rows|], l.block).None?
    requires Merged(h.below, after, Lost(Soiled(h.rows[l.block % |h.rows|], h.shape)))
    requires LineGood(l, h.shape.bits, after) && Covers(h.shape, after)
    requires var s := l.block % |h.rows|;
      h'.Level? && h'.shape == h.shape && h'.rows == h.rows[s := Insert(h.rows[s], h.shape.assoc, h.shape.lip, l)] &&
        h'.below == after
    ensures Good(h')
  {
    var n, s := |h.rows|, l.block % |h.rows|;
    VictimApart(h, l.block);
    InsertRow(h.rows[s], l, s, n, h.shape, h.below, after);
    forall t | 0 <= t < n && t != s ensures RowGood(h.rows[t], t, n, h.shape, after) {
      RowStays(h.rows[t], t, n, h.shape, h.below, after, Soiled(h.rows[s], h.shape));
    }
  }

  /** What is seen after a miss: the words written, and otherwise what was seen before. */
  lemma MissView(h: Hierarchy, l: Line, w: Words, after: Hierarchy, h': Hierarchy, x: nat)
    requires h.Level? && Good(h) && LineOf(h.rows[l.block % |h.rows|], l.block).None?
    requires Merged(h.below, after, Lost(Soiled(h.rows[l.block % |h.rows|], h.shape)))
    requires forall y :: y in w ==> Shr(y, h.shape.bits) == l.block
    requires Shr(x, h.shape.bits) == l.block ==> Word(l.data, x) == if x in w then w[x] else View(h.below, x)
    requires var s := l.block % |h.rows|;
      h'.Level? && h'.shape == h.shape && h'.rows == h.rows[s := Insert(h.rows[s], h.shape.assoc, h.shape.lip, l)] &&
        h'.below == after
    ensures View(h', x) == if x in w then w[x] else View(h, x)
  {
    var row := h.rows[l.block % |h.rows|];
    var c := Shr(x, h.shape.bits);
    MissLine(h, l, c);
    VictimApart(h, l.block);
    if c != l.block {
      var victim := Victim(row, h.shape.assoc);
      if victim.Some? && c == victim.value.block {
        VictimSeen(victim.value, h.shape, h.below, after, x);
      }
    }
  }

  /** An evicted line's words are still seen below. */
  lemma VictimSeen(l: Line, shape: Shape, below: Hierarchy, after: Hierarchy, x: nat)
    requires LineGood(l, shape.bits, below) && Shr(x, shape.bits) == l.block
    requires Merged(below, after, if l.dirty then l.data else map[])
    ensures View(after, x) == Word(l.data, x)
  {
  }

  lemma MissRight(h: Hierarchy, write: bool, a: nat, w: Words, fetched: Hierarchy, d: Words, after: Hierarchy)
    requires h.Level? && Good(h) && Fine(h, a, w)
    requires var row, b := h.rows[Shr(a, h.shape.bits) % |h.rows|], Shr(a, h.shape.bits);
      && LineOf(row, b).None?
      && (fetched, d) == Access(h.below, false, Shl(b, h.shape.bits), map[])
      && Right(h.below, fetched, false, Shl(b, h.shape.bits), map[], d)
      && Good(after) && Merged(fetched, after, Lost(Soiled(row, h.shape))) && Covers(h.shape, after)
      && after == if Soiled(row, h.shape).None? then fetched
                  else Access(fetched, true, Shl(Soiled(row, h.shape).value.block, h.shape.bits),
                    Soiled(row, h.shape).value.data).0
    ensures var (h', got) := Access(h, write, a, w); Right(h, h', write, a, w, got)
  {
    var b := Shr(a, h.shape.bits);
    var victim := Soiled(h.rows[b % |h.rows|], h.shape);
    var l := Filled(b, h.shape, d, write, w);
    var (h', got) := Access(h, write, a, w);
    TwoSteps(h.below, fetched, after, Lost(victim));
    VictimApart(h, b);
    FilledGood(h, a, d, write, w, after, victim);
    MissGood(h, l, after, h');
    forall x: nat ensures View(h', x) == if x in Stored(write, w) then w[x] else View(h, x) {
      if Shr(x, h.shape.bits) == b { FilledWord(h, a, d, write, w, x); }
      MissView(h, l, Stored(write, w), after, h', x);
    }
    forall x: nat | Shr(x, h.shape.bits) == b ensures Word(got, x) == View(h, x) {
      FilledWord(h, a, d, write, w, x);
    }
  }

  lemma {:induction false} SameShape(h: Hierarchy, write: bool, a: nat, w: Words)
    ensures var h' := Access(h, write, a, w).0; h'.Level? == h.Level? && (h.Level? ==> h'.shape == h.shape)
  {
  }

  /** A victim's words lie in one block below. */
  lemma VictimFine(h: Hierarchy, below: Hierarchy, l: Line)
    requires h.Level? && Covers(h.shape, below) && forall x :: x in l.data ==> Shr(x, h.shape.bits) == l.block
    ensures Fine(below, Shl(l.block, h.shape.bits), l.data)
  {
    if below.Level? {
      BlockOfBase(l.block, h.shape.bits);
      Coarser(Shl(l.block, h.shape.bits), h.shape.bits, below.shape.bits);
      forall x | x in l.data ensures Shr(x, below.shape.bits) == Shr(Shl(l.block, h.shape.bits), below.shape.bits) {
        Coarser(x, h.shape.bits, below.shape.bits);
      }
    }
  }

  /** Transparency: reading returns what a flat memory would, writing changes exactly the written words of it,
      and the stack stays good; for any number of write-back levels whose blocks do not get smaller. */
  lemma {:induction false} Transparent(h: Hierarchy, write: bool, a: nat, w: Words)
    requires Good(h) && Fine(h, a, w)
    ensures var (h', d) := Access(h, write, a, w); Right(h, h', write, a, w, d)
    decreases Depth(h)
  {
    if h.Level? {
      var b := Shr(a, h.shape.bits);
      var row := h.rows[b % |h.rows|];
      if LineOf(row, b).Some? { HitRight(h, write, a, w); }
      else {
        var base := Shl(b, h.shape.bits);
        var (fetched, d) := Access(h.below, false, base, map[]);
        Transparent(h.below, false, base, map[]);
        SameShape(h.below, false, base, map[]);
        var victim := Soiled(row, h.shape);
        var after := fetched;
        if victim.Some? {
          var l := victim.value;
          VictimApart(h, b);
          VictimFine(h, fetched, l);
          Transparent(fetched, true, Shl(l.block, h.shape.bits), l.data);
          SameShape(fetched, true, Shl(l.block, h.shape.bits), l.data);
          after := Access(fetched, true, Shl(l.block, h.shape.bits), l.data).0;
        }
        MissRight(h, write, a, w, fetched, d, after);
      }
    }
  }

  // ----- counting writebacks -----

  function DirtyCost(l: Line): nat { if l.dirty then 1 else 0 }

  function DirtyIn(row: Row): nat { Sum(row, DirtyCost) }

  function DirtyLines(rows: seq<Row>): nat { Sum(rows, DirtyIn) }

  lemma HitDirty(row: Row, i: nat, l: Line)
    requires i < |row|
    ensures DirtyIn(Hit(row, i, l)) + DirtyCost(row[i]) == DirtyIn(row) + DirtyCost(l)
  {
    SumAt(row, i, DirtyCost);
    SumAppend([l] + row[..i], row[i + 1..], DirtyCost);
    SumAppend([l], row[..i], DirtyCost);
    SumOne(l, DirtyCost);
  }

  lemma InsertDirty(row: Row, assoc: nat, lip: bool, l: Line)
    ensures var victim := Victim(row, assoc);
      DirtyIn(Insert(row, assoc, lip, l)) + (if victim.Some? && victim.value.dirty then 1 else 0) ==
      DirtyIn(row) + (if l.dirty then 1 else 0)
  {
    var kept := Kept(row, assoc);
    if Victim(row, assoc).Some? {
      SumAt(row, |row| - 1, DirtyCost);
      assert row[|row| - 1 + 1..] == [];
    }
    SumAppend(kept, [l], DirtyCost);
    SumAppend([l], kept, DirtyCost);
    SumOne(l, DirtyCost);
  }

  /** At every level: lines made dirty = dirty lines written back + dirty lines still there; none in a level
      that writes through. */
  predicate Accounted(h: Hierarchy) {
    h.Level? ==>
      && h.dirtied == h.writebacks + DirtyLines(h.rows) && Accounted(h.below)
      && (h.shape.through ==> DirtyLines(h.rows) == 0)
  }

  lemma HitAccounted(h: Hierarchy, write: bool, a: nat, w: Words)
    requires h.Level? && Accounted(h) && h.rows != []
    requires LineOf(h.rows[Shr(a, h.shape.bits) % |h.rows|], Shr(a, h.shape.bits)).Some?
    ensures Accounted(Access(h, write, a, w).0)
  {
    var b := Shr(a, h.shape.bits);
    var s := b % |h.rows|;
    var i := IndexOf(h.rows[s], b);
    var l := Marked(h.rows[s][i], h.shape, write, w);
    HitDirty(h.rows[s], i, l);
    SumUpdate(h.rows, s, Hit(h.rows[s], i, l), DirtyIn);
    SumAt(h.rows, s, DirtyIn);
    SumAt(h.rows[s], i, DirtyCost);
  }

  lemma MissAccounted(h: Hierarchy, s: nat, l: Line, after: Hierarchy)
    requires h.Level? && Accounted(h) && s < |h.rows| && Accounted(after) && (h.shape.through ==> !l.dirty)
    ensures Accounted(h.(rows := h.rows[s := Insert(h.rows[s], h.shape.assoc, h.shape.lip, l)],
                         dirtied := h.dirtied + (if l.dirty then 1 else 0),
                         writebacks := h.writebacks + (if Soiled(h.rows[s], h.shape).Some? then 1 else 0),
                         below := after))
  {
    var row := h.rows[s];
    InsertDirty(row, h.shape.assoc, h.shape.lip, l);
    SumUpdate(h.rows, s, Insert(row, h.shape.assoc, h.shape.lip, l), DirtyIn);
    SumAt(h.rows, s, DirtyIn);
    if Victim(row, h.shape.assoc).Some? { SumAt(row, |row| - 1, DirtyCost); }
  }

  /** The account is kept by every access, for any levels at all. */
  lemma {:induction false} WritebacksAccounted(h: Hierarchy, write: bool, a: nat, w: Words)
    requires Accounted(h)
    ensures Accounted(Access(h, write, a, w).0)
    decreases Depth(h)
  {
    if h.Level? && h.rows != [] {
      var b := Shr(a, h.shape.bits);
      var s := b % |h.rows|;
      if LineOf(h.rows[s], b).Some? {
        HitAccounted(h, write, a, w);
      } else if !(write && h.shape.through) {
        var (fetched, d) := Access(h.below, false, Shl(b, h.shape.bits), map[]);
        WritebacksAccounted(h.below, false, Shl(b, h.shape.bits), map[]);
        var victim := Soiled(h.rows[s], h.shape);
        var after := fetched;
        if victim.Some? {
          WritebacksAccounted(fetched, true, Shl(victim.value.block, h.shape.bits), victim.value.data);
          after := Access(fetched, true, Shl(victim.value.block, h.shape.bits), victim.value.data).0;
        }
        MissAccounted(h, s, Filled(b, h.shape, d, write, w), after);
      }
    }
  }

  // ----- whole runs -----

  /** One word is read or written. */
  datatype Request = Request(write: bool, address: nat, value: int)

  function NoLines(sets: nat): (r: seq<Row>)
    ensures |r| == sets && forall s :: 0 <= s < sets ==> r[s] == []
  {
    seq(sets, _ => [])
  }

  /** Empty levels, the first shape on top. */
  function Build(shapes: seq<Shape>, data: Words): Hierarchy {
    if shapes == [] then Memory(data)
    else Level(shapes[0], NoLines(shapes[0].sets), 0, 0, Build(shapes[1..], data))
  }

  /** The words the requests find, and the stack after them. */
  function Serve(h: Hierarchy, reqs: seq<Request>): (Hierarchy, seq<int>)
    decreases |reqs|
  {
    if reqs == [] then (h, [])
    else
      var (next, d) := Access(h, reqs[0].write, reqs[0].address, map[reqs[0].address := reqs[0].value]);
      var (end, more) := Serve(next, reqs[1..]);
      (end, [Word(d, reqs[0].address)] + more)
  }

  /** A flat memory serving the same requests. */
  function ServeFlat(data: Words, reqs: seq<Request>): seq<int>
    decreases |reqs|
  {
    if reqs == [] then []
    else
      [Word(data, reqs[0].address)] +
      ServeFlat(if reqs[0].write then data[reqs[0].address := reqs[0].value] else data, reqs[1..])
  }

  lemma {:induction false} ServeAlike(h: Hierarchy, data: Words, reqs: seq<Request>)
    requires Good(h) && forall x: nat :: View(h, x) == Word(data, x)
    ensures Serve(h, reqs).1 == ServeFlat(data, reqs)
    decreases |reqs|
  {
    if reqs != [] {
      var r := reqs[0];
      var w := map[r.address := r.value];
      Transparent(h, r.write, r.address, w);
      var (next, d) := Access(h, r.write, r.address, w);
      var after := if r.write then data[r.address := r.value] else data;
      forall x: nat ensures View(next, x) == Word(after, x) { assert View(h, x) == Word(data, x); }
      assert Word(d, r.address) == View(h, r.address);
      ServeAlike(next, after, reqs[1..]);
    }
  }

  lemma {:induction false} ServeAccounted(h: Hierarchy, reqs: seq<Request>)
    requires Accounted(h)
    ensures Accounted(Serve(h, reqs).0)
    decreases |reqs|
  {
    if reqs != [] {
      var w := map[reqs[0].address := reqs[0].value];
      WritebacksAccounted(h, reqs[0].write, reqs[0].address, w);
      ServeAccounted(Access(h, reqs[0].write, reqs[0].address, w).0, reqs[1..]);
    }
  }

  lemma {:induction false} NoDirty(n: nat)
    ensures DirtyLines(NoLines(n)) == 0
  {
    if n > 0 {
      assert NoLines(n)[1..] == NoLines(n - 1);
      NoDirty(n - 1);
    }
  }

  lemma {:induction false} BuildAccounted(shapes: seq<Shape>, data: Words)
    ensures Accounted(Build(shapes, data))
  {
    if shapes != [] {
      BuildAccounted(shapes[1..], data);
      NoDirty(shapes[0].sets);
    }
  }

  /** Over any run of any stack: at every level the lines made dirty are those written back plus those dirty. */
  lemma RunAccounted(shapes: seq<Shape>, data: Words, reqs: seq<Request>)
    ensures Accounted(Serve(Build(shapes, data), reqs).0)
  {
    BuildAccounted(shapes, data);
    ServeAccounted(Build(shapes, data), reqs);
  }

  // ----- which stacks are transparent -----

  /** Every set can hold a line. */
  predicate Usable(shapes: seq<Shape>) { forall i :: 0 <= i < |shapes| ==> shapes[i].assoc >= 1 && shapes[i].sets >= 1 }

  predicate WritesBack(shapes: seq<Shape>) { forall i :: 0 <= i < |shapes| ==> !shapes[i].through }

  predicate NonShrinking(shapes: seq<Shape>) {
    forall i :: 0 <= i < |shapes| - 1 ==> shapes[i].bits <= shapes[i + 1].bits
  }

  lemma {:induction false} BuildGood(shapes: seq<Shape>, data: Words)
    requires Usable(shapes) && WritesBack(shapes) && NonShrinking(shapes)
    ensures var h := Build(shapes, data); Good(h) && forall x: nat :: View(h, x) == Word(data, x)
  {
    if shapes != [] {
      var rest := shapes[1..];
      forall i | 0 <= i < |rest| - 1 ensures rest[i].bits <= rest[i + 1].bits {
        assert shapes[i + 1].bits <= shapes[i + 1 + 1].bits;
      }
      BuildGood(rest, data);
      var h := Build(shapes, data);
      if rest != [] { assert shapes[0].bits <= shapes[0 + 1].bits; }
      forall x: nat ensures View(h, x) == Word(data, x) {
        assert h.rows[Shr(x, h.shape.bits) % |h.rows|] == [];
        assert View(h.below, x) == Word(data, x);
      }
    }
  }

  ghost predicate TransparentStack(shapes: seq<Shape>) {
    forall data: Words, reqs :: Serve(Build(shapes, data), reqs).1 == ServeFlat(data, reqs)
  }

  lemma GoodStacks(shapes: seq<Shape>)
    requires Usable(shapes) && WritesBack(shapes) && NonShrinking(shapes)
    ensures TransparentStack(shapes)
  {
    forall data: Words, reqs ensures Serve(Build(shapes, data), reqs).1 == ServeFlat(data, reqs) {
      BuildGood(shapes, data);
      ServeAlike(Build(shapes, data), data, reqs);
    }
  }

}
