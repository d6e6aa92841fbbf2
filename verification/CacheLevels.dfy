/** Two cache levels over main memory, in place. */
module CacheLevels {
  import opened Options
  import opened WriteBack

  class CacheLevel {
    const shape: Shape
    const rows: array<Row>
    var dirtied: nat
    var writebacks: nat

    /** This level on top of another. */
    function On(below: Hierarchy): Hierarchy
      reads this, rows
    {
      Level(shape, rows[..], dirtied, writebacks, below)
    }

    constructor (shape: Shape)
      ensures fresh(rows) && rows.Length == shape.sets && this.shape == shape
      ensures forall below: Hierarchy :: On(below) == Level(shape, NoLines(shape.sets), 0, 0, below)
    {
      this.shape := shape;
      rows := new Row[shape.sets](_ => []);
      dirtied, writebacks := 0, 0;
      new;
      assert rows[..] == NoLines(shape.sets);
    }

    method Locate(s: nat, b: nat) returns (i: nat)
      requires s < rows.Length
      ensures i == IndexOf(rows[s], b)
    {
      i := 0;
      while i < |rows[s]| && rows[s][i].block != b
        invariant i <= |rows[s]| && forall j :: 0 <= j < i ==> rows[s][j].block != b
      {
        i := i + 1;
      }
    }

    /** The search loop of access: a hit marks the line and splices it to the front. */
    method Probe(write: bool, a: nat, w: Words) returns (found: Option<Words>)
      requires rows.Length > 0
      modifies this, rows
      ensures var b := Shr(a, shape.bits);
        found == match LineOf(old(rows[b % rows.Length]), b) case Some(l) => Some(l.data) case None => None
      ensures found.Some? ==> forall below: Hierarchy :: On(below) == Access(old(On(below)), write, a, w).0
      ensures found.None? ==> rows[..] == old(rows[..]) && forall below: Hierarchy :: On(below) == old(On(below))
    {
      var b := Shr(a, shape.bits);
      var s := b % rows.Length;
      var i := Locate(s, b);
      if i == |rows[s]| { return None; }
      var l := rows[s][i];
      if write {
        if !shape.through {
          if !l.dirty { dirtied := dirtied + 1; }
          l := l.(dirty := true);
        } else {
          l := l.(dirty := false);
        }
        l := l.(data := l.data + Part(w, shape.bits, b));
      }
      found := Some(rows[s][i].data);
      rows[s] := [l] + rows[s][..i] + rows[s][i + 1..];
    }

    /** insert_new_block, except that a victim to be written down is handed to the caller. */
    method Place(l: Line) returns (victim: Option<Line>)
      requires rows.Length > 0
      modifies this, rows
      ensures var s := l.block % rows.Length;
        && victim == Soiled(old(rows[s]), shape)
        && rows[..] == old(rows[..])[s := Insert(old(rows[s]), shape.assoc, shape.lip, l)]
      ensures dirtied == old(dirtied) + (if l.dirty then 1 else 0)
      ensures writebacks == old(writebacks) + (if victim.Some? then 1 else 0)
    {
      var s := l.block % rows.Length;
      victim := None;
      if |rows[s]| >= shape.assoc && rows[s] != [] {
        var last := rows[s][|rows[s]| - 1];
        if !shape.through && last.dirty {
          victim := Some(last);
          writebacks := writebacks + 1;
        }
        rows[s] := rows[s][..|rows[s]| - 1];
      }
      if l.dirty { dirtied := dirtied + 1; }
      if shape.lip { rows[s] := rows[s] + [l]; } else { rows[s] := [l] + rows[s]; }
    }
  }

  /** A miss, step by step: the level below was read, then a victim was written down to it. */
  ghost predicate Missed(h: Hierarchy, write: bool, a: nat, w: Words, fetched: Hierarchy, d: Words, after: Hierarchy,
                         h': Hierarchy) {
    && h.Level? && h.rows != [] && !(write && h.shape.through)
    && var b, bits := Shr(a, h.shape.bits), h.shape.bits;
       var row := h.rows[b % |h.rows|];
       var victim := Soiled(row, h.shape);
       && LineOf(row, b).None?
       && (fetched, d) == Access(h.below, false, Shl(b, bits), map[])
       && after == (if victim.None? then fetched
                    else Access(fetched, true, Shl(victim.value.block, bits), victim.value.data).0)
       && var l := Filled(b, h.shape, d, write, w);
       && h' == Level(h.shape, h.rows[b % |h.rows| := Insert(row, h.shape.assoc, h.shape.lip, l)],
                      h.dirtied + (if write then 1 else 0), h.writebacks + (if victim.Some? then 1 else 0), after)
  }

  lemma MissedAccess(h: Hierarchy, write: bool, a: nat, w: Words, fetched: Hierarchy, d: Words, after: Hierarchy,
                     h': Hierarchy)
    requires Missed(h, write, a, w, fetched, d, after, h')
    ensures Access(h, write, a, w) == (h', Part(d, h.shape.bits, Shr(a, h.shape.bits)))
  {
  }

  class TwoLevels {
    const l1: CacheLevel
    const l2: CacheLevel
    var memory: Words

    ghost predicate Valid() { l1 != l2 && l1.rows != l2.rows && l1.rows.Length > 0 && l2.rows.Length > 0 }

    function Lower(): Hierarchy
      reads this, l2, l2.rows
    {
      l2.On(Memory(memory))
    }

    function View(): Hierarchy
      reads this, l1, l1.rows, l2, l2.rows
    {
      l1.On(Lower())
    }

    constructor (upper: Shape, lower: Shape, data: Words)
      requires upper.sets > 0 && lower.sets > 0
      ensures Valid() && fresh(l1) && fresh(l2) && fresh(l1.rows) && fresh(l2.rows)
      ensures View() == Build([upper, lower], data)
    {
      l1 := new CacheLevel(upper);
      l2 := new CacheLevel(lower);
      memory := data;
      new;
      BuildTwo(upper, lower, data);
    }

    method AccessMemory(write: bool, a: nat, w: Words) returns (d: Words)
      modifies this
      ensures (Memory(memory), d) == Access(old(Memory(memory)), write, a, w)
    {
      d := memory;
      if write { memory := memory + w; }
    }

    /** A miss in l2 that allocates: fetch, insert, write the victim down. */
    method MissL2(write: bool, a: nat, w: Words) returns (d: Words)
      requires Valid() && !(write && l2.shape.through)
      requires var b := Shr(a, l2.shape.bits); LineOf(l2.rows[b % l2.rows.Length], b).None?
      modifies this, l2, l2.rows
      ensures (Lower(), d) == Access(old(Lower()), write, a, w)
    {
      var bits := l2.shape.bits;
      var b := Shr(a, bits);
      d := AccessMemory(false, Shl(b, bits), map[]);
      ghost var fetched := Memory(memory);
      var victim := l2.Place(Filled(b, l2.shape, d, write, w));
      if victim.Some? {
        var was := AccessMemory(true, Shl(victim.value.block, bits), victim.value.data);
      }
      MissedAccess(old(Lower()), write, a, w, fetched, d, Memory(memory), Lower());
      d := Part(d, bits, b);
    }

    method AccessL2(write: bool, a: nat, w: Words) returns (d: Words)
      requires Valid()
      modifies this, l2, l2.rows
      ensures (Lower(), d) == Access(old(Lower()), write, a, w)
    {
      var found := l2.Probe(write, a, w);
      if found.Some? { return found.value; }
      if write && l2.shape.through { return map[]; }
      d := MissL2(write, a, w);
    }

    /** A miss in l1 that allocates: fetch, insert, write the victim down. */
    method MissL1(write: bool, a: nat, w: Words) returns (d: Words)
      requires Valid() && !(write && l1.shape.through)
      requires var b := Shr(a, l1.shape.bits); LineOf(l1.rows[b % l1.rows.Length], b).None?
      modifies this, l1, l1.rows, l2, l2.rows
      ensures (View(), d) == Access(old(View()), write, a, w)
    {
      var bits := l1.shape.bits;
      var b := Shr(a, bits);
      d := AccessL2(false, Shl(b, bits), map[]);
      ghost var fetched := Lower();
      var victim := l1.Place(Filled(b, l1.shape, d, write, w));
      if victim.Some? {
        var was := AccessL2(true, Shl(victim.value.block, bits), victim.value.data);
      }
      MissedAccess(old(View()), write, a, w, fetched, d, Lower(), View());
      d := Part(d, bits, b);
    }

    /** access on the level the core sees. */
    method AccessL1(write: bool, a: nat, w: Words) returns (d: Words)
      requires Valid()
      modifies this, l1, l1.rows, l2, l2.rows
      ensures (View(), d) == Access(old(View()), write, a, w)
    {
      var found := l1.Probe(write, a, w);
      if found.Some? { return found.value; }
      if write && l1.shape.through { return map[]; }
      assert l1.rows[Shr(a, l1.shape.bits) % l1.rows.Length] == l1.rows[..][Shr(a, l1.shape.bits) % l1.rows.Length];
      d := MissL1(write, a, w);
    }
  }

  lemma BuildTwo(a: Shape, b: Shape, data: Words)
    ensures Build([a, b], data) == Level(a, NoLines(a.sets), 0, 0, Level(b, NoLines(b.sets), 0, 0, Memory(data)))
  {
    assert [a, b][1..] == [b] && [b][1..] == [];
    assert Build([b], data) == Level(b, NoLines(b.sets), 0, 0, Memory(data));
  }
}
