/** The last-level shared cache: each set keeps its blocks in recency order. */
module LlsCache {
  import opened Options

  /** Most recently used first. */
  type Blocks = seq<nat>

  function Without(q: Blocks, b: nat): Blocks {
    if q == [] then [] else (if q[0] == b then [] else [q[0]]) + Without(q[1..], b)
  }

  /** The first n blocks, or all of them. */
  function Take(q: Blocks, n: nat): Blocks {
    if n == 0 || q == [] then [] else [q[0]] + Take(q[1..], n - 1)
  }

  datatype Lookup = Lookup(hit: bool, victim: Option<nat>)

  /** access on one set of the given associativity. */
  function Access(q: Blocks, assoc: nat, b: nat): (Blocks, Lookup) {
    if b in q then ([b] + Without(q, b), Lookup(true, None))
    else if |q| >= assoc && q != [] then ([b] + q[..|q| - 1], Lookup(false, Some(q[|q| - 1])))
    else ([b] + q, Lookup(false, None))
  }

  // ----- true LRU -----

  /** All distinct blocks of a history, the most recently used first. */
  function Recent(h: seq<nat>): Blocks {
    if h == [] then [] else [h[|h| - 1]] + Without(Recent(h[..|h| - 1]), h[|h| - 1])
  }

  /** The set after the accesses h, starting empty. */
  function Contents(h: seq<nat>, assoc: nat): Blocks {
    if h == [] then [] else Access(Contents(h[..|h| - 1], assoc), assoc, h[|h| - 1]).0
  }

  predicate Distinct(q: Blocks) { forall i, j :: 0 <= i < j < |q| ==> q[i] != q[j] }

  lemma {:induction false} WithoutMeans(q: Blocks, b: nat)
    ensures forall x :: x in Without(q, b) <==> x in q && x != b
    ensures Distinct(q) ==> Distinct(Without(q, b)) && |Without(q, b)| == |q| - (if b in q then 1 else 0)
    ensures b !in q ==> Without(q, b) == q
  {
    if q != [] {
      assert q == [q[0]] + q[1..];
      WithoutMeans(q[1..], b);
      assert Distinct(q) ==> q[0] !in q[1..];
    }
  }

  lemma {:induction false} TakeSubset(q: Blocks, n: nat)
    ensures |Take(q, n)| == (if |q| <= n then |q| else n) && forall x :: x in Take(q, n) ==> x in q
    ensures |q| <= n ==> Take(q, n) == q
  {
    if n > 0 && q != [] {
      assert q == [q[0]] + q[1..];
      TakeSubset(q[1..], n - 1);
    }
  }

  lemma {:induction false} TakeButLast(q: Blocks, n: nat)
    requires n >= 1 && |q| >= n
    ensures |Take(q, n)| == n && Take(q, n)[..n - 1] == Take(q, n - 1)
  {
    TakeSubset(q, n);
    if n > 1 {
      TakeButLast(q[1..], n - 1);
      assert Take(q, n)[..n - 1] == [q[0]] + Take(q[1..], n - 1)[..n - 2];
    }
  }

  lemma DistinctTail(q: Blocks)
    requires Distinct(q) && q != []
    ensures q[0] !in q[1..] && Distinct(q[1..])
  {
  }

  lemma WithoutFirst(b: nat, rest: Blocks)
    requires b !in rest
    ensures Without([b] + rest, b) == rest
  {
    WithoutMeans(rest, b);
    assert ([b] + rest)[1..] == rest;
  }

  lemma WithoutLater(x: nat, rest: Blocks, b: nat)
    requires x != b
    ensures Without([x] + rest, b) == [x] + Without(rest, b)
  {
    assert ([x] + rest)[1..] == rest;
  }

  lemma TakeCons(x: nat, rest: Blocks, n: nat)
    requires n >= 1
    ensures Take([x] + rest, n) == [x] + Take(rest, n - 1)
  {
    assert ([x] + rest)[1..] == rest;
  }

  /** Moving a block that is among the first n away leaves the others of these n. */
  lemma {:induction false} TakeHit(q: Blocks, b: nat, n: nat)
    requires Distinct(q) && b in Take(q, n)
    ensures n >= 1 && Take(Without(q, b), n - 1) == Without(Take(q, n), b)
  {
    var x, rest := q[0], q[1..];
    assert q == [x] + rest;
    DistinctTail(q);
    TakeCons(x, rest, n);
    if x == b {
      TakeSubset(rest, n - 1);
      WithoutFirst(b, rest);
      WithoutFirst(b, Take(rest, n - 1));
    } else {
      TakeHit(rest, b, n - 1);
      WithoutLater(x, rest, b);
      WithoutLater(x, Take(rest, n - 1), b);
      TakeCons(x, Without(rest, b), n - 1);
    }
  }

  /** Moving any other block away leaves the first n - 1 as they are. */
  lemma {:induction false} TakeMiss(q: Blocks, b: nat, n: nat)
    requires b !in Take(q, n) && n >= 1
    ensures Take(Without(q, b), n - 1) == Take(q, n - 1)
  {
    if n > 1 && q != [] {
      assert Take(q, n)[0] == q[0] && Take(q, n)[1..] == Take(q[1..], n - 1);
      TakeMiss(q[1..], b, n - 1);
      assert Without(q, b)[1..] == Without(q[1..], b);
    }
  }

  lemma {:induction false} RecentDistinct(h: seq<nat>)
    ensures Distinct(Recent(h)) && forall x :: x in Recent(h) <==> x in h
  {
    if h != [] {
      var last := |h| - 1;
      assert h == h[..last] + [h[last]];
      RecentDistinct(h[..last]);
      WithoutMeans(Recent(h[..last]), h[last]);
    }
  }

  /** One access keeps the most recent blocks. */
  lemma AccessRecent(r: Blocks, assoc: nat, b: nat)
    requires assoc >= 1 && Distinct(r)
    ensures Access(Take(r, assoc), assoc, b).0 == Take([b] + Without(r, b), assoc)
  {
    var q := Take(r, assoc);
    assert ([b] + Without(r, b))[1..] == Without(r, b);
    TakeSubset(r, assoc);
    if b in q {
      TakeHit(r, b, assoc);
    } else {
      TakeMiss(r, b, assoc);
      if |r| >= assoc { TakeButLast(r, assoc); } else { TakeSubset(r, assoc - 1); }
    }
  }

  /** True LRU: a set always holds the assoc most recently used distinct blocks, in recency order. */
  lemma {:induction false} HoldsMostRecent(h: seq<nat>, assoc: nat)
    requires assoc >= 1
    ensures Contents(h, assoc) == Take(Recent(h), assoc)
  {
    if h != [] {
      HoldsMostRecent(h[..|h| - 1], assoc);
      RecentDistinct(h[..|h| - 1]);
      AccessRecent(Recent(h[..|h| - 1]), assoc, h[|h| - 1]);
    }
  }

  // ----- when an access hits -----

  /** The position just after the last use of b; 0 when it was never used. */
  function AfterLast(h: seq<nat>, b: nat): (i: nat)
    ensures i <= |h| && (i > 0 ==> h[i - 1] == b) && forall j :: i <= j < |h| ==> h[j] != b
  {
    if h == [] then 0 else if h[|h| - 1] == b then |h| else AfterLast(h[..|h| - 1], b)
  }

  /** The distinct blocks used since then. */
  function Since(h: seq<nat>, b: nat): set<nat> { set j | AfterLast(h, b) <= j < |h| :: h[j] }

  /** The blocks in front of b. */
  function Ahead(q: Blocks, b: nat): set<nat> {
    if q == [] || q[0] == b then {} else {q[0]} + Ahead(q[1..], b)
  }

  lemma {:induction false} AheadWithout(q: Blocks, x: nat, b: nat)
    requires x != b
    ensures Ahead(Without(q, x), b) == Ahead(q, b) - {x}
  {
    if q != [] {
      AheadWithout(q[1..], x, b);
      if q[0] == x { assert Without(q, x) == Without(q[1..], x); }
      else { assert Without(q, x)[0] == q[0] && Without(q, x)[1..] == Without(q[1..], x); }
    }
  }

  lemma {:induction false} AheadSize(q: Blocks, b: nat, n: nat)
    requires Distinct(q) && b in q
    ensures b in Take(q, n) <==> |Ahead(q, b)| < n
    ensures forall x :: x in Ahead(q, b) ==> x in q
  {
    assert q == [q[0]] + q[1..];
    if q[0] != b {
      AheadSize(q[1..], b, if n > 0 then n - 1 else 0);
      assert q[0] !in q[1..];
    }
  }

  lemma {:induction false} SinceNext(h: seq<nat>, x: nat, b: nat)
    ensures Since(h + [x], b) == if x == b then {} else Since(h, b) + {x}
  {
    var g := h + [x];
    assert g[..|g| - 1] == h;
    if x != b {
      assert AfterLast(g, b) == AfterLast(h, b);
      forall y ensures y in Since(g, b) <==> y in Since(h, b) + {x} {
        if y in Since(h, b) {
          var j :| AfterLast(h, b) <= j < |h| && h[j] == y;
          assert g[j] == y;
        }
        if y == x { assert g[|h|] == y; }
      }
    }
  }

  /** The blocks more recent than b are those used since b was. */
  lemma {:induction false} AheadIsSince(h: seq<nat>, b: nat)
    requires b in h
    ensures Ahead(Recent(h), b) == Since(h, b)
  {
    var h', x := h[..|h| - 1], h[|h| - 1];
    assert h == h' + [x];
    SinceNext(h', x, b);
    if x != b {
      AheadIsSince(h', b);
      AheadWithout(Recent(h'), x, b);
      assert Recent(h)[1..] == Without(Recent(h'), x);
    }
  }

  /** An access hits exactly when the block was used before and fewer than assoc other blocks of the set
      have been used since. */
  lemma HitIff(h: seq<nat>, assoc: nat, b: nat)
    requires assoc >= 1
    ensures Access(Contents(h, assoc), assoc, b).1.hit <==> b in h && |Since(h, b)| < assoc
  {
    HoldsMostRecent(h, assoc);
    RecentDistinct(h);
    TakeSubset(Recent(h), assoc);
    if b in h {
      AheadIsSince(h, b);
      AheadSize(Recent(h), b, assoc);
    }
  }

  /** More ways never lose a hit. */
  lemma MoreWays(h: seq<nat>, assoc: nat, more: nat, b: nat)
    requires 1 <= assoc <= more && Access(Contents(h, assoc), assoc, b).1.hit
    ensures Access(Contents(h, more), more, b).1.hit
  {
    HitIff(h, assoc, b);
    HitIff(h, more, b);
  }

  // ----- the whole cache -----

  /** The accesses of h that fall into set s of n. */
  function InSet(h: seq<nat>, n: nat, s: nat): seq<nat>
    requires n > 0
  {
    if h == [] then [] else InSet(h[..|h| - 1], n, s) + (if h[|h| - 1] % n == s then [h[|h| - 1]] else [])
  }

  /** The next access extends the history of its own set only. */
  lemma InSetNext(h: seq<nat>, n: nat, s: nat, b: nat)
    requires n > 0
    ensures InSet(h + [b], n, s) == if b % n == s then InSet(h, n, s) + [b] else InSet(h, n, s)
  {
    assert (h + [b])[..|h|] == h;
  }

  lemma ContentsNext(h: seq<nat>, assoc: nat, b: nat)
    ensures Contents(h + [b], assoc) == Access(Contents(h, assoc), assoc, b).0
  {
    assert (h + [b])[..|h|] == h;
  }

  lemma {:induction false} WithoutAt(q: Blocks, b: nat, i: nat)
    requires Distinct(q) && i < |q| && q[i] == b
    ensures Without(q, b) == q[..i] + q[i + 1..]
  {
    assert q == [q[0]] + q[1..];
    if i == 0 {
      assert b !in q[1..];
      WithoutMeans(q[1..], b);
    } else {
      WithoutAt(q[1..], b, i - 1);
      assert q[..i] == [q[0]] + q[1..][..i - 1];
    }
  }

  lemma AccessDistinct(q: Blocks, assoc: nat, b: nat)
    requires Distinct(q)
    ensures Distinct(Access(q, assoc, b).0)
  {
    WithoutMeans(q, b);
  }

  /** Every set is what its share of the history made it. */
  predicate Accounts(sets: seq<Blocks>, assoc: nat, h: seq<nat>) {
    forall s :: 0 <= s < |sets| ==> sets[s] == Contents(InSet(h, |sets|, s), assoc)
  }

  lemma AccountsNext(sets: seq<Blocks>, assoc: nat, h: seq<nat>, b: nat)
    requires |sets| > 0 && Accounts(sets, assoc, h)
    ensures var s := b % |sets|; Accounts(sets[s := Access(sets[s], assoc, b).0], assoc, h + [b])
  {
    forall t | 0 <= t < |sets|
      ensures InSet(h + [b], |sets|, t) == if t == b % |sets| then InSet(h, |sets|, t) + [b] else InSet(h, |sets|, t)
    {
      InSetNext(h, |sets|, t, b);
    }
    ContentsNext(InSet(h, |sets|, b % |sets|), assoc, b);
  }

  class Lls {
    const sets: array<Blocks>
    const assoc: nat
    /** Everything accessed so far; an invalidation ends the account. */
    ghost var history: Option<seq<nat>>

    /** As long as nothing was invalidated, every set is what its accesses made it. */
    ghost predicate Valid()
      reads this, sets
    {
      && (forall s :: 0 <= s < sets.Length ==> Distinct(sets[s]))
      && (history.Some? ==> Accounts(sets[..], assoc, history.value))
    }

    constructor (count: nat, assoc: nat)
      ensures Valid() && fresh(sets) && sets.Length == count && this.assoc == assoc && history == Some([])
    {
      sets := new Blocks[count](_ => []);
      this.assoc := assoc;
      history := Some([]);
    }

    method IndexIn(s: nat, b: nat) returns (i: nat)
      requires s < sets.Length
      ensures i <= |sets[s]| && b !in sets[s][..i] && (i < |sets[s]| ==> sets[s][i] == b)
      ensures i == |sets[s]| ==> b !in sets[s]
    {
      var q := sets[s];
      i := 0;
      while i < |q| && q[i] != b
        invariant i <= |q| && b !in q[..i]
      {
        i := i + 1;
      }
      assert q[..|q|] == q;
    }

    method Contains(b: nat) returns (yes: bool)
      ensures yes == (sets.Length > 0 && b in sets[b % sets.Length])
    {
      if sets.Length == 0 { return false; }
      var i := IndexIn(b % sets.Length, b);
      yes := i < |sets[b % sets.Length]|;
    }

    /** access: splice a hit to the front, or evict the last block when the set is full. A cache without
        sets never hits and keeps nothing. */
    method Touch(b: nat) returns (r: Lookup)
      requires Valid()
      modifies this, sets
      ensures Valid() && history == if old(history).Some? then Some(old(history).value + [b]) else None
      ensures if sets.Length == 0 then r == Lookup(false, None)
              else (sets[b % sets.Length], r) == Access(old(sets[b % sets.Length]), assoc, b)
      ensures forall s :: 0 <= s < sets.Length && s != b % sets.Length ==> sets[s] == old(sets[s])
    {
      ghost var before := history;
      if before.Some? { history := Some(before.value + [b]); }
      if sets.Length == 0 { return Lookup(false, None); }
      var s := b % sets.Length;
      var q := sets[s];
      if before.Some? { AccountsNext(sets[..], assoc, before.value, b); }
      AccessDistinct(q, assoc, b);
      r := Place(s, b);
    }

    /** The list operations of an access. */
    method Place(s: nat, b: nat) returns (r: Lookup)
      requires s < sets.Length && Distinct(sets[s])
      modifies sets
      ensures r == Access(old(sets[s]), assoc, b).1
      ensures sets[..] == old(sets[..])[s := Access(old(sets[s]), assoc, b).0]
    {
      var q := sets[s];
      var i := IndexIn(s, b);
      if i < |q| {
        WithoutAt(q, b, i);
        sets[s] := [b] + (q[..i] + q[i + 1..]);
        return Lookup(true, None);
      }
      r := Lookup(false, None);
      if |q| >= assoc && q != [] {
        r := Lookup(false, Some(q[|q| - 1]));
        sets[s] := [b] + q[..|q| - 1];
      } else {
        sets[s] := [b] + q;
      }
    }

    method Invalidate(b: nat)
      requires Valid()
      modifies this, sets
      ensures Valid()
      ensures forall s :: 0 <= s < sets.Length ==>
                sets[s] == if s == b % sets.Length then Without(old(sets[s]), b) else old(sets[s])
    {
      history := None;
      if sets.Length == 0 { return; }
      var s := b % sets.Length;
      var q := sets[s];
      var i := IndexIn(s, b);
      WithoutMeans(q, b);
      if i < |q| {
        WithoutAt(q, b, i);
        sets[s] := q[..i] + q[i + 1..];
      }
    }
  }

  /** The constructor's checks: None when the size is no multiple of the associativity, and a size or an
      associativity of zero stands for a disabled cache. */
  method Configure(blocks: nat, assoc: nat) returns (c: Option<Lls>)
    ensures c.None? <==> blocks > 0 && assoc > 0 && blocks % assoc != 0
    ensures c.Some? ==> fresh(c.value) && c.value.Valid() && c.value.history == Some([])
    ensures c.Some? ==> c.value.sets.Length == if blocks == 0 || assoc == 0 then 0 else blocks / assoc
    ensures c.Some? && c.value.sets.Length > 0 ==> c.value.assoc == assoc
  {
    if blocks == 0 || assoc == 0 {
      var disabled := new Lls(0, 0);
      return Some(disabled);
    }
    if blocks % assoc != 0 { return None; }
    var cache := new Lls(blocks / assoc, assoc);
    return Some(cache);
  }

  /** In a cache driven by accesses alone every set is true LRU. */
  lemma CacheIsLru(c: Lls, s: nat)
    requires c.Valid() && c.history.Some? && c.assoc >= 1 && s < c.sets.Length
    ensures c.sets[s] == Take(Recent(InSet(c.history.value, c.sets.Length, s)), c.assoc)
  {
    HoldsMostRecent(InSet(c.history.value, c.sets.Length, s), c.assoc);
  }
}
