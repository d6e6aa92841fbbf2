/** The miss status holding registers of a cache: which request ids are outstanding and when
    their data is due. */
module Mshr {
  import opened Options

  /** One slot: the primary request and the ids merged onto it. */
  datatype Slot = Free | Miss(id: nat, merged: seq<nat>, block: nat, due: nat, ready: bool)

  type Table = seq<Slot>

  predicate Holds(s: Slot, id: nat) { s.Miss? && (s.id == id || id in s.merged) }

  predicate On(s: Slot, block: nat) { s.Miss? && s.block == block }

  function SlotOf(t: Table, id: nat): (i: nat)
    ensures i <= |t|
    ensures i < |t| ==> Holds(t[i], id)
    ensures i == |t| ==> forall j :: 0 <= j < |t| ==> !Holds(t[j], id)
  {
    Find(t, s => Holds(s, id), 0)
  }

  function SlotOn(t: Table, block: nat): (i: nat) 
    ensures i <= |t|
    ensures i < |t| ==> On(t[i], block)
    ensures forall j :: 0 <= j < i ==> !On(t[j], block)
  {
    Find(t, s => On(s, block), 0)
  }

  function FreeSlot(t: Table): (i: nat)
    ensures i <= |t|
    ensures i < |t| ==> t[i].Free?
    ensures forall j :: 0 <= j < i ==> t[j].Miss?
  {
    Find(t, (s: Slot) => s.Free?, 0)
  }

  predicate Full(t: Table) { FreeSlot(t) == |t| }

  // ----- operations on values -----

  /** A request for a block that is already outstanding joins its slot and inherits its due time. */
  function Allocate(t: Table, id: nat, block: nat, due: nat): Option<Table> {
    var i, j := SlotOn(t, block), FreeSlot(t);
    if i < |t| then Some(t[i := t[i].(merged := t[i].merged + [id])])
    else if j < |t| then Some(t[j := Miss(id, [], block, due, false)])
    else None
  }

  function Ripen(s: Slot, now: nat): Slot {
    if s.Miss? && !s.ready && now >= s.due then s.(ready := true) else s
  }

  function Tick(t: Table, now: nat): Table { seq(|t|, i requires 0 <= i < |t| => Ripen(t[i], now)) }

  function Without(q: seq<nat>, id: nat): seq<nat> {
    if q == [] then [] else if q[0] == id then q[1..] else [q[0]] + Without(q[1..], id)
  }

  /** Releasing a primary promotes the oldest merged id, so that the others stay findable. */
  function Drop(s: Slot, id: nat): Slot
    requires Holds(s, id)
  {
    if s.id != id then s.(merged := Without(s.merged, id))
    else if s.merged == [] then Free
    else s.(id := s.merged[0], merged := s.merged[1..])
  }

  function Release(t: Table, id: nat): Table {
    var i := SlotOf(t, id);
    if i < |t| then t[i := Drop(t[i], id)] else t
  }

  // ----- what they mean: a map from outstanding ids to due times -----

  datatype Ticket = Ticket(block: nat, due: nat, ready: bool)

  function Peek(t: Table, id: nat): Option<Ticket> {
    var i := SlotOf(t, id);
    if i < |t| then Some(Ticket(t[i].block, t[i].due, t[i].ready)) else None
  }

  predicate Once(s: Slot) {
    s.Miss? ==> s.id !in s.merged && forall i, j :: 0 <= i < j < |s.merged| ==> s.merged[i] != s.merged[j]
  }

  /** No id is held twice, and no block has two slots. */
  ghost predicate WellFormed(t: Table) {
    && (forall i :: 0 <= i < |t| ==> Once(t[i]))
    && (forall i, j, id :: 0 <= i < j < |t| && Holds(t[i], id) ==> !Holds(t[j], id))
    && (forall i, j :: 0 <= i < j < |t| && t[i].Miss? && t[j].Miss? ==> t[i].block != t[j].block)
  }

  lemma SlotUnique(t: Table, id: nat, i: nat)
    requires WellFormed(t) && i < |t| && Holds(t[i], id)
    ensures SlotOf(t, id) == i
  {
  }

  lemma {:induction false} WithoutMeans(q: seq<nat>, id: nat)
    requires forall i, j :: 0 <= i < j < |q| ==> q[i] != q[j]
    ensures id !in Without(q, id)
    ensures forall x :: x in Without(q, id) <==> x in q && x != id
    ensures forall i, j :: 0 <= i < j < |Without(q, id)| ==> Without(q, id)[i] != Without(q, id)[j]
  {
    if q != [] {
      assert q == [q[0]] + q[1..];
      assert q[0] !in q[1..];
      WithoutMeans(q[1..], id);
    }
  }

  lemma DropMeans(s: Slot, id: nat)
    requires Holds(s, id) && Once(s)
    ensures Once(Drop(s, id))
    ensures forall x :: Holds(Drop(s, id), x) <==> Holds(s, x) && x != id
    ensures Drop(s, id).Miss? ==> Drop(s, id) == s.(id := Drop(s, id).id, merged := Drop(s, id).merged)
    ensures Drop(s, id).Free? ==> forall x :: Holds(s, x) ==> x == id
  {
    WithoutMeans(s.merged, id);
    if s.id == id && s.merged != [] { assert s.merged == [s.merged[0]] + s.merged[1..]; }
  }

  /** Releasing an id removes exactly that id; every other id keeps its slot, due time and readiness. */
  lemma ReleaseMeans(t: Table, id: nat)
    requires WellFormed(t)
    ensures WellFormed(Release(t, id)) && |Release(t, id)| == |t|
    ensures forall x :: Peek(Release(t, id), x) == if x == id then None else Peek(t, x)
  {
    var i, t' := SlotOf(t, id), Release(t, id);
    if i < |t| {
      DropMeans(t[i], id);
      forall x ensures Peek(t', x) == if x == id then None else Peek(t, x) {
        var j := SlotOf(t, x);
        if j < |t| && x != id { SlotUnique(t', x, j); }
      }
    }
  }

  /** The slot that Allocate changes; id is new to it, and it holds everything it held. */
  lemma Joined(t: Table, id: nat, block: nat, due: nat) returns (i: nat)
    requires Allocate(t, id, block, due).Some? && Peek(t, id).None?
    requires forall j :: 0 <= j < |t| ==> Once(t[j])
    ensures var t' := Allocate(t, id, block, due).value;
      && |t'| == |t| && i < |t| && t' == t[i := t'[i]] && t'[i].Miss? && t'[i].block == block && Once(t'[i])
      && (if t[i].Miss? then t[i].block == block && t'[i].due == t[i].due && t'[i].ready == t[i].ready
          else t'[i].due == due && !t'[i].ready)
      && Holds(t'[i], id) && (forall x :: x != id ==> (Holds(t'[i], x) <==> Holds(t[i], x)))
      && (t[i].Free? ==> forall j :: 0 <= j < |t| ==> !On(t[j], block))
  {
    i := if SlotOn(t, block) < |t| then SlotOn(t, block) else FreeSlot(t);
  }

  /** Allocation fails exactly when the table is full and the block is not outstanding; otherwise the
      fresh id joins with the due time of its block, and nobody else notices. */
  lemma AllocateMeans(t: Table, id: nat, block: nat, due: nat)
    requires WellFormed(t) && Peek(t, id).None?
    ensures Allocate(t, id, block, due).None? <==> Full(t) && SlotOn(t, block) == |t|
    ensures Allocate(t, id, block, due).Some? ==>
      var t' := Allocate(t, id, block, due).value;
      && WellFormed(t') && |t'| == |t|
      && (forall x :: x != id ==> Peek(t', x) == Peek(t, x))
      && Peek(t', id) == Some(if SlotOn(t, block) < |t|
        then Ticket(block, t[SlotOn(t, block)].due, t[SlotOn(t, block)].ready)
                              else Ticket(block, due, false))
  {
    if Allocate(t, id, block, due).Some? {
      var t' := Allocate(t, id, block, due).value;
      var i := Joined(t, id, block, due);
      forall x | x != id ensures Peek(t', x) == Peek(t, x) {
        var j := SlotOf(t, x);
        if j < |t| { SlotUnique(t', x, j); }
      }
      SlotUnique(t', id, i);
    }
  }

  /** A tick makes ready exactly what is due. */
  lemma TickMeans(t: Table, now: nat)
    requires WellFormed(t)
    ensures WellFormed(Tick(t, now)) && |Tick(t, now)| == |t|
    ensures forall x :: Peek(Tick(t, now), x) ==
                        if Peek(t, x).Some? && now >= Peek(t, x).value.due then Some(Peek(t, x).value.(ready := true))
                        else Peek(t, x)
  {
    var t' := Tick(t, now);
    assert forall j, x :: 0 <= j < |t| ==> (Holds(t'[j], x) <==> Holds(t[j], x));
    forall x ensures Peek(t', x) == if Peek(t, x).Some? && now >= Peek(t, x).value.due
      then Some(Peek(t, x).value.(ready := true))
                                    else Peek(t, x)
    {
      var j := SlotOf(t, x);
      if j < |t| { SlotUnique(t', x, j); }
    }
  }

  // ----- waiting -----

  function Delay(s: Slot, now: nat): nat {
    if s.Free? || s.ready then 0 else if s.due > now then s.due - now + 1 else 1
  }

  /** Ticks still needed by everything outstanding. */
  function Wait(t: Table, now: nat): nat {
    if t == [] then 0 else Delay(t[0], now) + Wait(t[1..], now)
  }

  /** Each tick brings every outstanding request closer to its data. */
  lemma {:induction false} TickLowersWait(t: Table, now: nat)
    ensures Wait(Tick(t, now + 1), now + 1) <= Wait(t, now)
    ensures (exists s :: s in t && s.Miss? && !s.ready) ==> Wait(Tick(t, now + 1), now + 1) < Wait(t, now)
  {
    if t != [] {
      assert t == [t[0]] + t[1..];
      assert Tick(t, now + 1)[1..] == Tick(t[1..], now + 1);
      TickLowersWait(t[1..], now);
    }
  }

  // ----- the asynchronous side of the cache -----

  /** now and nextId are the cache's clock and its id counter. */
  datatype Cache = Cache(table: Table, now: nat, nextId: nat)
  {
    ghost predicate Valid() {
      && WellFormed(table)
      && nextId >= 1
      && forall i, id: nat :: 0 <= i < |table| && Holds(table[i], id) ==> id < nextId
    }
  }

  /** A load joins an outstanding miss of its block; anything else needs a free slot, even a store
      that Allocate then merges. latency is what the access itself takes. */
  function Issue(c: Cache, load: bool, block: nat, latency: nat): (Cache, Option<nat>) {
    if (!load || SlotOn(c.table, block) == |c.table|) && Full(c.table) then (c, None)
    else match Allocate(c.table, c.nextId, block, c.now + latency)
      case Some(t) => (c.(table := t, nextId := c.nextId + 1), Some(c.nextId))
      case None => (c, None)
  }

  lemma UnusedId(c: Cache)
    requires c.Valid()
    ensures Peek(c.table, c.nextId).None?
  {
  }

  /** What a request for the block gets: the due time of the miss that is outstanding for it, or its own. */
  function Promised(c: Cache, block: nat, latency: nat): Ticket {
    var i := SlotOn(c.table, block);
    if i < |c.table| then Ticket(block, c.table[i].due, c.table[i].ready) else Ticket(block, c.now + latency, false)
  }

  /** An accepted request gets a fresh id that no one else holds and that can be found at once, due when the miss it
      has joined is, or latency cycles from now; a request is refused only when every slot is taken. */
  lemma IssueMeans(c: Cache, load: bool, block: nat, latency: nat)
    requires c.Valid()
    ensures var (c', id) := Issue(c, load, block, latency);
      && c'.Valid() && |c'.table| == |c.table| && c'.now == c.now
      && (id.None? ==> c' == c && Full(c.table))
      && (id.None? <==> Full(c.table) && (!load || SlotOn(c.table, block) == |c.table|))
      && (id.Some? ==> id.value == c.nextId && Peek(c.table, id.value).None?)
      && (id.Some? ==> Peek(c'.table, id.value) == Some(Promised(c, block, latency)))
      && (forall x: nat :: Some(x) != id ==> Peek(c'.table, x) == Peek(c.table, x))
  {
    UnusedId(c);
    AllocateMeans(c.table, c.nextId, block, c.now + latency);
    if Issue(c, load, block, latency).1.Some? { IdsBelow(c, Issue(c, load, block, latency).0); }
  }

  lemma IdsBelow(c: Cache, c': Cache)
    requires c.Valid() && c'.nextId == c.nextId + 1 && WellFormed(c'.table)
    requires forall x :: x != c.nextId ==> Peek(c'.table, x) == Peek(c.table, x)
    ensures c'.Valid()
  {
    forall i, id: nat | 0 <= i < |c'.table| && Holds(c'.table[i], id) ensures id < c'.nextId {
      SlotUnique(c'.table, id, i);
      if id != c.nextId { assert Peek(c'.table, id).Some?; }
    }
  }

  /** The cache n cycles later, if nothing is asked of it meanwhile. */
  function Later(c: Cache, n: nat): (d: Cache)
    ensures d.now == c.now + n
  {
    if n == 0 then c
    else
      var d := Later(c, n - 1);
      Cache(Tick(d.table, d.now + 1), d.now + 1, d.nextId)
  }

  /** A request that is not ready yet becomes so with the cycle in which it is due, and not before. */
  lemma {:induction false} RipensWhenDue(c: Cache, id: nat, n: nat)
    requires WellFormed(c.table) && Peek(c.table, id).Some? && !Peek(c.table, id).value.ready
    ensures WellFormed(Later(c, n).table)
    ensures var t := Peek(c.table, id).value;
      Peek(Later(c, n).table, id) == Some(t.(ready := n >= 1 && c.now + n >= t.due))
  {
    if n > 0 {
      RipensWhenDue(c, id, n - 1);
      TicketLater(c, id, n, Peek(Later(c, n - 1).table, id).value);
    }
  }

  lemma TicketLater(c: Cache, id: nat, n: nat, k: Ticket)
    requires n > 0 && WellFormed(Later(c, n - 1).table) && Peek(Later(c, n - 1).table, id) == Some(k)
    ensures WellFormed(Later(c, n).table)
    ensures Peek(Later(c, n).table, id) == Some(if c.now + n >= k.due then k.(ready := true) else k)
  {
    TicketTicks(Later(c, n - 1).table, c.now + n, id, k);
  }

  lemma TicketTicks(t: Table, now: nat, id: nat, k: Ticket)
    requires WellFormed(t) && Peek(t, id) == Some(k)
    ensures WellFormed(Tick(t, now)) && Peek(Tick(t, now), id) == Some(if now >= k.due then k.(ready := true) else k)
  {
    TickMeans(t, now);
  }

  /** A miss that joins no other takes exactly its latency, and one cycle at least. */
  lemma MissTakesLatency(c: Cache, load: bool, block: nat, latency: nat, n: nat)
    requires c.Valid() && Issue(c, load, block, latency).1.Some?
    requires forall i :: 0 <= i < |c.table| && c.table[i].Miss? ==> c.table[i].block != block
    ensures var (d, id) := Issue(c, load, block, latency);
      var t := Peek(Later(d, n).table, id.value);
      t.Some? && t.value.block == block && (t.value.ready <==> n >= 1 && n >= latency)
  {
    IssueMeans(c, load, block, latency);
    RipensWhenDue(Issue(c, load, block, latency).0, c.nextId, n);
  }

  // ----- the table in place -----

  class MshrFile {
    const table: array<Slot>

    constructor (n: nat)
      ensures fresh(table) && table.Length == n
      ensures forall i :: 0 <= i < n ==> table[i] == Free
    {
      table := new Slot[n](_ => Free);
    }

    method Locate(id: nat) returns (i: nat)
      ensures i == SlotOf(table[..], id)
    {
      i := 0;
      while i < table.Length && !Holds(table[i], id)
        invariant i <= table.Length
        invariant forall j :: 0 <= j < i ==> !Holds(table[j], id)
      {
        i := i + 1;
      }
    }

    method IsFull() returns (full: bool)
      ensures full == Full(table[..])
    {
      for i := 0 to table.Length
        invariant forall j :: 0 <= j < i ==> table[j].Miss?
      {
        if table[i].Free? {
          assert table[..][i].Free?;
          return false;
        }
      }
      return true;
    }

    method Take(id: nat, block: nat, due: nat) returns (ok: bool)
      modifies table
      ensures Allocate(old(table[..]), id, block, due) == if ok then Some(table[..]) else None
      ensures !ok ==> table[..] == old(table[..])
    {
      ghost var t := table[..];
      for i := 0 to table.Length
        invariant table[..] == t
        invariant forall j :: 0 <= j < i ==> !On(t[j], block)
      {
        if On(table[i], block) {
          assert i == SlotOn(t, block);
          table[i] := table[i].(merged := table[i].merged + [id]);
          return true;
        }
      }
      for i := 0 to table.Length
        invariant table[..] == t
        invariant forall j :: 0 <= j < i ==> t[j].Miss?
      {
        if table[i].Free? {
          assert i == FreeSlot(t);
          table[i] := Miss(id, [], block, due, false);
          return true;
        }
      }
      return false;
    }

    method Age(now: nat)
      modifies table
      ensures table[..] == Tick(old(table[..]), now)
    {
      for i := 0 to table.Length
        invariant forall j :: 0 <= j < i ==> table[j] == Ripen(old(table[j]), now)
        invariant forall j :: i <= j < table.Length ==> table[j] == old(table[j])
      {
        table[i] := Ripen(table[i], now);
      }
    }

    method Discharge(id: nat)
      modifies table
      ensures table[..] == Release(old(table[..]), id)
    {
      var i := Locate(id);
      if i < table.Length { table[i] := Drop(table[i], id); }
    }
  }

  /** The part of Cache that the core's load/store units talk to. The access itself is a parameter:
      latency is what it would take. */
  class AsyncCache {
    const file: MshrFile
    var now: nat
    var nextId: nat

    function View(): Cache
      reads this, file.table
    {
      Cache(file.table[..], now, nextId)
    }

    constructor (slots: nat)
      ensures fresh(file) && fresh(file.table) && View() == Cache(seq(slots, _ => Free), 0, 1)
    {
      file := new MshrFile(slots);
      now, nextId := 0, 1;
      new;
      assert file.table[..] == seq(slots, _ => Free);
    }

    method Merges(block: nat) returns (yes: bool)
      ensures yes == (SlotOn(file.table[..], block) < file.table.Length)
    {
      for i := 0 to file.table.Length
        invariant forall j :: 0 <= j < i ==> !On(file.table[j], block)
      {
        if On(file.table[i], block) {
          assert On(file.table[..][i], block);
          return true;
        }
      }
      return false;
    }

    method IssueRequest(load: bool, block: nat, latency: nat) returns (id: Option<nat>)
      modifies this, file.table
      ensures (View(), id) == Issue(old(View()), load, block, latency)
    {
      var merges := Merges(block);
      if !load || !merges {
        var full := file.IsFull();
        if full { return None; }
      }
      var taken := file.Take(nextId, block, now + latency);
      if !taken { return None; }
      id := Some(nextId);
      nextId := nextId + 1;
    }

    method PeekAt(id: nat) returns (t: Option<Ticket>)
      ensures t == Peek(file.table[..], id)
    {
      var i := file.Locate(id);
      if i < file.table.Length { t := Some(Ticket(file.table[i].block, file.table[i].due, file.table[i].ready)); }
      else { t := None; }
    }

    method Complete(id: nat)
      modifies file.table
      ensures View() == old(View()).(table := Release(old(file.table[..]), id))
    {
      file.Discharge(id);
    }

    method TickOnce()
      modifies this, file.table
      ensures View() == Cache(Tick(old(file.table[..]), old(now) + 1), old(now) + 1, old(nextId))
    {
      now := now + 1;
      file.Age(now);
    }
  }
}
