/** The coordinator in place: its tables, its gate and its signals. */
module SyncCoordinator {
  import opened Options
  import opened SyncReplay

  /** Same answers to every question: looking something up in the program's tables may insert a default. */
  ghost predicate Alike(s: Coordinator, s': Coordinator) {
    && (forall obj :: Last(s', obj) == Last(s, obj))
    && (forall b, i: nat :: Phase(s', b, i) == Phase(s, b, i))
  }

  lemma AlikePasses(s: Coordinator, s': Coordinator, r: Rec)
    requires Alike(s, s')
    ensures Passes(s', r) == Passes(s, r) && Alike(Notify(s, r), Notify(s', r))
  {
    forall obj ensures Last(Notify(s', r), obj) == Last(Notify(s, r), obj) {
      NotifyLast(s, r, obj);
      NotifyLast(s', r, obj);
    }
    forall b, i: nat ensures Phase(Notify(s', r), b, i) == Phase(Notify(s, r), b, i) {
      NotifyPhase(s, r, b, i);
      NotifyPhase(s', r, b, i);
    }
  }

  lemma NotifyLast(s: Coordinator, r: Rec, obj: Object)
    ensures Last(Notify(s, r), obj) ==
            if r.Gives().Some? && r.Gives().value.obj == obj && r.Gives().value.n > Last(s, obj) then r.Gives().value.n
            else Last(s, obj)
  {
  }

  class Coordinators {
    const blocked: array<bool>
    var locks: map<nat, int>
    var atomics: map<nat, int>
    var barriers: map<(nat, nat), Iter>

    /** The coordinator of SyncReplay that this one is. */
    ghost var spec: Coordinator

    function View(): Coordinator
      reads this
    {
      Coordinator(locks, atomics, barriers)
    }

    ghost predicate Valid()
      reads this
    {
      Alike(spec, View())
    }

    constructor (threads: nat)
      ensures Valid() && fresh(blocked) && blocked.Length == threads && spec == Coordinator(map[], map[], map[])
      ensures forall t :: 0 <= t < threads ==> !blocked[t]
    {
      blocked := new bool[threads](_ => false);
      locks, atomics, barriers := map[], map[], map[];
      spec := Coordinator(map[], map[], map[]);
    }

    /** try_consume_sync: None stands for the exception on a thread that does not exist. The poll changes
        nothing but the thread's blocked flag. */
    method TryConsume(tid: nat, r: Rec) returns (passed: Option<bool>)
      requires Valid()
      modifies this, blocked
      ensures Valid() && spec == old(spec)
      ensures passed.None? <==> tid >= blocked.Length
      ensures passed.Some? ==> passed.value == Passes(spec, r) && blocked[tid] == !passed.value
      ensures forall t :: 0 <= t < blocked.Length && t != tid ==> blocked[t] == old(blocked[t])
    {
      if tid >= blocked.Length { return None; }
      AlikePasses(spec, View(), r);
      var pass := true;
      match r {
        case Acquire(addr, n) =>
          if addr !in locks { locks := locks[addr := -1]; }
          pass := !(locks[addr] + 1 < n);
        case Atomic(addr, n) =>
          if addr !in atomics { atomics := atomics[addr := -1]; }
          pass := !(atomics[addr] + 1 < n);
        case Leave(b, i) =>
          if (b, i) !in barriers {
            pass := false;
          } else {
            var phase := barriers[(b, i)];
            pass := !(phase.expected == 0 || phase.arrived < phase.expected);
          }
        case _ =>
      }
      blocked[tid] := !pass;
      return Some(pass);
    }

    /** notify_retire; false stands for the exception. */
    method NotifyRetire(tid: nat, r: Rec) returns (ok: bool)
      requires Valid()
      modifies this
      ensures Valid() && ok == (tid < blocked.Length)
      ensures spec == if ok then Notify(old(spec), r) else old(spec)
    {
      if tid >= blocked.Length { return false; }
      AlikePasses(spec, View(), r);
      ghost var target := Notify(View(), r);
      spec := Notify(spec, r);
      Record(r, target);
      return true;
    }

    /** The signal in the tables. */
    method Record(r: Rec, ghost target: Coordinator)
      requires target == Notify(View(), r)
      modifies this`locks, this`atomics, this`barriers
      ensures Alike(target, View())
    {
      match r {
        case Release(addr, n) =>
          if addr !in locks { locks := locks[addr := -1]; }
          if n > locks[addr] { locks := locks[addr := n]; }
        case Atomic(addr, n) =>
          if addr !in atomics { atomics := atomics[addr := -1]; }
          if n > atomics[addr] { atomics := atomics[addr := n]; }
        case Arrive(b, i, expected) =>
          if (b, i) !in barriers { barriers := barriers[(b, i) := Iter(0, 0)]; }
          var phase := barriers[(b, i)];
          if phase.expected == 0 && expected > 0 { phase := phase.(expected := expected); }
          barriers := barriers[(b, i) := phase.(arrived := phase.arrived + 1)];
        case _ =>
      }
    }
  }
}
