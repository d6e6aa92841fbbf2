/** When systems end under every fair schedule: at each state some event helps, and goes on helping until its turn
    comes, unless something better happens before. */
module FairRuns {

  type Measure = (nat, nat)

  predicate Less(a: Measure, b: Measure) { a.0 < b.0 || (a.0 == b.0 && a.1 < b.1) }

  predicate NotAbove(a: Measure, b: Measure) { a == b || Less(a, b) }

  /** An event that is tried and not possible changes nothing. kept holds throughout, measure never rises;
      helps(s, e, r) says that e helps at s with rank r. */
  datatype Process<!S(!new), !E(!new)> = Process(
    go: (S, E) -> S, tried: E -> bool, kept: S -> bool, measure: S -> Measure,
    helps: (S, E, nat) -> bool, goal: S -> bool)

  /** n moments of a schedule, from moment k. */
  function After<S, E>(go: (S, E) -> S, s: S, sigma: nat -> E, k: nat, n: nat): S
    decreases n
  {
    if n == 0 then s else After(go, go(s, sigma(k)), sigma, k + 1, n - 1)
  }

  predicate ComesAt<E(==)>(sigma: nat -> E, e: E, k: nat, m: nat) { k <= m && sigma(m) == e }

  ghost predicate Comes<E>(sigma: nat -> E, e: E, k: nat) { exists m: nat :: ComesAt(sigma, e, k, m) }

  /** Every event is tried again and again. */
  ghost predicate Fair<E(!new)>(sigma: nat -> E, tried: E -> bool) {
    forall e, k: nat :: tried(e) ==> Comes(sigma, e, k)
  }

  ghost predicate Steady<S(!new), E(!new)>(sys: Process<S, E>) {
    forall s, d {:trigger sys.go(s, d)} ::
      sys.kept(s) ==> sys.kept(sys.go(s, d)) && NotAbove(sys.measure(sys.go(s, d)), sys.measure(s))
  }

  ghost predicate HelpedBelow<S(!new), E(!new)>(sys: Process<S, E>, s: S, r: nat) {
    exists e, q: nat :: q < r && sys.tried(e) && sys.helps(s, e, q)
  }

  /** What moment d does while e helps with rank r: lower the measure, bring a lower rank, or leave e helping. */
  ghost predicate Onward<S(!new), E(!new)>(sys: Process<S, E>, s: S, e: E, r: nat, d: E) {
    || Less(sys.measure(sys.go(s, d)), sys.measure(s))
    || HelpedBelow(sys, sys.go(s, d), r)
    || (d != e && sys.helps(sys.go(s, d), e, r))
  }

  ghost predicate Guided<S(!new), E(!new)>(sys: Process<S, E>) {
    forall s, e, r: nat, d {:trigger Onward(sys, s, e, r, d)} ::
      sys.kept(s) && sys.tried(e) && sys.helps(s, e, r) ==> Onward(sys, s, e, r, d)
  }

  ghost predicate Helped<S(!new), E(!new)>(sys: Process<S, E>, s: S) {
    exists e, r: nat :: sys.tried(e) && sys.helps(s, e, r)
  }

  ghost predicate Live<S(!new), E(!new)>(sys: Process<S, E>) {
    forall s :: sys.kept(s) && !sys.goal(s) ==> Helped(sys, s)
  }

  /** Once reached, the goal stays reached. */
  ghost predicate Final<S(!new), E(!new)>(sys: Process<S, E>) {
    forall s, d {:trigger sys.go(s, d)} :: sys.kept(s) && sys.goal(s) ==> sys.goal(sys.go(s, d))
  }

  ghost predicate Ending<S(!new), E(!new)>(sys: Process<S, E>) { Steady(sys) && Guided(sys) && Live(sys) }

  lemma LessChain(a: Measure, b: Measure, c: Measure)
    requires Less(a, b) && NotAbove(b, c)
    ensures Less(a, c)
  {
  }

  lemma NextTurn<E(!new)>(sigma: nat -> E, tried: E -> bool, e: E, k: nat) returns (m: nat)
    requires Fair(sigma, tried) && tried(e)
    ensures ComesAt(sigma, e, k, m)
  {
    assert Comes(sigma, e, k);
    m :| ComesAt(sigma, e, k, m);
  }

  /** A helpful event gets its turn, unless the measure falls before. */
  lemma {:induction false} Happens<S(!new), E(!new)>(sys: Process<S, E>, s: S, sigma: nat -> E, k: nat, m: nat, e: E,
                                     r: nat)
      returns (n: nat)
    requires Steady(sys) && Guided(sys) && Fair(sigma, sys.tried)
    requires sys.kept(s) && sys.tried(e) && sys.helps(s, e, r) && ComesAt(sigma, e, k, m)
    ensures Less(sys.measure(After(sys.go, s, sigma, k, n)), sys.measure(s))
    decreases r, m - k
  {
    var next := sys.go(s, sigma(k));
    assert Onward(sys, s, e, r, sigma(k));
    if Less(sys.measure(next), sys.measure(s)) {
      n := 1;
      assert After(sys.go, next, sigma, k + 1, 0) == next;
    } else {
      if HelpedBelow(sys, next, r) {
        var e', q: nat :| q < r && sys.tried(e') && sys.helps(next, e', q);
        var m' := NextTurn(sigma, sys.tried, e', k + 1);
        n := Happens(sys, next, sigma, k + 1, m', e', q);
      } else {
        n := Happens(sys, next, sigma, k + 1, m, e, r);
      }
      LessChain(sys.measure(After(sys.go, next, sigma, k + 1, n)), sys.measure(next), sys.measure(s));
      n := n + 1;
    }
  }

  lemma {:induction false} AfterKeeps<S(!new), E(!new)>(sys: Process<S, E>, s: S, sigma: nat -> E, k: nat, n: nat)
    requires Steady(sys) && sys.kept(s)
    ensures sys.kept(After(sys.go, s, sigma, k, n))
    ensures Final(sys) && sys.goal(s) ==> sys.goal(After(sys.go, s, sigma, k, n))
    decreases n
  {
    if n > 0 { AfterKeeps(sys, sys.go(s, sigma(k)), sigma, k + 1, n - 1); }
  }

  lemma {:induction false} AfterAfter<S, E>(go: (S, E) -> S, s: S, sigma: nat -> E, k: nat, n: nat, m: nat)
    ensures After(go, After(go, s, sigma, k, n), sigma, k + n, m) == After(go, s, sigma, k, n + m)
    decreases n
  {
    if n > 0 { AfterAfter(go, go(s, sigma(k)), sigma, k + 1, n - 1, m); }
  }

  lemma {:induction false} Reaches<S(!new), E(!new)>(sys: Process<S, E>, s: S, sigma: nat -> E, k: nat) returns (n: nat)
    requires Ending(sys) && Fair(sigma, sys.tried) && sys.kept(s)
    ensures sys.goal(After(sys.go, s, sigma, k, n))
    decreases sys.measure(s).0, sys.measure(s).1
  {
    if sys.goal(s) {
      n := 0;
    } else {
      assert Helped(sys, s);
      var e, r: nat :| sys.tried(e) && sys.helps(s, e, r);
      var m := NextTurn(sigma, sys.tried, e, k);
      var first := Happens(sys, s, sigma, k, m, e, r);
      AfterKeeps(sys, s, sigma, k, first);
      var rest := Reaches(sys, After(sys.go, s, sigma, k, first), sigma, k + first);
      AfterAfter(sys.go, s, sigma, k, first, rest);
      n := first + rest;
    }
  }

  /** Every fair run reaches the goal. */
  lemma FairRunReaches<S(!new), E(!new)>(sys: Process<S, E>, s: S, sigma: nat -> E) returns (n: nat)
    requires Ending(sys) && Fair(sigma, sys.tried) && sys.kept(s)
    ensures sys.goal(After(sys.go, s, sigma, 0, n)) && sys.kept(After(sys.go, s, sigma, 0, n))
  {
    n := Reaches(sys, s, sigma, 0);
    AfterKeeps(sys, s, sigma, 0, n);
  }

  /** It stays there if no event leads away from it. */
  lemma FairRunEnds<S(!new), E(!new)>(sys: Process<S, E>, s: S, sigma: nat -> E) returns (n: nat)
    requires Ending(sys) && Final(sys) && Fair(sigma, sys.tried) && sys.kept(s)
    ensures forall m: nat :: m >= n ==>
      sys.goal(After(sys.go, s, sigma, 0, m)) && sys.kept(After(sys.go, s, sigma, 0, m))
  {
    n := Reaches(sys, s, sigma, 0);
    AfterKeeps(sys, s, sigma, 0, n);
    forall m: nat | m >= n
      ensures sys.goal(After(sys.go, s, sigma, 0, m)) && sys.kept(After(sys.go, s, sigma, 0, m))
    {
      AfterKeeps(sys, After(sys.go, s, sigma, 0, n), sigma, n, m - n);
      AfterAfter(sys.go, s, sigma, 0, n, m - n);
      assert n + (m - n) == m;
    }
  }

  // ----- cycles -----

  /** The same events in every cycle. */
  function Cyclic<E>(round: seq<E>): nat -> E
    requires round != []
  {
    (k: nat) => round[Place(k, |round|)]
  }

  function Place(k: nat, l: nat): (j: nat)
    requires l > 0
    ensures j < l
  {
    if k < l then k else Place(k - l, l)
  }

  function Rounds(l: nat, times: nat): nat { if times == 0 then 0 else l + Rounds(l, times - 1) }

  lemma {:induction false} Wraps(j: nat, l: nat, times: nat)
    requires j < l
    ensures Place(j + Rounds(l, times), l) == j && Rounds(l, times) >= times
  {
    if times > 0 { Wraps(j, l, times - 1); }
  }

  /** Cycles that try every event are fair, in whatever order they do. */
  lemma CyclicFair<E(!new)>(round: seq<E>, tried: E -> bool)
    requires round != [] && forall e :: tried(e) ==> e in round
    ensures Fair(Cyclic(round), tried)
  {
    var sigma := Cyclic(round);
    forall e, k: nat | tried(e) ensures Comes(sigma, e, k) {
      var j :| 0 <= j < |round| && round[j] == e;
      Wraps(j, |round|, k);
      assert ComesAt(sigma, e, k, j + Rounds(|round|, k));
    }
  }
}
