/** What each kind of directory move does to the invariant, whichever protocol makes it. */
module HandlerProof {
  import opened Options
  import opened CoherenceTypes
  import opened Protocols
  import opened CoherenceSystem
  import opened CoherenceInvariant

  // ----- single nodes -----

  lemma Bystander(p: Protocol, v: View, w: View, nd: Node)
    requires Agrees(p, v, nd) && w == v.(early := w.early) && (w.early ==> v.early)
    ensures Agrees(p, w, nd.(down := nd.down + []))
  {
    assert nd.down + [] == nd.down;
  }

  lemma Commanded(p: Protocol, v: View, w: View, nd: Node)
    requires Agrees(p, v, nd) && v.ask.Nil? && v.active.Not? && v.latched.None?
    requires !w.ask.Nil? && w == v.(ask := w.ask, early := w.early) && (w.early ==> v.early)
    ensures Agrees(p, w, nd.(down := nd.down + [Demand(w.ask)]))
  {
    var d := nd.down + [Demand(w.ask)];
    assert |nd.down| <= 1;
    if Granting(nd) { assert d[1..] == [Demand(w.ask)]; } else { assert nd.down == []; }
  }

  /** The requester, when its request starts a transaction. */
  lemma Started(p: Protocol, v: View, w: View, nd: Node, k: Kind)
    requires Agrees(p, v, nd) && k.Request() && nd.up.Has(k) > 0 && v.latched.None?
    requires v.ask.Nil? && w == v.(active := if k.GETS? then Read else Write, early := w.early)
    requires !v.hold.Ex?
    ensures Agrees(p, w, nd.(up := nd.up.Take(k), down := nd.down + []))
  {
    assert nd.down + [] == nd.down;
  }

  /** The requester, when memory (or the shared cache) will serve it. */
  lemma Latched(p: Protocol, v: View, w: View, nd: Node, k: Kind)
    requires Agrees(p, v, nd) && k.Request() && nd.up.Has(k) > 0 && v.latched.None?
    requires v.ask.Nil? && v.hold.No? && w.latched.Some?
    requires w == v.(latched := w.latched, hold := w.hold, early := w.early)
    requires w.hold == (if !k.GETS? then Mo else if w.latched.value then Ex else Sh)
    requires w.latched.value ==> k.GETS?
    ensures Agrees(p, w, nd.(up := nd.up.Take(k), down := nd.down + []))
  {
    assert nd.down + [] == nd.down;
  }

  /** A holder that may write at once: only the acknowledgement is missing. */
  lemma Upgraded(p: Protocol, v: View, w: View, nd: Node, k: Kind)
    requires Agrees(p, v, nd) && k.Request() && nd.up.Has(k) > 0 && v.latched.None?
    requires v.ask.Nil? && !v.hold.No? && w == v.(hold := Mo, early := w.early)
    ensures Agrees(p, w, nd.(up := nd.up.Take(k), down := nd.down + [ACK]))
  {
    assert nd.down == [];
    assert (nd.down + [ACK])[1..] == [];
  }

  /** A holder whose answer has been consumed. */
  lemma Released(p: Protocol, v: View, w: View, nd: Node, k: Kind)
    requires Agrees(p, v, nd) && Sensible(p, v) && k.Answer() && nd.up.Has(k) > 0
    requires w == v.(hold := After(p, v.hold, v.ask), ask := Nil, early := w.early)
    requires w.early ==> v.early
    requires w.hold.No? && nd.up.getx > 0 ==> !w.early
    ensures Agrees(p, w, nd.(up := nd.up.Take(k), down := nd.down + []))
  {
    assert nd.down + [] == nd.down;
  }

  /** The requester of the running transaction, when it is granted the block. */
  lemma Granted(p: Protocol, v: View, w: View, nd: Node, g: Kind)
    requires Agrees(p, v, nd) && !v.active.Not? && v.ask.Nil? && v.latched.None?
    requires w == v.(hold := w.hold, active := Not, early := w.early)
    requires w.hold == if v.active.Read? then Sh else Mo
    requires g == if v.active.Write? && !v.hold.No? then ACK else DATA
    ensures Agrees(p, w, nd.(down := nd.down + [g]))
  {
    assert !Granting(nd) && nd.down == [];
    assert (nd.down + [g])[1..] == [];
  }

  /** A demand that follows an answered one: the owner recalled after its sharers are gone. */
  lemma ActiveLatched(p: Protocol, v: View, w: View, nd: Node)
    requires Agrees(p, v, nd) && v.active.Write? && v.ask.Nil? && v.hold.No? && v.latched.None?
    requires w == v.(hold := Mo, active := Not, latched := Some(false), early := w.early)
    ensures Agrees(p, w, nd.(down := nd.down + []))
  {
    assert nd.down + [] == nd.down;
  }

  // ----- the source of a message -----

  lemma Asker(p: Protocol, s: Sys, i: nat, k: Kind)
    requires Invariant(p, s) && i < |s.nodes| && k.Request() && s.nodes[i].up.Has(k) > 0
    requires s.latch.None? && !s.dir.state.Transient()
    ensures var v := ViewOf(s.dir, None, i);
      && (k.GETS? ==> v.hold.No?)
      && (k.GETM? ==> !v.hold.Mo? && !v.hold.Ex?)
      && (k.GETX? ==> v.hold.No? || v.hold.Ex? || (v.hold.Fw? && p.MOESIF?) || (v.hold.Sh? && p.MESI?))
      && (k.GETX? && v.hold.No? ==> !v.early)
      && v.ask.Nil?
  {
    assert AgreesAt(p, s, i);
  }

  // ----- handlers -----

  predicate Pending(p: Protocol, s: Sys, i: nat, k: Kind) {
    Invariant(p, s) && i < |s.nodes| && s.nodes[i].up.Has(k) > 0 && s.latch.None?
  }

  lemma RecallBooks(p: Protocol, s: Sys, i: nat, k: Kind, h: nat)
    requires Pending(p, s, i, k) && k.Request() && (s.dir.state.E? || s.dir.state.M?)
    requires s.dir.state.E? ==> !k.GETX?
    requires h < |s.nodes| && s.dir.presence[h]
    ensures !s.dir.presence[i] && h != i
    ensures forall j :: 0 <= j < |s.nodes| ==> s.dir.presence[j] == (j == h)
  {
    Asker(p, s, i, k);
    forall j | 0 <= j < |s.nodes| ensures s.dir.presence[j] == (j == h) {
      if s.dir.presence[j] && j != h { CountTwo(s.dir.presence, j, h); }
    }
  }

  /** Node nd after the directory consumed its message k (if it is the source) and sent it out. */
  function Moved(nd: Node, source: bool, k: Kind, out: seq<Kind>): Node
    requires source ==> nd.up.Has(k) > 0
  {
    nd.(up := if source then nd.up.Take(k) else nd.up, down := nd.down + out)
  }

  /** Node j agrees with the directory entry f that replaces e when message k of node i is handled. */
  predicate Settled(p: Protocol, s: Sys, i: nat, k: Kind, f: Entry, out: Sends, latch: Option<Latch>, j: nat)
    requires i < |s.nodes| && j < |s.nodes| == |f.presence| && s.nodes[i].up.Has(k) > 0
  {
    Agrees(p, ViewOf(f, latch, j), Moved(s.nodes[j], j == i, k, out.To(j)))
  }

  lemma Assemble(p: Protocol, s: Sys, i: nat, k: Kind, f: Entry, out: Sends, latch: Option<Latch>)
    requires Pending(p, s, i, k) && |f.presence| == |s.nodes| && Books(p, f)
    requires latch.Some? ==> latch.value.target < |s.nodes| && !f.state.Transient()
    requires forall j :: 0 <= j < |s.nodes| ==> Settled(p, s, i, k, f, out, latch, j)
    ensures Invariant(p, Commit(s, i, k, f, out, latch))
  {
    var t := Commit(s, i, k, f, out, latch);
    forall j | 0 <= j < |s.nodes| ensures AgreesAt(p, t, j) {
      assert Settled(p, s, i, k, f, out, latch, j);
      assert t.nodes[j] == Moved(s.nodes[j], j == i, k, out.To(j));
    }
  }

  /** What holds of node j before the handler runs. */
  predicate Before(p: Protocol, e: Entry, nd: Node, i: nat, k: Kind, j: nat) {
    && i < |e.presence| && j < |e.presence|
    && Agrees(p, ViewOf(e, None, j), nd) && Sensible(p, ViewOf(e, None, j))
    && (j == i ==> nd.up.Has(k) > 0)
  }

  lemma Ready(p: Protocol, s: Sys, i: nat, k: Kind, j: nat)
    requires Pending(p, s, i, k) && j < |s.nodes|
    ensures Before(p, s.dir, s.nodes[j], i, k, j)
  {
    assert AgreesAt(p, s, j);
    BooksSensible(p, s.dir, s.latch, j);
  }

  lemma BooksSensible(p: Protocol, e: Entry, latch: Option<Latch>, j: nat)
    requires Books(p, e) && j < |e.presence|
    ensures Sensible(p, ViewOf(e, latch, j))
  {
  }

  predicate RecallMove(p: Protocol, e: Entry, k: Kind, h: nat, f: Entry, demand: Kind) {
    && Visits(p, f.state) && f == e.(state := f.state, req := f.req, owner := f.owner)
    && (f.state.MO? || f.state.EF? ==> f.owner == h)
    && demand == (if k.GETS? then RECALL_GOTO_S else RECALL_GOTO_I)
    && match f.state
       case MM => e.state.M? && !k.GETS?
       case EM => e.state.E? && !k.GETS?
       case MO => e.state.M? && k.GETS?
       case MS => e.state.M? && k.GETS?
       case EF => e.state.E? && k.GETS?
       case ES => e.state.E? && k.GETS?
       case _ => false
  }

  lemma RecallStep(p: Protocol, s: Sys, i: nat, k: Kind, h: nat, f: Entry, demand: Kind)
    requires Pending(p, s, i, k) && k.Request() && (s.dir.state.E? ==> !k.GETX?)
    requires h < |s.nodes| && s.dir.presence[h]
    requires f.req == i && RecallMove(p, s.dir, k, h, f, demand)
    ensures Invariant(p, Commit(s, i, k, f, One(h, demand), None))
  {
    RecallBooks(p, s, i, k, h);
    forall j | 0 <= j < |s.nodes| ensures Settled(p, s, i, k, f, One(h, demand), None, j) {
      Ready(p, s, i, k, j);
      RecallAt(p, s.dir, s.nodes[j], i, k, h, f, demand, j);
    }
    Assemble(p, s, i, k, f, One(h, demand), None);
  }

  lemma RecallAt(p: Protocol, e: Entry, nd: Node, i: nat, k: Kind, h: nat, f: Entry, demand: Kind, j: nat)
    requires Before(p, e, nd, i, k, j) && k.Request()
    requires h < |e.presence| && h != i && e.presence[j] == (j == h)
    requires f.req == i && RecallMove(p, e, k, h, f, demand)
    ensures Agrees(p, ViewOf(f, None, j), Moved(nd, j == i, k, One(h, demand).To(j)))
  {
    var v, w := ViewOf(e, None, j), ViewOf(f, None, j);
    if j == i { Started(p, v, w, nd, k); }
    else if j == h { Commanded(p, v, w, nd); }
    else { Bystander(p, v, w, nd); }
  }

  // HandOver: MM or EM, the recalled holder gave up its copy

  lemma AnswerIn(p: Protocol, s: Sys, i: nat, k: Kind)
    requires Pending(p, s, i, k) && k.Answer()
    ensures !AskOf(s.dir, i).Nil? && s.dir.presence[i] && Answer(AskOf(s.dir, i)) == k
  {
    assert AgreesAt(p, s, i);
  }

  lemma HandOverStep(p: Protocol, s: Sys, i: nat, f: Entry)
    requires Pending(p, s, i, DATA) && (s.dir.state.MM? || s.dir.state.EM?)
    requires HandOver(s.dir, i) == Done(f, One(s.dir.req, DATA), None)
    ensures Invariant(p, Commit(s, i, DATA, f, One(s.dir.req, DATA), None))
  {
    var e := s.dir;
    AnswerIn(p, s, i, DATA);
    CountUpdate(e.presence, i, false);
    CountUpdate(e.presence[i := false], e.req, true);
    forall j | 0 <= j < |s.nodes| ensures Settled(p, s, i, DATA, f, One(e.req, DATA), None, j) {
      Ready(p, s, i, DATA, j);
      if e.presence[j] && j != i { CountTwo(e.presence, i, j); }
      HandOverAt(p, e, s.nodes[j], i, f, j);
    }
    Assemble(p, s, i, DATA, f, One(e.req, DATA), None);
  }

  lemma HandOverAt(p: Protocol, e: Entry, nd: Node, i: nat, f: Entry, j: nat)
    requires Before(p, e, nd, i, DATA, j) && (e.state.MM? || e.state.EM?)
    requires Valid(e, e.req) && e.presence[j] == (j == i) && i != e.req
    requires HandOver(e, i) == Done(f, One(e.req, DATA), None)
    ensures Agrees(p, ViewOf(f, None, j), Moved(nd, j == i, DATA, One(e.req, DATA).To(j)))
  {
    var v, w := ViewOf(e, None, j), ViewOf(f, None, j);
    if j == i { Released(p, v, w, nd, DATA); }
    else if j == e.req { Granted(p, v, w, nd, DATA); }
    else { Bystander(p, v, w, nd); }
  }

  // Share: MO, MS, EF, ES, FF, OO, the holder keeps a copy

  predicate ShareMove(p: Protocol, d: Dir, next: Dir) {
    match d
    case MO => next.O? case OO => next.O?
    case EF => next.F? case FF => next.F?
    case MS => next.S? case ES => next.S?
    case _ => false
  }

  lemma ShareStep(p: Protocol, s: Sys, i: nat, next: Dir, f: Entry)
    requires Pending(p, s, i, DATA) && ShareMove(p, s.dir.state, next)
    requires Share(s.dir, next) == Done(f, One(s.dir.req, DATA), None)
    ensures Invariant(p, Commit(s, i, DATA, f, One(s.dir.req, DATA), None))
  {
    var e := s.dir;
    AnswerIn(p, s, i, DATA);
    CountUpdate(e.presence, e.req, true);
    if e.state.MO? || e.state.EF? {
      if i != e.owner { CountTwo(e.presence, i, e.owner); }
    }
    forall j | 0 <= j < |s.nodes| ensures Settled(p, s, i, DATA, f, One(e.req, DATA), None, j) {
      Ready(p, s, i, DATA, j);
      if e.presence[j] && j != i && e.sharers == 1 { CountTwo(e.presence, i, j); }
      ShareAt(p, e, s.nodes[j], i, next, f, j);
    }
    Assemble(p, s, i, DATA, f, One(e.req, DATA), None);
  }

  lemma ShareAt(p: Protocol, e: Entry, nd: Node, i: nat, next: Dir, f: Entry, j: nat)
    requires Before(p, e, nd, i, DATA, j) && ShareMove(p, e.state, next) && Visits(p, e.state)
    requires Valid(e, e.req) && !e.presence[e.req] && e.presence[i]
    requires e.presence[j] ==> j == i || !(e.state.MO? || e.state.MS? || e.state.EF? || e.state.ES?)
    requires !(e.state.MS? || e.state.ES?) ==> e.owner == i
    requires Share(e, next) == Done(f, One(e.req, DATA), None)
    ensures Agrees(p, ViewOf(f, None, j), Moved(nd, j == i, DATA, One(e.req, DATA).To(j)))
  {
    var v, w := ViewOf(e, None, j), ViewOf(f, None, j);
    if j == i { Released(p, v, w, nd, DATA); }
    else if j == e.req { Granted(p, v, w, nd, DATA); }
    else { Bystander(p, v, w, nd); }
  }

  // Purge: S, O, F, invalidate sharers on behalf of a writer

  lemma {:induction false} CountOthers(p: seq<bool>, m: seq<bool>, src: int, keep: int)
    requires |m| == |p| && forall i :: 0 <= i < |p| ==> m[i] == (p[i] && i != src && i != keep)
    ensures Count(m) == Count(p) - (if 0 <= src < |p| && p[src] then 1 else 0)
                                 - (if keep != src && 0 <= keep < |p| && p[keep] then 1 else 0)
  {
    if p != [] {
      var l := |p| - 1;
      CountOthers(p[..l], m[..l], src, keep);
    }
  }

  predicate PurgeMove(p: Protocol, e: Entry, k: Kind, keep: int, next: Dir) {
    match e.state
    case S => next.SM? && keep == -1 && !k.GETS? && (k.GETX? ==> p.MESI?)
    case O => next.OM? && keep == e.owner && !k.GETS?
    case F => next.FM? && !k.GETS? && (if k.GETX? then keep == -1 else keep == e.owner)
    case _ => false
  }

  lemma PurgeStep(p: Protocol, s: Sys, i: nat, k: Kind, keep: int, f: Entry, m: seq<bool>)
    requires Pending(p, s, i, k) && k.Request() && PurgeMove(p, s.dir, k, keep, f.state)
    requires m == Others(s.dir, i, keep) && Count(m) > 0
    requires f == s.dir.(state := f.state, req := i, waiting := Count(m), upgrade := f.upgrade)
    requires Visits(p, f.state) && (p.MSI? ==> f.upgrade == s.dir.presence[i])
    ensures Invariant(p, Commit(s, i, k, f, Invalidate(m), None))
  {
    var e := s.dir;
    Asker(p, s, i, k);
    CountOthers(e.presence, m, i, keep);
    forall j | 0 <= j < |s.nodes| ensures Settled(p, s, i, k, f, Invalidate(m), None, j) {
      Ready(p, s, i, k, j);
      PurgeAt(p, e, s.nodes[j], i, k, keep, f, m, j);
    }
    Assemble(p, s, i, k, f, Invalidate(m), None);
  }

  lemma PurgeAt(p: Protocol, e: Entry, nd: Node, i: nat, k: Kind, keep: int, f: Entry, m: seq<bool>, j: nat)
    requires Before(p, e, nd, i, k, j) && k.Request() && PurgeMove(p, e, k, keep, f.state)
    requires m == Others(e, i, keep) && Count(m) > 0
    requires e.state.F? && k.GETX? ==> e.owner == i
    requires f == e.(state := f.state, req := i, waiting := Count(m), upgrade := f.upgrade)
    ensures Agrees(p, ViewOf(f, None, j), Moved(nd, j == i, k, Invalidate(m).To(j)))
  {
    var v, w := ViewOf(e, None, j), ViewOf(f, None, j);
    if j == i { Started(p, v, w, nd, k); }
    else if m[j] { Commanded(p, v, w, nd); }
    else { Bystander(p, v, w, nd); }
  }

  /** O or F with no sharer besides the writer and the owner: the owner is recalled at once. */
  lemma OwnerRecallStep(p: Protocol, s: Sys, i: nat, k: Kind, f: Entry)
    requires Pending(p, s, i, k) && k.GETM? && (s.dir.state.O? || s.dir.state.F?)
    requires Count(Others(s.dir, i, s.dir.owner)) == 0
    requires f == s.dir.(state := if s.dir.state.O? then Dir.OM else Dir.FM, req := i, waiting := 0)
    ensures Invariant(p, Commit(s, i, k, f, One(s.dir.owner, RECALL_GOTO_I), None))
  {
    var e := s.dir;
    Asker(p, s, i, k);
    CountOthers(e.presence, Others(e, i, e.owner), i, e.owner);
    forall j | 0 <= j < |s.nodes| ensures Settled(p, s, i, k, f, One(e.owner, RECALL_GOTO_I), None, j) {
      Ready(p, s, i, k, j);
      OwnerRecallAt(p, e, s.nodes[j], i, k, f, j);
    }
    Assemble(p, s, i, k, f, One(e.owner, RECALL_GOTO_I), None);
  }

  lemma OwnerRecallAt(p: Protocol, e: Entry, nd: Node, i: nat, k: Kind, f: Entry, j: nat)
    requires Before(p, e, nd, i, k, j) && k.GETM? && (e.state.O? || e.state.F?)
    requires Valid(e, e.owner) && e.presence[e.owner] && i != e.owner
    requires f == e.(state := if e.state.O? then Dir.OM else Dir.FM, req := i, waiting := 0)
    ensures Agrees(p, ViewOf(f, None, j), Moved(nd, j == i, k, One(e.owner, RECALL_GOTO_I).To(j)))
  {
    var v, w := ViewOf(e, None, j), ViewOf(f, None, j);
    if j == i { Started(p, v, w, nd, k); }
    else if j == e.owner { Commanded(p, v, w, nd); }
    else { Bystander(p, v, w, nd); }
  }

  // AskOwner: a reader in O or F

  lemma AskOwnerStep(p: Protocol, s: Sys, i: nat, f: Entry)
    requires Pending(p, s, i, GETS) && (s.dir.state.O? || s.dir.state.F?)
    requires f == s.dir.(state := if s.dir.state.O? then Dir.OO else Dir.FF, req := i)
    ensures s.dir.owner != i && Valid(s.dir, s.dir.owner)
    ensures Invariant(p, Commit(s, i, GETS, f, One(s.dir.owner, RECALL_GOTO_S), None))
  {
    var e := s.dir;
    Asker(p, s, i, GETS);
    forall j | 0 <= j < |s.nodes| ensures Settled(p, s, i, GETS, f, One(e.owner, RECALL_GOTO_S), None, j) {
      Ready(p, s, i, GETS, j);
      AskOwnerAt(p, e, s.nodes[j], i, f, j);
    }
    Assemble(p, s, i, GETS, f, One(e.owner, RECALL_GOTO_S), None);
  }

  lemma AskOwnerAt(p: Protocol, e: Entry, nd: Node, i: nat, f: Entry, j: nat)
    requires Before(p, e, nd, i, GETS, j) && (e.state.O? || e.state.F?)
    requires Valid(e, e.owner) && e.presence[e.owner] && !e.presence[i]
    requires f == e.(state := if e.state.O? then Dir.OO else Dir.FF, req := i)
    ensures Agrees(p, ViewOf(f, None, j), Moved(nd, j == i, GETS, One(e.owner, RECALL_GOTO_S).To(j)))
  {
    var v, w := ViewOf(e, None, j), ViewOf(f, None, j);
    if j == i { Started(p, v, w, nd, GETS); }
    else if j == e.owner { Commanded(p, v, w, nd); }
    else { Bystander(p, v, w, nd); }
  }

  // upgrades answered at once: S with no other sharer, E by its holder

  lemma UpgradeStep(p: Protocol, s: Sys, i: nat, k: Kind, f: Entry)
    requires Pending(p, s, i, k) && k.Request() && !k.GETS?
    requires (s.dir.state.S? && !p.MESI? && k.GETM? && Count(Others(s.dir, i, -1)) == 0) || (s.dir.state.E? && k.GETX?)
    requires f == s.dir.(state := Dir.M, req := f.req, waiting := f.waiting)
    ensures Invariant(p, Commit(s, i, k, f, One(i, ACK), None))
  {
    var e := s.dir;
    Asker(p, s, i, k);
    if e.state.S? { CountOthers(e.presence, Others(e, i, -1), i, -1); }
    assert e.presence[i] && e.sharers == 1;
    forall j | 0 <= j < |s.nodes| ensures Settled(p, s, i, k, f, One(i, ACK), None, j) {
      Ready(p, s, i, k, j);
      if j != i && e.presence[j] { CountTwo(e.presence, i, j); }
      UpgradeAt(p, e, s.nodes[j], i, k, f, j);
    }
    Assemble(p, s, i, k, f, One(i, ACK), None);
  }

  lemma UpgradeAt(p: Protocol, e: Entry, nd: Node, i: nat, k: Kind, f: Entry, j: nat)
    requires Before(p, e, nd, i, k, j) && k.Request() && (e.state.S? || e.state.E?)
    requires e.presence[j] == (j == i)
    requires f == e.(state := Dir.M, req := f.req, waiting := f.waiting)
    ensures Agrees(p, ViewOf(f, None, j), Moved(nd, j == i, k, One(i, ACK).To(j)))
  {
    var v, w := ViewOf(e, None, j), ViewOf(f, None, j);
    if j == i { Upgraded(p, v, w, nd, k); } else { Bystander(p, v, w, nd); }
  }

  // Fetch: I, and readers in S

  lemma FetchStep(p: Protocol, s: Sys, i: nat, k: Kind, next: Dir, exclusive: bool, f: Entry)
    requires Pending(p, s, i, k) && k.Request() && Visits(p, next)
    requires s.dir.state.I? || (s.dir.state.S? && k.GETS?)
    requires next == if !k.GETS? then Dir.M else if exclusive then Dir.E else Dir.S
    requires exclusive ==> k.GETS? && s.dir.state.I?
    requires next.S? && p.MESI? ==> s.dir.state.S?
    requires f == AddOnce(s.dir, i).(state := next) || f == Add(s.dir, i).(state := next)
    ensures Invariant(p, Commit(s, i, k, f, Nothing, Some(Latch(i, exclusive))))
  {
    var e := s.dir;
    Asker(p, s, i, k);
    if e.presence[i] { CountPositive(e.presence, i); }
    CountUpdate(e.presence, i, true);
    forall j | 0 <= j < |s.nodes| ensures Settled(p, s, i, k, f, Nothing, Some(Latch(i, exclusive)), j) {
      Ready(p, s, i, k, j);
      if e.presence[j] { CountPositive(e.presence, j); }
      FetchAt(p, e, s.nodes[j], i, k, exclusive, f, j);
    }
    Assemble(p, s, i, k, f, Nothing, Some(Latch(i, exclusive)));
  }

  lemma FetchAt(p: Protocol, e: Entry, nd: Node, i: nat, k: Kind, exclusive: bool, f: Entry, j: nat)
    requires Before(p, e, nd, i, k, j) && k.Request() && !e.presence[i]
    requires (e.state.I? && !e.presence[j]) || (e.state.S? && k.GETS?)
    requires exclusive ==> k.GETS? && e.state.I?
    requires f == Add(e, i).(state := if !k.GETS? then Dir.M else if exclusive then Dir.E else Dir.S)
    ensures Agrees(p, ViewOf(f, Some(Latch(i, exclusive)), j), Moved(nd, j == i, k, Nothing.To(j)))
  {
    var v, w := ViewOf(e, None, j), ViewOf(f, Some(Latch(i, exclusive)), j);
    if j == i { Latched(p, v, w, nd, k); } else { Bystander(p, v, w, nd); }
  }

  // INVACKs: SM

  lemma SharerAckStep(p: Protocol, s: Sys, i: nat, f: Entry, out: Sends, latch: Option<Latch>)
    requires Pending(p, s, i, INVACK) && s.dir.state.SM?
    requires SharerAck(s.dir, i) == Done(f, out, latch)
    ensures Invariant(p, Commit(s, i, INVACK, f, out, latch))
  {
    var e := s.dir;
    AnswerIn(p, s, i, INVACK);
    CountUpdate(e.presence, i, false);
    var d := e.presence[i := false];
    CountUpdate(d, e.req, true);
    forall j | 0 <= j < |s.nodes| ensures Settled(p, s, i, INVACK, f, out, latch, j) {
      Ready(p, s, i, INVACK, j);
      if e.waiting == 1 && d[j] && j != e.req {
        if d[e.req] { CountTwo(d, j, e.req); } else { CountPositive(d, j); }
      }
      SharerAckAt(p, e, s.nodes[j], i, f, out, latch, j);
    }
    Assemble(p, s, i, INVACK, f, out, latch);
  }

  lemma SharerAckAt(p: Protocol, e: Entry, nd: Node, i: nat, f: Entry, out: Sends, latch: Option<Latch>, j: nat)
    requires Before(p, e, nd, i, INVACK, j) && e.state.SM? && e.presence[i] && i != e.req
    requires e.waiting >= 1 && Valid(e, e.req)
    requires e.waiting == 1 && e.presence[j] ==> j == i || j == e.req
    requires SharerAck(e, i) == Done(f, out, latch)
    ensures Agrees(p, ViewOf(f, latch, j), Moved(nd, j == i, INVACK, out.To(j)))
  {
    var v, w := ViewOf(e, None, j), ViewOf(f, latch, j);
    if j == i { Released(p, v, w, nd, INVACK); }
    else if j != e.req || e.waiting > 1 { Bystander(p, v, w, nd); }
    else if e.presence[j] { Granted(p, v, w, nd, ACK); }
    else { ActiveLatched(p, v, w, nd); }
  }

  // INVACKs and DATA: OM, FM

  lemma OwnerAckStep(p: Protocol, s: Sys, i: nat, f: Entry, out: Sends)
    requires Pending(p, s, i, INVACK) && (s.dir.state.OM? || s.dir.state.FM?)
    requires OwnerAck(s.dir, i) == Done(f, out, None)
    ensures Invariant(p, Commit(s, i, INVACK, f, out, None))
  {
    var e := s.dir;
    AnswerIn(p, s, i, INVACK);
    CountUpdate(e.presence, i, false);
    var d := e.presence[i := false];
    forall j | 0 <= j < |s.nodes| ensures Settled(p, s, i, INVACK, f, out, None, j) {
      Ready(p, s, i, INVACK, j);
      if e.waiting == 1 && d[j] && j != e.owner && j != e.req { LastSharers(d, j, e.owner, e.req); }
      OwnerAckAt(p, e, s.nodes[j], i, f, out, j);
    }
    Assemble(p, s, i, INVACK, f, out, None);
  }

  /** Nobody but the owner and the writer is left when the count says so. */
  lemma LastSharers(d: seq<bool>, j: nat, owner: nat, req: nat)
    requires j < |d| && owner < |d| && req < |d| && d[j] && d[owner] && j != owner && j != req
    ensures Count(d) > 1 + (if req != owner && d[req] then 1 else 0)
  {
    CountTwo(d, j, owner);
    if req != owner && d[req] {
      CountUpdate(d, req, false);
      CountTwo(d[req := false], j, owner);
    }
  }

  lemma OwnerAckAt(p: Protocol, e: Entry, nd: Node, i: nat, f: Entry, out: Sends, j: nat)
    requires Before(p, e, nd, i, INVACK, j) && (e.state.OM? || e.state.FM?)
    requires e.presence[i] && i != e.req && i != e.owner
    requires e.waiting >= 1 && Valid(e, e.req) && Valid(e, e.owner) && e.presence[e.owner]
    requires e.waiting == e.sharers - 1 - (if e.req != e.owner && e.presence[e.req] then 1 else 0)
    requires e.waiting == 1 && e.req == e.owner && e.presence[j] ==> j == i || j == e.req
    requires e.waiting == 1 && e.req != e.owner && e.presence[j] ==> j == i || j == e.req || j == e.owner
    requires Visits(p, e.state) && OwnerAck(e, i) == Done(f, out, None)
    ensures Agrees(p, ViewOf(f, None, j), Moved(nd, j == i, INVACK, out.To(j)))
  {
    var v, w := ViewOf(e, None, j), ViewOf(f, None, j);
    if j == i { OwnerAckSource(p, e, nd, i, f, out); }
    else if e.waiting == 1 && j == e.owner { OwnerTurn(p, e, nd, i, f, out); }
    else { Bystander(p, v, w, nd); }
  }

  lemma OwnerAckSource(p: Protocol, e: Entry, nd: Node, i: nat, f: Entry, out: Sends)
    requires Before(p, e, nd, i, INVACK, i) && (e.state.OM? || e.state.FM?)
    requires e.presence[i] && i != e.req && i != e.owner
    requires Visits(p, e.state) && OwnerAck(e, i) == Done(f, out, None)
    ensures Agrees(p, ViewOf(f, None, i), Moved(nd, true, INVACK, out.To(i)))
  {
    Released(p, ViewOf(e, None, i), ViewOf(f, None, i), nd, INVACK);
  }

  /** The last INVACK as the owner sees it: granted if it is the writer, recalled if not. */
  lemma OwnerTurn(p: Protocol, e: Entry, nd: Node, i: nat, f: Entry, out: Sends)
    requires i < |e.presence| && Valid(e, e.owner) && Agrees(p, ViewOf(e, None, e.owner), nd)
    requires (e.state.OM? || e.state.FM?) && i != e.owner && e.presence[e.owner] && e.waiting == 1
    requires e.sharers == 2 + (if e.req != e.owner && Valid(e, e.req) && e.presence[e.req] then 1 else 0)
    requires OwnerAck(e, i) == Done(f, out, None)
    ensures Agrees(p, ViewOf(f, None, e.owner), nd.(down := nd.down + out.To(e.owner)))
  {
    var v, w := ViewOf(e, None, e.owner), ViewOf(f, None, e.owner);
    if e.req == e.owner { Granted(p, v, w, nd, ACK); } else { Commanded(p, v, w, nd); }
  }

  lemma OwnerGoneStep(p: Protocol, s: Sys, i: nat, f: Entry, g: Kind)
    requires Pending(p, s, i, DATA) && (s.dir.state.OM? || s.dir.state.FM?)
    requires OwnerGone(s.dir) == Done(f, One(s.dir.req, g), None)
    ensures Invariant(p, Commit(s, i, DATA, f, One(s.dir.req, g), None))
  {
    var e := s.dir;
    AnswerIn(p, s, i, DATA);
    var d := e.presence[e.owner := false];
    CountUpdate(e.presence, e.owner, false);
    CountUpdate(d, e.req, true);
    forall j | 0 <= j < |s.nodes| ensures Settled(p, s, i, DATA, f, One(e.req, g), None, j) {
      Ready(p, s, i, DATA, j);
      if d[j] && j != e.req { if d[e.req] { CountTwo(d, j, e.req); } else { CountPositive(d, j); } }
      OwnerGoneAt(p, e, s.nodes[j], i, f, g, j);
    }
    Assemble(p, s, i, DATA, f, One(e.req, g), None);
  }

  lemma OwnerGoneAt(p: Protocol, e: Entry, nd: Node, i: nat, f: Entry, g: Kind, j: nat)
    requires Before(p, e, nd, i, DATA, j) && (e.state.OM? || e.state.FM?)
    requires e.owner == i && e.presence[i] && e.req != i && Valid(e, e.req) && e.waiting == 0
    requires e.presence[j] ==> j == i || j == e.req
    requires OwnerGone(e) == Done(f, One(e.req, g), None)
    ensures Agrees(p, ViewOf(f, None, j), Moved(nd, j == i, DATA, One(e.req, g).To(j)))
  {
    var v, w := ViewOf(e, None, j), ViewOf(f, None, j);
    if j == i { Released(p, v, w, nd, DATA); }
    else if j == e.req { Granted(p, v, w, nd, g); }
    else { Bystander(p, v, w, nd); }
  }
}
