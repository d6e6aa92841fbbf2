/** Cores that read their trace files through the reader, ask the coordinator at fetch and notify it when a signal
    record retires: together they are a replay. */
module SyncSimulation {
  import opened Options
  import opened SyncReplay
  import opened TraceReader
  import SyncDiscipline
  import T = TraceCodec

  // ----- records -----

  /** What a sync record means to the coordinator; the barrier's iteration travels as the sequence number and the
      number of participants as the extra argument. */
  function Meaning(kind: T.Byte, addr: nat, seqno: nat, arg: nat): Rec {
    match kind
    case 1 => Acquire(addr, seqno)
    case 2 => Release(addr, seqno)
    case 3 => Arrive(addr, seqno, arg)
    case 4 => Leave(addr, seqno)
    case 5 => Atomic(addr, seqno)
    case 6 => Atomic(addr, seqno)
    case 7 => Atomic(addr, seqno)
    case _ => Cond(addr)
  }

  function SyncMeaning(s: T.SyncRec): Rec { Meaning(s.kind, s.addr, s.seqno, s.arg) }

  /** Lifecycle records pass everywhere and mean nothing. */
  function RecOf(r: T.AnyRecord): Rec {
    match r
    case Instruction(i) => Plain(i.ip)
    case Sync(s) => SyncMeaning(s)
    case Lifecycle(_) => Cond(0)
  }

  /** What the retirement of an item tells the coordinator. */
  function Told(e: Emitted): Rec {
    match e
    case Real(i) => Plain(i.ip)
    case Pseudo(kind, addr, seqno, arg, _) => Meaning(kind, addr, seqno, arg)
  }

  function TraceOf(file: seq<T.AnyRecord>): (q: Trace)
    ensures |q| == |file| && forall i :: 0 <= i < |file| ==> q[i] == RecOf(file[i])
  {
    seq(|file|, i requires 0 <= i < |file| => RecOf(file[i]))
  }

  function TracesOf(files: seq<seq<T.AnyRecord>>): (r: seq<Trace>)
    ensures |r| == |files| && forall t :: 0 <= t < |files| ==> r[t] == TraceOf(files[t])
  {
    seq(|files|, t requires 0 <= t < |files| => TraceOf(files[t]))
  }

  // ----- the cores -----

  /** The unread records, the reader's memory, and the items fetched and not retired, which retire in order. */
  datatype Thread = Thread(rest: seq<T.AnyRecord>, memo: Memo, pipe: seq<Emitted>)

  datatype Live = Live(coord: Coordinator, threads: seq<Thread>)

  datatype Move = Poll(t: nat) | Commit(t: nat)

  /** The coordinator as the sink of a reader. */
  function Gate(c: Coordinator): Sink { Answers((n: nat, s: T.SyncRec) => Passes(c, SyncMeaning(s))) }

  function Polled(th: Thread, c: Coordinator): Thread {
    var (rest, memo, out) := NextFor(th.rest, th.memo, Gate(c));
    Thread(rest, memo, th.pipe + Out(out))
  }

  function Go(l: Live, m: Move): Live {
    if m.t >= |l.threads| then l
    else
      var th := l.threads[m.t];
      match m
      case Poll(t) => l.(threads := l.threads[t := Polled(th, l.coord)])
      case Commit(t) =>
        if th.pipe == [] then l
        else Live(Notify(l.coord, Told(th.pipe[0])), l.threads[t := th.(pipe := th.pipe[1..])])
  }

  function RunLive(l: Live, ms: seq<Move>): Live
    decreases |ms|
  {
    if ms == [] then l else RunLive(Go(l, ms[0]), ms[1..])
  }

  function Begin(files: seq<seq<T.AnyRecord>>): Live {
    Live(Coordinator(map[], map[], map[]), seq(|files|, t requires 0 <= t < |files| => Thread(files[t], Fresh, [])))
  }

  // ----- the replay they are -----

  /** What the first pos records of a file, without the first ret, put into the pipeline. */
  predicate InStep(file: seq<T.AnyRecord>, th: Thread, pos: nat, ret: nat) {
    && ret <= pos <= |file|
    && (th.memo.held.Some? ==> Gated(th.memo.held.value))
    && Unread(th.rest, th.memo) == file[pos..]
    && th.pipe == Surfacing(file[ret..pos], true)
  }

  predicate Follows(files: seq<seq<T.AnyRecord>>, l: Live, s: Replay) {
    && s.coord == l.coord && |s.pos| == |s.ret| == |l.threads| == |files|
    && forall t :: 0 <= t < |files| ==> InStep(files[t], l.threads[t], s.pos[t], s.ret[t])
  }

  lemma {:induction false} SurfacingAppend(q: seq<T.AnyRecord>, r: seq<T.AnyRecord>)
    ensures Surfacing(q + r, true) == Surfacing(q, true) + Surfacing(r, true)
  {
    if q == [] { assert q + r == r; }
    else {
      assert (q + r)[0] == q[0] && (q + r)[1..] == q[1..] + r;
      SurfacingAppend(q[1..], r);
    }
  }

  lemma SurfacingOne(r: T.AnyRecord)
    ensures Surfacing([r], true) == Emits(r, true)
  {
    assert [r][1..] == [];
  }

  /** What became of a record: it is taken exactly if the coordinator lets it pass, and held otherwise. */
  predicate Answered(r: T.AnyRecord, c: Coordinator, m: Memo, v: Verdict) {
    && (v == Return(None) <==> !Passes(c, RecOf(r)))
    && (v == Return(None) ==> r.Sync? && m.held == Some(r.sync) && Gated(r.sync))
    && (v != Return(None) ==> m.held.None? && OutOf(v) == Emits(r, true))
  }

  /** Records that the reader may take are those that the replay may fetch. */
  lemma MeetPasses(r: T.AnyRecord, m: Memo, c: Coordinator)
    requires m.held.None?
    ensures Answered(r, c, Meet(r, m, Gate(c)).0, Meet(r, m, Gate(c)).1)
  {
  }

  lemma ReadFirst(rest: seq<T.AnyRecord>, m: Memo, sink: Sink, m': Memo, v: Verdict)
    requires rest != [] && Meet(rest[0], m, sink) == (m', v)
    ensures Read(rest, m, sink) == if v.Skip? then Read(rest[1..], m', sink) else (rest[1..], m', v.out)
  {
  }

  /** s with k records of thread t fetched. */
  function At(s: Replay, t: nat, k: nat): Replay
    requires t < |s.pos|
  {
    s.(pos := s.pos[t := k])
  }

  /** Records pos to k of a file were taken, leaving rest and m; they put out into the pipeline. */
  predicate Ran(file: seq<T.AnyRecord>, pos: nat, k: nat, rest: seq<T.AnyRecord>, m: Memo, out: Option<Emitted>) {
    && pos <= k <= |file| && Unread(rest, m) == file[k..]
    && (m.held.Some? ==> Gated(m.held.value))
    && Surfacing(file[pos..k], true) == Out(out)
  }

  lemma FetchOne(traces: seq<Trace>, s: Replay, t: nat, steps: seq<Step>)
    requires Shaped(traces, s) && Enabled(traces, s, Fetch(t))
    ensures Run(traces, s, [Fetch(t)] + steps) == Run(traces, At(s, t, s.pos[t] + 1), steps)
  {
    assert ([Fetch(t)] + steps)[1..] == steps;
  }

  lemma SurfacingFirst(file: seq<T.AnyRecord>, pos: nat, k: nat)
    requires pos < k <= |file|
    ensures Surfacing(file[pos..k], true) == Emits(file[pos], true) + Surfacing(file[pos + 1..k], true)
  {
    assert file[pos..k] == [file[pos]] + file[pos + 1..k];
    SurfacingAppend([file[pos]], file[pos + 1..k]);
    SurfacingOne(file[pos]);
  }

  lemma Stays(files: seq<seq<T.AnyRecord>>, s: Replay, t: nat) returns (steps: seq<Step>, k: nat)
    requires Shaped(TracesOf(files), s) && t < |files|
    ensures k == s.pos[t] && Surfacing(files[t][s.pos[t]..k], true) == [] &&
      Run(TracesOf(files), s, steps) == At(s, t, k)
  {
    steps, k := [], s.pos[t];
    assert s == At(s, t, k);
  }

  lemma {:induction false} ReadRuns(files: seq<seq<T.AnyRecord>>, s: Replay, t: nat, rest: seq<T.AnyRecord>, m: Memo)
      returns (steps: seq<Step>, k: nat)
    requires Shaped(TracesOf(files), s) && t < |files| && rest == files[t][s.pos[t]..] && m.held.None?
    ensures var (rest', m', out) := Read(rest, m, Gate(s.coord));
      Ran(files[t], s.pos[t], k, rest', m', out)
    ensures Run(TracesOf(files), s, steps) == At(s, t, k)
    decreases |rest|, 0
  {
    var pos := s.pos[t];
    if rest == [] {
      steps, k := Stays(files, s, t);
    } else {
      assert files[t][pos] == rest[0] && files[t][pos + 1..] == rest[1..];
      MeetPasses(rest[0], m, s.coord);
      var (m', v) := Meet(rest[0], m, Gate(s.coord));
      ReadFirst(rest, m, Gate(s.coord), m', v);
      if v == Return(None) {
        steps, k := Stays(files, s, t);
        assert Unread(rest[1..], m') == [rest[0]] + rest[1..] == rest;
      } else {
        steps, k := TakeRuns(files, s, t, rest, m', v);
      }
    }
  }

  lemma {:induction false} TakeRuns(files: seq<seq<T.AnyRecord>>, s: Replay, t: nat, rest: seq<T.AnyRecord>, m: Memo,
                                    v: Verdict)
      returns (steps: seq<Step>, k: nat)
    requires Shaped(TracesOf(files), s) && t < |files| && rest == files[t][s.pos[t]..] && rest != []
    requires Answered(rest[0], s.coord, m, v) && v != Return(None)
    ensures var (rest', m', out) := if v.Skip? then Read(rest[1..], m, Gate(s.coord)) else (rest[1..], m, v.out);
      Ran(files[t], s.pos[t], k, rest', m', out)
    ensures Run(TracesOf(files), s, steps) == At(s, t, k)
    decreases |rest| - 1, 1
  {
    var pos := s.pos[t];
    assert files[t][pos] == rest[0] && files[t][pos + 1..] == rest[1..];
    assert Unread(rest[1..], m) == rest[1..];
    var more: seq<Step> := [];
    k := pos + 1;
    if v.Skip? { more, k := ReadRuns(files, At(s, t, pos + 1), t, rest[1..], m); }
    SurfacingFirst(files[t], pos, k);
    steps := [Fetch(t)] + more;
    FetchOne(TracesOf(files), s, t, more);
  }

  /** The held record passes, and reading goes on if it does not surface. */
  lemma PassRuns(files: seq<seq<T.AnyRecord>>, s: Replay, t: nat, rest: seq<T.AnyRecord>, held: T.SyncRec, m: Memo)
      returns (steps: seq<Step>, k: nat)
    requires Shaped(TracesOf(files), s) && t < |files| && s.pos[t] < |files[t]|
    requires files[t][s.pos[t]] == T.Sync(held) && rest == files[t][s.pos[t] + 1..] &&
      Passes(s.coord, SyncMeaning(held)) && m.held.None?
    ensures var (rest', m', out) := if Surfaces(held) then (rest, m, Some(PseudoOf(held)))
      else Read(rest, m, Gate(s.coord));
      Ran(files[t], s.pos[t], k, rest', m', out)
    ensures Run(TracesOf(files), s, steps) == At(s, t, k)
  {
    var more: seq<Step> := [];
    k := s.pos[t] + 1;
    if !Surfaces(held) {
      more, k := ReadRuns(files, At(s, t, k), t, rest, m);
    } else {
      assert Unread(rest, m) == rest;
    }
    SurfacingFirst(files[t], s.pos[t], k);
    steps := [Fetch(t)] + more;
    FetchOne(TracesOf(files), s, t, more);
  }

  lemma HeldNext(rest: seq<T.AnyRecord>, m: Memo, c: Coordinator)
    requires m.held.Some?
    ensures var held := m.held.value;
      var m' := Memo(None, m.polls + 1, m.approved + [held]);
      NextFor(rest, m, Gate(c)) ==
        if !Passes(c, SyncMeaning(held)) then (rest, m.(polls := m.polls + 1), None)
        else if Surfaces(held) then (rest, m', Some(PseudoOf(held)))
        else Read(rest, m', Gate(c))
  {
  }

  lemma FreshNext(rest: seq<T.AnyRecord>, m: Memo, c: Coordinator)
    requires m.held.None?
    ensures NextFor(rest, m, Gate(c)) == Read(rest, m, Gate(c)) && Unread(rest, m) == rest
  {
  }

  lemma NextRuns(files: seq<seq<T.AnyRecord>>, s: Replay, t: nat, th: Thread) returns (steps: seq<Step>, k: nat)
    requires Shaped(TracesOf(files), s) && t < |files| && InStep(files[t], th, s.pos[t], s.ret[t])
    ensures var (rest', m', out) := NextFor(th.rest, th.memo, Gate(s.coord));
      Ran(files[t], s.pos[t], k, rest', m', out)
    ensures Run(TracesOf(files), s, steps) == At(s, t, k)
  {
    var pos, m := s.pos[t], th.memo;
    if m.held.None? {
      FreshNext(th.rest, m, s.coord);
      steps, k := ReadRuns(files, s, t, th.rest, m);
    } else {
      var held := m.held.value;
      HeldNext(th.rest, m, s.coord);
      assert files[t][pos] == Unread(th.rest, m)[0] == T.Sync(held);
      assert files[t][pos + 1..] == Unread(th.rest, m)[1..] == th.rest;
      if Passes(s.coord, SyncMeaning(held)) {
        steps, k := PassRuns(files, s, t, th.rest, held, Memo(None, m.polls + 1, m.approved + [held]));
      } else {
        steps, k := Stays(files, s, t);
        assert Unread(th.rest, m.(polls := m.polls + 1)) == Unread(th.rest, m);
      }
    }
  }

  lemma PollFollows(files: seq<seq<T.AnyRecord>>, l: Live, s: Replay, t: nat) returns (steps: seq<Step>)
    requires Follows(files, l, s) && Shaped(TracesOf(files), s) && t < |l.threads|
    ensures Follows(files, Go(l, Poll(t)), Run(TracesOf(files), s, steps))
  {
    var th, file, pos, ret := l.threads[t], files[t], s.pos[t], s.ret[t];
    assert InStep(file, th, pos, ret);
    var k;
    steps, k := NextRuns(files, s, t, th);
    assert file[ret..k] == file[ret..pos] + file[pos..k];
    SurfacingAppend(file[ret..pos], file[pos..k]);
    assert InStep(file, Polled(th, l.coord), k, ret);
  }

  // ----- retiring -----

  /** s with the first k records of thread t retired. */
  function RetiredTo(s: Replay, t: nat, k: nat): Replay
    requires t < |s.ret|
  {
    s.(ret := s.ret[t := k])
  }

  lemma Quietly(c: Coordinator, r: T.AnyRecord)
    requires Emits(r, true) == []
    ensures Notify(c, RecOf(r)) == c
  {
  }

  /** The oldest item leaves the pipeline: the records that never entered it are passed over, and the item's own
      record is retired with its signal. */
  lemma {:induction false} CommitRuns(files: seq<seq<T.AnyRecord>>, s: Replay, t: nat, pipe: seq<Emitted>)
      returns (steps: seq<Step>, k: nat)
    requires Shaped(TracesOf(files), s) && t < |files| && pipe == Surfacing(files[t][s.ret[t]..s.pos[t]], true) &&
      pipe != []
    ensures s.ret[t] < k <= s.pos[t] && Surfacing(files[t][k..s.pos[t]], true) == pipe[1..]
    ensures Run(TracesOf(files), s, steps) == RetiredTo(s, t, k).(coord := Notify(s.coord, Told(pipe[0])))
    decreases s.pos[t] - s.ret[t]
  {
    var traces, ret, pos := TracesOf(files), s.ret[t], s.pos[t];
    var q := files[t][ret..pos];
    assert q != [];
    var r := files[t][ret];
    assert q[0] == r && q[1..] == files[t][ret + 1..pos];
    var next := Next(traces, s, Retire(t));
    var more: seq<Step> := [];
    k := ret + 1;
    if Emits(r, true) == [] {
      Quietly(s.coord, r);
      assert [] + Surfacing(q[1..], true) == Surfacing(q[1..], true);
      more, k := CommitRuns(files, next, t, pipe);
    } else {
      assert Told(pipe[0]) == RecOf(r);
    }
    steps := [Retire(t)] + more;
    assert steps[1..] == more;
  }

  lemma CommitFollows(files: seq<seq<T.AnyRecord>>, l: Live, s: Replay, t: nat) returns (steps: seq<Step>)
    requires Follows(files, l, s) && Shaped(TracesOf(files), s) && t < |l.threads| && l.threads[t].pipe != []
    ensures Follows(files, Go(l, Commit(t)), Run(TracesOf(files), s, steps))
  {
    assert InStep(files[t], l.threads[t], s.pos[t], s.ret[t]);
    var k;
    steps, k := CommitRuns(files, s, t, l.threads[t].pipe);
  }

  lemma MoveFollows(files: seq<seq<T.AnyRecord>>, l: Live, s: Replay, m: Move) returns (steps: seq<Step>)
    requires Follows(files, l, s) && Shaped(TracesOf(files), s)
    ensures Follows(files, Go(l, m), Run(TracesOf(files), s, steps))
  {
    steps := [];
    if m.t < |l.threads| {
      if m.Poll? { steps := PollFollows(files, l, s, m.t); }
      else if l.threads[m.t].pipe != [] { steps := CommitFollows(files, l, s, m.t); }
    }
  }

  /** Simulation: however polls and retirements of the cores interleave, some replay of the recorded traces is in
      step with them, with the same coordinator. */
  lemma {:induction false} RunFollows(files: seq<seq<T.AnyRecord>>, l: Live, s: Replay, ms: seq<Move>)
      returns (steps: seq<Step>)
    requires Follows(files, l, s) && Shaped(TracesOf(files), s)
    ensures Follows(files, RunLive(l, ms), Run(TracesOf(files), s, steps))
    decreases |ms|
  {
    if ms == [] {
      steps := [];
    } else {
      var first := MoveFollows(files, l, s, ms[0]);
      var s' := Run(TracesOf(files), s, first);
      var rest := RunFollows(files, Go(l, ms[0]), s', ms[1..]);
      steps := first + rest;
      SyncDiscipline.RunAppend(TracesOf(files), s, first, rest);
    }
  }

  lemma Replays(files: seq<seq<T.AnyRecord>>, ms: seq<Move>) returns (s: Replay)
    ensures Reachable(TracesOf(files), s) && Follows(files, RunLive(Begin(files), ms), s)
  {
    var start := Start(TracesOf(files));
    forall t | 0 <= t < |files| ensures InStep(files[t], Begin(files).threads[t], 0, 0) {
      assert files[t][0..] == files[t] && files[t][0..0] == [];
      assert Unread(files[t], Fresh) == files[t];
    }
    var steps := RunFollows(files, Begin(files), start, ms);
    s := Run(TracesOf(files), start, steps);
  }

  /** Record i of file t is past the gate: neither unread nor held. */
  predicate Passed(file: seq<T.AnyRecord>, th: Thread, i: nat) { i + |Unread(th.rest, th.memo)| < |file| }

  /** What is in the pipeline comes from records after record i. */
  ghost predicate Gone(file: seq<T.AnyRecord>, th: Thread, i: nat) {
    exists pos: nat, ret: nat :: i < ret && InStep(file, th, pos, ret)
  }

  /** Mutual exclusion where it is wanted, in the cores: once a core's reader has let acquire n + 1 of a mutex
      pass, everything up to release n has left its core's pipeline. */
  lemma CoresExclude(files: seq<seq<T.AnyRecord>>, ms: seq<Move>, t: nat, i: nat, m: nat, n: nat)
      returns (t': nat, i': nat)
    requires WellBuilt(TracesOf(files)) && t < |files| && i < |files[t]| && RecOf(files[t][i]) == Acquire(m, n + 1)
    requires var l := RunLive(Begin(files), ms); t < |l.threads| && Passed(files[t], l.threads[t], i)
    ensures var l := RunLive(Begin(files), ms);
      && t' < |files| && t' < |l.threads| && i' < |files[t']|
      && RecOf(files[t'][i']).Gives() == Some(Turn(Mutex(m), n)) && Gone(files[t'], l.threads[t'], i')
  {
    var l, traces := RunLive(Begin(files), ms), TracesOf(files);
    var s := Replays(files, ms);
    assert InStep(files[t], l.threads[t], s.pos[t], s.ret[t]);
    assert NeedsAt(traces, t, i, Turn(Mutex(m), n + 1));
    t', i' := MutualExclusion(traces, s, t, i, Mutex(m), n);
    assert InStep(files[t'], l.threads[t'], s.pos[t'], s.ret[t']);
  }
}
