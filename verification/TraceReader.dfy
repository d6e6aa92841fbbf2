/** The reader that feeds a core from a trace file: it hides lifecycle records, asks the sync sink before it
    lets a gated record pass, and holds a rejected record until the next call. */
module TraceReader {
  import opened Options
  import opened TraceCodec

  /** What the core gets: an instruction, or the pseudo-record that carries a sync signal to retirement. */
  datatype Emitted =
    | Real(instr: Instr)
    | Pseudo(kind: Byte, addr: U64, seqno: U64, arg: U64, ip: U64)

  /** sync_needs_gate. */
  predicate Gated(s: SyncRec) { s.kind == 1 || s.kind == 4 || s.kind == 5 || s.kind == 6 || s.kind == 7 }

  /** sync_surfaces_as_pseudo. */
  predicate Surfaces(s: SyncRec) { s.kind == 2 || s.kind == 3 || s.kind == 5 || s.kind == 6 || s.kind == 7 }

  /** make_pseudo_record. */
  function PseudoOf(s: SyncRec): Emitted { Pseudo(s.kind, s.addr, s.seqno, s.arg, s.ip) }

  /** The sink's answer to its n-th question, which may depend on both; or no sink. */
  datatype Sink = NoSink | Answers(yes: (nat, SyncRec) -> bool)

  /** What the reader remembers beside the stream: the record held for approval, the number of questions to
      the sink, and the gated records it let pass. */
  datatype Memo = Memo(held: Option<SyncRec>, polls: nat, approved: seq<SyncRec>)

  /** Read on, or return: an item, or nothing because a gate is shut. */
  datatype Verdict = Skip | Return(out: Option<Emitted>)

  const Fresh: Memo := Memo(None, 0, [])

  function Pass(s: SyncRec): Verdict { if Surfaces(s) then Return(Some(PseudoOf(s))) else Skip }

  /** Ask the sink about a gated record. */
  function Ask(s: SyncRec, m: Memo, sink: Sink): (Memo, Verdict)
    requires sink.Answers?
  {
    if sink.yes(m.polls, s) then (Memo(None, m.polls + 1, m.approved + [s]), Pass(s))
    else (Memo(Some(s), m.polls + 1, m.approved), Return(None))
  }

  /** One record off the stream. */
  function Meet(r: AnyRecord, m: Memo, sink: Sink): (Memo, Verdict) {
    match r
    case Instruction(i) => (m, Return(Some(Real(i))))
    case Lifecycle(_) => (m, Skip)
    case Sync(s) => if sink.NoSink? then (m, Skip) else if Gated(s) then Ask(s, m, sink) else (m, Pass(s))
  }

  /** The record held from an earlier call, if there is one. */
  function Resume(m: Memo, sink: Sink): (Memo, Verdict) {
    if m.held.None? then (m, Skip)
    else if sink.NoSink? then (m, Return(None))
    else Ask(m.held.value, m, sink)
  }

  /** The loop of next, over records. */
  function Read(rest: seq<AnyRecord>, m: Memo, sink: Sink): (seq<AnyRecord>, Memo, Option<Emitted>)
    decreases |rest|
  {
    if rest == [] then (rest, m, None)
    else
      match Meet(rest[0], m, sink)
      case (m', Skip) => Read(rest[1..], m', sink)
      case (m', Return(out)) => (rest[1..], m', out)
  }

  /** Reader::next, over records. */
  function NextFor(rest: seq<AnyRecord>, m: Memo, sink: Sink): (seq<AnyRecord>, Memo, Option<Emitted>) {
    match Resume(m, sink)
    case (m', Skip) => Read(rest, m', sink)
    case (m', Return(out)) => (rest, m', out)
  }

  // ----- exactness on records -----

  /** What one record becomes; without a sink every sync record is dropped. */
  function Emits(r: AnyRecord, wired: bool): seq<Emitted> {
    match r
    case Instruction(i) => [Real(i)]
    case Sync(s) => if wired && Surfaces(s) then [PseudoOf(s)] else []
    case Lifecycle(_) => []
  }

  function Surfacing(q: seq<AnyRecord>, wired: bool): seq<Emitted> {
    if q == [] then [] else Emits(q[0], wired) + Surfacing(q[1..], wired)
  }

  /** The records that need approval. */
  function Gates(q: seq<AnyRecord>): seq<SyncRec> {
    if q == [] then [] else Gate(q[0]) + Gates(q[1..])
  }

  function Gate(r: AnyRecord): seq<SyncRec> { if r.Sync? && Gated(r.sync) then [r.sync] else [] }

  /** The held record, then the rest. */
  function Unread(rest: seq<AnyRecord>, m: Memo): seq<AnyRecord> {
    (if m.held.Some? then [Sync(m.held.value)] else []) + rest
  }

  function Out(r: Option<Emitted>): seq<Emitted> { if r.Some? then [r.value] else [] }

  /** Only gated records are held, and only for a sink. */
  predicate Gentle(m: Memo, sink: Sink) { m.held.Some? ==> Gated(m.held.value) && sink.Answers? }

  /** What one call did: its result came off the front of what was to surface, what it got approved off the
      front of what needed approval, and it returns nothing only at a shut gate or at the end. */
  predicate Exact(rest: seq<AnyRecord>, m: Memo, rest': seq<AnyRecord>, m': Memo, out: Option<Emitted>, sink: Sink) {
    && Gentle(m', sink)
    && Surfacing(Unread(rest, m), sink.Answers?) == Out(out) + Surfacing(Unread(rest', m'), sink.Answers?)
    && (sink.Answers? ==> m.approved + Gates(Unread(rest, m)) == m'.approved + Gates(Unread(rest', m')))
    && (out.None? ==> m'.held.Some? || rest' == [])
  }

  function OutOf(v: Verdict): seq<Emitted> { if v.Return? then Out(v.out) else [] }

  /** What one record r in front of rest contributes, whether it is fresh or was held. */
  predicate Taken(r: AnyRecord, m: Memo, m': Memo, v: Verdict, rest: seq<AnyRecord>, sink: Sink) {
    && Gentle(m', sink)
    && (v == Return(None) ==> m'.held.Some?)
    && (v.Skip? ==> m'.held.None?)
    && Emits(r, sink.Answers?) + Surfacing(rest, sink.Answers?)
       == OutOf(v) + Surfacing(Unread(rest, m'), sink.Answers?)
    && (sink.Answers? ==> m.approved + (Gate(r) + Gates(rest)) == m'.approved + Gates(Unread(rest, m')))
  }

  lemma AskTakes(s: SyncRec, m: Memo, rest: seq<AnyRecord>, sink: Sink)
    requires sink.Answers? && Gated(s)
    ensures Taken(Sync(s), m, Ask(s, m, sink).0, Ask(s, m, sink).1, rest, sink)
  {
    var m' := Ask(s, m, sink).0;
    if m'.held.None? {
      assert Unread(rest, m') == rest;
      assert m.approved + ([s] + Gates(rest)) == m'.approved + Gates(rest);
    } else {
      assert Unread(rest, m')[1..] == rest;
    }
  }

  lemma MeetTakes(r: AnyRecord, m: Memo, rest: seq<AnyRecord>, sink: Sink)
    requires m.held.None?
    ensures Taken(r, m, Meet(r, m, sink).0, Meet(r, m, sink).1, rest, sink)
  {
    if r.Sync? && sink.Answers? && Gated(r.sync) { AskTakes(r.sync, m, rest, sink); }
    else {
      assert Unread(rest, m) == rest;
      assert [] + Gates(rest) == Gates(rest);
      assert [] + Surfacing(rest, sink.Answers?) == Surfacing(rest, sink.Answers?);
    }
  }

  lemma {:induction false} ReadExact(rest: seq<AnyRecord>, m: Memo, sink: Sink)
    requires m.held.None?
    ensures var (rest', m', out) := Read(rest, m, sink); Exact(rest, m, rest', m', out, sink)
    decreases |rest|
  {
    assert Unread(rest, m) == rest;
    if rest != [] {
      MeetTakes(rest[0], m, rest[1..], sink);
      var (m', v) := Meet(rest[0], m, sink);
      assert Unread(rest[1..], m') == rest[1..] || v.Return?;
      if v.Skip? { ReadExact(rest[1..], m', sink); }
    }
  }

  lemma NextExact(rest: seq<AnyRecord>, m: Memo, sink: Sink)
    requires Gentle(m, sink)
    ensures var (rest', m', out) := NextFor(rest, m, sink); Exact(rest, m, rest', m', out, sink)
  {
    if m.held.None? {
      ReadExact(rest, m, sink);
    } else {
      var s := m.held.value;
      AskTakes(s, m, rest, sink);
      assert Unread(rest, m)[1..] == rest;
      var (m', v) := Ask(s, m, sink);
      if v.Skip? {
        assert Unread(rest, m') == rest;
        ReadExact(rest, m', sink);
      }
    }
  }

  // ----- the same on bytes -----

  datatype Outcome = Gave(out: Emitted) | Nothing | Threw

  function Told(out: Option<Emitted>): Outcome { if out.Some? then Gave(out.value) else Nothing }

  /** The loop of next, over the bytes of the file. A malformed frame throws wherever it is met. */
  function ReadBytes(bytes: seq<Byte>, m: Memo, sink: Sink): (seq<Byte>, Memo, Outcome)
    decreases |bytes|
  {
    match NextAny(bytes)
    case End => (bytes, m, Nothing)
    case Malformed => (bytes, m, Threw)
    case Got(r, rest) =>
      match Meet(r, m, sink)
      case (m', Skip) => ReadBytes(rest, m', sink)
      case (m', Return(out)) => (rest, m', Told(out))
  }

  /** Reader::next, over bytes. */
  function NextBytes(bytes: seq<Byte>, m: Memo, sink: Sink): (seq<Byte>, Memo, Outcome) {
    match Resume(m, sink)
    case (m', Skip) => ReadBytes(bytes, m', sink)
    case (m', Return(out)) => (bytes, m', Told(out))
  }

  lemma {:induction false} ReadFollows(rest: seq<AnyRecord>, m: Memo, sink: Sink)
    ensures var (rest', m', out) := Read(rest, m, sink);
      ReadBytes(EncodeAll(rest), m, sink) == (EncodeAll(rest'), m', Told(out))
    decreases |rest|
  {
    FirstOfAll(rest);
    if rest != [] {
      ReadFollows(rest[1..], Meet(rest[0], m, sink).0, sink);
    }
  }

  /** On a written stream the reader does, byte for byte, what it does on the records. */
  lemma NextFollows(rest: seq<AnyRecord>, m: Memo, sink: Sink)
    ensures var (rest', m', out) := NextFor(rest, m, sink);
      NextBytes(EncodeAll(rest), m, sink) == (EncodeAll(rest'), m', Told(out))
  {
    ReadFollows(rest, Resume(m, sink).0, sink);
  }

  // ----- whole readings -----

  /** n calls of next: what is left, everything returned, and whether a call threw. */
  function Calls(bytes: seq<Byte>, m: Memo, sink: Sink, n: nat): (seq<Byte>, Memo, seq<Emitted>, bool)
    decreases n
  {
    if n == 0 then (bytes, m, [], false)
    else
      match NextBytes(bytes, m, sink)
      case (bytes', m', Threw) => (bytes', m', [], true)
      case (bytes', m', Nothing) => Calls(bytes', m', sink, n - 1)
      case (bytes', m', Gave(out)) =>
        var (end, last, more, threw) := Calls(bytes', m', sink, n - 1);
        (end, last, [out] + more, threw)
  }

  /** What a series of calls did, from rest and m to end and last: Exact, but for a list. */
  predicate Delivered(rest: seq<AnyRecord>, m: Memo, end: seq<AnyRecord>, last: Memo, out: seq<Emitted>, sink: Sink) {
    && Gentle(last, sink)
    && Surfacing(Unread(rest, m), sink.Answers?) == out + Surfacing(Unread(end, last), sink.Answers?)
    && (sink.Answers? ==> m.approved + Gates(Unread(rest, m)) == last.approved + Gates(Unread(end, last)))
  }

  lemma Chain(rest: seq<AnyRecord>, m: Memo, mid: seq<AnyRecord>, m': Memo, first: Option<Emitted>,
              end: seq<AnyRecord>, last: Memo, more: seq<Emitted>, sink: Sink)
    requires Exact(rest, m, mid, m', first, sink) && Delivered(mid, m', end, last, more, sink)
    ensures Delivered(rest, m, end, last, Out(first) + more, sink)
  {
    var tail := Surfacing(Unread(end, last), sink.Answers?);
    assert Out(first) + (more + tail) == Out(first) + more + tail;
  }

  lemma CallsUnfold(bytes: seq<Byte>, m: Memo, sink: Sink, n: nat, bytes': seq<Byte>, m': Memo, out: Option<Emitted>)
    requires n > 0 && NextBytes(bytes, m, sink) == (bytes', m', Told(out))
    ensures var (end, last, more, threw) := Calls(bytes', m', sink, n - 1);
      Calls(bytes, m, sink, n) == (end, last, Out(out) + more, threw)
  {
    var more := Calls(bytes', m', sink, n - 1).2;
    assert [] + more == more;
  }

  /** n calls on the written records rest leave end to be read, without an exception. */
  predicate Whole(rest: seq<AnyRecord>, m: Memo, sink: Sink, n: nat, end: seq<AnyRecord>) {
    var (bytes, last, out, threw) := Calls(EncodeAll(rest), m, sink, n);
    bytes == EncodeAll(end) && !threw && Delivered(rest, m, end, last, out, sink)
  }

  lemma WholeNone(rest: seq<AnyRecord>, m: Memo, sink: Sink)
    requires Gentle(m, sink)
    ensures Whole(rest, m, sink, 0, rest)
  {
  }

  lemma FirstCall(rest: seq<AnyRecord>, m: Memo, sink: Sink)
      returns (rest': seq<AnyRecord>, m': Memo, out: Option<Emitted>)
    requires Gentle(m, sink)
    ensures NextBytes(EncodeAll(rest), m, sink) == (EncodeAll(rest'), m', Told(out))
    ensures Exact(rest, m, rest', m', out, sink) && Gentle(m', sink)
  {
    NextExact(rest, m, sink);
    NextFollows(rest, m, sink);
    var next := NextFor(rest, m, sink);
    rest', m', out := next.0, next.1, next.2;
  }

  lemma WholeStep(rest: seq<AnyRecord>, m: Memo, sink: Sink, n: nat, rest': seq<AnyRecord>, m': Memo,
                  out: Option<Emitted>, end: seq<AnyRecord>)
    requires n > 0 && NextBytes(EncodeAll(rest), m, sink) == (EncodeAll(rest'), m', Told(out))
    requires Exact(rest, m, rest', m', out, sink) && Whole(rest', m', sink, n - 1, end)
    ensures Whole(rest, m, sink, n, end)
  {
    CallsUnfold(EncodeAll(rest), m, sink, n, EncodeAll(rest'), m', out);
    var (_, last, more, _) := Calls(EncodeAll(rest'), m', sink, n - 1);
    Chain(rest, m, rest', m', out, end, last, more, sink);
  }

  lemma {:induction false} CallsExact(rest: seq<AnyRecord>, m: Memo, sink: Sink, n: nat) returns (end: seq<AnyRecord>)
    requires Gentle(m, sink)
    ensures Whole(rest, m, sink, n, end)
    decreases n
  {
    if n == 0 {
      end := rest;
      WholeNone(rest, m, sink);
    } else {
      var rest', m', out := FirstCall(rest, m, sink);
      end := CallsExact(rest', m', sink, n - 1);
      WholeStep(rest, m, sink, n, rest', m', out, end);
    }
  }

  lemma Split<T>(a: seq<T>, b: seq<T>, c: seq<T>)
    requires c == a + b
    ensures a <= c && (b == [] ==> a == c)
  {
  }

  /** The reader is exact for any list of written records, any number of calls and any behaviour of the
      sink: no call throws; what it has returned is a prefix, in order, of the instructions and signal
      records; what the sink approved is a prefix of the gated records, each of them once; and when no bytes
      are left and nothing is held, both are complete. */
  lemma ReaderExact(rs: seq<AnyRecord>, sink: Sink, n: nat)
    ensures var (bytes, last, out, threw) := Calls(EncodeAll(rs), Fresh, sink, n);
      && !threw
      && out <= Surfacing(rs, sink.Answers?)
      && (sink.Answers? ==> last.approved <= Gates(rs))
      && (bytes == [] && last.held.None? ==>
            out == Surfacing(rs, sink.Answers?) && (sink.Answers? ==> last.approved == Gates(rs)))
  {
    assert Unread(rs, Fresh) == rs;
    var end := CallsExact(rs, Fresh, sink, n);
    var (_, last, out, _) := Calls(EncodeAll(rs), Fresh, sink, n);
    assert [] + Gates(rs) == Gates(rs);
    FirstOfAll(end);
    Split(out, Surfacing(Unread(end, last), sink.Answers?), Surfacing(rs, sink.Answers?));
    if sink.Answers? { Split(last.approved, Gates(Unread(end, last)), Gates(rs)); }
  }

  // ----- in place -----

  lemma HeaderShape(before: seq<Byte>, fields: seq<Byte>, pad: seq<Byte>)
    ensures before + Magic + fields + pad == before + (Magic + (fields + pad))
  {
  }

  class Writer {
    var out: seq<Byte>
    var headerWritten: bool
    var recordsWritten: nat

    constructor ()
      ensures out == [] && !headerWritten && recordsWritten == 0
    {
      out, headerWritten, recordsWritten := [], false, 0;
    }

    /** Writes once; false stands for the exception. */
    method WriteHeader(h: Header) returns (ok: bool)
      modifies this
      ensures ok == !old(headerWritten)
      ensures ok ==> out == old(out) + EncodeHeader(h) && headerWritten && recordsWritten == old(recordsWritten)
      ensures !ok ==> out == old(out) && headerWritten == old(headerWritten) && recordsWritten == old(recordsWritten)
    {
      if headerWritten { return false; }
      out := out + Magic;
      PutFields(HeaderFields(h));
      PutField(4, 0);
      headerWritten := true;
      HeaderShape(old(out), Put(HeaderFields(h)), Le(4, 0));
      return true;
    }

    /** put_u8 to put_u64 and put_pad. */
    method PutField(width: nat, value: nat)
      modifies this`out
      ensures out == old(out) + Le(width, value)
    {
      var left: nat, v: nat := width, value;
      while left > 0
        invariant out + Le(left, v) == old(out) + Le(width, value)
      {
        ghost var before := out;
        out := out + [v % 256];
        assert before + Le(left, v) == out + Le(left - 1, v / 256);
        left, v := left - 1, v / 256;
      }
      assert out + [] == out;
    }

    method PutFields(fields: seq<Field>)
      modifies this`out
      ensures out == old(out) + Put(fields)
    {
      var rest := fields;
      while rest != []
        invariant out + Put(rest) == old(out) + Put(fields)
        decreases |rest|
      {
        ghost var before := out;
        PutField(rest[0].width, rest[0].value);
        assert before + Put(rest) == out + Put(rest[1..]);
        rest := rest[1..];
      }
      assert out + [] == out;
    }

    /** A type byte and the fields of a frame. */
    method PutFrame(kind: Byte, fields: seq<Field>)
      modifies this`out
      ensures out == old(out) + ([kind] + Put(fields))
    {
      out := out + [kind];
      PutFields(fields);
    }

    /** A record before the header is refused. */
    method Write(r: AnyRecord) returns (ok: bool)
      modifies this
      ensures ok == old(headerWritten) && headerWritten == old(headerWritten)
      ensures out == old(out) + (if ok then Encode(r) else [])
      ensures recordsWritten == old(recordsWritten) + (if ok then 1 else 0)
    {
      if !headerWritten { return false; }
      PutFrame(TypeOf(r), Payload(r));
      recordsWritten := recordsWritten + 1;
      return true;
    }
  }

  class Reader {
    var bytes: seq<Byte>
    var pending: Option<SyncRec>
    var polls: nat
    ghost var approved: seq<SyncRec>
    const sink: Sink

    ghost function View(): Memo
      reads this
    {
      Memo(pending, polls, approved)
    }

    constructor (bytes: seq<Byte>, sink: Sink)
      ensures this.bytes == bytes && View() == Fresh && this.sink == sink
    {
      this.bytes, pending, polls, approved := bytes, None, 0, [];
      this.sink := sink;
    }

    /** try_consume on the sink, for a fresh record or for the one already held. */
    method Consult(s: SyncRec) returns (yes: bool)
      requires sink.Answers?
      modifies this`polls, this`pending, this`approved
      ensures yes == sink.yes(old(polls), s)
      ensures View() == Ask(s, old(View()), sink).0
    {
      yes := sink.yes(polls, s);
      polls := polls + 1;
      if yes {
        pending := None;
        approved := approved + [s];
      } else {
        pending := Some(s);
      }
    }

    /** The next record for the core; Nothing when a gate is shut or the stream has ended. */
    method NextRecord() returns (out: Outcome)
      modifies this
      ensures (bytes, View(), out) == NextBytes(old(bytes), old(View()), sink)
    {
      if pending.Some? {
        if sink.NoSink? { return Nothing; }
        var held := pending.value;
        var yes := Consult(held);
        if !yes { return Nothing; }
        if Surfaces(held) { return Gave(PseudoOf(held)); }
      }
      while true
        invariant ReadBytes(bytes, View(), sink) == NextBytes(old(bytes), old(View()), sink)
        decreases |bytes|
      {
        var next := NextAny(bytes);
        if next.End? { return Nothing; }
        if next.Malformed? { return Threw; }
        bytes := next.rest;
        if next.rec.Instruction? { return Gave(Real(next.rec.instr)); }
        if next.rec.Lifecycle? || sink.NoSink? { continue; }
        var s := next.rec.sync;
        if Gated(s) {
          var yes := Consult(s);
          if !yes { return Nothing; }
        }
        if Surfaces(s) { return Gave(PseudoOf(s)); }
      }
    }
  }
}
