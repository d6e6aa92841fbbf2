/** The CasimV2 trace format: 64-byte frames behind a 32-byte header, all numbers little-endian. */
module TraceCodec {
  import opened Options

  type Byte = b: nat | b < 0x100
  type U16 = x: nat | x < 0x1_0000
  type U32 = x: nat | x < 0x1_0000_0000
  type U64 = x: nat | x < 0x1_0000_0000_0000_0000

  // ----- numbers -----

  function Pow256(w: nat): nat { if w == 0 then 1 else 256 * Pow256(w - 1) }

  /** v in w bytes, the lowest first. */
  function Le(w: nat, v: nat): (r: seq<Byte>)
    ensures |r| == w
  {
    if w == 0 then [] else [v % 256] + Le(w - 1, v / 256)
  }

  function FromLe(bs: seq<Byte>): nat { if bs == [] then 0 else bs[0] + 256 * FromLe(bs[1..]) }

  lemma {:induction false} LeRoundTrip(w: nat, v: nat)
    requires v < Pow256(w)
    ensures FromLe(Le(w, v)) == v
  {
    if w > 0 {
      LeRoundTrip(w - 1, v / 256);
      assert Le(w, v)[1..] == Le(w - 1, v / 256);
    }
  }

  // ----- layouts -----

  /** A number and its width in the file; padding is a number that is written as 0 and not looked at. */
  datatype Field = Field(width: nat, value: nat)

  predicate Fits(f: Field) { f.value < Pow256(f.width) }

  function Put(fields: seq<Field>): seq<Byte> {
    if fields == [] then [] else Le(fields[0].width, fields[0].value) + Put(fields[1..])
  }

  function Widths(fields: seq<Field>): (r: seq<nat>)
    ensures |r| == |fields| && forall i :: 0 <= i < |fields| ==> r[i] == fields[i].width
  {
    seq(|fields|, i requires 0 <= i < |fields| => fields[i].width)
  }

  function Values(fields: seq<Field>): (r: seq<nat>)
    ensures |r| == |fields| && forall i :: 0 <= i < |fields| ==> r[i] == fields[i].value
  {
    seq(|fields|, i requires 0 <= i < |fields| => fields[i].value)
  }

  /** Read numbers of the given widths off the front; None when the bytes run out. */
  function Get(widths: seq<nat>, bs: seq<Byte>): (r: Option<(seq<nat>, seq<Byte>)>)
    ensures r.Some? ==> |r.value.0| == |widths| && |r.value.1| <= |bs|
  {
    if widths == [] then Some(([], bs))
    else if |bs| < widths[0] then None
    else
      match Get(widths[1..], bs[widths[0]..])
      case None => None
      case Some((values, rest)) => Some(([FromLe(bs[..widths[0]])] + values, rest))
  }

  lemma GetFirst(f: Field, widths: seq<nat>, more: seq<Byte>)
    requires Fits(f) && widths != [] && widths[0] == f.width
    ensures Get(widths, Le(f.width, f.value) + more) ==
            match Get(widths[1..], more) case None => None case Some((v, rest)) => Some(([f.value] + v, rest))
  {
    var bs := Le(f.width, f.value) + more;
    assert bs[..f.width] == Le(f.width, f.value) && bs[f.width..] == more;
    LeRoundTrip(f.width, f.value);
  }

  /** Whatever was put in some layout is got back in that layout, and what follows stays. */
  lemma {:induction false} PutGet(fields: seq<Field>, rest: seq<Byte>)
    requires forall i :: 0 <= i < |fields| ==> Fits(fields[i])
    ensures Get(Widths(fields), Put(fields) + rest) == Some((Values(fields), rest))
  {
    if fields == [] {
      assert Put(fields) + rest == rest;
    } else {
      var more := Put(fields[1..]) + rest;
      assert Fits(fields[0]);
      assert Put(fields) + rest == Le(fields[0].width, fields[0].value) + more;
      GetFirst(fields[0], Widths(fields), more);
      PutGet(fields[1..], rest);
      assert Widths(fields)[1..] == Widths(fields[1..]);
      assert [fields[0].value] + Values(fields[1..]) == Values(fields);
    }
  }

  lemma {:induction false} PutLength(fields: seq<Field>)
    ensures |Put(fields)| == Total(Widths(fields))
  {
    if fields != [] {
      PutLength(fields[1..]);
      assert Widths(fields)[1..] == Widths(fields[1..]);
    }
  }

  function Total(widths: seq<nat>): nat { if widths == [] then 0 else widths[0] + Total(widths[1..]) }

  // ----- records -----

  /** Two destination registers, four source registers, two destination and four source addresses. */
  datatype Instr = Instr(
    ip: U64, isBranch: bool, taken: bool, isMul: bool,
    dreg0: Byte, dreg1: Byte, sreg0: Byte, sreg1: Byte, sreg2: Byte, sreg3: Byte,
    dmem0: U64, dmem1: U64, smem0: U64, smem1: U64, smem2: U64, smem3: U64)

  /** The kind is stored raw: 1 LockAcquire, 2 LockRelease, 3 BarrierArrive, 4 BarrierLeave, 5 to 7 atomics,
      8 to 10 condition variables. */
  datatype SyncRec = SyncRec(kind: Byte, addr: U64, seqno: U64, arg: U64, ip: U64, time: U64)

  datatype LifeRec = LifeRec(kind: Byte, peer: U32, ip: U64)

  datatype AnyRecord = Instruction(instr: Instr) | Sync(sync: SyncRec) | Lifecycle(life: LifeRec)

  function Bit(b: bool): nat { if b then 1 else 0 }

  function Flags(r: Instr): nat { Bit(r.isBranch) + 2 * Bit(r.taken) + 4 * Bit(r.isMul) }

  /** The fields after the type byte. */
  function Payload(r: AnyRecord): seq<Field> {
    match r
    case Instruction(i) =>
      [Field(1, Flags(i)), Field(8, i.ip),
       Field(1, i.dreg0), Field(1, i.dreg1), Field(1, i.sreg0), Field(1, i.sreg1), Field(1, i.sreg2), Field(1, i.sreg3),
       Field(8, i.dmem0), Field(8, i.dmem1), Field(8, i.smem0), Field(8, i.smem1), Field(8, i.smem2), Field(8, i.smem3)]
    case Sync(s) =>
      [Field(1, s.kind), Field(6, 0), Field(8, s.addr), Field(8, s.seqno), Field(8, s.arg), Field(8, s.ip),
       Field(8, s.time), Field(16, 0)]
    case Lifecycle(l) => [Field(1, l.kind), Field(2, 0), Field(4, l.peer), Field(8, l.ip), Field(48, 0)]
  }

  function TypeOf(r: AnyRecord): Byte { match r case Instruction(_) => 0 case Sync(_) => 1 case Lifecycle(_) => 2 }

  /** Writer::write. */
  function Encode(r: AnyRecord): seq<Byte> { [TypeOf(r)] + Put(Payload(r)) }

  /** The layouts the reader expects. */
  const InstrWidths: seq<nat> := [1, 8, 1, 1, 1, 1, 1, 1, 8, 8, 8, 8, 8, 8]
  const SyncWidths: seq<nat> := [1, 6, 8, 8, 8, 8, 8, 16]
  const LifeWidths: seq<nat> := [1, 2, 4, 8, 48]

  /** A record and what follows it, the clean end of the stream, or the exception for a truncated frame or
      an unknown type byte. */
  datatype Next = Got(rec: AnyRecord, rest: seq<Byte>) | End | Malformed

  /** Numbers that were read fit their types. */
  lemma {:induction false} FromLeBound(bs: seq<Byte>)
    ensures FromLe(bs) < Pow256(|bs|)
  {
    if bs != [] { FromLeBound(bs[1..]); }
  }

  lemma {:induction false} GetBound(widths: seq<nat>, bs: seq<Byte>)
    ensures var r := Get(widths, bs);
      r.Some? ==> forall i :: 0 <= i < |widths| ==> r.value.0[i] < Pow256(widths[i])
  {
    if widths != [] && |bs| >= widths[0] {
      FromLeBound(bs[..widths[0]]);
      GetBound(widths[1..], bs[widths[0]..]);
    }
  }

  lemma Powers()
    ensures Pow256(1) == 0x100 && Pow256(2) == 0x1_0000 && Pow256(4) == 0x1_0000_0000
    ensures Pow256(8) == 0x1_0000_0000_0000_0000
  {
    assert Pow256(3) == 0x100_0000;
    assert Pow256(5) == 0x100_0000_0000;
    assert Pow256(6) == 0x1_0000_0000_0000;
    assert Pow256(7) == 0x100_0000_0000_0000;
  }

  function ReadInstr(bs: seq<Byte>): Next {
    match Get(InstrWidths, bs)
    case None => Malformed
    case Some((v, rest)) =>
      GetBound(InstrWidths, bs);
      Powers();
      Got(Instruction(Instr(v[1], v[0] % 2 == 1, v[0] / 2 % 2 == 1, v[0] / 4 % 2 == 1,
                            v[2], v[3], v[4], v[5], v[6], v[7], v[8], v[9], v[10], v[11], v[12], v[13])), rest)
  }

  function ReadSync(bs: seq<Byte>): Next {
    match Get(SyncWidths, bs)
    case None => Malformed
    case Some((v, rest)) =>
      GetBound(SyncWidths, bs);
      Powers();
      Got(Sync(SyncRec(v[0], v[2], v[3], v[4], v[5], v[6])), rest)
  }

  function ReadLife(bs: seq<Byte>): Next {
    match Get(LifeWidths, bs)
    case None => Malformed
    case Some((v, rest)) =>
      GetBound(LifeWidths, bs);
      Powers();
      Got(Lifecycle(LifeRec(v[0], v[2], v[3])), rest)
  }

  /** Reader::next_any. */
  function NextAny(bs: seq<Byte>): (r: Next)
    ensures r.Got? ==> |r.rest| < |bs|
  {
    if bs == [] then End
    else if bs[0] == 0 then ReadInstr(bs[1..])
    else if bs[0] == 1 then ReadSync(bs[1..])
    else if bs[0] == 2 then ReadLife(bs[1..])
    else Malformed
  }

  // ----- round trips -----

  lemma PayloadFits(r: AnyRecord)
    ensures forall i :: 0 <= i < |Payload(r)| ==> Fits(Payload(r)[i])
  {
    Powers();
    Zeros(r);
  }

  /** Padding is zeros. */
  lemma Zeros(r: AnyRecord)
    ensures forall w: nat :: 0 < Pow256(w)
  {
    forall w: nat ensures 0 < Pow256(w) { PowPositive(w); }
  }

  lemma {:induction false} PowPositive(w: nat)
    ensures Pow256(w) > 0
  {
    if w > 0 { PowPositive(w - 1); }
  }

  lemma FlagsRoundTrip(r: Instr)
    ensures Flags(r) < 8
    ensures (Flags(r) % 2 == 1) == r.isBranch && (Flags(r) / 2 % 2 == 1) == r.taken &&
      (Flags(r) / 4 % 2 == 1) == r.isMul
  {
  }

  lemma InstrRoundTrip(i: Instr, rest: seq<Byte>)
    ensures ReadInstr(Put(Payload(Instruction(i))) + rest) == Got(Instruction(i), rest)
  {
    var fields := Payload(Instruction(i));
    PayloadFits(Instruction(i));
    PutGet(fields, rest);
    assert Widths(fields) == InstrWidths;
    FlagsRoundTrip(i);
  }

  lemma SyncRoundTrip(s: SyncRec, rest: seq<Byte>)
    ensures ReadSync(Put(Payload(Sync(s))) + rest) == Got(Sync(s), rest)
  {
    var fields := Payload(Sync(s));
    PayloadFits(Sync(s));
    PutGet(fields, rest);
    assert Widths(fields) == SyncWidths;
  }

  lemma LifeRoundTrip(l: LifeRec, rest: seq<Byte>)
    ensures ReadLife(Put(Payload(Lifecycle(l))) + rest) == Got(Lifecycle(l), rest)
  {
    var fields := Payload(Lifecycle(l));
    PayloadFits(Lifecycle(l));
    PutGet(fields, rest);
    assert Widths(fields) == LifeWidths;
  }

  lemma NextIs(t: Byte, body: seq<Byte>)
    ensures NextAny([t] + body) ==
            if t == 0 then ReadInstr(body)
            else if t == 1 then ReadSync(body)
            else if t == 2 then ReadLife(body)
            else Malformed
  {
    assert ([t] + body)[1..] == body;
  }

  /** Reading a written record gives it back, and leaves what follows. */
  lemma RecordRoundTrip(r: AnyRecord, rest: seq<Byte>)
    ensures NextAny(Encode(r) + rest) == Got(r, rest)
  {
    var body := Put(Payload(r)) + rest;
    assert Encode(r) + rest == [TypeOf(r)] + body;
    NextIs(TypeOf(r), body);
    match r
    case Instruction(i) => InstrRoundTrip(i, rest);
    case Sync(s) => SyncRoundTrip(s, rest);
    case Lifecycle(l) => LifeRoundTrip(l, rest);
  }

  /** Every frame has 64 bytes. */
  lemma FrameLength(r: AnyRecord)
    ensures |Encode(r)| == 64
  {
    PutLength(Payload(r));
    match r
    case Instruction(i) => assert Widths(Payload(r)) == InstrWidths; InstrTotal();
    case Sync(s) => assert Widths(Payload(r)) == SyncWidths; SyncTotal();
    case Lifecycle(l) => assert Widths(Payload(r)) == LifeWidths; LifeTotal();
  }

  lemma InstrTotal()
    ensures Total(InstrWidths) == 63
  {
    var eights := Copies(8, 6);
    TotalCopies(8, 6, []);
    assert eights + [] == eights;
    var tail := Copies(1, 6) + eights;
    TotalCopies(1, 6, eights);
    TotalCons(8, tail);
    TotalCons(1, [8] + tail);
    assert InstrWidths == [1] + ([8] + tail);
  }

  lemma SyncTotal()
    ensures Total(SyncWidths) == 63
  {
    var tail := Copies(8, 5) + [16];
    TotalCons(16, []);
    assert [16] + [] == [16];
    TotalCopies(8, 5, [16]);
    TotalCons(6, tail);
    TotalCons(1, [6] + tail);
    assert SyncWidths == [1] + ([6] + tail);
  }

  lemma LifeTotal()
    ensures Total(LifeWidths) == 63
  {
    TotalCons(48, []);
    TotalCons(8, [48]);
    TotalCons(4, [8, 48]);
    TotalCons(2, [4, 8, 48]);
    TotalCons(1, [2, 4, 8, 48]);
    assert [48] + [] == [48] && [8] + [48] == [8, 48] && [4] + [8, 48] == [4, 8, 48] &&
      [2] + [4, 8, 48] == [2, 4, 8, 48];
    assert LifeWidths == [1] + [2, 4, 8, 48];
  }

  function Copies(w: nat, n: nat): (r: seq<nat>)
    ensures |r| == n && forall i :: 0 <= i < n ==> r[i] == w
  {
    seq(n, _ => w)
  }

  lemma TotalCons(w: nat, rest: seq<nat>)
    ensures Total([w] + rest) == w + Total(rest)
  {
    assert ([w] + rest)[1..] == rest;
  }

  lemma {:induction false} TotalCopies(w: nat, n: nat, rest: seq<nat>)
    ensures Total(Copies(w, n) + rest) == w * n + Total(rest)
  {
    if n == 0 { assert Copies(w, 0) + rest == rest; }
    else {
      assert Copies(w, n) + rest == [w] + (Copies(w, n - 1) + rest);
      TotalCons(w, Copies(w, n - 1) + rest);
      TotalCopies(w, n - 1, rest);
    }
  }

  // ----- the bytes of a frame -----

  /** Digit j of v to the base 256. */
  function Digit(v: nat, j: nat): nat { if j == 0 then v % 256 else Digit(v / 256, j - 1) }

  /** The w bytes from at on hold v, the lowest digit first. */
  predicate Stored(bs: seq<Byte>, at: nat, w: nat, v: nat) {
    at + w <= |bs| && forall j :: 0 <= j < w ==> bs[at + j] == Digit(v, j)
  }

  /** Where field k begins. */
  function Offset(fields: seq<Field>, k: nat): nat
    requires k <= |fields|
  {
    if k == 0 then 0 else Offset(fields, k - 1) + fields[k - 1].width
  }

  lemma {:induction false} LeStored(w: nat, v: nat)
    ensures Stored(Le(w, v), 0, w, v)
  {
    if w > 0 {
      LeStored(w - 1, v / 256);
      forall j | 0 <= j < w ensures Le(w, v)[j] == Digit(v, j) {
        if j > 0 { assert Le(w, v)[j] == Le(w - 1, v / 256)[0 + (j - 1)]; }
      }
    }
  }

  lemma {:induction false} OffsetTail(fields: seq<Field>, k: nat)
    requires 0 < k <= |fields|
    ensures Offset(fields, k) == fields[0].width + Offset(fields[1..], k - 1)
  {
    if k > 1 { OffsetTail(fields, k - 1); }
  }

  lemma {:induction false} PutStored(pre: seq<Byte>, fields: seq<Field>, k: nat)
    requires k < |fields|
    ensures Stored(pre + Put(fields), |pre| + Offset(fields, k), fields[k].width, fields[k].value)
    decreases k
  {
    var f := fields[0];
    var head := Le(f.width, f.value);
    LeStored(f.width, f.value);
    assert pre + Put(fields) == (pre + head) + Put(fields[1..]);
    if k > 0 {
      PutStored(pre + head, fields[1..], k - 1);
      OffsetTail(fields, k);
    } else {
      forall j | 0 <= j < f.width ensures (pre + Put(fields))[|pre| + j] == head[j] {}
    }
  }

  lemma FieldStored(r: AnyRecord, k: nat)
    requires k < |Payload(r)|
    ensures Stored(Encode(r), 1 + Offset(Payload(r), k), Payload(r)[k].width, Payload(r)[k].value)
  {
    PutStored([TypeOf(r)], Payload(r), k);
  }

  /** Where an instruction's parts are in its frame. */
  lemma InstrLayout(i: Instr)
    ensures var bs := Encode(Instruction(i));
      && Stored(bs, 0, 1, 0)
      && Stored(bs, 1, 1, (if i.isBranch then 1 else 0) + (if i.taken then 2 else 0) + (if i.isMul then 4 else 0))
      && Stored(bs, 2, 8, i.ip)
      && Stored(bs, 10, 1, i.dreg0) && Stored(bs, 11, 1, i.dreg1)
      && Stored(bs, 12, 1, i.sreg0) && Stored(bs, 13, 1, i.sreg1)
      && Stored(bs, 14, 1, i.sreg2) && Stored(bs, 15, 1, i.sreg3)
      && Stored(bs, 16, 8, i.dmem0) && Stored(bs, 24, 8, i.dmem1)
      && Stored(bs, 32, 8, i.smem0) && Stored(bs, 40, 8, i.smem1)
      && Stored(bs, 48, 8, i.smem2) && Stored(bs, 56, 8, i.smem3)
  {
    var r := Instruction(i);
    var f := Payload(r);
    assert Offset(f, 1) == 1;
    assert Offset(f, 2) == 9;
    assert Offset(f, 3) == 10;
    assert Offset(f, 4) == 11;
    assert Offset(f, 5) == 12;
    assert Offset(f, 6) == 13;
    assert Offset(f, 7) == 14;
    assert Offset(f, 8) == 15;
    assert Offset(f, 9) == 23;
    assert Offset(f, 10) == 31;
    assert Offset(f, 11) == 39;
    assert Offset(f, 12) == 47;
    assert Offset(f, 13) == 55;
    forall k: nat | k < |f| ensures Stored(Encode(r), 1 + Offset(f, k), f[k].width, f[k].value) { FieldStored(r, k); }
  }

  /** Where a sync record's parts are; the rest is zeros. */
  lemma SyncLayout(s: SyncRec)
    ensures var bs := Encode(Sync(s));
      && Stored(bs, 0, 1, 1) && Stored(bs, 1, 1, s.kind) && Stored(bs, 2, 6, 0)
      && Stored(bs, 8, 8, s.addr) && Stored(bs, 16, 8, s.seqno) && Stored(bs, 24, 8, s.arg)
      && Stored(bs, 32, 8, s.ip) && Stored(bs, 40, 8, s.time) && Stored(bs, 48, 16, 0)
  {
    var r := Sync(s);
    var f := Payload(r);
    assert Offset(f, 1) == 1;
    assert Offset(f, 2) == 7;
    assert Offset(f, 3) == 15;
    assert Offset(f, 4) == 23;
    assert Offset(f, 5) == 31;
    assert Offset(f, 6) == 39;
    assert Offset(f, 7) == 47;
    forall k: nat | k < |f| ensures Stored(Encode(r), 1 + Offset(f, k), f[k].width, f[k].value) { FieldStored(r, k); }
  }

  /** Where a lifecycle record's parts are; the rest is zeros. */
  lemma LifeLayout(l: LifeRec)
    ensures var bs := Encode(Lifecycle(l));
      && Stored(bs, 0, 1, 2) && Stored(bs, 1, 1, l.kind) && Stored(bs, 2, 2, 0) && Stored(bs, 4, 4, l.peer)
      && Stored(bs, 8, 8, l.ip) && Stored(bs, 16, 48, 0)
  {
    var r := Lifecycle(l);
    var f := Payload(r);
    assert Offset(f, 1) == 1;
    assert Offset(f, 2) == 3;
    assert Offset(f, 3) == 7;
    assert Offset(f, 4) == 15;
    forall k: nat | k < |f| ensures Stored(Encode(r), 1 + Offset(f, k), f[k].width, f[k].value) { FieldStored(r, k); }
  }

  // ----- whole streams -----

  function EncodeAll(rs: seq<AnyRecord>): seq<Byte> { if rs == [] then [] else Encode(rs[0]) + EncodeAll(rs[1..]) }

  /** next_any until it stops, and whether it stopped at a clean end. */
  function ReadAll(bs: seq<Byte>): (seq<AnyRecord>, bool)
    decreases |bs|
  {
    match NextAny(bs)
    case End => ([], true)
    case Malformed => ([], false)
    case Got(r, rest) => var (more, clean) := ReadAll(rest); ([r] + more, clean)
  }

  lemma FirstOfAll(rs: seq<AnyRecord>)
    ensures NextAny(EncodeAll(rs)) == if rs == [] then End else Got(rs[0], EncodeAll(rs[1..]))
  {
    if rs != [] { RecordRoundTrip(rs[0], EncodeAll(rs[1..])); }
  }

  /** next_any returns exactly the written list, and then the end of the stream. */
  lemma {:induction false} StreamRoundTrip(rs: seq<AnyRecord>)
    ensures ReadAll(EncodeAll(rs)) == (rs, true)
  {
    FirstOfAll(rs);
    if rs != [] {
      StreamRoundTrip(rs[1..]);
      assert rs == [rs[0]] + rs[1..];
    }
  }

  /** Too few bytes for a layout. */
  lemma {:induction false} GetShort(widths: seq<nat>, bs: seq<Byte>)
    requires |bs| < Total(widths)
    ensures Get(widths, bs).None?
  {
    if |bs| >= widths[0] { GetShort(widths[1..], bs[widths[0]..]); }
  }

  /** What is read is as long as the layout, and what follows is left. */
  lemma {:induction false} GetLength(widths: seq<nat>, bs: seq<Byte>)
    ensures var r := Get(widths, bs);
      && (r.Some? <==> |bs| >= Total(widths)) && (r.Some? ==> r.value.1 == bs[Total(widths)..])
  {
    if widths != [] && |bs| >= widths[0] {
      GetLength(widths[1..], bs[widths[0]..]);
      if |bs| >= Total(widths) { assert bs[widths[0]..][Total(widths[1..])..] == bs[Total(widths)..]; }
    }
  }

  /** Of any bytes at all: the end comes only where there are none; the exception where the type is unknown or there is
      no whole frame; otherwise one frame is taken. */
  lemma NextAnyMeans(bs: seq<Byte>)
    ensures NextAny(bs).End? <==> bs == []
    ensures NextAny(bs).Malformed? <==> bs != [] && (bs[0] > 2 || |bs| < 64)
    ensures NextAny(bs).Got? ==> |bs| >= 64 && NextAny(bs).rest == bs[64..] && bs[0] == TypeOf(NextAny(bs).rec)
  {
    if bs != [] {
      InstrTaken(bs[1..]);
      SyncTaken(bs[1..]);
      LifeTaken(bs[1..]);
      if |bs| >= 64 { assert bs[1..][63..] == bs[64..]; }
    }
  }

  /** 63 bytes are taken, where there are as many. */
  predicate Takes(bs: seq<Byte>, r: Next) {
    if |bs| < 63 then r.Malformed? else r.Got? && r.rest == bs[63..]
  }

  lemma InstrTaken(bs: seq<Byte>)
    ensures Takes(bs, ReadInstr(bs)) && (ReadInstr(bs).Got? ==> ReadInstr(bs).rec.Instruction?)
  {
    InstrTotal();
    GetLength(InstrWidths, bs);
  }

  lemma SyncTaken(bs: seq<Byte>)
    ensures Takes(bs, ReadSync(bs)) && (ReadSync(bs).Got? ==> ReadSync(bs).rec.Sync?)
  {
    SyncTotal();
    GetLength(SyncWidths, bs);
  }

  lemma LifeTaken(bs: seq<Byte>)
    ensures Takes(bs, ReadLife(bs)) && (ReadLife(bs).Got? ==> ReadLife(bs).rec.Lifecycle?)
  {
    LifeTotal();
    GetLength(LifeWidths, bs);
  }

  lemma CutFrame(r: AnyRecord, n: nat)
    requires 0 < n < 64
    ensures |Encode(r)| == 64 && NextAny(Encode(r)[..n]).Malformed?
  {
    FrameLength(r);
    var bs := Encode(r)[..n];
    assert bs[0] == TypeOf(r) && |bs[1..]| < 63;
    match r
    case Instruction(_) => InstrTotal(); GetShort(InstrWidths, bs[1..]);
    case Sync(_) => SyncTotal(); GetShort(SyncWidths, bs[1..]);
    case Lifecycle(_) => LifeTotal(); GetShort(LifeWidths, bs[1..]);
  }

  lemma FirstFrame(rs: seq<AnyRecord>, cut: seq<Byte>)
    requires rs != []
    ensures EncodeAll(rs) + cut == Encode(rs[0]) + (EncodeAll(rs[1..]) + cut)
  {
  }

  lemma {:induction false} ReadUpTo(rs: seq<AnyRecord>, cut: seq<Byte>)
    requires NextAny(cut).Malformed?
    ensures ReadAll(EncodeAll(rs) + cut) == (rs, false)
  {
    if rs == [] {
      assert EncodeAll(rs) + cut == cut;
      ReadStops(cut);
    } else {
      var rest := EncodeAll(rs[1..]) + cut;
      ReadUpTo(rs[1..], cut);
      ReadAfter(rs[0], rest);
      FirstFrame(rs, cut);
      assert rs == [rs[0]] + rs[1..];
    }
  }

  /** A stream cut inside a frame is noticed: the whole records before it are read, then the exception. */
  lemma TruncationNoticed(rs: seq<AnyRecord>, r: AnyRecord, n: nat)
    requires 0 < n < 64
    ensures |Encode(r)| == 64 && ReadAll(EncodeAll(rs) + Encode(r)[..n]) == (rs, false)
  {
    CutFrame(r, n);
    ReadUpTo(rs, Encode(r)[..n]);
  }

  lemma ReadStops(bs: seq<Byte>)
    requires NextAny(bs).Malformed?
    ensures ReadAll(bs) == ([], false)
  {
  }

  lemma ReadAfter(r: AnyRecord, rest: seq<Byte>)
    ensures ReadAll(Encode(r) + rest) == ([r] + ReadAll(rest).0, ReadAll(rest).1)
  {
    RecordRoundTrip(r, rest);
  }

  // ----- the file header -----

  datatype Header = Header(version: U16, size: U16, thread: U32, threads: U32, program: U64)

  /** CASIMTR2. */
  const Magic: seq<Byte> := [0x43, 0x41, 0x53, 0x49, 0x4d, 0x54, 0x52, 0x32]
  const HeaderWidths: seq<nat> := [2, 2, 4, 4, 8]

  function HeaderFields(h: Header): seq<Field> {
    [Field(2, h.version), Field(2, h.size), Field(4, h.thread), Field(4, h.threads), Field(8, h.program)]
  }

  /** write_header: always 32 bytes, whatever size the header claims. */
  function EncodeHeader(h: Header): seq<Byte> { Magic + (Put(HeaderFields(h)) + Le(4, 0)) }

  /** NoHeader when the magic is missing; Broken for the exceptions. */
  datatype HeaderResult = Read(header: Header, rest: seq<Byte>) | NoHeader | Broken

  /** The reader skips what the header says it has beyond the 28 bytes it knows. */
  function DecodeHeader(bs: seq<Byte>): HeaderResult {
    if |bs| < 8 || bs[..8] != Magic then NoHeader
    else
      match Get(HeaderWidths, bs[8..])
      case None => Broken
      case Some((v, rest)) =>
        GetBound(HeaderWidths, bs[8..]);
        Powers();
        if v[1] < 32 || |rest| < v[1] - 28 then Broken
        else Read(Header(v[0], v[1], v[2], v[3], v[4]), rest[v[1] - 28..])
  }

  lemma HeaderParsed(h: Header, rest: seq<Byte>)
    ensures DecodeHeader(EncodeHeader(h) + rest) ==
            if h.size < 32 || 4 + |rest| < h.size - 28 then Broken
            else Read(h, (Le(4, 0) + rest)[h.size - 28..])
  {
    var bs := EncodeHeader(h) + rest;
    var fields := HeaderFields(h);
    Powers();
    assert forall i :: 0 <= i < |fields| ==> Fits(fields[i]);
    assert bs[..8] == Magic && bs[8..] == Put(fields) + (Le(4, 0) + rest);
    PutGet(fields, Le(4, 0) + rest);
    assert Widths(fields) == HeaderWidths;
  }

  /** The header round-trips, whatever follows it, exactly when it claims the 32 bytes it is written with;
      a caller that sets another size makes the reader fail or skip records. */
  lemma HeaderRoundTrip(h: Header)
    ensures (forall rest: seq<Byte> :: DecodeHeader(EncodeHeader(h) + rest) == Read(h, rest)) <==> h.size == 32
  {
    if h.size == 32 {
      forall rest: seq<Byte> ensures DecodeHeader(EncodeHeader(h) + rest) == Read(h, rest) {
        HeaderParsed(h, rest);
        assert (Le(4, 0) + rest)[4..] == rest;
      }
    } else {
      HeaderParsed(h, []);
      assert DecodeHeader(EncodeHeader(h) + []) != Read(h, []);
    }
  }

  /** A written file reads back: header, then records, then the end. */
  lemma FileRoundTrip(h: Header, rs: seq<AnyRecord>)
    requires h.size == 32
    ensures DecodeHeader(EncodeHeader(h) + EncodeAll(rs)) == Read(h, EncodeAll(rs))
    ensures ReadAll(EncodeAll(rs)) == (rs, true)
  {
    HeaderRoundTrip(h);
    StreamRoundTrip(rs);
  }

  /** Where the header's parts are. */
  lemma HeaderLayout(h: Header)
    ensures var bs := EncodeHeader(h);
      && |bs| == 32 && bs[..8] == [0x43, 0x41, 0x53, 0x49, 0x4d, 0x54, 0x52, 0x32]
      && Stored(bs, 8, 2, h.version) && Stored(bs, 10, 2, h.size) && Stored(bs, 12, 4, h.thread)
      && Stored(bs, 16, 4, h.threads) && Stored(bs, 20, 8, h.program) && Stored(bs, 28, 4, 0)
  {
    var f := HeaderFields(h) + [Field(4, 0)];
    PutBoth(HeaderFields(h), [Field(4, 0)]);
    assert [Field(4, 0)][1..] == [] && Put([Field(4, 0)]) == Le(4, 0) + [] == Le(4, 0);
    assert EncodeHeader(h) == Magic + Put(f);
    OffsetLength(f);
    assert Offset(f, 1) == 2;
    assert Offset(f, 2) == 4;
    assert Offset(f, 3) == 8;
    assert Offset(f, 4) == 12;
    assert Offset(f, 5) == 20;
    assert Offset(f, 6) == 24;
    forall k: nat | k < |f| ensures Stored(Magic + Put(f), 8 + Offset(f, k), f[k].width, f[k].value) {
      PutStored(Magic, f, k);
    }
  }

  lemma {:induction false} PutBoth(a: seq<Field>, b: seq<Field>)
    ensures Put(a + b) == Put(a) + Put(b)
  {
    if a == [] { assert a + b == b; }
    else {
      assert (a + b)[0] == a[0] && (a + b)[1..] == a[1..] + b;
      PutBoth(a[1..], b);
    }
  }

  lemma {:induction false} OffsetLength(fields: seq<Field>)
    ensures |Put(fields)| == Offset(fields, |fields|)
  {
    if fields != [] {
      OffsetLength(fields[1..]);
      OffsetTail(fields, |fields|);
    }
  }
}
