/** Vocabulary shared by the five directory protocols: message kinds, agent and
    directory states, the directory entry, and the presence-vector arithmetic. */
module CoherenceTypes {
  import opened Options

  datatype Protocol = MI | MSI | MESI | MOSI | MOESIF

  datatype Op = Load | Store

  /** Every message kind exchanged in an eviction-free run. */
  datatype Kind =
    | GETS | GETM | GETX                                  // agent to directory, requests
    | INVACK | DATA                                       // agent to directory, answers
    | DATA_E | ACK                                        // directory to agent, grants (with DATA)
    | REQ_INVALID | RECALL_GOTO_I | RECALL_GOTO_S         // directory to agent, demands
  {
    predicate Request() { GETS? || GETM? || GETX? }
    predicate Answer() { INVACK? || DATA? }
    predicate Grant() { DATA? || DATA_E? || ACK? }
    predicate Demand() { REQ_INVALID? || RECALL_GOTO_I? || RECALL_GOTO_S? }
  }

  /** Per-block state of one cache's agent. */
  datatype Agent = I | S | E | M | F | O | IS | IM | SM | EM | FM | OM
  {
    predicate Transient() { IS? || IM? || SM? || EM? || FM? || OM? }
  }

  /** Per-block state of the directory; two-letter states wait for an answer. */
  datatype Dir = M | O | S | I | F | E | FM | SM | MO | MS | MM | OM | ES | EM | OO | EF | FF
  {
    predicate Transient() { !(I? || S? || E? || M? || O? || F?) }
  }

  /** A bag of messages to the directory, as one counter per kind an agent can send. */
  datatype Bag = Bag(gets: nat, getm: nat, getx: nat, invack: nat, data: nat)
  {
    function Has(k: Kind): nat {
      match k
      case GETS => gets case GETM => getm case GETX => getx
      case INVACK => invack case DATA => data
      case _ => 0
    }

    function Put(k: Kind): Bag
      requires k.Request() || k.Answer()
    {
      match k
      case GETS => this.(gets := gets + 1)
      case GETM => this.(getm := getm + 1)
      case GETX => this.(getx := getx + 1)
      case INVACK => this.(invack := invack + 1)
      case DATA => this.(data := data + 1)
    }

    function Take(k: Kind): Bag
      requires Has(k) > 0
    {
      match k
      case GETS => this.(gets := gets - 1)
      case GETM => this.(getm := getm - 1)
      case GETX => this.(getx := getx - 1)
      case INVACK => this.(invack := invack - 1)
      case DATA => this.(data := data - 1)
    }

    function Requests(): nat { gets + getm + getx }

    function Answers(): nat { invack + data }
  }

  /** DirEntry of directory.hpp; o_f_id is an int so that -1 stands for "no owner". */
  datatype Entry = Entry(
    state: Dir,
    presence: seq<bool>,
    sharers: int,
    req: nat,
    owner: int,
    waiting: int,
    upgrade: bool
  )

  /** A response latched by schedule_data_response. */
  datatype Latch = Latch(target: nat, exclusive: bool)

  /** What one directory handler sends. Every handler sends at most one message to a node. */
  datatype Sends =
    | Nothing
    | One(dst: nat, kind: Kind)
    | Invalidate(mask: seq<bool>)
  {
    /** The messages that reach node j. */
    function To(j: nat): (r: seq<Kind>)
      ensures |r| <= 1
    {
      match this
      case Nothing => []
      case One(d, k) => if d == j then [k] else []
      case Invalidate(m) => if j < |m| && m[j] then [REQ_INVALID] else []
    }
  }

  /** What the directory does with the message at the head of its queue. */
  datatype Outcome =
    | Throw
    | Cycle
    | Done(entry: Entry, sends: Sends, latch: Option<Latch>)

  /** What an agent does with one message: its next state, the message it sends to the
      directory, and whether it answers its processor. */
  datatype Reaction =
    | Bad
    | React(next: Agent, send: Option<Kind>, reply: bool)

  // ----- presence vectors -----

  function Count(p: seq<bool>): nat {
    if p == [] then 0 else Count(p[..|p| - 1]) + (if p[|p| - 1] then 1 else 0)
  }

  lemma {:induction false} CountUpdate(p: seq<bool>, i: nat, b: bool)
    requires i < |p|
    ensures Count(p[i := b]) == Count(p) + (if b then 1 else 0) - (if p[i] then 1 else 0)
  {
    var last := |p| - 1;
    if i == last {
      assert p[i := b][..last] == p[..last];
    } else {
      assert p[i := b][..last] == p[..last][i := b];
      CountUpdate(p[..last], i, b);
    }
  }

  lemma {:induction false} CountNone(p: seq<bool>)
    requires forall i :: 0 <= i < |p| ==> !p[i]
    ensures Count(p) == 0
  {
    if p != [] { CountNone(p[..|p| - 1]); }
  }

  /** A positive count has a witness. */
  lemma {:induction false} CountWitness(p: seq<bool>) returns (i: nat)
    requires Count(p) > 0
    ensures i < |p| && p[i]
  {
    if p[|p| - 1] { i := |p| - 1; } else { i := CountWitness(p[..|p| - 1]); }
  }

  /** A set bit is counted. */
  lemma CountPositive(p: seq<bool>, i: nat)
    requires i < |p| && p[i]
    ensures Count(p) >= 1
  {
    CountUpdate(p, i, false);
  }

  /** Two set bits are counted twice. */
  lemma CountTwo(p: seq<bool>, i: nat, j: nat)
    requires i < |p| && j < |p| && i != j && p[i] && p[j]
    ensures Count(p) >= 2
  {
    CountUpdate(p, i, false);
    CountPositive(p[i := false], j);
  }

  /** A count above one leaves a set bit other than i. */
  lemma CountOther(p: seq<bool>, i: nat) returns (j: nat)
    requires i < |p| && Count(p) > (if p[i] then 1 else 0)
    ensures j < |p| && j != i && p[j]
  {
    CountUpdate(p, i, false);
    j := CountWitness(p[i := false]);
  }

  /** The last set bit, which the recall loops of the directory pick; -1 when there is none. */
  function Last(p: seq<bool>): (r: int)
    ensures -1 <= r < |p|
    ensures r >= 0 ==> p[r]
    ensures r < 0 ==> forall i :: 0 <= i < |p| ==> !p[i]
  {
    if p == [] then -1
    else if p[|p| - 1] then |p| - 1
    else Last(p[..|p| - 1])
  }

  /** The first set bit, which MSI's recall loops pick; 0 when there is none. */
  function First(p: seq<bool>): (r: nat)
    ensures r < |p| || r == 0
    ensures (exists i :: 0 <= i < |p| && p[i]) ==> r < |p| && p[r]
  {
    FirstFrom(p, 0)
  }

  function FirstFrom(p: seq<bool>, i: nat): (r: nat)
    requires i <= |p|
    ensures r < |p| || r == 0
    ensures (exists j :: i <= j < |p| && p[j]) ==> r < |p| && p[r]
    decreases |p| - i
  {
    if i == |p| then 0 else if p[i] then i else FirstFrom(p, i + 1)
  }
}
