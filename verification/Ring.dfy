/** The MailMsg frame and the single-producer single-consumer ring (mailmsg.h, mailmsg.c). */
module Ring {
  import opened Words
  import Crc

  const SLOTS: nat := 8
  const PAYLOAD_BYTES: nat := 28

  const RING_OK: int := 0
  const RING_EMPTY: int := -1
  const RING_FULL: int := -2
  const RING_INCOMPLETE: int := -3
  const RING_BAD_CRC: int := -4
  const RING_INVALID: int := -5

  type Payload = s: seq<bv8> | |s| == 28 witness seq(28, _ => 0)

  datatype Message = Message(
    generation: u32, kind: u32, sequence: u32, length: u32,
    payload: Payload, crc32: bv32, commit: u32)

  /** The 44 bytes that the checksum covers, in memory order. */
  function FrameBytes(m: Message): (s: seq<bv8>)
    ensures |s| == 44
  {
    StoreU32(m.generation) + StoreU32(m.kind) + StoreU32(m.sequence) + StoreU32(m.length) + m.payload
  }

  function FrameCrc(m: Message): bv32 {
    Crc.Crc32(FrameBytes(m))
  }

  predicate HeaderOk(m: Message) {
    m.generation != 0 && m.sequence != 0 && m.length <= PAYLOAD_BYTES
  }

  /** The frame as push leaves it in a slot: checksummed and committed. */
  function Sealed(m: Message): Message {
    m.(crc32 := FrameCrc(m), commit := m.sequence)
  }

  /** What pop answers about a frame that it has taken out of the ring. */
  function Judge(m: Message): int {
    if !HeaderOk(m) then RING_INVALID else if m.crc32 != FrameCrc(m) then RING_BAD_CRC else RING_OK
  }

  function Next(index: nat): nat {
    (index + 1) % SLOTS
  }

  datatype RingState = RingState(producer: u32, consumer: u32, slots: seq<Message>) {
    ghost predicate Valid() {
      producer < SLOTS && consumer < SLOTS && |slots| == SLOTS
    }
  }

  /** The number of frames between two indices. */
  function Distance(producer: nat, consumer: nat): nat
    requires producer < SLOTS && consumer < SLOTS
  {
    if producer >= consumer then producer - consumer else SLOTS - consumer + producer
  }

  /** The frames in flight, oldest first. */
  function Queue(r: RingState): (q: seq<Message>)
    requires r.Valid()
    ensures |q| == Distance(r.producer, r.consumer) <= 7
  {
    if r.producer >= r.consumer then r.slots[r.consumer..r.producer]
    else r.slots[r.consumer..] + r.slots[..r.producer]
  }

  lemma NextWraps(index: nat)
    requires index < SLOTS
    ensures Next(index) == if index == 7 then 0 else index + 1
  {}

  datatype PushResult = PushResult(code: int, ring: RingState)
  datatype PopResult = PopResult(code: int, ring: RingState, message: Message)

  function Push(r: RingState, m: Message): PushResult
    requires r.Valid()
  {
    if !HeaderOk(m) then PushResult(RING_INVALID, r)
    else if Next(r.producer) == r.consumer then PushResult(RING_FULL, r)
    else PushResult(RING_OK, r.(producer := Next(r.producer), slots := r.slots[r.producer := Sealed(m)]))
  }

  function Pop(r: RingState, message: Message): PopResult
    requires r.Valid()
  {
    if r.consumer == r.producer then PopResult(RING_EMPTY, r, message)
    else
      var m := r.slots[r.consumer];
      if m.commit != m.sequence then PopResult(RING_INCOMPLETE, r, message)
      else PopResult(Judge(m), r.(consumer := Next(r.consumer)), m)
  }

  // ----- The ring is a bounded first-in first-out queue -----

  /** Push refuses exactly the bad headers and the eighth frame, and otherwise appends one sealed frame: the message,
      committed, with the checksum of its covered bytes. */
  lemma PushIsEnqueue(r: RingState, m: Message)
    requires r.Valid()
    ensures HeaderOk(m) <==> m.generation != 0 && m.sequence != 0 && m.length <= 28
    ensures Sealed(m) == Message(m.generation, m.kind, m.sequence, m.length, m.payload, Crc.Crc32(FrameBytes(m)),
                                 m.sequence)
    ensures var p := Push(r, m);
            && p.ring.Valid()
            && (p.code == RING_INVALID <==> !HeaderOk(m))
            && (p.code == RING_FULL <==> HeaderOk(m) && |Queue(r)| == 7)
            && (p.code == RING_OK <==> HeaderOk(m) && |Queue(r)| < 7)
            && Queue(p.ring) == if p.code == RING_OK then Queue(r) + [Sealed(m)] else Queue(r)
  {
    NextWraps(r.producer);
  }

  /** Pop takes the oldest frame out whatever it says about it, unless there is none or it is uncommitted. */
  lemma PopIsDequeue(r: RingState, message: Message)
    requires r.Valid()
    ensures var p := Pop(r, message);
            && p.ring.Valid()
            && (p.code == RING_EMPTY <==> Queue(r) == [])
            && (p.code == RING_INCOMPLETE <==> Queue(r) != [] && Queue(r)[0].commit != Queue(r)[0].sequence)
            && (p.code in {RING_EMPTY, RING_INCOMPLETE} ==> p.ring == r && p.message == message)
            && (p.code !in {RING_EMPTY, RING_INCOMPLETE} ==>
                && Queue(r) != [] && p.message == Queue(r)[0] && p.code == Judge(p.message)
                && Queue(p.ring) == Queue(r)[1..])
  {
    NextWraps(r.consumer);
  }

  /** What pop says about a frame that it takes: INVALID exactly for a bad header, and else OK exactly if the frame
      carries the checksum of its covered bytes. */
  lemma JudgeExactly(m: Message)
    ensures Judge(m) == RING_INVALID <==> m.generation == 0 || m.sequence == 0 || m.length > 28
    ensures Judge(m) == RING_OK <==> Judge(m) != RING_INVALID && m.crc32 == Crc.Crc32(FrameBytes(m))
    ensures Judge(m) in {RING_OK, RING_BAD_CRC, RING_INVALID}
  {}

  /** A frame that push accepted is one that pop accepts. */
  lemma SealedAccepted(m: Message)
    requires HeaderOk(m)
    ensures Judge(Sealed(m)) == RING_OK && Sealed(m).commit == Sealed(m).sequence
  {
    assert FrameBytes(Sealed(m)) == FrameBytes(m);
  }

  // ----- Which bytes the checksum covers -----

  /** Byte `k` of four words and a tail that follow each other. */
  function Lane<T>(a: seq<T>, b: seq<T>, c: seq<T>, d: seq<T>, e: seq<T>, k: nat): T
    requires |a| == |b| == |c| == |d| == 4 && k < 16 + |e|
  {
    if k < 4 then a[k] else if k < 8 then b[k - 4] else if k < 12 then c[k - 8] else if k < 16 then d[k - 12]
    else e[k - 16]
  }

  /** Byte `k` of the header and payload as they lie in memory: generation at 0, type at 4, sequence at 8, length at 12,
      payload at 16. */
  function ByteAt(m: Message, k: nat): bv8
    requires k < 44
  {
    Lane(StoreU32(m.generation), StoreU32(m.kind), StoreU32(m.sequence), StoreU32(m.length), m.payload, k)
  }

  lemma Joined<T>(a: seq<T>, b: seq<T>, c: seq<T>, d: seq<T>, e: seq<T>, k: nat)
    requires |a| == |b| == |c| == |d| == 4 && k < 16 + |e|
    ensures (a + b + c + d + e)[k] == Lane(a, b, c, d, e, k)
  {}

  /** The checksum covers exactly those 44 bytes, in that order. */
  lemma FrameBytesAre(m: Message, k: nat)
    requires k < 44
    ensures FrameBytes(m)[k] == ByteAt(m, k)
  {
    Joined(StoreU32(m.generation), StoreU32(m.kind), StoreU32(m.sequence), StoreU32(m.length), m.payload, k);
  }

  lemma SameLanes<T>(a: seq<T>, b: seq<T>, c: seq<T>, d: seq<T>, e: seq<T>,
                     a': seq<T>, b': seq<T>, c': seq<T>, d': seq<T>, e': seq<T>)
    requires |a| == |b| == |c| == |d| == |a'| == |b'| == |c'| == |d'| == 4 && |e| == |e'|
    requires a + b + c + d + e == a' + b' + c' + d' + e'
    ensures a == a' && b == b' && c == c' && d == d' && e == e'
  {
    var x, y := a + b + c + d + e, a' + b' + c' + d' + e';
    assert x[..4] == a && x[4..8] == b && x[8..12] == c && x[12..16] == d && x[16..] == e;
    assert y[..4] == a' && y[4..8] == b' && y[8..12] == c' && y[12..16] == d' && y[16..] == e';
  }

  /** And they determine everything but the checksum and the commit word. */
  lemma Separates(a: Message, b: Message)
    requires FrameBytes(a) == FrameBytes(b)
    ensures b == a.(crc32 := b.crc32, commit := b.commit)
  {
    SameLanes(StoreU32(a.generation), StoreU32(a.kind), StoreU32(a.sequence), StoreU32(a.length), a.payload,
              StoreU32(b.generation), StoreU32(b.kind), StoreU32(b.sequence), StoreU32(b.length), b.payload);
    StoreInjective(a.generation, b.generation);
    StoreInjective(a.kind, b.kind);
    StoreInjective(a.sequence, b.sequence);
    StoreInjective(a.length, b.length);
  }

  // ----- An altered frame is rejected, and only that frame is lost -----

  /** `b` is a committed frame with a legal header that differs from `a` in the checksum alone, or in covered bytes that
      lie within four consecutive ones. */
  ghost predicate Altered(a: Message, b: Message) {
    && a != b && HeaderOk(b) && b.commit == b.sequence
    && (b == a.(crc32 := b.crc32) || (b.crc32 == a.crc32 && exists i: nat :: AlteredWithin(a, b, i)))
  }

  ghost predicate AlteredWithin(a: Message, b: Message, i: nat) {
    i + 4 <= 44 && forall k :: 0 <= k < 44 && !(i <= k < i + 4) ==> ByteAt(a, k) == ByteAt(b, k)
  }

  lemma AlteredBytes(a: Message, b: Message, i: nat)
    requires AlteredWithin(a, b, i) && b != a.(crc32 := b.crc32, commit := b.commit)
    ensures Crc.DifferOnlyWithin(FrameBytes(a), FrameBytes(b), i)
  {
    var x, y := FrameBytes(a), FrameBytes(b);
    forall k | 0 <= k < 44 ensures x[k] == ByteAt(a, k) && y[k] == ByteAt(b, k) {
      FrameBytesAre(a, k);
      FrameBytesAre(b, k);
    }
    assert x[..i] == y[..i] && x[i + 4..] == y[i + 4..];
    if x == y { Separates(a, b); }
  }

  /** Whatever such an alteration hits, any header word included, pop answers BAD_CRC. */
  lemma AlterationRejected(m: Message, b: Message)
    requires HeaderOk(m) && Altered(Sealed(m), b)
    ensures Judge(b) == RING_BAD_CRC
  {
    var a := Sealed(m);
    SealedAccepted(m);
    if b == a.(crc32 := b.crc32) { assert FrameBytes(b) == FrameBytes(a); }
    else {
      var i: nat :| AlteredWithin(a, b, i);
      AlteredBytes(a, b, i);
      Crc.BurstDetected(FrameBytes(a), FrameBytes(b), i);
    }
  }

  /** In particular a sealed frame with one header word changed to another legal one. */
  lemma WordAlterationRejected(m: Message, b: Message)
    requires HeaderOk(m) && HeaderOk(b) && b != Sealed(m)
    requires var a := Sealed(m);
             || b == a.(generation := b.generation) || b == a.(kind := b.kind) || b == a.(length := b.length)
             || b == a.(sequence := b.sequence, commit := b.sequence)
    ensures Judge(b) == RING_BAD_CRC
  {
    var a := Sealed(m);
    var i := if b.generation != a.generation then 0 else if b.kind != a.kind then 4
             else if b.sequence != a.sequence then 8 else 12;
    WordWithin(a, b, i);
    AlterationRejected(m, b);
  }

  lemma OneLane<T>(a: seq<T>, b: seq<T>, c: seq<T>, d: seq<T>, e: seq<T>,
                   a': seq<T>, b': seq<T>, c': seq<T>, d': seq<T>, i: nat, k: nat)
    requires |a| == |b| == |c| == |d| == |a'| == |b'| == |c'| == |d'| == 4 && k < 16 + |e| && !(i <= k < i + 4)
    requires (i == 0 || a == a') && (i == 4 || b == b') && (i == 8 || c == c') && (i == 12 || d == d')
    ensures Lane(a, b, c, d, e, k) == Lane(a', b', c', d', e, k)
  {}

  lemma WordWithin(a: Message, b: Message, i: nat)
    requires (i == 0 || a.generation == b.generation) && (i == 4 || a.kind == b.kind) && a.payload == b.payload
    requires (i == 8 || a.sequence == b.sequence) && (i == 12 || a.length == b.length) && i <= 12
    ensures AlteredWithin(a, b, i)
  {
    forall k | 0 <= k < 44 && !(i <= k < i + 4) ensures ByteAt(a, k) == ByteAt(b, k) {
      OneLane(StoreU32(a.generation), StoreU32(a.kind), StoreU32(a.sequence), StoreU32(a.length), a.payload,
              StoreU32(b.generation), StoreU32(b.kind), StoreU32(b.sequence), StoreU32(b.length), i, k);
    }
  }

  /** The same of payload bytes. */
  lemma PayloadWithin(a: Message, b: Message, i: nat)
    requires b == a.(payload := b.payload) && i + 4 <= 28
    requires forall k :: 0 <= k < 28 && !(i <= k < i + 4) ==> a.payload[k] == b.payload[k]
    ensures AlteredWithin(a, b, 16 + i)
  {
    forall k | 0 <= k < 44 && !(16 + i <= k < 20 + i) ensures ByteAt(a, k) == ByteAt(b, k) {
      OneTail(StoreU32(a.generation), StoreU32(a.kind), StoreU32(a.sequence), StoreU32(a.length), a.payload, b.payload,
              k);
    }
  }

  lemma OneTail<T>(a: seq<T>, b: seq<T>, c: seq<T>, d: seq<T>, e: seq<T>, e': seq<T>, k: nat)
    requires |a| == |b| == |c| == |d| == 4 && |e| == |e'| && k < 16 + |e| && (k >= 16 ==> e[k - 16] == e'[k - 16])
    ensures Lane(a, b, c, d, e, k) == Lane(a, b, c, d, e', k)
  {}

  datatype Popped = Popped(code: int, message: Message)

  /** What a consumer sees when it pops until the ring has nothing more to give. */
  function Drain(r: RingState): seq<Popped>
    requires r.Valid()
    decreases |Queue(r)|
  {
    if Queue(r) == [] then []
    else
      var p := Pop(r, r.slots[0]);
      PopIsDequeue(r, r.slots[0]);
      if p.code == RING_INCOMPLETE then [] else [Popped(p.code, p.message)] + Drain(p.ring)
  }

  ghost predicate Committed(q: seq<Message>) {
    forall i :: 0 <= i < |q| ==> q[i].commit == q[i].sequence
  }

  lemma DrainStep(r: RingState, p: PopResult)
    requires r.Valid() && Queue(r) != [] && Queue(r)[0].commit == Queue(r)[0].sequence && p == Pop(r, r.slots[0])
    ensures p.ring.Valid() && Queue(p.ring) == Queue(r)[1..]
    ensures Drain(r) == [Popped(Judge(Queue(r)[0]), Queue(r)[0])] + Drain(p.ring)
  {
    PopIsDequeue(r, r.slots[0]);
  }

  lemma {:induction false} DrainJudgesInOrder(r: RingState)
    requires r.Valid() && Committed(Queue(r))
    ensures |Drain(r)| == |Queue(r)|
    ensures forall i :: 0 <= i < |Queue(r)| ==> Drain(r)[i] == Popped(Judge(Queue(r)[i]), Queue(r)[i])
    decreases |Queue(r)|
  {
    if Queue(r) != [] {
      var p := Pop(r, r.slots[0]);
      DrainStep(r, p);
      DrainJudgesInOrder(p.ring);
      DrainCons(Queue(r), Drain(r), Drain(p.ring));
    }
  }

  lemma DrainCons(q: seq<Message>, all: seq<Popped>, rest: seq<Popped>)
    requires q != [] && all == [Popped(Judge(q[0]), q[0])] + rest && |rest| == |q[1..]|
    requires forall i :: 0 <= i < |q[1..]| ==> rest[i] == Popped(Judge(q[1..][i]), q[1..][i])
    ensures |all| == |q| && forall i :: 0 <= i < |q| ==> all[i] == Popped(Judge(q[i]), q[i])
  {
    forall i | 0 <= i < |q| ensures all[i] == Popped(Judge(q[i]), q[i]) {
      if i > 0 { assert all[i] == rest[i - 1] && q[1..][i - 1] == q[i]; }
    }
  }

  /** The slot that holds the k-th frame in flight. */
  function SlotOf(r: RingState, k: nat): nat
    requires r.Valid() && k < |Queue(r)|
  {
    if r.consumer + k < SLOTS then r.consumer + k else r.consumer + k - SLOTS
  }

  lemma SlotUpdate(r: RingState, k: nat, b: Message)
    requires r.Valid() && k < |Queue(r)|
    ensures Queue(r.(slots := r.slots[SlotOf(r, k) := b])) == Queue(r)[k := b]
  {}

  /** Altering the k-th queued frame makes pop answer BAD_CRC for it and release it; every frame before and
      behind it is delivered as it was pushed. */
  lemma AlteredFrameIsolated(r: RingState, sent: seq<Message>, k: nat, b: Message)
    requires r.Valid() && |Queue(r)| == |sent| && k < |sent|
    requires forall i :: 0 <= i < |sent| ==> HeaderOk(sent[i]) && Queue(r)[i] == Sealed(sent[i])
    requires Altered(Sealed(sent[k]), b)
    ensures var out := Drain(r.(slots := r.slots[SlotOf(r, k) := b]));
            && |out| == |sent|
            && out[k] == Popped(RING_BAD_CRC, b)
            && forall i :: 0 <= i < |sent| && i != k ==> out[i] == Popped(RING_OK, Sealed(sent[i]))
  {
    var s := r.(slots := r.slots[SlotOf(r, k) := b]);
    SlotUpdate(r, k, b);
    AlterationRejected(sent[k], b);
    forall i | 0 <= i < |sent| ensures Queue(s)[i].commit == Queue(s)[i].sequence {
      SealedAccepted(sent[i]);
    }
    DrainJudgesInOrder(s);
    forall i | 0 <= i < |sent| && i != k ensures Drain(s)[i] == Popped(RING_OK, Sealed(sent[i])) {
      SealedAccepted(sent[i]);
    }
  }

  /** The test hook of the Linux driver flips the first payload byte of the sealed frame. */
  function CorruptFirstByte(m: Message): Message {
    m.(payload := m.payload[0 := !m.payload[0]])
  }

  lemma InjectedFrameRejected(m: Message)
    requires HeaderOk(m)
    ensures Judge(CorruptFirstByte(Sealed(m))) == RING_BAD_CRC
  {
    var a, b := Sealed(m), CorruptFirstByte(Sealed(m));
    FlipChanges(a.payload[0]);
    assert a.payload[0] != b.payload[0];
    PayloadWithin(a, b, 0);
    AlterationRejected(m, b);
  }

  lemma FlipChanges(x: bv8)
    ensures !x != x && x ^ 0xff == !x
  {}

  // ----- The ring as it is updated in place -----

  class Buffer {
    var producer: u32
    var consumer: u32
    const slot: array<Message>

    ghost predicate Valid()
      reads this
    {
      slot.Length == SLOTS && producer < SLOTS && consumer < SLOTS
    }

    ghost function State(): RingState
      reads this, slot
    {
      RingState(producer, consumer, slot[..])
    }

    constructor (zero: Message)
      ensures Valid() && fresh(slot)
      ensures Queue(State()) == []
    {
      producer, consumer := 0, 0;
      slot := new Message[8](_ => zero);
    }

    method PushFrame(message: Message) returns (code: int)
      requires Valid()
      modifies this`producer, slot
      ensures Valid()
      ensures code == Push(old(State()), message).code
      ensures State() == Push(old(State()), message).ring
    {
      var next := (producer + 1) % 8;
      if message.generation == 0 || message.sequence == 0 || message.length > PAYLOAD_BYTES {
        return RING_INVALID;
      }
      if next == consumer {
        return RING_FULL;
      }
      FillSlot(message);
      producer := next;
      code := RING_OK;
    }

    /** The frame first, without a commit; then its checksum; then the commit. */
    method FillSlot(message: Message)
      requires Valid()
      modifies slot
      ensures slot[..] == old(slot[..])[producer := Sealed(message)]
    {
      slot[producer] := message;
      slot[producer] := slot[producer].(commit := 0);
      var crc := Crc.ComputeCrc32(FrameBytes(slot[producer]));
      slot[producer] := slot[producer].(crc32 := crc);
      slot[producer] := slot[producer].(commit := message.sequence);
      assert FrameBytes(message.(commit := 0)) == FrameBytes(message);
    }

    method PopFrame(into: Message) returns (code: int, message: Message)
      requires Valid()
      modifies this`consumer
      ensures Valid()
      ensures PopResult(code, State(), message) == Pop(old(State()), into)
    {
      message := into;
      if consumer == producer {
        return RING_EMPTY, message;
      }
      if slot[consumer].commit != slot[consumer].sequence {
        return RING_INCOMPLETE, message;
      }
      message := slot[consumer];
      consumer := (consumer + 1) % 8;
      if message.generation == 0 || message.sequence == 0 || message.length > PAYLOAD_BYTES {
        return RING_INVALID, message;
      }
      var crc := Crc.ComputeCrc32(FrameBytes(message));
      if message.crc32 != crc {
        return RING_BAD_CRC, message;
      }
      code := RING_OK;
    }

    method HasData() returns (code: int)
      requires Valid()
      ensures code == if Queue(State()) == [] then 0 else 1
    {
      code := if producer != consumer then 1 else 0;
    }

    /** The one operation that looks at indices it does not trust. */
    method Count() returns (code: int)
      requires slot.Length == SLOTS
      ensures Valid() ==> code == |Queue(State())|
      ensures !Valid() ==> code == RING_INVALID
    {
      if producer >= 8 || consumer >= 8 {
        return RING_INVALID;
      }
      code := if producer >= consumer then producer - consumer else 8 - consumer + producer;
    }
  }
}
