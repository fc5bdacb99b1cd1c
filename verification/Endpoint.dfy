/** The endpoint that owns one end of the four priorities of a session (mailmsg_endpoint.c). */
module Endpoint {
  import opened Words
  import opened Protocol
  import opened Ring

  const PRIORITIES: nat := 4
  const ENDPOINT_OK: int := 0
  const ENDPOINT_INVALID: int := -100
  const PROTOCOL_MISMATCH: int := -101
  const STALE_SESSION: int := -102
  const STALE_FRAME: int := -103

  const NOTIFY_SENT: int := 0
  const NOTIFY_COALESCED: int := 1

  datatype Role = Linux | Cpu3

  datatype Stats = Stats(
    enqueued: u32, full: u32, highWater: u32, sent: u32, coalesced: u32, failed: u32,
    ok: u32, incomplete: u32, badCrc: u32, invalid: u32, stale: u32)

  const NO_STATS: Stats := Stats(0, 0, 0, 0, 0, 0, 0, 0, 0, 0, 0)

  datatype SendResult = SendResult(queueResult: int, notifyResult: int, notifyAttempted: bool, sequence: u32)

  /** The fields of the endpoint that a binding owns. */
  datatype Side = Side(nextSequence: u32, generation: u32, stats: seq<Stats>)

  /** The shared memory as the endpoint sees it: it writes `tx` and reads `rx`. */
  datatype Link = Link(magic: u32, version: u32, generation: u32, tx: seq<RingState>, rx: seq<RingState>) {
    ghost predicate Valid() {
      && |tx| == PRIORITIES && |rx| == PRIORITIES
      && forall p :: 0 <= p < PRIORITIES ==> tx[p].Valid() && rx[p].Valid()
    }
  }

  /** A 32-bit counter, which wraps around. */
  function Bump(x: u32): u32 {
    (x + 1) % U32
  }

  /** The sequence generator skips zero, the value that means "no frame". */
  function NextSequence(x: u32): (y: u32)
    ensures y != 0
  {
    if Bump(x) == 0 then Bump(Bump(x)) else Bump(x)
  }

  function Padded(payload: seq<bv8>): Payload
    requires |payload| <= PAYLOAD_BYTES
  {
    payload + seq(28 - |payload|, _ => 0)
  }

  function SessionCode(side: Side, link: Link): int {
    if side.generation == 0 then ENDPOINT_INVALID
    else if link.magic != PROTOCOL_MAGIC || link.version != PROTOCOL_VERSION then PROTOCOL_MISMATCH
    else if link.generation != side.generation then STALE_SESSION
    else ENDPOINT_OK
  }

  // ----- Send -----

  datatype Request = Request(priority: u32, kind: u32, payload: Option<seq<bv8>>, length: u32) {
    /** What C demands of the caller: a payload that is given covers `length` bytes. */
    ghost predicate Readable() {
      payload.Some? && length <= PAYLOAD_BYTES ==> |payload.value| >= length
    }

    predicate Refused() {
      priority >= PRIORITIES || length > PAYLOAD_BYTES || (length != 0 && payload.None?)
    }

    function Bytes(): (b: seq<bv8>)
      requires Readable() && !Refused()
      ensures |b| == length
    {
      if payload.None? then [] else payload.value[..length]
    }
  }

  datatype Outcome = Outcome(code: int, side: Side, link: Link, result: SendResult)

  function QueuedStats(s: Stats, depth: nat, notified: int): Stats
    requires depth <= 7
  {
    var t := s.(enqueued := Bump(s.enqueued), highWater := if depth > s.highWater then depth else s.highWater);
    if notified == NOTIFY_SENT then t.(sent := Bump(t.sent))
    else if notified == NOTIFY_COALESCED then t.(coalesced := Bump(t.coalesced))
    else t.(failed := Bump(t.failed))
  }

  function Frame(side: Side, r: Request): Message
    requires r.Readable() && !r.Refused()
  {
    Message(side.generation, r.kind, NextSequence(side.nextSequence), r.length, Padded(r.Bytes()), 0, 0)
  }

  ghost predicate Ready(side: Side, link: Link) {
    |side.stats| == PRIORITIES && link.Valid()
  }

  function SendSpec(side: Side, link: Link, r: Request, notified: int, into: SendResult): Outcome
    requires Ready(side, link) && r.Readable()
  {
    if r.Refused() then Outcome(ENDPOINT_INVALID, side, link, into)
    else if SessionCode(side, link) != 0 then
      Outcome(SessionCode(side, link), side, link, SendResult(RING_INVALID, -1, false, 0))
    else
      var s := side.(nextSequence := NextSequence(side.nextSequence));
      var pushed := Push(link.tx[r.priority], Frame(side, r));
      var stats := side.stats[r.priority];
      if pushed.code != RING_OK then
        Outcome(pushed.code,
                if pushed.code != RING_FULL then s
                else s.(stats := s.stats[r.priority := stats.(full := Bump(stats.full))]),
                link, SendResult(pushed.code, -1, false, 0))
      else
        PushIsEnqueue(link.tx[r.priority], Frame(side, r));
        Outcome(ENDPOINT_OK,
                s.(stats := s.stats[r.priority := QueuedStats(stats, |Queue(pushed.ring)|, notified)]),
                link.(tx := link.tx[r.priority := pushed.ring]),
                SendResult(RING_OK, notified, true, s.nextSequence))
  }

  // ----- Receive -----

  datatype Received = Received(code: int, side: Side, link: Link, message: Message)

  function ReceivedStats(s: Stats, code: int): Stats {
    if code == RING_OK then s.(ok := Bump(s.ok))
    else if code == STALE_FRAME then s.(stale := Bump(s.stale))
    else if code == RING_INCOMPLETE then s.(incomplete := Bump(s.incomplete))
    else if code == RING_BAD_CRC then s.(badCrc := Bump(s.badCrc))
    else if code == RING_INVALID then s.(invalid := Bump(s.invalid))
    else s
  }

  function ReceiveCode(popped: PopResult, generation: u32): int {
    if popped.code == RING_OK && popped.message.generation != generation then STALE_FRAME else popped.code
  }

  function ReceiveSpec(side: Side, link: Link, priority: u32, into: Message): Received
    requires Ready(side, link)
  {
    if priority >= PRIORITIES then Received(ENDPOINT_INVALID, side, link, into)
    else if SessionCode(side, link) != 0 then Received(SessionCode(side, link), side, link, into)
    else
      var popped := Pop(link.rx[priority], into);
      var code := ReceiveCode(popped, side.generation);
      Received(code,
               side.(stats := side.stats[priority := ReceivedStats(side.stats[priority], code)]),
               link.(rx := link.rx[priority := popped.ring]), popped.message)
  }

  // ----- The endpoint as it is updated in place -----

  class Shared {
    var magic: u32
    var version: u32
    var generation: u32
    var toCpu3: seq<RingState>
    var toLinux: seq<RingState>
  }

  /** Which function pointers a binder passes: absent tables and absent entries are told apart from present ones. */
  datatype MemoryOps = MemoryOps(publish: bool, acquire: bool)
  datatype NotifyOps = NotifyOps(ops: bool, notify: bool)

  predicate Usable(operations: Option<MemoryOps>, notify: Option<NotifyOps>) {
    operations == Some(MemoryOps(true, true)) && notify == Some(NotifyOps(true, true))
  }

  function RoleOf(code: int): Option<Role> {
    if code == 0 then Some(Linux) else if code == 1 then Some(Cpu3) else None
  }

  class Endpoint {
    var shared: Shared?
    var role: Role
    var nextSequence: u32
    var generation: u32
    var stats: seq<Stats>

    ghost function OwnSide(): Side
      reads this
    {
      Side(nextSequence, generation, stats)
    }

    ghost function View(): Link
      reads this, shared
      requires shared != null
    {
      if role == Linux then Link(shared.magic, shared.version, shared.generation, shared.toCpu3, shared.toLinux)
      else Link(shared.magic, shared.version, shared.generation, shared.toLinux, shared.toCpu3)
    }

    ghost predicate Bound()
      reads this, shared
    {
      shared != null && Ready(OwnSide(), View())
    }

    constructor ()
      ensures shared == null && generation == 0
    {
      shared, role, nextSequence, generation, stats := null, Linux, 0, 0, [];
    }

    method SessionValid() returns (code: int)
      ensures shared == null ==> code == ENDPOINT_INVALID
      ensures shared != null ==> code == SessionCode(OwnSide(), View())
      ensures code == ENDPOINT_INVALID <==> shared == null || generation == 0
      ensures code == PROTOCOL_MISMATCH <==>
        code != ENDPOINT_INVALID && (shared.magic != PROTOCOL_MAGIC || shared.version != PROTOCOL_VERSION)
      ensures code == ENDPOINT_OK <==>
        && shared != null && shared.magic == PROTOCOL_MAGIC && shared.version == PROTOCOL_VERSION
        && shared.generation == generation != 0
      ensures code in {ENDPOINT_OK, ENDPOINT_INVALID, PROTOCOL_MISMATCH, STALE_SESSION}
    {
      if shared == null || generation == 0 { return ENDPOINT_INVALID; }
      if shared.magic != PROTOCOL_MAGIC || shared.version != PROTOCOL_VERSION { return PROTOCOL_MISMATCH; }
      if shared.generation != generation { return STALE_SESSION; }
      return ENDPOINT_OK;
    }

    /** A refused bind leaves the endpoint alone; an accepted one starts a fresh generator and fresh counters.  `as_` is
        the role as C passes it. */
    method Bind(memory: Shared?, operations: Option<MemoryOps>, notify: Option<NotifyOps>, as_: int) returns (code: int)
      modifies this
      ensures code == ENDPOINT_INVALID <==> memory == null || !Usable(operations, notify) || RoleOf(as_).None?
      ensures code != ENDPOINT_INVALID ==>
        code == if memory.magic != PROTOCOL_MAGIC || memory.version != PROTOCOL_VERSION then PROTOCOL_MISMATCH
                else if memory.generation == 0 then STALE_SESSION else ENDPOINT_OK
      ensures code != ENDPOINT_OK ==> shared == old(shared) && role == old(role) && OwnSide() == old(OwnSide())
      ensures code == ENDPOINT_OK ==>
        shared == memory && Some(role) == RoleOf(as_) && OwnSide() == Side(0, memory.generation, seq(4, _ => NO_STATS))
    {
      if memory == null || operations.None? || !operations.value.publish || !operations.value.acquire
         || notify.None? || !notify.value.ops || !notify.value.notify || as_ < 0 || as_ > 1 { return ENDPOINT_INVALID; }
      if memory.magic != PROTOCOL_MAGIC || memory.version != PROTOCOL_VERSION { return PROTOCOL_MISMATCH; }
      if memory.generation == 0 { return STALE_SESSION; }
      shared, nextSequence, generation, role := memory, 0, memory.generation, if as_ == 0 then Linux else Cpu3;
      stats := [];
      for priority := 0 to 4
        invariant shared == memory && nextSequence == 0 && generation == memory.generation && Some(role) == RoleOf(as_)
        invariant stats == seq(priority, _ => NO_STATS)
      {
        stats := stats + [NO_STATS];
      }
      return ENDPOINT_OK;
    }

    method NextSequenceNumber() returns (sequence: u32)
      modifies this`nextSequence
      ensures sequence == nextSequence == NextSequence(old(nextSequence))
    {
      nextSequence := (nextSequence + 1) % 0x1_0000_0000;
      if nextSequence == 0 { nextSequence := (nextSequence + 1) % 0x1_0000_0000; }
      sequence := nextSequence;
    }

    /** mailmsg_ring_push and mailmsg_ring_count on one ring of the transmit direction. */
    method PushTo(priority: u32, message: Message) returns (code: int, depth: nat)
      requires Bound() && priority < 4
      modifies shared
      ensures Ready(OwnSide(), View())
      ensures var p := Push(old(View()).tx[priority], message);
              && code == p.code && View() == old(View()).(tx := old(View()).tx[priority := p.ring])
              && p.ring.Valid() && depth == |Queue(p.ring)|
    {
      var ring := if role == Linux then shared.toCpu3[priority] else shared.toLinux[priority];
      PushIsEnqueue(ring, message);
      var pushed := Push(ring, message);
      if role == Linux { shared.toCpu3 := shared.toCpu3[priority := pushed.ring]; }
      else { shared.toLinux := shared.toLinux[priority := pushed.ring]; }
      code, depth := pushed.code, |Queue(pushed.ring)|;
    }

    /** mailmsg_ring_pop on one ring of the receive direction. */
    method PopFrom(priority: u32, into: Message) returns (code: int, message: Message)
      requires Bound() && priority < 4
      modifies shared
      ensures Ready(OwnSide(), View())
      ensures var p := Pop(old(View()).rx[priority], into);
              code == p.code && message == p.message
              && View() == old(View()).(rx := old(View()).rx[priority := p.ring])
    {
      var ring := if role == Linux then shared.toLinux[priority] else shared.toCpu3[priority];
      PopIsDequeue(ring, into);
      var popped := Pop(ring, into);
      if role == Linux { shared.toLinux := shared.toLinux[priority := popped.ring]; }
      else { shared.toCpu3 := shared.toCpu3[priority := popped.ring]; }
      code, message := popped.code, popped.message;
    }

    method Send(r: Request, notified: int, into: SendResult) returns (code: int, result: SendResult)
      requires shared != null ==> Bound()
      requires r.Readable()
      modifies this`nextSequence, this`stats, shared
      ensures shared == null ==> code == ENDPOINT_INVALID && result == into && OwnSide() == old(OwnSide())
      ensures shared != null ==>
        && Bound()
        && Outcome(code, OwnSide(), View(), result) == SendSpec(old(OwnSide()), old(View()), r, notified, into)
    {
      result := into;
      if shared == null || r.priority >= 4 || r.length > 28 || (r.length != 0 && r.payload.None?) {
        return ENDPOINT_INVALID, result;
      }
      result := SendResult(RING_INVALID, -1, false, 0);
      code := SessionValid();
      if code != 0 { return; }

      var sequence := NextSequenceNumber();
      var payload := CopyPayload(r);
      var message := Message(generation, r.kind, sequence, r.length, payload, 0, 0);
      assert message == Frame(old(OwnSide()), r);

      var depth;
      code, depth := PushTo(r.priority, message);
      result := result.(queueResult := code);
      var s := stats[r.priority];
      if code != 0 {
        if code == RING_FULL { stats := stats[r.priority := s.(full := Bump(s.full))]; }
        return;
      }
      CountQueued(r.priority, depth, notified);
      result := result.(sequence := sequence, notifyAttempted := true, notifyResult := notified);
    }

    method CountQueued(priority: u32, depth: nat, notified: int)
      requires priority < |stats| && depth <= 7
      modifies this`stats
      ensures stats == old(stats)[priority := QueuedStats(old(stats)[priority], depth, notified)]
    {
      var s := stats[priority];
      s := s.(enqueued := Bump(s.enqueued));
      if depth > 0 && depth > s.highWater { s := s.(highWater := depth); }
      if notified == NOTIFY_SENT { s := s.(sent := Bump(s.sent)); }
      else if notified == NOTIFY_COALESCED { s := s.(coalesced := Bump(s.coalesced)); }
      else { s := s.(failed := Bump(s.failed)); }
      stats := stats[priority := s];
    }

    static method CopyPayload(r: Request) returns (payload: Payload)
      requires r.Readable() && !r.Refused()
      ensures payload == Padded(r.Bytes())
      ensures forall k :: 0 <= k < r.length ==> payload[k] == r.payload.value[k]
      ensures forall k :: r.length <= k < 28 ==> payload[k] == 0
    {
      payload := seq(28, _ => 0);
      for index := 0 to r.length
        invariant forall k :: 0 <= k < index ==> payload[k] == r.payload.value[k]
        invariant forall k :: index <= k < 28 ==> payload[k] == 0
      {
        payload := payload[index := r.payload.value[index]];
      }
      assert payload == Padded(r.Bytes());
    }

    method Receive(priority: u32, into: Message) returns (code: int, message: Message)
      requires shared != null ==> Bound()
      modifies this`stats, shared
      ensures old(shared) == null ==> code == ENDPOINT_INVALID && message == into && OwnSide() == old(OwnSide())
      ensures old(shared) != null ==>
        && Bound()
        && Received(code, OwnSide(), View(), message) == ReceiveSpec(old(OwnSide()), old(View()), priority, into)
    {
      message := into;
      if shared == null || priority >= 4 { return ENDPOINT_INVALID, message; }
      code := SessionValid();
      if code != 0 { return; }
      code, message := PopFrom(priority, into);
      var s := stats[priority];
      if code == 0 && message.generation != generation {
        s := s.(stale := Bump(s.stale));
        code := STALE_FRAME;
      }
      if code == 0 { s := s.(ok := Bump(s.ok)); }
      else if code == RING_INCOMPLETE { s := s.(incomplete := Bump(s.incomplete)); }
      else if code == RING_BAD_CRC { s := s.(badCrc := Bump(s.badCrc)); }
      else if code == RING_INVALID { s := s.(invalid := Bump(s.invalid)); }
      stats := stats[priority := s];
    }

    method HasReceived(priority: u32) returns (code: int)
      requires shared != null ==> Bound()
      ensures code == RING_INVALID <==>
        shared == null || priority >= 4 || SessionCode(OwnSide(), View()) != 0
      ensures code != RING_INVALID ==> code == if Queue(View().rx[priority]) == [] then 0 else 1
    {
      if shared == null || priority >= 4 { return RING_INVALID; }
      var session := SessionValid();
      if session != 0 { return RING_INVALID; }
      var ring := if role == Linux then shared.toLinux[priority] else shared.toCpu3[priority];
      code := if ring.producer != ring.consumer then 1 else 0;
    }
  }

  // ----- What one call does to the queues -----

  /** The frame carries the caller's type, length and bytes, zeros behind them, and this session's generation. */
  ghost predicate CarriesRequest(m: Message, r: Request, generation: u32) {
    && m.kind == r.kind && m.length == r.length <= 28 && m.generation == generation && m.commit == m.sequence
    && (r.length > 0 ==> r.payload.Some? && r.length <= |r.payload.value|)
    && (forall k :: 0 <= k < r.length ==> m.payload[k] == r.payload.value[k])
    && (forall k :: r.length <= k < 28 ==> m.payload[k] == 0)
  }

  lemma FrameCarries(side: Side, r: Request)
    requires r.Readable() && !r.Refused()
    ensures CarriesRequest(Sealed(Frame(side, r)), r, side.generation)
  {}

  /** An accepted send leaves exactly one new frame, at the back of its ring, which carries the request under the
      sequence that the send reports; any other send leaves every ring alone and reports no sequence. */
  lemma SendEnqueues(side: Side, link: Link, r: Request, notified: int, into: SendResult, o: Outcome)
    requires Ready(side, link) && r.Readable() && o == SendSpec(side, link, r, notified, into)
    ensures Ready(o.side, o.link)
    ensures o.code == ENDPOINT_OK ==>
      && r.priority < PRIORITIES
      && var q, q' := Queue(link.tx[r.priority]), Queue(o.link.tx[r.priority]);
         && |q'| == |q| + 1 && q' == q + [q'[|q|]]
         && CarriesRequest(q'[|q|], r, link.generation) && Judge(q'[|q|]) == RING_OK
         && o.result == SendResult(RING_OK, notified, true, q'[|q|].sequence)
         && q'[|q|].sequence == o.side.nextSequence == NextSequence(side.nextSequence)
    ensures o.link == link.(tx := o.link.tx) && |o.link.tx| == 4
    ensures forall p :: 0 <= p < 4 && p != r.priority ==> o.link.tx[p] == link.tx[p]
    ensures o.code != ENDPOINT_OK ==> o.link == link && (r.Refused() || o.result.sequence == 0)
    ensures o.code == ENDPOINT_OK <==>
      !r.Refused() && SessionCode(side, link) == 0 && |Queue(link.tx[r.priority])| < 7
    ensures r.Refused() <==> r.priority >= 4 || r.length > 28 || (r.length != 0 && r.payload.None?)
    ensures r.Refused() ==> o.code == ENDPOINT_INVALID && o.side == side && o.result == into
    ensures !r.Refused() && SessionCode(side, link) != 0 ==>
      o.code == SessionCode(side, link) && o.side == side && o.result == SendResult(RING_INVALID, -1, false, 0)
    ensures !r.Refused() && SessionCode(side, link) == 0 && o.code != ENDPOINT_OK ==>
      && o.code == RING_FULL && o.result == SendResult(RING_FULL, -1, false, 0)
      && o.side.nextSequence == NextSequence(side.nextSequence)
  {
    if !r.Refused() && SessionCode(side, link) == 0 {
      PushIsEnqueue(link.tx[r.priority], Frame(side, r));
      SealedAccepted(Frame(side, r));
      FrameCarries(side, r);
    }
  }

  /** Receive answers OK only for an intact frame of the endpoint's own generation, and takes a frame out of the
      ring unless the session is refused, the ring is empty, or its oldest frame is uncommitted. */
  lemma ReceiveDequeues(side: Side, link: Link, priority: u32, into: Message, o: Received)
    requires Ready(side, link) && o == ReceiveSpec(side, link, priority, into)
    ensures Ready(o.side, o.link)
    ensures o.code == RING_OK ==>
      Judge(o.message) == RING_OK && o.message.generation == side.generation == link.generation
    ensures o.code in {RING_OK, STALE_FRAME, RING_BAD_CRC, RING_INVALID} ==>
      && priority < PRIORITIES && Queue(link.rx[priority]) != []
      && o.message == Queue(link.rx[priority])[0] && Queue(o.link.rx[priority]) == Queue(link.rx[priority])[1..]
    ensures o.code !in {RING_OK, STALE_FRAME, RING_BAD_CRC, RING_INVALID} ==> o.link == link && o.message == into
    ensures o.code == RING_EMPTY <==>
      priority < PRIORITIES && SessionCode(side, link) == 0 && Queue(link.rx[priority]) == []
    ensures priority < PRIORITIES && SessionCode(side, link) == 0 && Queue(link.rx[priority]) != [] ==>
      var m := Queue(link.rx[priority])[0];
      o.code == if m.commit != m.sequence then RING_INCOMPLETE
                else if Judge(m) == RING_OK && m.generation != link.generation then STALE_FRAME else Judge(m)
    ensures o.code == ENDPOINT_INVALID <==> priority >= PRIORITIES || side.generation == 0
    ensures o.code == PROTOCOL_MISMATCH || o.code == STALE_SESSION ==> o.code == SessionCode(side, link)
  {
    if priority < PRIORITIES && SessionCode(side, link) == 0 {
      PopIsDequeue(link.rx[priority], into);
    }
  }

  /** The link as the peer sees it. */
  function Mirrored(link: Link): Link {
    link.(tx := link.rx, rx := link.tx)
  }

  /** What one side sends on an empty ring the other receives: its type, length and bytes, under the sequence that the
      sender was told. */
  lemma SentIsReceived(side: Side, peer: Side, link: Link, r: Request, notified: int, into: SendResult, o: Outcome,
                       buffer: Message, got: Received)
    requires Ready(side, link) && r.Readable() && o == SendSpec(side, link, r, notified, into) && o.code == ENDPOINT_OK
    requires |peer.stats| == PRIORITIES && peer.generation == side.generation
    requires r.priority < PRIORITIES && Queue(link.tx[r.priority]) == [] && Mirrored(o.link).Valid()
    requires got == ReceiveSpec(peer, Mirrored(o.link), r.priority, buffer)
    ensures got.code == RING_OK && CarriesRequest(got.message, r, link.generation)
    ensures got.message.sequence == o.result.sequence && Ready(got.side, got.link)
    ensures Queue(got.link.rx[r.priority]) == []
  {
    SendEnqueues(side, link, r, notified, into, o);
    ReceiveDequeues(peer, Mirrored(o.link), r.priority, buffer, got);
  }

  // ----- Whole runs of one binding -----

  /** Unbounded counts, kept beside the endpoint by watching its ring indices move. */
  datatype Moves = Moves(pushes: nat, pops: nat)

  datatype World = World(side: Side, link: Link, moves: seq<Moves>, generated: seq<u32>)

  /** A step of the endpoint, or anything at all that the peer and the rest of the system may do to the shared
      memory without moving an index that this endpoint owns. */
  datatype Step = DoSend(r: Request, notified: int) | DoReceive(priority: u32) | Peer(link: Link)

  ghost predicate PeerMay(before: Link, after: Link) {
    && before.Valid() && after.Valid()
    && forall p :: 0 <= p < PRIORITIES ==>
         after.tx[p].producer == before.tx[p].producer && after.rx[p].consumer == before.rx[p].consumer
  }

  const NO_RESULT: SendResult := SendResult(0, 0, false, 0)
  function NoMessage(): Message {
    Message(0, 0, 0, 0, Padded([]), 0, 0)
  }

  function Moved(before: nat, after: nat): nat {
    if before == after then 0 else 1
  }

  function WatchAt(w: World, link: Link, p: nat): Moves
    requires p < |w.moves| && p < |w.link.tx| && p < |w.link.rx| && p < |link.tx| && p < |link.rx|
  {
    Moves(w.moves[p].pushes + Moved(w.link.tx[p].producer, link.tx[p].producer),
          w.moves[p].pops + Moved(w.link.rx[p].consumer, link.rx[p].consumer))
  }

  function Observe(w: World, side: Side, link: Link): World
    requires |w.moves| == PRIORITIES && Ready(w.side, w.link) && Ready(side, link)
  {
    World(side, link,
          [WatchAt(w, link, 0), WatchAt(w, link, 1), WatchAt(w, link, 2), WatchAt(w, link, 3)],
          if side.nextSequence == w.side.nextSequence then w.generated else w.generated + [side.nextSequence])
  }

  ghost predicate Sound(w: World) {
    |w.moves| == PRIORITIES && Ready(w.side, w.link)
  }

  ghost function Apply(w: World, step: Step): (t: World)
    requires Sound(w)
    ensures Sound(t)
  {
    match step
    case DoSend(r, notified) =>
      if !r.Readable() then w
      else
        var o := SendSpec(w.side, w.link, r, notified, NO_RESULT);
        SendEnqueues(w.side, w.link, r, notified, NO_RESULT, o);
        Observe(w, o.side, o.link)
    case DoReceive(priority) =>
      var o := ReceiveSpec(w.side, w.link, priority, NoMessage());
      ReceiveDequeues(w.side, w.link, priority, NoMessage(), o);
      Observe(w, o.side, o.link)
    case Peer(link) =>
      if PeerMay(w.link, link) then Observe(w, w.side, link) else w
  }

  ghost function Run(w: World, steps: seq<Step>): (t: World)
    requires Sound(w)
    ensures Sound(t)
    decreases |steps|
  {
    if steps == [] then w else Run(Apply(w, steps[0]), steps[1..])
  }

  /** What bind leaves behind, over shared memory in any state. */
  ghost predicate Fresh(w: World) {
    && Sound(w) && w.side == Side(0, w.link.generation, seq(4, _ => NO_STATS)) && w.link.generation != 0
    && w.moves == seq(4, _ => Moves(0, 0)) && w.generated == []
  }

  ghost predicate Conserved(s: Stats, m: Moves) {
    && s.enqueued == m.pushes % U32
    && s.enqueued == (s.sent + s.coalesced + s.failed) % U32
    && (s.ok + s.badCrc + s.invalid + s.stale) % U32 == m.pops % U32
    && s.highWater <= 7
  }

  /** The i-th sequence of a binding: 1, 2, ..., 2^32 - 1 and round again. */
  function SequenceAt(i: nat): u32 {
    1 + i % (U32 - 1)
  }

  ghost predicate Generated(w: World) {
    && (forall i :: 0 <= i < |w.generated| ==> w.generated[i] == SequenceAt(i))
    && w.side.nextSequence == if w.generated == [] then 0 else SequenceAt(|w.generated| - 1)
  }

  ghost predicate Account(w: World, start: Link, p: nat)
    requires Sound(w) && start.Valid() && p < PRIORITIES
  {
    && Conserved(w.side.stats[p], w.moves[p])
    && IndexAt(w.link.tx[p].producer, start.tx[p].producer, w.moves[p].pushes)
    && IndexAt(w.link.rx[p].consumer, start.rx[p].consumer, w.moves[p].pops)
  }

  ghost predicate IndexAt(index: nat, start: nat, moves: nat) {
    index == (start + moves) % SLOTS
  }

  ghost predicate Inv(w: World, start: Link)
    requires Sound(w) && start.Valid()
  {
    && Generated(w)
    && forall p :: 0 <= p < PRIORITIES ==> Account(w, start, p)
  }

  lemma IndexMoves(index: nat, start: nat, moves: nat)
    requires IndexAt(index, start, moves)
    ensures Next(index) != index && IndexAt(Next(index), start, moves + 1)
  {}

  lemma BumpAdds(x: u32, rest: nat)
    ensures (rest + Bump(x)) % U32 == (rest + x + 1) % U32
  {}

  lemma SameSuccessor(a: nat, b: nat)
    requires a % U32 == b % U32
    ensures (a + 1) % U32 == (b + 1) % U32
  {}

  lemma QueuedConserves(s: Stats, m: Moves, depth: nat, notified: int)
    requires Conserved(s, m) && depth <= 7
    ensures Conserved(QueuedStats(s, depth, notified), m.(pushes := m.pushes + 1))
  {
    var total := s.sent + s.coalesced + s.failed;
    SameSuccessor(s.enqueued, m.pushes);
    SameSuccessor(s.enqueued, total);
    if notified == NOTIFY_SENT { BumpAdds(s.sent, s.coalesced + s.failed); }
    else if notified == NOTIFY_COALESCED { BumpAdds(s.coalesced, s.sent + s.failed); }
    else { BumpAdds(s.failed, s.sent + s.coalesced); }
  }

  predicate Consumes(code: int) {
    code in {RING_OK, STALE_FRAME, RING_BAD_CRC, RING_INVALID}
  }

  lemma ReceivedConserves(s: Stats, m: Moves, code: int)
    requires Conserved(s, m)
    ensures Conserved(ReceivedStats(s, code), m.(pops := m.pops + if Consumes(code) then 1 else 0))
  {
    SameSuccessor(s.ok + s.badCrc + s.invalid + s.stale, m.pops);
    if code == RING_OK { BumpAdds(s.ok, s.badCrc + s.invalid + s.stale); }
    else if code == STALE_FRAME { BumpAdds(s.stale, s.ok + s.badCrc + s.invalid); }
    else if code == RING_BAD_CRC { BumpAdds(s.badCrc, s.ok + s.invalid + s.stale); }
    else if code == RING_INVALID { BumpAdds(s.invalid, s.ok + s.badCrc + s.stale); }
  }

  /** What a send means for one priority: an accepted frame there, or nothing that conservation speaks of. */
  lemma SendAt(side: Side, link: Link, r: Request, notified: int, o: Outcome, p: nat)
    requires Ready(side, link) && r.Readable() && o == SendSpec(side, link, r, notified, NO_RESULT) && p < PRIORITIES
    ensures Ready(o.side, o.link) && o.link.rx == link.rx
    ensures || (exists depth: nat ::
                 && depth <= 7 && o.side.stats[p] == QueuedStats(side.stats[p], depth, notified)
                 && o.link.tx[p].producer == Next(link.tx[p].producer))
            || (o.link.tx[p] == link.tx[p] && o.side.stats[p] == side.stats[p].(full := o.side.stats[p].full))
  {
    SendEnqueues(side, link, r, notified, NO_RESULT, o);
    if o.code == ENDPOINT_OK && p == r.priority {
      var pushed := Push(link.tx[p], Frame(side, r));
      assert o.side.stats[p] == QueuedStats(side.stats[p], |Queue(pushed.ring)|, notified);
    }
  }

  lemma PopMoves(ring: RingState, generation: u32, into: Message, popped: PopResult)
    requires ring.Valid() && popped == Pop(ring, into)
    ensures popped.ring.Valid()
    ensures popped.ring.consumer
              == if Consumes(ReceiveCode(popped, generation)) then Next(ring.consumer) else ring.consumer
  {}

  lemma ReceiveAt(side: Side, link: Link, priority: u32, o: Received, p: nat)
    requires Ready(side, link) && o == ReceiveSpec(side, link, priority, NoMessage()) && p < PRIORITIES
    ensures Ready(o.side, o.link) && o.link.tx == link.tx && o.side.nextSequence == side.nextSequence
    ensures p != priority ==> o.link.rx[p] == link.rx[p] && o.side.stats[p] == side.stats[p]
    ensures p == priority ==> o.side.stats[p] == ReceivedStats(side.stats[p], o.code)
    ensures p == priority ==>
      o.link.rx[p].consumer == if Consumes(o.code) then Next(link.rx[p].consumer) else link.rx[p].consumer
  {
    if priority < PRIORITIES && SessionCode(side, link) == 0 {
      PopMoves(link.rx[priority], side.generation, NoMessage(), Pop(link.rx[priority], NoMessage()));
    }
  }

  lemma SendAccount(w: World, start: Link, r: Request, notified: int, p: nat, o: Outcome, t: World)
    requires Sound(w) && start.Valid() && p < PRIORITIES && Account(w, start, p)
    requires r.Readable() && o == SendSpec(w.side, w.link, r, notified, NO_RESULT)
    requires Ready(o.side, o.link) && t == Observe(w, o.side, o.link)
    ensures Account(t, start, p)
  {
    SendAt(w.side, w.link, r, notified, o, p);
    SendObserved(w, start, o.side, o.link, notified, p, t);
  }

  lemma SendObserved(w: World, start: Link, side: Side, link: Link, notified: int, p: nat, t: World)
    requires Sound(w) && start.Valid() && p < PRIORITIES && Account(w, start, p)
    requires Ready(side, link) && link.rx == w.link.rx && t == Observe(w, side, link)
    requires || (exists depth: nat ::
                  && depth <= 7 && side.stats[p] == QueuedStats(w.side.stats[p], depth, notified)
                  && link.tx[p].producer == Next(w.link.tx[p].producer))
             || (link.tx[p] == w.link.tx[p] && side.stats[p] == w.side.stats[p].(full := side.stats[p].full))
    ensures Account(t, start, p)
  {
    IndexMoves(w.link.tx[p].producer, start.tx[p].producer, w.moves[p].pushes);
    if link.tx[p].producer == w.link.tx[p].producer {
      assert t.moves[p] == w.moves[p];
    } else {
      var depth: nat :| depth <= 7 && side.stats[p] == QueuedStats(w.side.stats[p], depth, notified);
      QueuedConserves(w.side.stats[p], w.moves[p], depth, notified);
      assert t.moves[p] == w.moves[p].(pushes := w.moves[p].pushes + 1);
    }
  }

  lemma ReceiveAccount(w: World, start: Link, priority: u32, p: nat, o: Received, t: World)
    requires Sound(w) && start.Valid() && p < PRIORITIES && Account(w, start, p)
    requires o == ReceiveSpec(w.side, w.link, priority, NoMessage())
    requires Ready(o.side, o.link) && t == Observe(w, o.side, o.link)
    ensures Account(t, start, p)
  {
    ReceiveAt(w.side, w.link, priority, o, p);
    if p == priority {
      ReceiveObserved(w, start, o.side, o.link, o.code, p, t);
    } else {
      assert t.moves[p] == w.moves[p];
    }
  }

  lemma ReceiveObserved(w: World, start: Link, side: Side, link: Link, code: int, p: nat, t: World)
    requires Sound(w) && start.Valid() && p < PRIORITIES && Account(w, start, p)
    requires Ready(side, link) && link.tx == w.link.tx && t == Observe(w, side, link)
    requires side.stats[p] == ReceivedStats(w.side.stats[p], code)
    requires link.rx[p].consumer == if Consumes(code) then Next(w.link.rx[p].consumer) else w.link.rx[p].consumer
    ensures Account(t, start, p)
  {
    IndexMoves(w.link.rx[p].consumer, start.rx[p].consumer, w.moves[p].pops);
    ReceivedConserves(w.side.stats[p], w.moves[p], code);
    assert t.moves[p] == w.moves[p].(pops := w.moves[p].pops + if Consumes(code) then 1 else 0);
  }

  lemma PeerAccount(w: World, start: Link, link: Link, p: nat, t: World)
    requires Sound(w) && start.Valid() && p < PRIORITIES && Account(w, start, p)
    requires PeerMay(w.link, link) && t == Observe(w, w.side, link)
    ensures Account(t, start, p)
  {
    assert t.moves[p] == w.moves[p];
  }

  lemma SequenceSucc(i: nat)
    ensures SequenceAt(0) == NextSequence(0) && SequenceAt(i + 1) == NextSequence(SequenceAt(i))
    ensures SequenceAt(i) != SequenceAt(i + 1)
  {}

  lemma SendAdvances(side: Side, link: Link, r: Request, notified: int, o: Outcome)
    requires Ready(side, link) && r.Readable() && o == SendSpec(side, link, r, notified, NO_RESULT)
    ensures o.side.nextSequence in {side.nextSequence, NextSequence(side.nextSequence)}
  {}

  lemma StepAdvances(w: World, step: Step, t: World)
    requires Sound(w) && t == Apply(w, step)
    ensures t.side.nextSequence in {w.side.nextSequence, NextSequence(w.side.nextSequence)}
    ensures t.generated ==
      if t.side.nextSequence == w.side.nextSequence then w.generated else w.generated + [t.side.nextSequence]
  {
    if step.DoSend? {
      if step.r.Readable() {
        SendAdvances(w.side, w.link, step.r, step.notified,
                     SendSpec(w.side, w.link, step.r, step.notified, NO_RESULT));
      }
    } else if step.DoReceive? {
      ReceiveAt(w.side, w.link, step.priority, ReceiveSpec(w.side, w.link, step.priority, NoMessage()), 0);
    }
  }

  lemma StepGenerates(w: World, step: Step, t: World)
    requires Sound(w) && Generated(w) && t == Apply(w, step)
    ensures Generated(t)
  {
    StepAdvances(w, step, t);
    GeneratedGrows(w, t);
  }

  lemma GeneratedGrows(w: World, t: World)
    requires Generated(w) && t.side.nextSequence in {w.side.nextSequence, NextSequence(w.side.nextSequence)}
    requires t.generated ==
      if t.side.nextSequence == w.side.nextSequence then w.generated else w.generated + [t.side.nextSequence]
    ensures Generated(t)
  {
    if w.generated == [] { SequenceSucc(0); } else { SequenceSucc(|w.generated| - 1); }
  }

  lemma StepAccounts(w: World, start: Link, step: Step, p: nat, t: World)
    requires Sound(w) && start.Valid() && p < PRIORITIES && Account(w, start, p) && t == Apply(w, step)
    ensures Account(t, start, p)
  {
    if step.DoSend? {
      if step.r.Readable() {
        var o := SendSpec(w.side, w.link, step.r, step.notified, NO_RESULT);
        SendEnqueues(w.side, w.link, step.r, step.notified, NO_RESULT, o);
        SendAccount(w, start, step.r, step.notified, p, o, t);
      }
    } else if step.DoReceive? {
      var o := ReceiveSpec(w.side, w.link, step.priority, NoMessage());
      ReceiveDequeues(w.side, w.link, step.priority, NoMessage(), o);
      ReceiveAccount(w, start, step.priority, p, o, t);
    } else if PeerMay(w.link, step.link) {
      PeerAccount(w, start, step.link, p, t);
    }
  }

  lemma {:induction false} RunKeeps(w: World, start: Link, steps: seq<Step>)
    requires Sound(w) && start.Valid() && Inv(w, start)
    ensures Inv(Run(w, steps), start)
    decreases |steps|
  {
    if steps != [] {
      var t := Apply(w, steps[0]);
      StepGenerates(w, steps[0], t);
      forall p | 0 <= p < PRIORITIES ensures Account(t, start, p) {
        StepAccounts(w, start, steps[0], p, t);
      }
      RunKeeps(t, start, steps[1..]);
    }
  }

  /** After any run of one binding, whatever the peer did meanwhile: frames enqueued and receive-index advances
      are accounted for exactly, modulo 2^32, by the counters, and the high-water mark fits the ring. */
  lemma CountersConserve(w: World, steps: seq<Step>, p: nat)
    requires Fresh(w) && p < PRIORITIES
    ensures var t := Run(w, steps);
            && Conserved(t.side.stats[p], t.moves[p])
            && IndexAt(t.link.tx[p].producer, w.link.tx[p].producer, t.moves[p].pushes)
            && IndexAt(t.link.rx[p].consumer, w.link.rx[p].consumer, t.moves[p].pops)
  {
    FreshInv(w);
    RunKeeps(w, w.link, steps);
    assert Account(Run(w, steps), w.link, p);
  }

  lemma FreshInv(w: World)
    requires Fresh(w)
    ensures Inv(w, w.link)
  {
    forall p | 0 <= p < PRIORITIES ensures Account(w, w.link, p) {
      assert w.side.stats[p] == NO_STATS && w.moves[p] == Moves(0, 0);
    }
  }

  lemma Spread(i: nat, j: nat)
    requires i < j < i + (U32 - 1)
    ensures SequenceAt(i) != SequenceAt(j)
  {}

  /** Any 2^32 - 1 consecutive sequences of a binding are nonzero and pairwise distinct, whether or not the frames
      that they were generated for found room in a ring. */
  lemma SequencesDistinct(w: World, steps: seq<Step>, i: nat, j: nat)
    requires Fresh(w)
    requires i < j < |Run(w, steps).generated| && j - i < U32 - 1
    ensures var g := Run(w, steps).generated; g[i] != 0 && g[j] != 0 && g[i] != g[j]
  {
    FreshInv(w);
    RunKeeps(w, w.link, steps);
    Spread(i, j);
  }
}
