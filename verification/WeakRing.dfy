/**
 One ring shared by two cores whose stores become visible late.

 Every location has one writer. `local` is what the writer has stored, `mem` is what memory holds and `remote` is
 what the reader has loaded. A store changes `local`; it reaches memory when the writer publishes it or at any earlier
 moment of its own accord; the reader sees memory when it acquires or at any moment in between. The granularity is
 one field: an index word, a header word, a payload byte, the checksum or the commit word.
 */
module WeakRing {
  import opened Words
  import opened Ring

  /**
   An index word, written as the number of times it has been advanced since the ring was cleared. The code sees
   only `Slot(count)`, the word that repeated `(index + 1) % 8` leaves.
   */
  type Count = nat

  datatype IndexCell = IndexCell(local: Count, mem: Count, remote: Count)

  datatype SlotCell = SlotCell(local: Message, mem: Message, remote: Message)

  function Slot(count: Count): (i: nat)
    ensures i < SLOTS
  {
    if count == 0 then 0 else Ring.Next(Slot(count - 1))
  }

  lemma {:induction false} SlotIsModulo(count: nat)
    ensures Slot(count) == count % 8
  {
    if count > 0 { SlotIsModulo(count - 1); }
  }

  lemma SlotsMeet(a: nat, b: nat)
    requires a <= b <= a + 8
    ensures Slot(a) == Slot(b) <==> b == a || b == a + 8
  {
    SlotIsModulo(a);
    SlotIsModulo(b);
  }

  // ----- Any checksum that reads only the business fields will do -----

  type Sum = Message -> bv32

  ghost predicate ReadsBusinessFields(sum: Sum) {
    forall m: Message, c: bv32, k: u32 :: sum(m.(crc32 := c, commit := k)) == sum(m)
  }

  function Seal(sum: Sum, m: Message): Message {
    m.(crc32 := sum(m), commit := m.sequence)
  }

  function Verdict(sum: Sum, m: Message): int {
    if !HeaderOk(m) then RING_INVALID else if m.crc32 != sum(m) then RING_BAD_CRC else RING_OK
  }

  // ----- The fields of a frame -----

  const FIELDS: nat := 34
  const COMMIT: nat := 33

  /** `to` with field `f` taken from `from`: 0-3 header words, 4-31 payload bytes, 32 checksum, 33 commit. */
  function Copy(to: Message, from: Message, f: nat): Message {
    if f == 0 then to.(generation := from.generation)
    else if f == 1 then to.(kind := from.kind)
    else if f == 2 then to.(sequence := from.sequence)
    else if f == 3 then to.(length := from.length)
    else if f < 32 then to.(payload := to.payload[f - 4 := from.payload[f - 4]])
    else if f == 32 then to.(crc32 := from.crc32)
    else to.(commit := from.commit)
  }

  predicate Same(a: Message, b: Message, f: nat) {
    if f == 0 then a.generation == b.generation
    else if f == 1 then a.kind == b.kind
    else if f == 2 then a.sequence == b.sequence
    else if f == 3 then a.length == b.length
    else if f < 32 then a.payload[f - 4] == b.payload[f - 4]
    else if f == 32 then a.crc32 == b.crc32
    else a.commit == b.commit
  }

  ghost predicate SameUpTo(a: Message, b: Message, k: nat) {
    forall f: nat :: f < k ==> Same(a, b, f)
  }

  lemma SameAll(a: Message, b: Message)
    requires SameUpTo(a, b, FIELDS)
    ensures a == b
  {
    assert Same(a, b, 0) && Same(a, b, 1) && Same(a, b, 2) && Same(a, b, 3) && Same(a, b, 32) && Same(a, b, 33);
    forall i | 0 <= i < 28 ensures a.payload[i] == b.payload[i] {
      assert Same(a, b, i + 4);
    }
    assert a.payload == b.payload;
  }

  lemma CopyNext(to: Message, from: Message, k: nat)
    requires k < FIELDS && SameUpTo(to, from, k)
    ensures SameUpTo(Copy(to, from, k), from, k + 1)
  {
    forall f: nat | f < k + 1 ensures Same(Copy(to, from, k), from, f) {
      assert f < k ==> Same(to, from, f);
    }
  }

  lemma CopyKeeps(to: Message, from: Message, f: nat, k: nat)
    requires SameUpTo(to, from, k)
    ensures SameUpTo(Copy(to, from, f), from, k)
  {
    forall g: nat | g < k ensures Same(Copy(to, from, f), from, g) {
      assert Same(to, from, g);
    }
  }

  lemma CopySelf(m: Message, f: nat)
    ensures Copy(m, m, f) == m
  {}

  // ----- The indices and the two program counters -----

  datatype PushPc =
    | PIdle | PAcquire | PTest | PCopy | PZeroCommit | PSum | PPublishSlot | PCommit | PPublishCommit | PIndex
    | PPublishIndex

  datatype PopPc = CIdle | CAcquire | CTest | CAcquireSlot | CCheck | CCopy | CRelease | CPublish | CJudge

  datatype Control = Control(
    prod: IndexCell,   // written by the producer
    cons: IndexCell,   // written by the consumer
    p: PushPc,
    c: PopPc,
    sawEmpty: bool,      // was memory's ring empty when the consumer last loaded the producer index
    sawFull: bool)       // was it full when the producer last loaded the consumer index

  /** The test that push makes after it has loaded the consumer index. */
  predicate TestsFull(k: Control) {
    Ring.Next(Slot(k.prod.local)) == Slot(k.cons.remote)
  }

  predicate TestsEmpty(k: Control) {
    Slot(k.cons.local) == Slot(k.prod.remote)
  }

  /** The consumer loads the producer index. */
  function LoadProducer(k: Control): Control {
    k.(prod := k.prod.(remote := k.prod.mem), sawEmpty := k.prod.mem == k.cons.local)
  }

  /** The producer loads the consumer index. */
  function LoadConsumer(k: Control): Control {
    k.(cons := k.cons.(remote := k.cons.mem), sawFull := k.prod.local == k.cons.mem + 7)
  }

  /** What one step of `mailmsg_ring_push` does to the indices and to its program counter. */
  function PushControl(k: Control, headerOk: bool, full: bool, lastField: bool): Control {
    match k.p
    case PIdle => if headerOk then k.(p := PAcquire) else k
    case PAcquire => LoadConsumer(k).(p := PTest)
    case PTest => k.(p := if full then PIdle else PCopy)
    case PCopy => if lastField then k.(p := PZeroCommit) else k
    case PZeroCommit => k.(p := PSum)
    case PSum => k.(p := PPublishSlot)
    case PPublishSlot => k.(p := PCommit)
    case PCommit => k.(p := PPublishCommit)
    case PPublishCommit => k.(p := PIndex)
    case PIndex => k.(prod := k.prod.(local := k.prod.local + 1), p := PPublishIndex)
    case PPublishIndex => k.(prod := k.prod.(mem := k.prod.local), p := PIdle)
  }

  /** What one step of `mailmsg_ring_pop` does to the indices and to its program counter. */
  function PopControl(k: Control, empty: bool, committed: bool, lastField: bool): Control {
    match k.c
    case CIdle => k.(c := CAcquire)
    case CAcquire => LoadProducer(k).(c := CTest)
    case CTest => k.(c := if empty then CIdle else CAcquireSlot)
    case CAcquireSlot => k.(c := CCheck)
    case CCheck => k.(c := if committed then CCopy else CIdle)
    case CCopy => if lastField then k.(c := CRelease) else k
    case CRelease => k.(cons := k.cons.(local := k.cons.local + 1), c := CPublish)
    case CPublish => k.(cons := k.cons.(mem := k.cons.local), c := CJudge)
    case CJudge => k.(c := CIdle)
  }

  predicate Writing(p: PushPc) {
    p.PCopy? || p.PZeroCommit? || p.PSum? || p.PPublishSlot? || p.PCommit? || p.PPublishCommit? || p.PIndex?
  }

  predicate Reading(c: PopPc) {
    c.CAcquireSlot? || c.CCheck? || c.CCopy? || c.CRelease?
  }

  ghost predicate ControlInv(k: Control) {
    && k.prod.mem <= k.prod.local && (k.p.PPublishIndex? || k.prod.mem == k.prod.local)
    && k.cons.mem <= k.cons.local && (k.c.CPublish? || k.cons.mem == k.cons.local)
    && k.prod.local <= k.prod.mem + 1 && k.cons.local <= k.cons.mem + 1
    && k.cons.local <= k.prod.mem && k.prod.local <= k.cons.mem + 7
    && (Writing(k.p) ==> k.prod.local <= k.cons.mem + 6)
    && (k.p.PTest? ==>
        k.cons.remote <= k.cons.mem && k.prod.local <= k.cons.remote + 7
        && k.sawFull == (k.prod.local == k.cons.remote + 7))
    && (k.c.CTest? ==>
        k.cons.local <= k.prod.remote <= k.prod.mem && k.sawEmpty == (k.prod.remote == k.cons.local))
    && (Reading(k.c) ==> k.cons.local < k.prod.mem)
  }

  /** FULL is answered exactly when memory's ring was full at the moment the consumer index was loaded. */
  lemma FullIsExact(k: Control)
    requires ControlInv(k) && k.p == PTest
    ensures TestsFull(k) <==> k.sawFull
  {
    SlotsMeet(k.cons.remote, k.prod.local + 1);
  }

  /** EMPTY is answered exactly when memory's ring was empty at the moment the producer index was loaded. */
  lemma EmptyIsExact(k: Control)
    requires ControlInv(k) && k.c == CTest
    ensures TestsEmpty(k) <==> k.sawEmpty
  {
    SlotsMeet(k.cons.local, k.prod.remote);
  }

  lemma PushKeepsControl(k: Control, headerOk: bool, full: bool, lastField: bool)
    requires ControlInv(k) && (k.p.PTest? ==> full == k.sawFull)
    ensures ControlInv(PushControl(k, headerOk, full, lastField))
  {
    if k.p == PIdle {
      assert ControlInv(PushControl(k, headerOk, full, lastField));
    } else if k.p == PAcquire {
      assert ControlInv(PushControl(k, headerOk, full, lastField));
    } else if k.p == PTest {
      assert ControlInv(PushControl(k, headerOk, full, lastField));
    } else if k.p == PIndex {
      assert ControlInv(PushControl(k, headerOk, full, lastField));
    } else if k.p == PPublishIndex {
      assert ControlInv(PushControl(k, headerOk, full, lastField));
    }
  }

  lemma PopKeepsControl(k: Control, empty: bool, committed: bool, lastField: bool)
    requires ControlInv(k) && (k.c.CTest? ==> empty == k.sawEmpty)
    ensures ControlInv(PopControl(k, empty, committed, lastField))
  {
    if k.c == CIdle {
      assert ControlInv(PopControl(k, empty, committed, lastField));
    } else if k.c == CAcquire {
      assert ControlInv(PopControl(k, empty, committed, lastField));
    } else if k.c == CTest {
      assert ControlInv(PopControl(k, empty, committed, lastField));
    } else if k.c == CRelease {
      assert ControlInv(PopControl(k, empty, committed, lastField));
    } else if k.c == CPublish {
      assert ControlInv(PopControl(k, empty, committed, lastField));
    }
  }

  lemma TransferKeepsControl(k: Control)
    requires ControlInv(k)
    ensures ControlInv(LoadProducer(k)) && ControlInv(LoadConsumer(k))
    ensures ControlInv(k.(prod := k.prod.(mem := k.prod.local))) && ControlInv(k.(cons := k.cons.(mem := k.cons.local)))
  {}

  /** The slot being filled is never the slot of a frame in flight. */
  lemma FillingIsFree(k: Control, j: nat)
    requires ControlInv(k) && Writing(k.p) && k.cons.local <= j < k.prod.local
    ensures Slot(j) != Slot(k.prod.local)
  {
    SlotsMeet(j, k.prod.local);
  }

  // ----- The slots and the frames -----

  /** A message on its way in or out, and how many of its fields have been copied. */
  datatype Job = Job(m: Message, fields: nat)

  datatype Log = Log(
    sent: seq<Message>,       // messages whose producer index has been stored, in order
    accepted: nat,            // how often push has returned RING_OK
    received: seq<Message>,   // frames that pop has returned with RING_OK, in order
    pushCodes: set<int>,      // every result push has returned
    popCodes: set<int>)       // every result pop has returned

  datatype State = State(k: Control, slots: seq<SlotCell>, push: Job, pop: Job, log: Log)

  predicate Shape(s: State) {
    |s.slots| == SLOTS
  }

  /** What one step of `mailmsg_ring_push` does to the slot that it fills. */
  function FillSlot(sum: Sum, p: PushPc, slot: SlotCell, job: Job): SlotCell {
    match p
    case PCopy => slot.(local := Copy(slot.local, job.m, job.fields))
    case PZeroCommit => slot.(local := slot.local.(commit := 0))
    case PSum => slot.(local := slot.local.(crc32 := sum(slot.local)))
    case PPublishSlot => slot.(mem := slot.local)
    case PCommit => slot.(local := slot.local.(commit := job.m.sequence))
    case PPublishCommit => slot.(mem := Copy(slot.mem, slot.local, COMMIT))
    case _ => slot
  }

  function PushJob(p: PushPc, job: Job, m: Message): Job {
    match p
    case PIdle => Job(m, 0)
    case PCopy => job.(fields := job.fields + 1)
    case _ => job
  }

  function PushLog(p: PushPc, log: Log, job: Job, headerOk: bool, full: bool): Log {
    match p
    case PIdle => if headerOk then log else log.(pushCodes := log.pushCodes + {RING_INVALID})
    case PTest => if full then log.(pushCodes := log.pushCodes + {RING_FULL}) else log
    case PIndex => log.(sent := log.sent + [job.m])
    case PPublishIndex => log.(pushCodes := log.pushCodes + {RING_OK}, accepted := log.accepted + 1)
    case _ => log
  }

  /** One step of `mailmsg_ring_push`; an idle producer starts to push `m`. */
  function ProducerStep(sum: Sum, s: State, m: Message): State
    requires Shape(s)
  {
    var i, p, full := Slot(s.k.prod.local), s.k.p, TestsFull(s.k);
    State(PushControl(s.k, HeaderOk(m), full, s.push.fields + 1 == FIELDS),
          s.slots[i := FillSlot(sum, p, s.slots[i], s.push)],
          PushJob(p, s.push, m), s.pop, PushLog(p, s.log, s.push, HeaderOk(m), full))
  }

  function TakeSlot(c: PopPc, slot: SlotCell): SlotCell {
    if c.CAcquireSlot? then slot.(remote := slot.mem) else slot
  }

  function PopJob(c: PopPc, slot: SlotCell, job: Job, buffer: Message): Job {
    match c
    case CCheck => Job(buffer, 0)
    case CCopy => Job(Copy(job.m, slot.remote, job.fields), job.fields + 1)
    case _ => job
  }

  function PopLog(sum: Sum, c: PopPc, log: Log, job: Job, empty: bool, committed: bool): Log {
    match c
    case CTest => if empty then log.(popCodes := log.popCodes + {RING_EMPTY}) else log
    case CCheck => if committed then log else log.(popCodes := log.popCodes + {RING_INCOMPLETE})
    case CJudge =>
      var code := Verdict(sum, job.m);
      log.(popCodes := log.popCodes + {code},
           received := if code == RING_OK then log.received + [job.m] else log.received)
    case _ => log
  }

  /** One step of `mailmsg_ring_pop`; `buffer` is whatever the caller's message holds before the copy. */
  function ConsumerStep(sum: Sum, s: State, buffer: Message): State
    requires Shape(s)
  {
    var i, c, empty := Slot(s.k.cons.local), s.k.c, TestsEmpty(s.k);
    var slot := s.slots[i];
    var committed := slot.remote.commit == slot.remote.sequence;
    State(PopControl(s.k, empty, committed, s.pop.fields + 1 == FIELDS),
          s.slots[i := TakeSlot(c, slot)],
          s.push, PopJob(c, slot, s.pop, buffer), PopLog(sum, c, s.log, s.pop, empty, committed))
  }

  datatype Step =
    | Produce(m: Message)
    | Consume(buffer: Message)
    | WriteBackProducer
    | WriteBackConsumer
    | WriteBackField(slot: nat, f: nat)
    | ReloadProducer
    | ReloadConsumer
    | ReloadField(slot: nat, f: nat)

  /** Either core takes its next step, or one field moves between a core's view and memory by itself. */
  function Apply(sum: Sum, s: State, step: Step): (t: State)
    requires Shape(s)
    ensures Shape(t)
  {
    match step
    case Produce(m) => ProducerStep(sum, s, m)
    case Consume(buffer) => ConsumerStep(sum, s, buffer)
    case WriteBackProducer => s.(k := s.k.(prod := s.k.prod.(mem := s.k.prod.local)))
    case WriteBackConsumer => s.(k := s.k.(cons := s.k.cons.(mem := s.k.cons.local)))
    case WriteBackField(i, f) =>
      if i < SLOTS then s.(slots := s.slots[i := s.slots[i].(mem := Copy(s.slots[i].mem, s.slots[i].local, f))]) else s
    case ReloadProducer => s.(k := LoadProducer(s.k))
    case ReloadConsumer => s.(k := LoadConsumer(s.k))
    case ReloadField(i, f) =>
      if i >= SLOTS then s
      else s.(slots := s.slots[i := s.slots[i].(remote := Copy(s.slots[i].remote, s.slots[i].mem, f))])
  }

  function Run(sum: Sum, s: State, steps: seq<Step>): (t: State)
    requires Shape(s)
    ensures Shape(t)
  {
    if steps == [] then s else Apply(sum, Run(sum, s, steps[..|steps| - 1]), steps[|steps| - 1])
  }

  /** Both indices start at zero in memory and in their owners; everything else may hold anything. */
  ghost predicate Init(s: State) {
    && Shape(s)
    && s.k.prod.local == s.k.prod.mem == s.k.cons.local == s.k.cons.mem == 0
    && s.k.p == PIdle && s.k.c == CIdle
    && s.log == Log([], 0, [], {}, {})
  }

  // ----- The invariant of the slots -----

  ghost predicate Holds(c: SlotCell, m: Message) {
    c.local == m && c.mem == m
  }

  /** How far the producer has got with the slot it is filling. */
  ghost predicate Filled(sum: Sum, p: PushPc, slot: SlotCell, job: Job) {
    && (p != PIdle && p != PPublishIndex ==> HeaderOk(job.m))
    && match p
       case PAcquire => job.fields == 0
       case PTest => job.fields == 0
       case PCopy => job.fields < FIELDS && SameUpTo(slot.local, job.m, job.fields)
       case PZeroCommit => slot.local == job.m
       case PSum => slot.local == job.m.(commit := 0)
       case PPublishSlot => slot.local == Seal(sum, job.m).(commit := 0)
       case PCommit => Holds(slot, Seal(sum, job.m).(commit := 0))
       case PPublishCommit => slot.local == Seal(sum, job.m) && SameUpTo(slot.mem, slot.local, COMMIT)
       case PIndex => Holds(slot, Seal(sum, job.m))
       case _ => true
  }

  lemma CopyStep(sum: Sum, k: Control, slot: SlotCell, job: Job, m: Message, full: bool)
    requires k.p == PCopy && Filled(sum, PCopy, slot, job)
    ensures Filled(sum, PushControl(k, HeaderOk(m), full, job.fields + 1 == FIELDS).p,
                   FillSlot(sum, PCopy, slot, job), PushJob(PCopy, job, m))
  {
    CopyNext(slot.local, job.m, job.fields);
    if job.fields + 1 == FIELDS { SameAll(Copy(slot.local, job.m, job.fields), job.m); }
  }

  lemma CommitStep(sum: Sum, slot: SlotCell, job: Job)
    requires Filled(sum, PPublishCommit, slot, job)
    ensures Filled(sum, PIndex, FillSlot(sum, PPublishCommit, slot, job), job)
  {
    CopyNext(slot.mem, slot.local, COMMIT);
    SameAll(Copy(slot.mem, slot.local, COMMIT), slot.local);
  }

  lemma FillKeeps(sum: Sum, k: Control, slot: SlotCell, job: Job, m: Message, full: bool)
    requires ReadsBusinessFields(sum) && Filled(sum, k.p, slot, job)
    ensures Filled(sum, PushControl(k, HeaderOk(m), full, job.fields + 1 == FIELDS).p,
                   FillSlot(sum, k.p, slot, job), PushJob(k.p, job, m))
  {
    if k.p == PCopy {
      CopyStep(sum, k, slot, job, m, full);
    } else if k.p == PSum {
      assert sum(job.m.(crc32 := job.m.crc32, commit := 0)) == sum(job.m);
    } else if k.p == PCommit {
      SealedSame(sum, job.m);
    } else if k.p == PPublishCommit {
      CommitStep(sum, slot, job);
    }
  }

  lemma SealedSame(sum: Sum, m: Message)
    ensures SameUpTo(Seal(sum, m).(commit := 0), Seal(sum, m), COMMIT)
  {}

  /** How far the consumer has got with the oldest frame, which is `frame` when there is one. */
  ghost predicate Taken(c: PopPc, slot: SlotCell, job: Job, frame: Message) {
    match c
    case CCheck => slot.remote == frame
    case CCopy => slot.remote == frame && job.fields < FIELDS && SameUpTo(job.m, frame, job.fields)
    case CRelease => job.m == frame
    case _ => true
  }

  lemma TakeKeeps(k: Control, slot: SlotCell, job: Job, frame: Message, buffer: Message, empty: bool)
    requires Taken(k.c, slot, job, frame) && (Reading(k.c) ==> slot.mem == frame) && frame.commit == frame.sequence
    requires k.c != CRelease
    ensures var committed := slot.remote.commit == slot.remote.sequence;
            && (k.c == CCheck ==> committed)
            && Taken(PopControl(k, empty, committed, job.fields + 1 == FIELDS).c,
                     TakeSlot(k.c, slot), PopJob(k.c, slot, job, buffer), frame)
  {
    if k.c == CCopy {
      CopyNext(job.m, slot.remote, job.fields);
      if job.fields + 1 == FIELDS { SameAll(Copy(job.m, slot.remote, job.fields), slot.remote); }
    }
  }

  /** Every frame in flight sits sealed in its slot, in the producer's view and in memory. */
  ghost predicate InFlight(sum: Sum, k: Control, slots: seq<SlotCell>, sent: seq<Message>) {
    && |slots| == SLOTS && |sent| == k.prod.local
    && (forall j :: 0 <= j < |sent| ==> HeaderOk(sent[j]))
    && (forall j :: k.cons.local <= j < |sent| ==> Holds(slots[Slot(j)], Seal(sum, sent[j])))
  }

  ghost predicate Oldest(sum: Sum, k: Control, slots: seq<SlotCell>, pop: Job, sent: seq<Message>)
    requires |slots| == SLOTS
  {
    var n := k.cons.local;
    && (Reading(k.c) ==> n < |sent| && Taken(k.c, slots[Slot(n)], pop, Seal(sum, sent[n])))
    && (k.c.CPublish? || k.c.CJudge? ==> 0 < n <= |sent| && pop.m == Seal(sum, sent[n - 1]))
  }

  ghost predicate Logged(sum: Sum, k: Control, log: Log) {
    && |log.received| == k.cons.local - (if k.c.CPublish? || k.c.CJudge? then 1 else 0)
    && |log.received| <= |log.sent|
    && (forall j :: 0 <= j < |log.received| ==> log.received[j] == Seal(sum, log.sent[j]))
    && log.pushCodes <= {RING_OK, RING_FULL, RING_INVALID}
    && log.popCodes <= {RING_OK, RING_EMPTY}
  }

  /** A message counts as sent from the moment its index is stored; push returns RING_OK one step later. */
  ghost predicate Accepted(k: Control, log: Log) {
    |log.sent| == log.accepted + (if k.p == PPublishIndex then 1 else 0)
  }

  ghost predicate Inv(sum: Sum, s: State) {
    && Shape(s)
    && ControlInv(s.k)
    && InFlight(sum, s.k, s.slots, s.log.sent)
    && Filled(sum, s.k.p, s.slots[Slot(s.k.prod.local)], s.push)
    && Oldest(sum, s.k, s.slots, s.pop, s.log.sent)
    && Logged(sum, s.k, s.log)
    && Accepted(s.k, s.log)
  }

  lemma InitInv(sum: Sum, s: State)
    requires Init(s)
    ensures Inv(sum, s)
  {}

  /** Refilling the producer's slot leaves every frame in flight where it is. */
  lemma RefillKeeps(sum: Sum, k: Control, slots: seq<SlotCell>, sent: seq<Message>, slot: SlotCell)
    requires ControlInv(k) && Writing(k.p) && InFlight(sum, k, slots, sent)
    ensures var t := slots[Slot(k.prod.local) := slot];
            InFlight(sum, k, t, sent) && forall j :: k.cons.local <= j < |sent| ==> t[Slot(j)] == slots[Slot(j)]
  {
    forall j | k.cons.local <= j < |sent| ensures Slot(j) != Slot(k.prod.local) {
      FillingIsFree(k, j);
    }
  }

  lemma FillUnchanged(sum: Sum, p: PushPc, slot: SlotCell, job: Job)
    requires !Writing(p) || p == PIndex
    ensures FillSlot(sum, p, slot, job) == slot
  {}

  lemma AppendKeeps(sum: Sum, k: Control, slots: seq<SlotCell>, sent: seq<Message>, m: Message)
    requires InFlight(sum, k, slots, sent) && HeaderOk(m) && Holds(slots[Slot(k.prod.local)], Seal(sum, m))
    ensures InFlight(sum, k.(prod := k.prod.(local := k.prod.local + 1), p := PPublishIndex), slots, sent + [m])
  {
    forall j | k.cons.local <= j < |sent| + 1 ensures Holds(slots[Slot(j)], Seal(sum, (sent + [m])[j])) {
      if j < |sent| { assert (sent + [m])[j] == sent[j]; }
    }
  }

  lemma InFlightSame(sum: Sum, k: Control, k': Control, slots: seq<SlotCell>, sent: seq<Message>)
    requires InFlight(sum, k, slots, sent) && k'.prod.local == k.prod.local && k'.cons.local == k.cons.local
    ensures InFlight(sum, k', slots, sent)
  {}

  lemma PushSent(p: PushPc, log: Log, job: Job, headerOk: bool, full: bool)
    ensures PushLog(p, log, job, headerOk, full).sent == if p == PIndex then log.sent + [job.m] else log.sent
  {}

  lemma ProduceKeepsSlots(sum: Sum, s: State, m: Message, t: State)
    requires Inv(sum, s) && t == ProducerStep(sum, s, m)
    ensures InFlight(sum, t.k, t.slots, t.log.sent)
    ensures forall j :: s.k.cons.local <= j < s.k.prod.local ==> t.slots[Slot(j)] == s.slots[Slot(j)]
  {
    var i := Slot(s.k.prod.local);
    PushSent(s.k.p, s.log, s.push, HeaderOk(m), TestsFull(s.k));
    PushLeavesReader(s.k, HeaderOk(m), TestsFull(s.k), s.push.fields + 1 == FIELDS);
    if s.k.p == PIndex {
      FillUnchanged(sum, s.k.p, s.slots[i], s.push);
      AppendKeeps(sum, s.k, s.slots, s.log.sent, s.push.m);
    } else if Writing(s.k.p) {
      RefillKeeps(sum, s.k, s.slots, s.log.sent, FillSlot(sum, s.k.p, s.slots[i], s.push));
      InFlightSame(sum, s.k, t.k, t.slots, t.log.sent);
    } else {
      FillUnchanged(sum, s.k.p, s.slots[i], s.push);
      InFlightSame(sum, s.k, t.k, t.slots, t.log.sent);
    }
  }

  lemma PushLeavesReader(k: Control, headerOk: bool, full: bool, lastField: bool)
    ensures var t := PushControl(k, headerOk, full, lastField);
            && t.c == k.c && t.cons.local == k.cons.local
            && (k.p != PIndex ==> t.prod.local == k.prod.local)
            && (k.p == PIndex ==> t.p == PPublishIndex)
  {}

  /** The consumer's side of the invariant, in terms of what a producer step may change. */
  lemma ReaderUnaffected(sum: Sum, k: Control, k': Control, slots: seq<SlotCell>, slots': seq<SlotCell>, pop: Job,
                         log: Log, log': Log)
    requires |slots| == |slots'| == SLOTS && k'.c == k.c && k'.cons.local == k.cons.local
    requires Oldest(sum, k, slots, pop, log.sent) && Logged(sum, k, log)
    requires log'.received == log.received && log'.popCodes == log.popCodes && log.sent <= log'.sent
    requires log'.pushCodes <= {RING_OK, RING_FULL, RING_INVALID}
    requires Reading(k.c) ==> slots'[Slot(k.cons.local)] == slots[Slot(k.cons.local)]
    ensures Oldest(sum, k', slots', pop, log'.sent) && Logged(sum, k', log')
  {}

  lemma PushLogGrows(p: PushPc, log: Log, job: Job, headerOk: bool, full: bool)
    ensures var t := PushLog(p, log, job, headerOk, full);
            && t.received == log.received && t.popCodes == log.popCodes && log.sent <= t.sent
            && t.pushCodes <= log.pushCodes + {RING_OK, RING_FULL, RING_INVALID}
  {}

  lemma ProduceKeepsReader(sum: Sum, s: State, m: Message, t: State)
    requires Inv(sum, s) && t == ProducerStep(sum, s, m)
    ensures Oldest(sum, t.k, t.slots, t.pop, t.log.sent) && Logged(sum, t.k, t.log)
  {
    ProduceKeepsSlots(sum, s, m, t);
    PushLeavesReader(s.k, HeaderOk(m), TestsFull(s.k), s.push.fields + 1 == FIELDS);
    PushLogGrows(s.k.p, s.log, s.push, HeaderOk(m), TestsFull(s.k));
    ReaderUnaffected(sum, s.k, t.k, s.slots, t.slots, s.pop, s.log, t.log);
  }

  lemma ProduceKeepsFilled(sum: Sum, s: State, m: Message, t: State)
    requires ReadsBusinessFields(sum) && Inv(sum, s) && t == ProducerStep(sum, s, m)
    ensures Filled(sum, t.k.p, t.slots[Slot(t.k.prod.local)], t.push)
  {
    PushLeavesReader(s.k, HeaderOk(m), TestsFull(s.k), s.push.fields + 1 == FIELDS);
    FillKeeps(sum, s.k, s.slots[Slot(s.k.prod.local)], s.push, m, TestsFull(s.k));
  }

  lemma PushKeepsAccepted(k: Control, log: Log, job: Job, headerOk: bool, full: bool, lastField: bool)
    requires Accepted(k, log)
    ensures Accepted(PushControl(k, headerOk, full, lastField), PushLog(k.p, log, job, headerOk, full))
  {}

  lemma ProduceKeeps(sum: Sum, s: State, m: Message, t: State)
    requires ReadsBusinessFields(sum) && Inv(sum, s) && t == ProducerStep(sum, s, m)
    ensures Inv(sum, t)
  {
    PushKeepsAccepted(s.k, s.log, s.push, HeaderOk(m), TestsFull(s.k), s.push.fields + 1 == FIELDS);
    if s.k.p.PTest? { FullIsExact(s.k); }
    PushKeepsControl(s.k, HeaderOk(m), TestsFull(s.k), s.push.fields + 1 == FIELDS);
    ProduceKeepsFilled(sum, s, m, t);
    ProduceKeepsSlots(sum, s, m, t);
    ProduceKeepsReader(sum, s, m, t);
  }

  // ----- Consumer steps keep the invariant -----

  lemma PopLeavesWriter(k: Control, empty: bool, committed: bool, lastField: bool)
    ensures var t := PopControl(k, empty, committed, lastField);
            && t.p == k.p && t.prod.local == k.prod.local
            && t.cons.local == k.cons.local + (if k.c == CRelease then 1 else 0)
            && (k.c == CRelease ==> t.c == CPublish)
  {}

  /** The producer's side of the invariant, in terms of what a consumer step may change. */
  lemma WriterUnaffected(sum: Sum, k: Control, k': Control, slots: seq<SlotCell>, slots': seq<SlotCell>, push: Job,
                         sent: seq<Message>)
    requires |slots| == |slots'| == SLOTS
    requires k'.p == k.p && k'.prod.local == k.prod.local && k.cons.local <= k'.cons.local
    requires forall i :: 0 <= i < SLOTS ==> slots'[i].local == slots[i].local && slots'[i].mem == slots[i].mem
    requires InFlight(sum, k, slots, sent) && Filled(sum, k.p, slots[Slot(k.prod.local)], push)
    ensures InFlight(sum, k', slots', sent) && Filled(sum, k'.p, slots'[Slot(k'.prod.local)], push)
  {}

  lemma ConsumeKeepsWriter(sum: Sum, s: State, buffer: Message, t: State)
    requires Inv(sum, s) && t == ConsumerStep(sum, s, buffer)
    ensures InFlight(sum, t.k, t.slots, t.log.sent) && Filled(sum, t.k.p, t.slots[Slot(t.k.prod.local)], t.push)
  {
    var slot := s.slots[Slot(s.k.cons.local)];
    PopLeavesWriter(s.k, TestsEmpty(s.k), slot.remote.commit == slot.remote.sequence, s.pop.fields + 1 == FIELDS);
    WriterUnaffected(sum, s.k, t.k, s.slots, t.slots, s.push, s.log.sent);
  }

  lemma SealAccepted(sum: Sum, m: Message)
    requires ReadsBusinessFields(sum) && HeaderOk(m)
    ensures Verdict(sum, Seal(sum, m)) == RING_OK
  {
    assert sum(m.(crc32 := sum(m), commit := m.sequence)) == sum(m);
  }

  /** What a consumer step does to its program counter and job, away from the slot it has just released. */
  lemma PopOutsideReading(k: Control, slot: SlotCell, job: Job, buffer: Message, empty: bool, committed: bool,
                          last: bool)
    requires !Reading(k.c) || k.c == CRelease
    ensures var t := PopControl(k, empty, committed, last);
            && PopJob(k.c, slot, job, buffer) == job && TakeSlot(k.c, slot) == slot
            && (t.c == CCheck || t.c == CCopy || t.c == CRelease ==> false)
            && (t.c == CAcquireSlot ==> k.c == CTest && !empty)
            && (t.c == CPublish || t.c == CJudge ==> k.c == CRelease || k.c == CPublish)
  {}

  lemma PopInsideReading(k: Control, empty: bool, committed: bool, last: bool)
    requires Reading(k.c) && k.c != CRelease
    ensures var t := PopControl(k, empty, committed, last);
            t.c != CPublish && t.c != CJudge && t.cons.local == k.cons.local
  {}

  lemma ReadingStep(sum: Sum, s: State, buffer: Message, t: State)
    requires Inv(sum, s) && t == ConsumerStep(sum, s, buffer) && Reading(s.k.c) && s.k.c != CRelease
    ensures Oldest(sum, t.k, t.slots, t.pop, t.log.sent)
    ensures var slot := s.slots[Slot(s.k.cons.local)]; s.k.c == CCheck ==> slot.remote.commit == slot.remote.sequence
  {
    var n := s.k.cons.local;
    var slot := s.slots[Slot(n)];
    assert Holds(slot, Seal(sum, s.log.sent[n]));
    TakeKeeps(s.k, slot, s.pop, Seal(sum, s.log.sent[n]), buffer, TestsEmpty(s.k));
    PopInsideReading(s.k, TestsEmpty(s.k), slot.remote.commit == slot.remote.sequence, s.pop.fields + 1 == FIELDS);
  }

  lemma OldestAfter(sum: Sum, k: Control, k': Control, slots: seq<SlotCell>, job: Job, sent: seq<Message>)
    requires |slots| == SLOTS && Oldest(sum, k, slots, job, sent)
    requires k'.cons.local == k.cons.local + (if k.c == CRelease then 1 else 0)
    requires k'.c != CCheck && k'.c != CCopy && k'.c != CRelease
    requires k'.c == CAcquireSlot ==> k'.cons.local < |sent|
    requires k'.c == CPublish || k'.c == CJudge ==> k.c == CRelease || k.c == CPublish
    ensures Oldest(sum, k', slots, job, sent)
  {}

  lemma OtherStep(sum: Sum, s: State, buffer: Message, t: State)
    requires Inv(sum, s) && t == ConsumerStep(sum, s, buffer) && (!Reading(s.k.c) || s.k.c == CRelease)
    ensures Oldest(sum, t.k, t.slots, t.pop, t.log.sent)
  {
    var slot := s.slots[Slot(s.k.cons.local)];
    if s.k.c == CTest { EmptyIsExact(s.k); }
    var committed, last := slot.remote.commit == slot.remote.sequence, s.pop.fields + 1 == FIELDS;
    PopOutsideReading(s.k, slot, s.pop, buffer, TestsEmpty(s.k), committed, last);
    PopLeavesWriter(s.k, TestsEmpty(s.k), committed, last);
    assert t.slots == s.slots;
    OldestAfter(sum, s.k, t.k, s.slots, s.pop, s.log.sent);
  }

  lemma ConsumeKeepsReader(sum: Sum, s: State, buffer: Message, t: State)
    requires Inv(sum, s) && t == ConsumerStep(sum, s, buffer)
    ensures Oldest(sum, t.k, t.slots, t.pop, t.log.sent)
  {
    if Reading(s.k.c) && s.k.c != CRelease { ReadingStep(sum, s, buffer, t); } else { OtherStep(sum, s, buffer, t); }
  }

  lemma PopLogCases(sum: Sum, k: Control, log: Log, job: Job, empty: bool, committed: bool, last: bool)
    requires k.c == CCheck ==> committed
    requires k.c == CJudge ==> Verdict(sum, job.m) == RING_OK
    ensures var t, k' := PopLog(sum, k.c, log, job, empty, committed), PopControl(k, empty, committed, last);
            && t.sent == log.sent && t.pushCodes == log.pushCodes && t.accepted == log.accepted
            && t.popCodes <= log.popCodes + {RING_OK, RING_EMPTY}
            && t.received == (if k.c == CJudge then log.received + [job.m] else log.received)
            && ((k'.c == CPublish || k'.c == CJudge) <==> (k.c == CRelease || k.c == CPublish))
  {}

  lemma LogAdvances(sum: Sum, k: Control, k': Control, log: Log, log': Log, out: Message)
    requires Logged(sum, k, log)
    requires k'.cons.local == k.cons.local + (if k.c == CRelease then 1 else 0)
    requires (k'.c == CPublish || k'.c == CJudge) <==> (k.c == CRelease || k.c == CPublish)
    requires log'.sent == log.sent && log'.pushCodes == log.pushCodes && log'.popCodes <= {RING_OK, RING_EMPTY}
    requires log'.received == if k.c == CJudge then log.received + [out] else log.received
    requires k.c == CJudge ==> 0 < k.cons.local <= |log.sent| && out == Seal(sum, log.sent[k.cons.local - 1])
    ensures Logged(sum, k', log')
  {}

  lemma CheckedAndJudged(sum: Sum, s: State, buffer: Message)
    requires ReadsBusinessFields(sum) && Inv(sum, s)
    ensures var slot := s.slots[Slot(s.k.cons.local)]; s.k.c == CCheck ==> slot.remote.commit == slot.remote.sequence
    ensures s.k.c == CJudge ==> Verdict(sum, s.pop.m) == RING_OK
  {
    if s.k.c == CCheck { ReadingStep(sum, s, buffer, ConsumerStep(sum, s, buffer)); }
    if s.k.c == CJudge { SealAccepted(sum, s.log.sent[s.k.cons.local - 1]); }
  }

  lemma ConsumeKeepsLog(sum: Sum, s: State, buffer: Message, t: State)
    requires ReadsBusinessFields(sum) && Inv(sum, s) && t == ConsumerStep(sum, s, buffer)
    ensures Logged(sum, t.k, t.log) && Accepted(t.k, t.log)
  {
    var slot := s.slots[Slot(s.k.cons.local)];
    CheckedAndJudged(sum, s, buffer);
    var committed, last := slot.remote.commit == slot.remote.sequence, s.pop.fields + 1 == FIELDS;
    PopLogCases(sum, s.k, s.log, s.pop, TestsEmpty(s.k), committed, last);
    PopLeavesWriter(s.k, TestsEmpty(s.k), committed, last);
    LogAdvances(sum, s.k, t.k, s.log, t.log, s.pop.m);
  }

  lemma ConsumeKeeps(sum: Sum, s: State, buffer: Message, t: State)
    requires ReadsBusinessFields(sum) && Inv(sum, s) && t == ConsumerStep(sum, s, buffer)
    ensures Inv(sum, t)
  {
    var slot := s.slots[Slot(s.k.cons.local)];
    if s.k.c == CTest { EmptyIsExact(s.k); }
    PopKeepsControl(s.k, TestsEmpty(s.k), slot.remote.commit == slot.remote.sequence, s.pop.fields + 1 == FIELDS);
    ConsumeKeepsWriter(sum, s, buffer, t);
    ConsumeKeepsReader(sum, s, buffer, t);
    ConsumeKeepsLog(sum, s, buffer, t);
  }

  // ----- So does every spontaneous transfer -----

  lemma WriteBackKeepsFilled(sum: Sum, p: PushPc, slot: SlotCell, job: Job, f: nat)
    requires Filled(sum, p, slot, job)
    ensures Filled(sum, p, slot.(mem := Copy(slot.mem, slot.local, f)), job)
  {
    if p == PPublishCommit { CopyKeeps(slot.mem, slot.local, f, COMMIT); }
    if p == PCommit || p == PIndex { CopySelf(slot.local, f); }
  }

  lemma WriteBackKeeps(sum: Sum, s: State, i: nat, f: nat, t: State)
    requires Inv(sum, s) && i < SLOTS && t == Apply(sum, s, WriteBackField(i, f))
    ensures Inv(sum, t)
  {
    var slot := s.slots[i];
    assert t.k == s.k && t.log == s.log && t.push == s.push && t.pop == s.pop;
    forall j | s.k.cons.local <= j < |s.log.sent| ensures t.slots[Slot(j)] == s.slots[Slot(j)] {
      assert Holds(s.slots[Slot(j)], Seal(sum, s.log.sent[j]));
      CopySelf(Seal(sum, s.log.sent[j]), f);
    }
    if i == Slot(s.k.prod.local) { WriteBackKeepsFilled(sum, s.k.p, slot, s.push, f); }
  }

  lemma ReloadKeeps(sum: Sum, s: State, i: nat, f: nat, t: State)
    requires Inv(sum, s) && i < SLOTS && t == Apply(sum, s, ReloadField(i, f))
    ensures Inv(sum, t)
  {
    assert t.k == s.k && t.log == s.log && t.push == s.push && t.pop == s.pop;
    WriterUnaffected(sum, s.k, t.k, s.slots, t.slots, s.push, s.log.sent);
    var n := s.k.cons.local;
    if Reading(s.k.c) {
      assert Holds(s.slots[Slot(n)], Seal(sum, s.log.sent[n]));
      CopySelf(Seal(sum, s.log.sent[n]), f);
    }
  }

  lemma TransferKeeps(sum: Sum, s: State, step: Step, t: State)
    requires Inv(sum, s) && t == Apply(sum, s, step)
    requires step.WriteBackProducer? || step.WriteBackConsumer? || step.ReloadProducer? || step.ReloadConsumer?
    ensures Inv(sum, t)
  {
    TransferKeepsControl(s.k);
  }

  lemma StepKeeps(sum: Sum, s: State, step: Step, t: State)
    requires ReadsBusinessFields(sum) && Inv(sum, s) && t == Apply(sum, s, step)
    ensures Inv(sum, t)
  {
    match step
    case Produce(m) => ProduceKeeps(sum, s, m, t);
    case Consume(buffer) => ConsumeKeeps(sum, s, buffer, t);
    case WriteBackField(i, f) => if i < SLOTS { WriteBackKeeps(sum, s, i, f, t); }
    case ReloadField(i, f) => if i < SLOTS { ReloadKeeps(sum, s, i, f, t); }
    case _ => TransferKeeps(sum, s, step, t);
  }

  lemma {:induction false} RunKeeps(sum: Sum, s: State, steps: seq<Step>)
    requires ReadsBusinessFields(sum) && Inv(sum, s)
    ensures Inv(sum, Run(sum, s, steps))
  {
    if steps != [] {
      var n := |steps| - 1;
      RunKeeps(sum, s, steps[..n]);
      StepKeeps(sum, Run(sum, s, steps[..n]), steps[n], Run(sum, s, steps));
    }
  }

  // ----- What every interleaving of one producer and one consumer guarantees -----

  lemma FrameCrcReadsBusinessFields()
    ensures ReadsBusinessFields(FrameCrc)
  {
    forall m: Message, c: bv32, k: u32 ensures FrameCrc(m.(crc32 := c, commit := k)) == FrameCrc(m) {
      assert FrameBytes(m.(crc32 := c, commit := k)) == FrameBytes(m);
    }
  }

  /** With the ring's own checksum, sealing and judging are the ring's. */
  lemma AtTheFrameCrc(m: Message)
    ensures Seal(FrameCrc, m) == Ring.Sealed(m) && Verdict(FrameCrc, m) == Ring.Judge(m)
  {}

  lemma Reached(s0: State, steps: seq<Step>)
    requires Init(s0)
    ensures Inv(FrameCrc, Run(FrameCrc, s0, steps))
  {
    FrameCrcReadsBusinessFields();
    InitInv(FrameCrc, s0);
    RunKeeps(FrameCrc, s0, steps);
  }

  /** The frames delivered are a prefix of the frames sent, in order and unchanged; at most seven are in flight. */
  lemma DeliveredIsPrefixOfSent(s0: State, steps: seq<Step>)
    requires Init(s0)
    ensures var s := Run(FrameCrc, s0, steps);
            && |s.log.received| <= |s.log.sent| && s.k.prod.local - s.k.cons.local <= 7
            && |s.log.sent| == s.log.accepted + (if s.k.p == PPublishIndex then 1 else 0)
            && forall j :: 0 <= j < |s.log.received| ==>
                 s.log.received[j] == Ring.Sealed(s.log.sent[j]) && Ring.Judge(s.log.received[j]) == RING_OK
  {
    Reached(s0, steps);
    var log := Run(FrameCrc, s0, steps).log;
    forall j | 0 <= j < |log.received|
      ensures log.received[j] == Ring.Sealed(log.sent[j]) && Ring.Judge(log.received[j]) == RING_OK
    {
      AtTheFrameCrc(log.sent[j]);
      AtTheFrameCrc(log.received[j]);
      FrameCrcReadsBusinessFields();
      SealAccepted(FrameCrc, log.sent[j]);
    }
  }

  /** From an honest producer, pop never answers INCOMPLETE, INVALID or BAD_CRC. */
  lemma PopNeverRejects(s0: State, steps: seq<Step>)
    requires Init(s0)
    ensures Run(FrameCrc, s0, steps).log.popCodes <= {RING_OK, RING_EMPTY}
    ensures Run(FrameCrc, s0, steps).log.pushCodes <= {RING_OK, RING_FULL, RING_INVALID}
  {
    Reached(s0, steps);
  }

  /** FULL and EMPTY are exact at the instant of the load they rest on. */
  lemma TestsAreExact(s0: State, steps: seq<Step>)
    requires Init(s0)
    ensures var k := Run(FrameCrc, s0, steps).k;
            (k.p == PTest ==> (TestsFull(k) <==> k.sawFull)) && (k.c == CTest ==> (TestsEmpty(k) <==> k.sawEmpty))
  {
    Reached(s0, steps);
    var k := Run(FrameCrc, s0, steps).k;
    if k.p == PTest { FullIsExact(k); }
    if k.c == CTest { EmptyIsExact(k); }
  }

  /** The slot being written is never one that the consumer may read. */
  lemma NoSharedSlot(s0: State, steps: seq<Step>)
    requires Init(s0)
    ensures var k := Run(FrameCrc, s0, steps).k;
            Writing(k.p) ==> forall j: nat :: k.cons.local <= j < k.prod.local ==> Slot(j) != Slot(k.prod.local)
  {
    Reached(s0, steps);
    var k := Run(FrameCrc, s0, steps).k;
    if Writing(k.p) {
      forall j: nat | k.cons.local <= j < k.prod.local ensures Slot(j) != Slot(k.prod.local) { FillingIsFree(k, j); }
    }
  }

  /** When neither side is in the middle of an operation, the count computed from the two words in memory is the
      number of frames sent and not yet delivered. */
  lemma CountIsInFlight(s0: State, steps: seq<Step>)
    requires Init(s0)
    ensures var s := Run(FrameCrc, s0, steps);
            s.k.p == PIdle && s.k.c == CIdle ==>
            Ring.Distance(Slot(s.k.prod.mem), Slot(s.k.cons.mem)) == |s.log.sent| - |s.log.received|
  {
    Reached(s0, steps);
    var k := Run(FrameCrc, s0, steps).k;
    CountOf(k.prod.mem, k.cons.mem);
  }

  lemma {:induction false} CountOf(p: Count, c: Count)
    requires c <= p <= c + 7
    ensures Ring.Distance(Slot(p), Slot(c)) == p - c
    decreases p
  {
    if c < p {
      CountOf(p - 1, c);
      NextDistance(Slot(p - 1), Slot(c));
    }
  }

  lemma NextDistance(p: nat, c: nat)
    requires p < SLOTS && c < SLOTS && Ring.Distance(p, c) < 7
    ensures Ring.Distance(Ring.Next(p), c) == Ring.Distance(p, c) + 1
  {
    Ring.NextWraps(p);
  }

  // ----- The ring refines a bounded queue -----

  /** The messages that memory announces and the consumer has not released. */
  ghost function Visible(s: State): seq<Message>
    requires s.k.cons.local <= s.k.prod.mem <= |s.log.sent|
  {
    s.log.sent[s.k.cons.local..s.k.prod.mem]
  }

  lemma VisibleBounds(sum: Sum, s: State)
    requires Inv(sum, s)
    ensures s.k.cons.local <= s.k.prod.mem <= |s.log.sent| && s.k.prod.mem - s.k.cons.local <= 7
    ensures s.k.c == CRelease ==> s.k.cons.local < s.k.prod.mem && s.pop.m == Seal(sum, s.log.sent[s.k.cons.local])
  {}

  /** Every step leaves the queue alone, appends the next message sent, or removes the oldest one, which is then
      the frame that pop holds. */
  lemma StepRefinesQueue(sum: Sum, s: State, step: Step, t: State)
    requires ReadsBusinessFields(sum) && Inv(sum, s) && t == Apply(sum, s, step)
    ensures Inv(sum, t) && |Visible(t)| <= 7
    ensures || Visible(t) == Visible(s)
            || (|s.log.sent| > s.k.prod.mem && Visible(t) == Visible(s) + [s.log.sent[s.k.prod.mem]])
            || (Visible(s) != [] && Visible(t) == Visible(s)[1..] && s.pop.m == Seal(sum, Visible(s)[0]))
  {
    StepKeeps(sum, s, step, t);
    VisibleBounds(sum, s);
    VisibleBounds(sum, t);
    QueueMoves(sum, s, step, t);
    VisibleMoves(sum, s, t);
  }

  predicate InBounds(s: State) {
    s.k.cons.local <= s.k.prod.mem <= |s.log.sent|
  }

  lemma VisibleMoves(sum: Sum, s: State, t: State)
    requires InBounds(s) && InBounds(t) && s.log.sent <= t.log.sent
    requires s.k.c == CRelease ==> s.k.cons.local < s.k.prod.mem && s.pop.m == Seal(sum, s.log.sent[s.k.cons.local])
    requires || (t.k.cons.local == s.k.cons.local && t.k.prod.mem == s.k.prod.mem)
             || (t.k.cons.local == s.k.cons.local && t.k.prod.mem == s.k.prod.mem + 1 <= |s.log.sent|)
             || (t.k.cons.local == s.k.cons.local + 1 && t.k.prod.mem == s.k.prod.mem && s.k.c == CRelease)
    ensures || Visible(t) == Visible(s)
            || (|s.log.sent| > s.k.prod.mem && Visible(t) == Visible(s) + [s.log.sent[s.k.prod.mem]])
            || (Visible(s) != [] && Visible(t) == Visible(s)[1..] && s.pop.m == Seal(sum, Visible(s)[0]))
  {
    QueueSlices(s.log.sent, t.log.sent, s.k.cons.local, s.k.prod.mem, t.k.cons.local, t.k.prod.mem);
  }

  lemma QueueSlices(sent: seq<Message>, sent': seq<Message>, a: nat, b: nat, a': nat, b': nat)
    requires a <= b <= |sent| && a' <= b' <= |sent'| && sent <= sent'
    requires (a' == a && b' == b) || (a' == a && b' == b + 1 <= |sent|) || (a' == a + 1 && b' == b)
    ensures || sent'[a'..b'] == sent[a..b]
            || (b < |sent| && sent'[a'..b'] == sent[a..b] + [sent[b]])
            || (a < b && a' == a + 1 && sent'[a'..b'] == sent[a..b][1..])
  {}

  lemma PushMoves(k: Control, headerOk: bool, full: bool, lastField: bool)
    ensures var t := PushControl(k, headerOk, full, lastField);
            t.cons.local == k.cons.local && (t.prod.mem == k.prod.mem || t.prod.mem == k.prod.local)
  {}

  lemma PopMoves(k: Control, empty: bool, committed: bool, lastField: bool)
    ensures var t := PopControl(k, empty, committed, lastField);
            && t.prod.mem == k.prod.mem
            && (t.cons.local == k.cons.local || (k.c == CRelease && t.cons.local == k.cons.local + 1))
  {}

  lemma QueueMoves(sum: Sum, s: State, step: Step, t: State)
    requires Inv(sum, s) && t == Apply(sum, s, step)
    ensures s.log.sent <= t.log.sent
    ensures || (t.k.cons.local == s.k.cons.local && t.k.prod.mem == s.k.prod.mem)
            || (t.k.cons.local == s.k.cons.local && t.k.prod.mem == s.k.prod.mem + 1 <= |s.log.sent|)
            || (t.k.cons.local == s.k.cons.local + 1 && t.k.prod.mem == s.k.prod.mem && s.k.c == CRelease)
  {
    if step.Produce? {
      PushLogGrows(s.k.p, s.log, s.push, HeaderOk(step.m), TestsFull(s.k));
      PushMoves(s.k, HeaderOk(step.m), TestsFull(s.k), s.push.fields + 1 == FIELDS);
    } else if step.Consume? {
      var slot := s.slots[Slot(s.k.cons.local)];
      PopMoves(s.k, TestsEmpty(s.k), slot.remote.commit == slot.remote.sequence, s.pop.fields + 1 == FIELDS);
    }
  }
}
