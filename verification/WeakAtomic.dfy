/** Push and pop between two cores take effect at one instant: each operation, from its call to its return, answers what
    the one-thread ring answers on the ring in memory at some moment in between, and changes it as that ring says. */
module WeakAtomic {
  import opened Protocol
  import opened Ring
  import opened WeakRing

  // ----- What else every step keeps -----

  /** A frame that is being released stays in its slot until memory shows the release. */
  ghost predicate Releasing(sum: Sum, k: Control, slots: seq<SlotCell>, sent: seq<Message>)
    requires |slots| == SLOTS
  {
    k.cons.mem < k.cons.local ==>
      k.cons.mem < |sent| && Holds(slots[Slot(k.cons.mem)], Seal(sum, sent[k.cons.mem]))
  }

  /** A message whose index is stored is the one being pushed. */
  predicate LastSent(p: PushPc, sent: seq<Message>, push: Job) {
    p == PPublishIndex ==> sent != [] && sent[|sent| - 1] == push.m
  }

  ghost predicate AtomicInv(sum: Sum, s: State) {
    Inv(sum, s) && Releasing(sum, s.k, s.slots, s.log.sent) && LastSent(s.k.p, s.log.sent, s.push)
  }

  lemma FilledElsewhere(k: Control)
    requires ControlInv(k) && Writing(k.p) && k.cons.mem < k.cons.local
    ensures Slot(k.cons.mem) != Slot(k.prod.local)
  {
    SlotsMeet(k.cons.mem, k.prod.local);
  }

  lemma RefillReleases(sum: Sum, k: Control, k': Control, slots: seq<SlotCell>, slot: SlotCell, sent: seq<Message>,
                       sent': seq<Message>)
    requires |slots| == SLOTS && ControlInv(k) && Releasing(sum, k, slots, sent) && sent <= sent' && k'.cons == k.cons
    requires Writing(k.p) || slot == slots[Slot(k.prod.local)]
    ensures Releasing(sum, k', slots[Slot(k.prod.local) := slot], sent')
  {
    if Writing(k.p) && k.cons.mem < k.cons.local { FilledElsewhere(k); }
  }

  lemma PushIndices(k: Control, headerOk: bool, full: bool, lastField: bool)
    ensures var t := PushControl(k, headerOk, full, lastField);
            && t.cons.local == k.cons.local && t.cons.mem == k.cons.mem
            && (t.prod.mem == k.prod.mem || (k.p == PPublishIndex && t.prod.mem == k.prod.local))
            && (t.p == PPublishIndex <==> k.p == PIndex)
  {}

  lemma PopIndices(k: Control, empty: bool, committed: bool, lastField: bool)
    ensures var t := PopControl(k, empty, committed, lastField);
            && t.prod.local == k.prod.local && t.prod.mem == k.prod.mem && t.p == k.p
            && (if k.c == CRelease then t.cons.local == k.cons.local + 1 && t.cons.mem == k.cons.mem
                else t.cons.local == k.cons.local
                     && (t.cons.mem == k.cons.mem || (k.c == CPublish && t.cons.mem == k.cons.local)))
  {}

  lemma ReleasesBy(sum: Sum, k: Control, k': Control, slots: seq<SlotCell>, slots': seq<SlotCell>, sent: seq<Message>)
    requires |slots| == |slots'| == SLOTS && Releasing(sum, k, slots, sent)
    requires forall i :: 0 <= i < SLOTS ==> slots'[i].local == slots[i].local && slots'[i].mem == slots[i].mem
    requires || (k'.cons.local == k.cons.local && (k'.cons.mem == k.cons.mem || k'.cons.mem == k'.cons.local))
             || (k.cons.mem == k.cons.local < |sent| && Holds(slots[Slot(k.cons.local)], Seal(sum, sent[k.cons.local]))
                 && k'.cons.local == k.cons.local + 1 && k'.cons.mem == k.cons.mem)
    ensures Releasing(sum, k', slots', sent)
  {}

  lemma ProduceReleases(sum: Sum, s: State, m: Message, t: State)
    requires AtomicInv(sum, s) && t == ProducerStep(sum, s, m)
    ensures Releasing(sum, t.k, t.slots, t.log.sent) && LastSent(t.k.p, t.log.sent, t.push)
  {
    var i := Slot(s.k.prod.local);
    var slot, last := FillSlot(sum, s.k.p, s.slots[i], s.push), s.push.fields + 1 == FIELDS;
    PushSent(s.k.p, s.log, s.push, HeaderOk(m), TestsFull(s.k));
    PushIndices(s.k, HeaderOk(m), TestsFull(s.k), last);
    if !Writing(s.k.p) { FillUnchanged(sum, s.k.p, s.slots[i], s.push); }
    RefillReleases(sum, s.k, s.k, s.slots, slot, s.log.sent, t.log.sent);
    assert t.slots == s.slots[i := slot];
  }

  lemma ConsumeSent(sum: Sum, c: PopPc, log: Log, job: Job, empty: bool, committed: bool)
    ensures PopLog(sum, c, log, job, empty, committed).sent == log.sent
  {}

  lemma ConsumeReleases(sum: Sum, s: State, buffer: Message, t: State)
    requires AtomicInv(sum, s) && t == ConsumerStep(sum, s, buffer)
    ensures Releasing(sum, t.k, t.slots, t.log.sent) && LastSent(t.k.p, t.log.sent, t.push)
  {
    var n := s.k.cons.local;
    var slot := s.slots[Slot(n)];
    var committed, last := slot.remote.commit == slot.remote.sequence, s.pop.fields + 1 == FIELDS;
    PopIndices(s.k, TestsEmpty(s.k), committed, last);
    ConsumeSent(sum, s.k.c, s.log, s.pop, TestsEmpty(s.k), committed);
    if s.k.c == CRelease { assert Holds(s.slots[Slot(n)], Seal(sum, s.log.sent[n])); }
    assert t.slots == s.slots[Slot(n) := TakeSlot(s.k.c, slot)];
    ReleasesBy(sum, s.k, t.k, s.slots, t.slots, s.log.sent);
  }

  lemma FieldReleases(sum: Sum, k: Control, slots: seq<SlotCell>, sent: seq<Message>, i: nat, f: nat)
    requires |slots| == SLOTS && Releasing(sum, k, slots, sent) && i < SLOTS
    ensures Releasing(sum, k, slots[i := slots[i].(mem := Copy(slots[i].mem, slots[i].local, f))], sent)
    ensures Releasing(sum, k, slots[i := slots[i].(remote := Copy(slots[i].remote, slots[i].mem, f))], sent)
  {
    CopySelf(slots[i].local, f);
  }

  lemma AtomicKept(sum: Sum, s: State, step: Step, t: State)
    requires ReadsBusinessFields(sum) && AtomicInv(sum, s) && t == Apply(sum, s, step)
    ensures AtomicInv(sum, t)
  {
    StepKeeps(sum, s, step, t);
    if step.Produce? { ProduceReleases(sum, s, step.m, t); }
    else if step.Consume? { ConsumeReleases(sum, s, step.buffer, t); }
    else if (step.WriteBackField? || step.ReloadField?) && step.slot < SLOTS {
      FieldReleases(sum, s.k, s.slots, s.log.sent, step.slot, step.f);
    }
  }

  // ----- What memory's ring holds -----

  ghost function Words(slots: seq<SlotCell>): (r: seq<Message>)
    ensures |r| == |slots| && forall i :: 0 <= i < |r| ==> r[i] == slots[i].mem
  {
    seq(|slots|, i requires 0 <= i < |slots| => slots[i].mem)
  }

  /** The ring as memory holds it. */
  ghost function Memory(s: State): (r: RingState)
    requires Shape(s)
    ensures r.Valid()
  {
    RingState(Slot(s.k.prod.mem), Slot(s.k.cons.mem), Words(s.slots))
  }

  lemma SlotOffset(c: nat, x: nat)
    ensures Slot(c + x) == (Slot(c) + x) % SLOTS
  {
    SlotIsModulo(c);
    SlotIsModulo(c + x);
  }

  lemma QueueAt(r: RingState, x: nat)
    requires r.Valid() && x < Distance(r.producer, r.consumer)
    ensures Queue(r)[x] == r.slots[(r.consumer + x) % SLOTS]
  {}

  lemma InSlot(sum: Sum, s: State, j: nat)
    requires AtomicInv(sum, s) && s.k.cons.mem <= j < s.k.prod.mem
    ensures j < |s.log.sent| && s.slots[Slot(j)].mem == Seal(sum, s.log.sent[j])
  {
    if j >= s.k.cons.local { assert Holds(s.slots[Slot(j)], Seal(sum, s.log.sent[j])); }
  }

  ghost function SealAll(sum: Sum, q: seq<Message>): (r: seq<Message>)
    ensures |r| == |q| && forall i :: 0 <= i < |q| ==> r[i] == Seal(sum, q[i])
  {
    seq(|q|, i requires 0 <= i < |q| => Seal(sum, q[i]))
  }

  lemma QueueIs(sum: Sum, r: RingState, c: nat, p: nat, q: seq<Message>)
    requires r.Valid() && c <= p <= c + 7 && r.producer == Slot(p) && r.consumer == Slot(c) && |q| == p - c
    requires forall x :: 0 <= x < |q| ==> r.slots[Slot(c + x)] == Seal(sum, q[x])
    ensures Queue(r) == SealAll(sum, q)
  {
    CountOf(p, c);
    forall x | 0 <= x < |q| ensures Queue(r)[x] == Seal(sum, q[x]) {
      QueueAt(r, x);
      SlotOffset(c, x);
    }
  }

  lemma Bounds(sum: Sum, s: State)
    requires Inv(sum, s)
    ensures s.k.cons.mem <= s.k.prod.mem <= |s.log.sent| && s.k.prod.mem - s.k.cons.mem <= 7
    ensures forall j :: 0 <= j < |s.log.sent| ==> HeaderOk(s.log.sent[j])
  {}

  lemma MemoryIs(sum: Sum, slots: seq<SlotCell>, sent: seq<Message>, c: nat, p: nat)
    requires |slots| == SLOTS && c <= p <= |sent| && p <= c + 7
    requires forall j :: c <= j < p ==> slots[Slot(j)].mem == Seal(sum, sent[j])
    ensures Queue(RingState(Slot(p), Slot(c), Words(slots))) == SealAll(sum, sent[c..p])
  {
    QueueIs(sum, RingState(Slot(p), Slot(c), Words(slots)), c, p, sent[c..p]);
  }

  /** Memory's ring holds the messages between its two indices, sealed and in order. */
  lemma MemoryHolds(sum: Sum, s: State)
    requires AtomicInv(sum, s)
    ensures s.k.cons.mem <= s.k.prod.mem <= |s.log.sent|
    ensures Queue(Memory(s)) == SealAll(sum, s.log.sent[s.k.cons.mem..s.k.prod.mem])
  {
    Bounds(sum, s);
    forall j | s.k.cons.mem <= j < s.k.prod.mem ensures s.slots[Slot(j)].mem == Seal(sum, s.log.sent[j]) {
      InSlot(sum, s, j);
    }
    MemoryIs(sum, s.slots, s.log.sent, s.k.cons.mem, s.k.prod.mem);
  }

  // ----- The instants at which memory's ring changes -----

  lemma SealedGrow(sum: Sum, sent: seq<Message>, a: nat, b: nat)
    requires a <= b < |sent|
    ensures SealAll(sum, sent[a..b + 1]) == SealAll(sum, sent[a..b]) + [Seal(sum, sent[b])]
  {}

  lemma SealedShrink(sum: Sum, sent: seq<Message>, a: nat, b: nat)
    requires a < b <= |sent|
    ensures SealAll(sum, sent[a..b]) == [Seal(sum, sent[a])] + SealAll(sum, sent[a + 1..b])
  {}

  /** What a step does to memory's indices and to the messages sent. */
  lemma IndicesMove(sum: Sum, s: State, step: Step, t: State)
    requires AtomicInv(sum, s) && t == Apply(sum, s, step)
    ensures s.log.sent <= t.log.sent
    ensures || (t.k.prod.mem == s.k.prod.mem && t.k.cons.mem == s.k.cons.mem)
            || (s.k.p == PPublishIndex && s.k.prod.mem + 1 == s.k.prod.local == t.k.prod.mem
                && t.k.cons.mem == s.k.cons.mem && t.log.sent == s.log.sent)
            || (s.k.c == CPublish && s.k.cons.mem + 1 == s.k.cons.local == t.k.cons.mem
                && t.k.prod.mem == s.k.prod.mem && t.log.sent == s.log.sent)
  {
    if step.Produce? {
      PushSent(s.k.p, s.log, s.push, HeaderOk(step.m), TestsFull(s.k));
      PushIndices(s.k, HeaderOk(step.m), TestsFull(s.k), s.push.fields + 1 == FIELDS);
    } else if step.Consume? {
      var slot := s.slots[Slot(s.k.cons.local)];
      var committed := slot.remote.commit == slot.remote.sequence;
      PopIndices(s.k, TestsEmpty(s.k), committed, s.pop.fields + 1 == FIELDS);
      ConsumeSent(sum, s.k.c, s.log, s.pop, TestsEmpty(s.k), committed);
    }
  }

  /** Memory's ring is left alone, takes in the frame that push is pushing, or gives up the frame that pop holds. */
  ghost predicate Moves(sum: Sum, s: State, t: State)
    requires Shape(s) && Shape(t)
  {
    var q, q' := Queue(Memory(s)), Queue(Memory(t));
    if t.k.prod.mem != s.k.prod.mem
    then s.k.p == PPublishIndex && t.k.prod.mem == s.k.prod.mem + 1 == s.k.prod.local && t.k.cons.mem == s.k.cons.mem
         && HeaderOk(s.push.m) && q' == q + [Seal(sum, s.push.m)]
    else if t.k.cons.mem != s.k.cons.mem
    then s.k.c == CPublish && t.k.cons.mem == s.k.cons.mem + 1 == s.k.cons.local && q == [s.pop.m] + q'
    else q' == q
  }

  /** What the invariants say about memory's ring and the two operations under way. */
  ghost predicate Facts(sum: Sum, s: State) {
    var sent, c, p := s.log.sent, s.k.cons.mem, s.k.prod.mem;
    && Shape(s) && c <= p <= |sent| && p - c <= 7 && Queue(Memory(s)) == SealAll(sum, sent[c..p])
    && (s.k.p == PPublishIndex ==> |sent| == s.k.prod.local > 0 && sent[|sent| - 1] == s.push.m && HeaderOk(s.push.m))
    && (s.k.c == CPublish || s.k.c == CJudge ==>
          0 < s.k.cons.local <= |sent| && s.pop.m == Seal(sum, sent[s.k.cons.local - 1]))
  }

  lemma FactsOf(sum: Sum, s: State)
    requires AtomicInv(sum, s)
    ensures Facts(sum, s)
  {
    MemoryHolds(sum, s);
    Bounds(sum, s);
  }

  lemma QueueFollows(sum: Sum, s: State, t: State)
    requires Facts(sum, s) && Facts(sum, t) && s.log.sent <= t.log.sent
    requires || (t.k.prod.mem == s.k.prod.mem && t.k.cons.mem == s.k.cons.mem)
             || (s.k.p == PPublishIndex && s.k.prod.mem + 1 == s.k.prod.local == t.k.prod.mem
                 && t.k.cons.mem == s.k.cons.mem && t.log.sent == s.log.sent)
             || (s.k.c == CPublish && s.k.cons.mem + 1 == s.k.cons.local == t.k.cons.mem
                 && t.k.prod.mem == s.k.prod.mem && t.log.sent == s.log.sent)
    ensures Moves(sum, s, t)
  {
    var sent, c, p := s.log.sent, s.k.cons.mem, s.k.prod.mem;
    if t.k.prod.mem != p { SealedGrow(sum, sent, c, p); }
    else if t.k.cons.mem != c { SealedShrink(sum, sent, c, p); }
    else { assert sent[c..p] == t.log.sent[c..p]; }
  }

  /** Every step does one of the three to the frames in memory's ring. */
  lemma StepMoves(sum: Sum, s: State, step: Step, t: State)
    requires ReadsBusinessFields(sum) && AtomicInv(sum, s) && t == Apply(sum, s, step)
    ensures AtomicInv(sum, t) && Moves(sum, s, t)
  {
    AtomicKept(sum, s, step, t);
    IndicesMove(sum, s, step, t);
    FactsOf(sum, s);
    FactsOf(sum, t);
    QueueFollows(sum, s, t);
  }

  // ----- A push that is under way -----

  predicate LoadsConsumer(k: Control, step: Step) {
    (step.Produce? && k.p == PAcquire) || (step.ReloadConsumer? && k.p == PTest)
  }

  /** What a step leaves of a push that is under way before and after it. */
  ghost predicate PushOn(k: Control, loads: bool, t: Control) {
    && (loads ==> t.p == PTest)
    && (t.p == PTest ==>
          if loads then t.sawFull == (k.prod.mem == k.cons.mem + 7) else k.p == PTest && t.sawFull == k.sawFull)
    && (t.prod.mem == k.prod.mem || (t.p == PPublishIndex && t.prod.mem == t.prod.local == k.prod.mem + 1))
    && (t.p == PPublishIndex && t.prod.mem == t.prod.local == k.prod.mem ==>
          k.p == PPublishIndex && k.prod.mem == k.prod.local)
    && (k.p == PPublishIndex ==> t.p == PPublishIndex && t.prod.local == k.prod.local)
  }

  lemma PushStepOn(k: Control, headerOk: bool, full: bool, lastField: bool, t: Control)
    requires ControlInv(k) && t == PushControl(k, headerOk, full, lastField) && k.p != PIdle && t.p != PIdle
    ensures PushOn(k, k.p == PAcquire, t)
  {}

  lemma PopStepOn(k: Control, empty: bool, committed: bool, lastField: bool, t: Control)
    requires ControlInv(k) && t == PopControl(k, empty, committed, lastField) && k.p != PIdle
    ensures PushOn(k, false, t)
  {}

  lemma TransferOn(k: Control)
    requires ControlInv(k) && k.p != PIdle
    ensures PushOn(k, false, LoadProducer(k)) && PushOn(k, k.p == PTest, LoadConsumer(k))
    ensures PushOn(k, false, k.(prod := k.prod.(mem := k.prod.local)))
    ensures PushOn(k, false, k.(cons := k.cons.(mem := k.cons.local)))
  {}

  lemma PushGoesOn(sum: Sum, s: State, step: Step, t: State)
    requires Inv(sum, s) && t == Apply(sum, s, step) && s.k.p != PIdle && t.k.p != PIdle
    ensures t.push.m == s.push.m && PushOn(s.k, LoadsConsumer(s.k, step), t.k)
  {
    if step.Produce? { PushStepOn(s.k, HeaderOk(step.m), TestsFull(s.k), s.push.fields + 1 == FIELDS, t.k); }
    else if step.Consume? {
      var slot := s.slots[Slot(s.k.cons.local)];
      var committed := slot.remote.commit == slot.remote.sequence;
      PopStepOn(s.k, TestsEmpty(s.k), committed, s.pop.fields + 1 == FIELDS, t.k);
    } else { TransferOn(s.k); }
  }

  /** A run with all its states. */
  ghost predicate Trace(sum: Sum, trace: seq<State>, steps: seq<Step>) {
    && |trace| == |steps| + 1 && Init(trace[0]) && (forall n :: 0 <= n < |trace| ==> Shape(trace[n]))
    && forall n :: 0 <= n < |steps| ==> trace[n + 1] == Apply(sum, trace[n], steps[n])
  }

  lemma {:induction false} TraceAtomic(sum: Sum, trace: seq<State>, steps: seq<Step>, n: nat)
    requires ReadsBusinessFields(sum) && Trace(sum, trace, steps) && n <= |steps|
    ensures AtomicInv(sum, trace[n])
  {
    if n == 0 { InitInv(sum, trace[0]); }
    else {
      TraceAtomic(sum, trace, steps, n - 1);
      AtomicKept(sum, trace[n - 1], steps[n - 1], trace[n]);
    }
  }

  /** Step `b` began the push that is under way at `n`. */
  ghost predicate Pushing(trace: seq<State>, steps: seq<Step>, b: nat, n: nat) {
    && b < n < |trace| == |steps| + 1 && steps[b].Produce? && steps[b].m == trace[n].push.m && HeaderOk(steps[b].m)
    && trace[b].k.p == PIdle && forall j :: b < j <= n ==> trace[j].k.p != PIdle
  }

  /** Memory already has the index of the frame being pushed. */
  predicate IndexOut(k: Control) {
    k.p == PPublishIndex && k.prod.mem == k.prod.local
  }

  /** What is known at `n` of the instant `i`: the consumer index was last loaded there, from a ring that was full or
      not; and once memory has the new producer index, it got it there. */
  ghost predicate PushKnows(trace: seq<State>, b: nat, n: nat, i: nat)
    requires b < n < |trace|
  {
    var k := trace[n].k;
    && b <= i < n
    && (k.p == PTest ==> k.sawFull == (trace[i].k.prod.mem == trace[i].k.cons.mem + 7))
    && (IndexOut(k) ==> trace[i].push.m == trace[n].push.m && trace[i + 1].k.prod.mem == trace[i].k.prod.mem + 1)
    && k.prod.mem == trace[b].k.prod.mem + if IndexOut(k) then 1 else 0
  }

  lemma PushStarts(sum: Sum, s: State, step: Step, t: State)
    requires Shape(s) && t == Apply(sum, s, step) && s.k.p == PIdle && t.k.p != PIdle
    ensures step.Produce? && HeaderOk(step.m) && t.k.p == PAcquire && t.push.m == step.m && t.k.prod.mem == s.k.prod.mem
  {}

  lemma PushKnowsOn(trace: seq<State>, steps: seq<Step>, b: nat, n: nat, i: nat, loads: bool) returns (now: nat)
    requires n + 1 < |trace| && Pushing(trace, steps, b, n) && PushKnows(trace, b, n, i) && trace[n + 1].k.p != PIdle
    requires PushOn(trace[n].k, loads, trace[n + 1].k) && trace[n + 1].push.m == trace[n].push.m
    ensures Pushing(trace, steps, b, n + 1) && PushKnows(trace, b, n + 1, now)
  {
    now := if loads || trace[n + 1].k.prod.mem != trace[n].k.prod.mem then n else i;
  }

  /** What each step does to the push under way. */
  ghost predicate PushStep(s: State, step: Step, t: State) {
    && (s.k.p == PIdle && t.k.p != PIdle ==>
          && step.Produce? && HeaderOk(step.m) && t.k.p == PAcquire && t.push.m == step.m
          && t.k.prod.mem == s.k.prod.mem)
    && (s.k.p != PIdle && t.k.p != PIdle ==> t.push.m == s.push.m && PushOn(s.k, LoadsConsumer(s.k, step), t.k))
  }

  ghost predicate PushSteps(trace: seq<State>, steps: seq<Step>) {
    && |trace| == |steps| + 1 && trace[0].k.p == PIdle
    && forall n :: 0 <= n < |steps| ==> PushStep(trace[n], steps[n], trace[n + 1])
  }

  lemma TracePushes(sum: Sum, trace: seq<State>, steps: seq<Step>)
    requires ReadsBusinessFields(sum) && Trace(sum, trace, steps)
    ensures PushSteps(trace, steps)
  {
    forall n | 0 <= n < |steps| ensures PushStep(trace[n], steps[n], trace[n + 1]) {
      TraceAtomic(sum, trace, steps, n);
      if trace[n + 1].k.p != PIdle {
        if trace[n].k.p == PIdle { PushStarts(sum, trace[n], steps[n], trace[n + 1]); }
        else { PushGoesOn(sum, trace[n], steps[n], trace[n + 1]); }
      }
    }
  }

  lemma {:induction false} PushUnderWay(trace: seq<State>, steps: seq<Step>, n: nat) returns (b: nat, i: nat)
    requires PushSteps(trace, steps) && n <= |steps| && trace[n].k.p != PIdle
    ensures Pushing(trace, steps, b, n) && PushKnows(trace, b, n, i)
  {
    assert PushStep(trace[n - 1], steps[n - 1], trace[n]);
    if trace[n - 1].k.p == PIdle { b, i := n - 1, n - 1; }
    else {
      b, i := PushUnderWay(trace, steps, n - 1);
      i := PushKnowsOn(trace, steps, b, n - 1, i, LoadsConsumer(trace[n - 1].k, steps[n - 1]));
    }
  }

  // ----- Every push is one push on memory's ring -----

  /** What push returns in a step, if it returns. */
  function PushReturns(s: State, step: Step): Option<int> {
    if !step.Produce? then None
    else if s.k.p == PIdle then if HeaderOk(step.m) then None else Some(RING_INVALID)
    else if s.k.p == PTest && TestsFull(s.k) then Some(RING_FULL)
    else if s.k.p == PPublishIndex then Some(RING_OK)
    else None
  }

  lemma PushReturnsIdle(sum: Sum, s: State, step: Step, t: State)
    requires Shape(s) && PushReturns(s, step).Some? && t == Apply(sum, s, step)
    ensures t.k.p == PIdle && t.log.pushCodes == s.log.pushCodes + {PushReturns(s, step).value}
    ensures t.k.prod.mem == if s.k.p == PPublishIndex then s.k.prod.local else s.k.prod.mem
  {}

  /** Step `b` begins a push of `m` that returns in step `n`. */
  ghost predicate PushCall(trace: seq<State>, steps: seq<Step>, b: nat, n: nat, m: Message) {
    && b <= n < |steps| == |trace| - 1 && steps[b] == Produce(m) && trace[b].k.p == PIdle && trace[n + 1].k.p == PIdle
    && forall j :: b < j <= n ==> trace[j].k.p != PIdle
  }

  lemma FullMemory(sum: Sum, s: State)
    requires AtomicInv(sum, s)
    ensures |Queue(Memory(s))| == s.k.prod.mem - s.k.cons.mem
  {
    FactsOf(sum, s);
  }

  lemma PushAppends(sum: Sum, trace: seq<State>, steps: seq<Step>, i: nat)
    requires ReadsBusinessFields(sum) && Trace(sum, trace, steps) && i < |steps|
    requires trace[i + 1].k.prod.mem != trace[i].k.prod.mem
    ensures HeaderOk(trace[i].push.m)
    ensures Queue(Memory(trace[i + 1])) == Queue(Memory(trace[i])) + [Seal(sum, trace[i].push.m)]
  {
    TraceAtomic(sum, trace, steps, i);
    StepMoves(sum, trace[i], steps[i], trace[i + 1]);
  }

  lemma TraceFull(sum: Sum, trace: seq<State>, steps: seq<Step>, n: nat, i: nat)
    requires ReadsBusinessFields(sum) && Trace(sum, trace, steps) && n <= |steps| && i <= |steps|
    requires trace[n].k.p == PTest && TestsFull(trace[n].k)
    requires trace[n].k.sawFull ==> trace[i].k.prod.mem == trace[i].k.cons.mem + 7
    ensures |Queue(Memory(trace[i]))| == 7
  {
    TraceAtomic(sum, trace, steps, n);
    TraceAtomic(sum, trace, steps, i);
    FullIsExact(trace[n].k);
    FullMemory(sum, trace[i]);
  }

  /** At the instant `i` memory's ring answers `code` to a push of `m`, and takes it in if that is OK. */
  ghost predicate Answers(sum: Sum, s: State, t: State, m: Message, code: int) {
    && Shape(s) && Shape(t)
    && (HeaderOk(m) <==> code != RING_INVALID)
    && (code == RING_FULL ==> |Queue(Memory(s))| == 7)
    && (code == RING_OK ==> Queue(Memory(t)) == Queue(Memory(s)) + [Seal(sum, m)])
  }

  lemma TraceReturns(sum: Sum, trace: seq<State>, steps: seq<Step>, n: nat)
    requires Trace(sum, trace, steps) && n < |steps| && PushReturns(trace[n], steps[n]).Some?
    ensures trace[n + 1].k.p == PIdle
    ensures trace[n + 1].k.prod.mem
              == if trace[n].k.p == PPublishIndex then trace[n].k.prod.local else trace[n].k.prod.mem
  {
    PushReturnsIdle(sum, trace[n], steps[n], trace[n + 1]);
  }

  /** A push that has stored its index takes effect where memory gets it: here, or before. */
  lemma IndexInstant(sum: Sum, trace: seq<State>, steps: seq<Step>, b: nat, n: nat, known: nat) returns (i: nat)
    requires ReadsBusinessFields(sum) && Trace(sum, trace, steps) && n < |steps| && trace[n].k.p == PPublishIndex
    requires Pushing(trace, steps, b, n) && PushKnows(trace, b, n, known)
    requires trace[n + 1].k.prod.mem == trace[n].k.prod.local
    ensures b <= i <= n && Answers(sum, trace[i], trace[i + 1], steps[b].m, RING_OK)
    ensures trace[n + 1].k.prod.mem == trace[b].k.prod.mem + 1
  {
    TraceBehind(sum, trace, steps, n);
    i := if IndexOut(trace[n].k) then known else n;
    PushAppends(sum, trace, steps, i);
  }

  lemma PushInstant(sum: Sum, trace: seq<State>, steps: seq<Step>, n: nat) returns (b: nat, i: nat)
    requires ReadsBusinessFields(sum) && Trace(sum, trace, steps) && n < |steps|
    requires PushReturns(trace[n], steps[n]).Some?
    ensures b <= i <= n && steps[b].Produce? && PushCall(trace, steps, b, n, steps[b].m)
    ensures var code := PushReturns(trace[n], steps[n]).value;
            && Answers(sum, trace[i], trace[i + 1], steps[b].m, code)
            && trace[n + 1].k.prod.mem == trace[b].k.prod.mem + if code == RING_OK then 1 else 0
  {
    TraceReturns(sum, trace, steps, n);
    if trace[n].k.p == PIdle { b, i := n, n; }
    else {
      TracePushes(sum, trace, steps);
      b, i := PushUnderWay(trace, steps, n);
      if trace[n].k.p == PTest { TraceFull(sum, trace, steps, n, i); }
      else { i := IndexInstant(sum, trace, steps, b, n, i); }
    }
  }

  lemma TraceBehind(sum: Sum, trace: seq<State>, steps: seq<Step>, n: nat)
    requires ReadsBusinessFields(sum) && Trace(sum, trace, steps) && n <= |steps|
    ensures trace[n].k.prod.mem <= trace[n].k.prod.local <= trace[n].k.prod.mem + 1
  {
    TraceAtomic(sum, trace, steps, n);
  }

  /** However the cores interleave, a push that returns was, at one moment between its call and its return, a push on
      the ring in memory: it returns that push's code, and if it is accepted the next step leaves in memory's ring the
      frames that that push leaves there.  No other moment of the call adds a frame. */
  lemma PushIsAtomic(trace: seq<State>, steps: seq<Step>, n: nat) returns (b: nat, i: nat)
    requires Trace(FrameCrc, trace, steps) && n < |steps| && PushReturns(trace[n], steps[n]).Some?
    ensures b <= i <= n && steps[b].Produce? && PushCall(trace, steps, b, n, steps[b].m)
    ensures var pushed := Push(Memory(trace[i]), steps[b].m);
            && pushed.code == PushReturns(trace[n], steps[n]).value
            && (pushed.code == RING_OK ==>
                  pushed.ring.Valid() && Queue(Memory(trace[i + 1])) == Queue(pushed.ring))
            && trace[n + 1].k.prod.mem == trace[b].k.prod.mem + if pushed.code == RING_OK then 1 else 0
  {
    FrameCrcReadsBusinessFields();
    b, i := PushInstant(FrameCrc, trace, steps, n);
    RingAnswers(trace[i], trace[i + 1], steps[b].m, PushReturns(trace[n], steps[n]).value);
  }

  lemma RingAnswers(s: State, t: State, m: Message, code: int)
    requires Answers(FrameCrc, s, t, m, code) && code in {RING_OK, RING_FULL, RING_INVALID}
    ensures var pushed := Push(Memory(s), m);
            && pushed.code == code
            && (code == RING_OK ==> pushed.ring.Valid() && Queue(Memory(t)) == Queue(pushed.ring))
  {
    AtTheFrameCrc(m);
    PushIsEnqueue(Memory(s), m);
  }

  // ----- A pop that is under way -----

  predicate LoadsProducer(k: Control, step: Step) {
    (step.Consume? && k.c == CAcquire) || (step.ReloadProducer? && k.c == CTest)
  }

  /** Memory shows that the frame that pop holds is released. */
  predicate ReleaseOut(k: Control) {
    (k.c == CPublish && k.cons.mem == k.cons.local) || k.c == CJudge
  }

  /** What a step leaves of a pop that is under way before and after it. */
  ghost predicate PopOn(k: Control, loads: bool, t: Control) {
    && (loads ==> t.c == CTest)
    && (t.c == CTest ==>
          if loads then t.sawEmpty == (k.prod.mem == k.cons.mem) else k.c == CTest && t.sawEmpty == k.sawEmpty)
    && (t.cons.mem == k.cons.mem || (ReleaseOut(t) && !ReleaseOut(k) && t.cons.mem == k.cons.mem + 1))
    && (ReleaseOut(t) && t.cons.mem == k.cons.mem ==> ReleaseOut(k))
    && (ReleaseOut(k) ==> ReleaseOut(t))
    && (ReleaseOut(t) ==> k.c == CPublish || k.c == CJudge)
  }

  lemma PopOwnStepOn(k: Control, empty: bool, committed: bool, lastField: bool, t: Control)
    requires ControlInv(k) && t == PopControl(k, empty, committed, lastField) && k.c != CIdle && t.c != CIdle
    ensures PopOn(k, k.c == CAcquire, t)
  {}

  lemma PushStepLeaves(k: Control, headerOk: bool, full: bool, lastField: bool, t: Control)
    requires ControlInv(k) && t == PushControl(k, headerOk, full, lastField) && k.c != CIdle
    ensures PopOn(k, false, t)
  {}

  lemma TransferLeaves(k: Control)
    requires ControlInv(k) && k.c != CIdle
    ensures PopOn(k, k.c == CTest, LoadProducer(k)) && PopOn(k, false, LoadConsumer(k))
    ensures PopOn(k, false, k.(prod := k.prod.(mem := k.prod.local)))
    ensures PopOn(k, false, k.(cons := k.cons.(mem := k.cons.local)))
  {}

  lemma PopGoesOn(sum: Sum, s: State, step: Step, t: State)
    requires Inv(sum, s) && t == Apply(sum, s, step) && s.k.c != CIdle && t.k.c != CIdle
    ensures PopOn(s.k, LoadsProducer(s.k, step), t.k)
    ensures s.k.c == CPublish || s.k.c == CJudge ==> t.pop.m == s.pop.m
  {
    if step.Produce? { PushStepLeaves(s.k, HeaderOk(step.m), TestsFull(s.k), s.push.fields + 1 == FIELDS, t.k); }
    else if step.Consume? {
      var slot := s.slots[Slot(s.k.cons.local)];
      var committed := slot.remote.commit == slot.remote.sequence;
      PopOwnStepOn(s.k, TestsEmpty(s.k), committed, s.pop.fields + 1 == FIELDS, t.k);
    } else { TransferLeaves(s.k); }
  }

  lemma PopStarts(sum: Sum, s: State, step: Step, t: State)
    requires Shape(s) && t == Apply(sum, s, step) && s.k.c == CIdle && t.k.c != CIdle
    ensures step.Consume? && t.k.c == CAcquire && t.k.cons.mem == s.k.cons.mem
  {}

  /** Step `b` began the pop that is under way at `n`. */
  ghost predicate Popping(trace: seq<State>, steps: seq<Step>, b: nat, n: nat) {
    && b < n < |trace| == |steps| + 1 && steps[b].Consume?
    && trace[b].k.c == CIdle && forall j :: b < j <= n ==> trace[j].k.c != CIdle
  }

  ghost predicate PopKnows(trace: seq<State>, b: nat, n: nat, i: nat)
    requires b < n < |trace|
  {
    var k := trace[n].k;
    && b <= i < n
    && (k.c == CTest ==> k.sawEmpty == (trace[i].k.prod.mem == trace[i].k.cons.mem))
    && (ReleaseOut(k) ==> trace[i].pop.m == trace[n].pop.m && trace[i + 1].k.cons.mem == trace[i].k.cons.mem + 1)
    && k.cons.mem == trace[b].k.cons.mem + if ReleaseOut(k) then 1 else 0
  }

  /** What each step does to the pop under way. */
  ghost predicate PopStep(s: State, step: Step, t: State) {
    && (s.k.c == CIdle && t.k.c != CIdle ==> step.Consume? && t.k.c == CAcquire && t.k.cons.mem == s.k.cons.mem)
    && (s.k.c != CIdle && t.k.c != CIdle ==>
          && PopOn(s.k, LoadsProducer(s.k, step), t.k)
          && (s.k.c == CPublish || s.k.c == CJudge ==> t.pop.m == s.pop.m))
  }

  ghost predicate PopSteps(trace: seq<State>, steps: seq<Step>) {
    && |trace| == |steps| + 1 && trace[0].k.c == CIdle
    && forall n :: 0 <= n < |steps| ==> PopStep(trace[n], steps[n], trace[n + 1])
  }

  lemma TracePops(sum: Sum, trace: seq<State>, steps: seq<Step>)
    requires ReadsBusinessFields(sum) && Trace(sum, trace, steps)
    ensures PopSteps(trace, steps)
  {
    forall n | 0 <= n < |steps| ensures PopStep(trace[n], steps[n], trace[n + 1]) {
      TraceAtomic(sum, trace, steps, n);
      if trace[n + 1].k.c != CIdle {
        if trace[n].k.c == CIdle { PopStarts(sum, trace[n], steps[n], trace[n + 1]); }
        else { PopGoesOn(sum, trace[n], steps[n], trace[n + 1]); }
      }
    }
  }

  lemma PopKnowsOn(trace: seq<State>, steps: seq<Step>, b: nat, n: nat, i: nat, loads: bool) returns (now: nat)
    requires n + 1 < |trace| && Popping(trace, steps, b, n) && PopKnows(trace, b, n, i) && trace[n + 1].k.c != CIdle
    requires PopOn(trace[n].k, loads, trace[n + 1].k)
    requires trace[n].k.c == CPublish || trace[n].k.c == CJudge ==> trace[n + 1].pop.m == trace[n].pop.m
    ensures Popping(trace, steps, b, n + 1) && PopKnows(trace, b, n + 1, now)
  {
    now := if loads || trace[n + 1].k.cons.mem != trace[n].k.cons.mem then n else i;
  }

  lemma {:induction false} PopUnderWay(trace: seq<State>, steps: seq<Step>, n: nat) returns (b: nat, i: nat)
    requires PopSteps(trace, steps) && n <= |steps| && trace[n].k.c != CIdle
    ensures Popping(trace, steps, b, n) && PopKnows(trace, b, n, i)
  {
    assert PopStep(trace[n - 1], steps[n - 1], trace[n]);
    if trace[n - 1].k.c == CIdle { b, i := n - 1, n - 1; }
    else {
      b, i := PopUnderWay(trace, steps, n - 1);
      i := PopKnowsOn(trace, steps, b, n - 1, i, LoadsProducer(trace[n - 1].k, steps[n - 1]));
    }
  }

  // ----- Every pop is one pop on memory's ring -----

  /** What pop returns in a step, if it returns. */
  function PopReturns(sum: Sum, s: State, step: Step): Option<int>
    requires Shape(s)
  {
    var slot := s.slots[Slot(s.k.cons.local)];
    if !step.Consume? then None
    else if s.k.c == CTest && TestsEmpty(s.k) then Some(RING_EMPTY)
    else if s.k.c == CCheck && slot.remote.commit != slot.remote.sequence then Some(RING_INCOMPLETE)
    else if s.k.c == CJudge then Some(Verdict(sum, s.pop.m))
    else None
  }

  lemma PopReturnsIdle(sum: Sum, s: State, step: Step, t: State)
    requires ReadsBusinessFields(sum) && Inv(sum, s) && t == Apply(sum, s, step) && PopReturns(sum, s, step).Some?
    ensures t.k.c == CIdle && t.k.cons.mem == s.k.cons.mem
    ensures PopReturns(sum, s, step).value == if s.k.c == CJudge then RING_OK else RING_EMPTY
    ensures s.k.c == CTest || s.k.c == CJudge
    ensures t.log.received == if s.k.c == CJudge then s.log.received + [s.pop.m] else s.log.received
    ensures s.k.c == CJudge ==> s.pop.m.commit == s.pop.m.sequence
  {
    CheckedAndJudged(sum, s, step.buffer);
  }

  /** Step `b` begins a pop that returns in step `n`. */
  ghost predicate PopCall(trace: seq<State>, steps: seq<Step>, b: nat, n: nat) {
    && b < n < |steps| == |trace| - 1 && steps[b].Consume? && trace[b].k.c == CIdle && trace[n + 1].k.c == CIdle
    && forall j :: b < j <= n ==> trace[j].k.c != CIdle
  }

  lemma PopRemoves(sum: Sum, trace: seq<State>, steps: seq<Step>, i: nat)
    requires ReadsBusinessFields(sum) && Trace(sum, trace, steps) && i < |steps|
    requires trace[i + 1].k.cons.mem != trace[i].k.cons.mem
    ensures Queue(Memory(trace[i])) == [trace[i].pop.m] + Queue(Memory(trace[i + 1]))
  {
    TraceAtomic(sum, trace, steps, i);
    StepMoves(sum, trace[i], steps[i], trace[i + 1]);
  }

  lemma TraceEmpty(sum: Sum, trace: seq<State>, steps: seq<Step>, n: nat, i: nat)
    requires ReadsBusinessFields(sum) && Trace(sum, trace, steps) && n <= |steps| && i <= |steps|
    requires trace[n].k.c == CTest && TestsEmpty(trace[n].k)
    requires trace[n].k.sawEmpty ==> trace[i].k.prod.mem == trace[i].k.cons.mem
    ensures Queue(Memory(trace[i])) == []
  {
    TraceAtomic(sum, trace, steps, n);
    TraceAtomic(sum, trace, steps, i);
    EmptyIsExact(trace[n].k);
    FullMemory(sum, trace[i]);
  }

  lemma PopInstant(sum: Sum, trace: seq<State>, steps: seq<Step>, n: nat) returns (b: nat, i: nat)
    requires ReadsBusinessFields(sum) && Trace(sum, trace, steps) && n < |steps|
    requires PopReturns(sum, trace[n], steps[n]).Some?
    ensures b <= i <= n && PopCall(trace, steps, b, n)
    ensures var m, code := trace[n].pop.m, PopReturns(sum, trace[n], steps[n]).value;
            && (code == RING_EMPTY || (code == RING_OK == Verdict(sum, m) && m.commit == m.sequence))
            && (code == RING_EMPTY ==>
                  Queue(Memory(trace[i])) == [] && trace[n + 1].log.received == trace[n].log.received)
            && (code == RING_OK ==>
                  && Queue(Memory(trace[i])) == [m] + Queue(Memory(trace[i + 1]))
                  && trace[n + 1].log.received == trace[n].log.received + [m])
            && trace[n + 1].k.cons.mem == trace[b].k.cons.mem + if code == RING_OK then 1 else 0
  {
    TraceAtomic(sum, trace, steps, n);
    PopReturnsIdle(sum, trace[n], steps[n], trace[n + 1]);
    TracePops(sum, trace, steps);
    b, i := PopUnderWay(trace, steps, n);
    if trace[n].k.c == CTest { TraceEmpty(sum, trace, steps, n, i); } else { PopRemoves(sum, trace, steps, i); }
  }

  /** The same of every pop: at one moment of its call it was a pop on the ring in memory, returns that pop's code and
      delivers its message, and the next step leaves in memory's ring the frames that that pop leaves there. */
  lemma PopIsAtomic(trace: seq<State>, steps: seq<Step>, n: nat, into: Message) returns (b: nat, i: nat)
    requires Trace(FrameCrc, trace, steps) && n < |steps| && PopReturns(FrameCrc, trace[n], steps[n]).Some?
    ensures b <= i <= n && PopCall(trace, steps, b, n)
    ensures var popped := Pop(Memory(trace[i]), into);
            && popped.code == PopReturns(FrameCrc, trace[n], steps[n]).value
            && trace[n + 1].log.received
                 == trace[n].log.received + (if popped.code == RING_OK then [popped.message] else [])
            && (popped.code == RING_OK ==>
                  popped.ring.Valid() && Queue(Memory(trace[i + 1])) == Queue(popped.ring))
            && trace[n + 1].k.cons.mem == trace[b].k.cons.mem + if popped.code == RING_OK then 1 else 0
  {
    FrameCrcReadsBusinessFields();
    b, i := PopInstant(FrameCrc, trace, steps, n);
    if PopReturns(FrameCrc, trace[n], steps[n]).value == RING_EMPTY { PopIsDequeue(Memory(trace[i]), into); }
    else {
      AtTheFrameCrc(trace[n].pop.m);
      RingPop(Memory(trace[i]), into, trace[n].pop.m, Queue(Memory(trace[i + 1])));
    }
  }

  lemma RingPop(r: RingState, into: Message, m: Message, q: seq<Message>)
    requires r.Valid() && Queue(r) == [m] + q && m.commit == m.sequence && Judge(m) == RING_OK
    ensures var popped := Pop(r, into);
            popped.code == RING_OK && popped.message == m && popped.ring.Valid() && Queue(popped.ring) == q
  {
    PopIsDequeue(r, into);
  }
}
