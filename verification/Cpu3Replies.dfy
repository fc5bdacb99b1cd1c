/** What CPU3 puts on the reverse rings, over every run: READY first and once, results behind their
    acknowledgements, one verdict per request, and nothing after STOP_READY. */
module Cpu3Replies {
  import opened Words
  import opened Protocol
  import opened Cpu3Service
  import opened Cpu3Wakeup

  // ----- SESSION_READY -----

  predicate PastGate(w: Worker) {
    w.Scan? || w.Drain? || w.Sending? || w.Recheck? || w.Finish? || w.Giving?
  }

  predicate NoReady(todo: seq<Answer>) {
    forall i :: 0 <= i < |todo| ==> todo[i].kind != MSG_SESSION_READY
  }

  /** The commit order of all rings begins with READY and holds no other. */
  predicate ReadyFirst(first: seq<u32>) {
    first != [] ==> first[0] == MSG_SESSION_READY && forall i :: 1 <= i < |first| ==> first[i] != MSG_SESSION_READY
  }

  ghost predicate ReadyInv(s: State) {
    && (s.main != Checking ==> !s.published)
    && (s.published ==> s.committed)
    && (s.committed ==> s.main == Checking || s.main == Flagged) && (s.main == Flagged ==> s.committed)
    && (s.main == InSend || (s.main == Checking && !s.committed) ==> s.first == [])
    && (s.main == Committed || s.main == Returned || s.main == Flagged || s.committed ==> s.first != [])
    && (!s.published ==> |s.first| <= 1)
    && (PastGate(s.k.worker) ==> s.published)
    && (s.k.worker.Sending? ==> NoReady(s.k.worker.todo))
    && ReadyFirst(s.first)
  }

  lemma PlanHasNoReady(stopControl: bool, p: nat, r: Request, x: Devices)
    ensures NoReady(Plan(stopControl, p, r, x)) && NoReady(Rejection(p, r))
  {}

  lemma ReceiveReady(s: State, stopControl: bool, x: Devices, t: State)
    requires Shaped(s) && ReadyInv(s) && s.k.worker.Drain? && t == Receive(s, stopControl, x)
    ensures ReadyInv(t)
  {
    var p := s.k.worker.p;
    if s.fwd[p] != [] { PlanHasNoReady(stopControl, p, s.fwd[p][0], x); }
  }

  lemma SendReady(s: State, room: bool, t: State)
    requires Shaped(s) && ReadyInv(s) && s.k.worker.Sending? && t == SendNext(s, room)
    ensures ReadyInv(t)
  {}

  lemma PassReady(k: Plumbing, published: bool, more: bool, t: Plumbing)
    requires (PastGate(k.worker) ==> published) && !k.worker.Sending? && t == PassMove(k, published, more)
    ensures (PastGate(t.worker) ==> published) && !t.worker.Sending?
  {}

  lemma LinuxQuiet(s: State, step: Step, t: State)
    requires Shaped(s) && t == LinuxStep(s, step)
    ensures t.k.worker == s.k.worker && t.main == s.main && t.committed == s.committed && t.published == s.published
    ensures t.first == s.first && t.out == s.out && t.popped == s.popped && t.k.halted == s.k.halted
  {}

  lemma IsrQuiet(s: State, step: Step, t: State)
    requires Shaped(s) && t == IsrStep(s, step)
    ensures t == s.(k := t.k) && t.k.worker == s.k.worker && t.k.halted == s.k.halted
  {}

  lemma MainReady(s: State, room: bool, t: State)
    requires Shaped(s) && ReadyInv(s) && t == MainMove(s, room)
    ensures ReadyInv(t)
  {
    if s.main == InSend && room { assert t.first == [MSG_SESSION_READY]; }
  }

  lemma StepReady(stopControl: bool, s: State, step: Step, t: State)
    requires Shaped(s) && ReadyInv(s) && t == Apply(stopControl, s, step)
    ensures ReadyInv(t)
  {
    var w := s.k.worker;
    if ByLinux(step) { LinuxQuiet(s, step, t); }
    else if s.k.halted { }
    else if step.IsrClear? || step.IsrPost? { IsrQuiet(s, step, t); }
    else if s.k.isr.Cleared? { }
    else if step.WorkerStep? {
      if w.Drain? { ReceiveReady(s, stopControl, step.x, t); }
      else if w.Sending? { SendReady(s, step.room, t); }
      else { PassReady(s.k, s.published, w.Recheck? && s.fwd[w.p] != [], t.k); }
    } else { MainReady(s, step.room, t); }
  }

  lemma {:induction false} RunReady(stopControl: bool, s: State, steps: seq<Step>)
    requires Inv(s) && ReadyInv(s)
    ensures ReadyInv(Run(stopControl, s, steps))
    decreases |steps|
  {
    if steps != [] {
      var t := Apply(stopControl, s, steps[0]);
      StepKeeps(stopControl, s, steps[0], t);
      StepReady(stopControl, s, steps[0], t);
      RunReady(stopControl, t, steps[1..]);
    }
  }

  /** In every boot READY is committed at most once and before every other frame on any ring, and the main thread and
      the worker are never both inside an endpoint send, even when the worker preempts the publication. */
  lemma ReadyIsFirstAndOnce(stopControl: bool, generation: u32, steps: seq<Step>)
    ensures Inv(Init(generation))
    ensures var s := Run(stopControl, Init(generation), steps);
            && ReadyFirst(s.first)
            && !((s.main == InSend || s.main == Committed) && s.k.worker.Sending?)
  {
    InitInv(generation);
    RunReady(stopControl, Init(generation), steps);
  }

  // ----- Verdicts and results -----

  predicate IsResult(a: Answer) {
    a.kind == MSG_GPIO_READ_RESULT || a.kind == MSG_PERIPHERAL_RESULT
  }

  /** An answer that settles a request: at most one of these may be sent for it. */
  predicate IsVerdict(a: Answer) {
    a.kind == MSG_ACK || a.kind == MSG_NACK || a.kind == MSG_STOP_READY || a.kind == MSG_STOP_REFUSED
  }

  predicate Acknowledges(f: Sent, a: Answer, request: nat) {
    f.answer.kind == MSG_ACK && f.answer.word0 == a.word0 && f.answer.word1 == 0 && f.request == request
  }

  /** Every result stands right behind the acknowledgement of the same request. */
  predicate Paired(q: seq<Sent>) {
    forall i :: 0 <= i < |q| && IsResult(q[i].answer) ==> i > 0 && Acknowledges(q[i - 1], q[i].answer, q[i].request)
  }

  predicate OneVerdict(q: seq<Sent>) {
    forall i, j :: 0 <= i < j < |q| && IsVerdict(q[i].answer) && IsVerdict(q[j].answer) ==> q[i].request != q[j].request
  }

  /** What is left to send for request `tag`, against what has been sent: at most the first answer is a verdict, and
      then none has been sent; a result needs the acknowledgement before it. */
  predicate OnPlan(todo: seq<Answer>, lastOk: bool, q: seq<Sent>, tag: nat) {
    && |todo| <= 2
    && (todo != [] && IsResult(todo[0]) ==>
          todo[0].needsPrevious && (lastOk ==> q != [] && Acknowledges(q[|q| - 1], todo[0], tag)))
    && (todo != [] && IsVerdict(todo[0]) ==> !todo[0].needsPrevious && Unsettled(q, tag))
    && (|todo| == 2 ==> !IsVerdict(todo[1]))
    && (|todo| == 2 && IsResult(todo[1]) ==>
          todo[1].needsPrevious && todo[0].kind == MSG_ACK && todo[0].word0 == todo[1].word0 && todo[0].word1 == 0)
  }

  predicate Unsettled(q: seq<Sent>, tag: nat) {
    forall i :: 0 <= i < |q| && IsVerdict(q[i].answer) ==> q[i].request != tag
  }

  predicate TagsBelow(q: seq<Sent>, popped: nat) {
    forall i :: 0 <= i < |q| ==> q[i].request <= popped
  }

  /** The part of the invariant about one reverse ring. */
  ghost predicate RingInv(s: State, p: nat)
    requires Shaped(s) && p < 4
  {
    && TagsBelow(s.out[p], s.popped[p]) && Paired(s.out[p]) && OneVerdict(s.out[p])
    && (s.k.worker.Sending? && s.k.worker.p == p ==>
          OnPlan(s.k.worker.todo, s.k.worker.lastOk, s.out[p], s.popped[p]))
  }

  lemma PlanStarts(stopControl: bool, p: nat, r: Request, x: Devices, q: seq<Sent>, popped: nat)
    requires TagsBelow(q, popped)
    ensures OnPlan(Plan(stopControl, p, r, x), true, q, popped + 1) && OnPlan(Rejection(p, r), true, q, popped + 1)
  {
    assert Unsettled(q, popped + 1);
  }

  lemma PlanGoesOn(todo: seq<Answer>, q: seq<Sent>, tag: nat, after: seq<Sent>)
    requires todo != [] && OnPlan(todo, true, q, tag) && after == q + [Sent(todo[0], tag)]
    requires TagsBelow(q, tag) && Paired(q) && OneVerdict(q)
    ensures OnPlan(todo[1..], true, after, tag) && TagsBelow(after, tag) && Paired(after) && OneVerdict(after)
  {}

  lemma PlanGivesUp(todo: seq<Answer>, lastOk: bool, q: seq<Sent>, tag: nat)
    requires todo != [] && OnPlan(todo, lastOk, q, tag)
    ensures OnPlan(todo[1..], false, q, tag)
  {}

  lemma ReceiveBegins(s: State, stopControl: bool, x: Devices, t: State)
    requires Shaped(s) && s.k.worker.Drain? && t == Receive(s, stopControl, x)
    ensures var p, w := s.k.worker.p, t.k.worker;
            && t.out == s.out
            && (|| (w.Recheck? && t.popped == s.popped)
                || (s.fwd[p] != [] && t.popped == s.popped[p := s.popped[p] + 1] && w.Sending? && w.p == p && w.lastOk
                    && (w.todo == Plan(stopControl, p, s.fwd[p][0], x) || w.todo == Rejection(p, s.fwd[p][0]))))
  {}

  lemma ReceiveReplies(s: State, stopControl: bool, x: Devices, p: nat, t: State)
    requires Shaped(s) && p < 4 && RingInv(s, p) && s.k.worker.Drain? && t == Receive(s, stopControl, x) && Shaped(t)
    ensures RingInv(t, p)
  {
    var q := s.k.worker.p;
    ReceiveBegins(s, stopControl, x, t);
    if s.fwd[q] != [] { PlanStarts(stopControl, q, s.fwd[q][0], x, s.out[p], s.popped[p]); }
  }

  lemma SendElsewhere(s: State, room: bool, p: nat, t: State)
    requires Shaped(s) && p < 4 && s.k.worker.Sending? && t == SendNext(s, room)
    ensures t.popped == s.popped && |t.out| == 4 && (s.k.worker.p != p ==> t.out[p] == s.out[p])
    ensures t.k.worker.Sending? ==> t.k.worker.p == s.k.worker.p && s.k.worker.todo != []
    ensures s.k.worker.todo == [] ==> t.out == s.out
  {}

  lemma SendHere(s: State, room: bool, t: State)
    requires Shaped(s) && s.k.worker.Sending? && s.k.worker.todo != [] && t == SendNext(s, room)
    ensures var w, p := s.k.worker, s.k.worker.p;
            && |t.out| == 4 && t.k.worker.Sending?
            && if !room || (w.todo[0].needsPrevious && !w.lastOk)
               then t.out[p] == s.out[p] && t.k.worker == w.(todo := w.todo[1..], lastOk := false)
               else t.out[p] == s.out[p] + [Sent(w.todo[0], s.popped[p])]
                    && t.k.worker == w.(todo := w.todo[1..], lastOk := true)
  {}

  lemma SendReplies(s: State, room: bool, p: nat, t: State)
    requires Shaped(s) && p < 4 && RingInv(s, p) && s.k.worker.Sending? && t == SendNext(s, room) && Shaped(t)
    ensures RingInv(t, p)
  {
    var w := s.k.worker;
    SendElsewhere(s, room, p, t);
    if w.todo != [] && w.p == p {
      SendHere(s, room, t);
      PlanGivesUp(w.todo, w.lastOk, s.out[p], s.popped[p]);
      if room && !(w.todo[0].needsPrevious && !w.lastOk) {
        assert OnPlan(w.todo, true, s.out[p], s.popped[p]);
        PlanGoesOn(w.todo, s.out[p], s.popped[p], t.out[p]);
      }
    }
  }

  lemma MainReplies(s: State, room: bool, p: nat, t: State)
    requires Shaped(s) && p < 4 && RingInv(s, p) && ReadyInv(s) && t == MainMove(s, room) && Shaped(t)
    ensures RingInv(t, p)
  {}

  lemma StepReplies(stopControl: bool, s: State, step: Step, p: nat, t: State)
    requires Inv(s) && p < 4 && RingInv(s, p) && ReadyInv(s) && t == Apply(stopControl, s, step) && Shaped(t)
    ensures RingInv(t, p)
  {
    var w := s.k.worker;
    if ByLinux(step) { LinuxQuiet(s, step, t); }
    else if s.k.halted { }
    else if step.IsrClear? || step.IsrPost? { IsrQuiet(s, step, t); }
    else if s.k.isr.Cleared? { }
    else if step.WorkerStep? {
      if w.Drain? { ReceiveReplies(s, stopControl, step.x, p, t); }
      else if w.Sending? { SendReplies(s, step.room, p, t); }
      else {
        var more := w.Recheck? && s.fwd[w.p] != [];
        PassReady(s.k, true, more, PassMove(s.k, true, more));
      }
    } else { MainReplies(s, step.room, p, t); }
  }

  lemma {:induction false} RunReplies(stopControl: bool, s: State, steps: seq<Step>, p: nat)
    requires Inv(s) && p < 4 && RingInv(s, p) && ReadyInv(s)
    ensures RingInv(Run(stopControl, s, steps), p)
    decreases |steps|
  {
    if steps != [] {
      var t := Apply(stopControl, s, steps[0]);
      StepKeeps(stopControl, s, steps[0], t);
      StepReady(stopControl, s, steps[0], t);
      StepReplies(stopControl, s, steps[0], p, t);
      RunReplies(stopControl, t, steps[1..], p);
    }
  }

  /** On every reverse ring of every boot: a GPIO or peripheral result is immediately preceded by the acknowledgement
      that carries the same request sequence, and no request gets two verdicts. */
  lemma ResultsFollowTheirAck(stopControl: bool, generation: u32, steps: seq<Step>, p: nat)
    requires p < 4
    ensures Inv(Init(generation))
    ensures var s := Run(stopControl, Init(generation), steps); Paired(s.out[p]) && OneVerdict(s.out[p])
  {
    InitInv(generation);
    RunReplies(stopControl, Init(generation), steps, p);
    assert RingInv(Run(stopControl, Init(generation), steps), p);
  }

  // ----- Nothing is taken back -----

  ghost predicate Grows(s: State, t: State) {
    |s.out| == 4 && |t.out| == 4 && forall p :: 0 <= p < 4 ==> s.out[p] <= t.out[p]
  }

  lemma StepGrows(stopControl: bool, s: State, step: Step, t: State)
    requires Shaped(s) && t == Apply(stopControl, s, step)
    ensures Grows(s, t)
  {
    var w := s.k.worker;
    if ByLinux(step) { LinuxQuiet(s, step, t); }
    else if s.k.halted { }
    else if step.IsrClear? || step.IsrPost? { IsrQuiet(s, step, t); }
    else if s.k.isr.Cleared? { }
    else if step.WorkerStep? && w.Drain? { ReceiveBegins(s, stopControl, step.x, t); }
    else if step.WorkerStep? && w.Sending? { SendGrows(s, step.room, t); }
  }

  lemma SendGrows(s: State, room: bool, t: State)
    requires Shaped(s) && s.k.worker.Sending? && t == SendNext(s, room)
    ensures Grows(s, t)
  {
    forall p | 0 <= p < 4 ensures |t.out| == 4 && s.out[p] <= t.out[p] {
      SendElsewhere(s, room, p, t);
      if s.k.worker.todo != [] { SendHere(s, room, t); }
    }
  }

  lemma {:induction false} RunGrows(stopControl: bool, s: State, steps: seq<Step>)
    requires Inv(s)
    ensures Grows(s, Run(stopControl, s, steps))
    decreases |steps|
  {
    if steps != [] {
      var t := Apply(stopControl, s, steps[0]);
      StepKeeps(stopControl, s, steps[0], t);
      StepGrows(stopControl, s, steps[0], t);
      RunGrows(stopControl, t, steps[1..]);
    }
  }

  // ----- STOP_READY -----

  predicate NoStopReady(q: seq<Sent>) {
    forall i :: 0 <= i < |q| ==> q[i].answer.kind != MSG_STOP_READY
  }

  /** A STOP_READY on a ring is the last frame there, on p0, and CPU3 is offline. */
  ghost predicate StopInv(s: State, p: nat)
    requires Shaped(s) && p < 4
  {
    && (s.k.worker.Sending? && s.k.worker.p != 0 ==> NoStopReadyPlanned(s.k.worker.todo))
    && (if s.k.halted && p == 0 then s.out[0] != [] && NoStopReady(s.out[0][..|s.out[0]| - 1])
        else NoStopReady(s.out[p]))
  }

  predicate NoStopReadyPlanned(todo: seq<Answer>) {
    forall i :: 0 <= i < |todo| ==> todo[i].kind != MSG_STOP_READY
  }

  lemma PlanStops(stopControl: bool, p: nat, r: Request, x: Devices)
    ensures p != 0 ==> NoStopReadyPlanned(Plan(stopControl, p, r, x))
    ensures NoStopReadyPlanned(Rejection(p, r))
  {}

  lemma ReceiveStops(s: State, stopControl: bool, x: Devices, p: nat, t: State)
    requires Shaped(s) && p < 4 && StopInv(s, p) && s.k.worker.Drain? && t == Receive(s, stopControl, x) && Shaped(t)
    ensures StopInv(t, p)
  {
    var q := s.k.worker.p;
    ReceiveBegins(s, stopControl, x, t);
    if s.fwd[q] != [] { PlanStops(stopControl, q, s.fwd[q][0], x); }
  }

  lemma SendStops(s: State, room: bool, p: nat, t: State)
    requires Shaped(s) && p < 4 && StopInv(s, p) && !s.k.halted && s.k.worker.Sending?
    requires t == SendNext(s, room) && Shaped(t)
    ensures StopInv(t, p)
  {
    var w := s.k.worker;
    if w.todo != [] && t.out[p] != s.out[p] { assert t.out[p][..|t.out[p]| - 1] == s.out[p]; }
  }

  lemma StepStops(stopControl: bool, s: State, step: Step, p: nat, t: State)
    requires Inv(s) && p < 4 && StopInv(s, p) && t == Apply(stopControl, s, step) && Shaped(t)
    ensures StopInv(t, p)
    ensures s.k.halted ==> t.k.halted && t.out == s.out && t.first == s.first
  {
    var w := s.k.worker;
    if ByLinux(step) { LinuxQuiet(s, step, t); }
    else if s.k.halted { }
    else if step.IsrClear? || step.IsrPost? { IsrQuiet(s, step, t); }
    else if s.k.isr.Cleared? { }
    else if step.WorkerStep? {
      if w.Drain? { ReceiveStops(s, stopControl, step.x, p, t); }
      else if w.Sending? { SendStops(s, step.room, p, t); }
      else {
        var more := w.Recheck? && s.fwd[w.p] != [];
        PassReady(s.k, true, more, PassMove(s.k, true, more));
        PassHalts(s.k, s.published, more);
      }
    }
  }

  lemma PassHalts(k: Plumbing, published: bool, more: bool)
    requires !k.worker.Sending?
    ensures PassMove(k, published, more).halted == k.halted && !PassMove(k, published, more).worker.Sending?
  {}

  lemma {:induction false} RunStops(stopControl: bool, s: State, steps: seq<Step>, p: nat)
    requires Inv(s) && p < 4 && StopInv(s, p)
    ensures StopInv(Run(stopControl, s, steps), p)
    ensures s.k.halted ==> Run(stopControl, s, steps).out == s.out
    decreases |steps|
  {
    if steps != [] {
      var t := Apply(stopControl, s, steps[0]);
      StepKeeps(stopControl, s, steps[0], t);
      StepStops(stopControl, s, steps[0], p, t);
      RunStops(stopControl, t, steps[1..], p);
    }
  }

  /** Once STOP_READY is on a ring it is the last frame of p0, and CPU3 sends nothing more whatever happens next. */
  lemma NothingAfterStopReady(stopControl: bool, generation: u32, steps: seq<Step>, later: seq<Step>, p: nat, i: nat)
    requires p < 4
    ensures Inv(Init(generation))
    ensures var s := Run(stopControl, Init(generation), steps);
            i < |s.out[p]| && s.out[p][i].answer.kind == MSG_STOP_READY ==>
              && p == 0 && i == |s.out[0]| - 1 && s.k.halted
              && Run(stopControl, s, later).out == s.out
  {
    InitInv(generation);
    RunStops(stopControl, Init(generation), steps, p);
    var s := Run(stopControl, Init(generation), steps);
    assert StopInv(s, p);
    RunStops(stopControl, s, later, p);
  }
}
