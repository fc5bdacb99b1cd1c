/** Which answer each request gets from CPU3, over every run: nothing that is not due is ever sent, and everything that
    is due is sent unless a reverse ring had no room. */
module Cpu3Answers {
  import opened Words
  import opened Protocol
  import opened Cpu3Service
  import opened Cpu3Wakeup
  import opened Cpu3Replies
  import Cpu3Drain
  import Ring

  // ----- What an observer notes -----

  /** A request that the worker has taken, with what the devices answered at that moment. */
  datatype Taking = Taking(r: Request, x: Devices)

  /** For each ring: the requests that Linux has pushed, those that the worker has taken, and the numbers of those for
      which a send found no room. */
  datatype Notes = Notes(pushed: seq<Request>, taken: seq<Taking>, lost: set<nat>)

  const NOTHING: Notes := Notes([], [], {})

  function Note(s: State, step: Step, t: State, p: nat, n: Notes): Notes
    requires p < |s.fwd| == |t.fwd| && p < |s.popped| == |t.popped|
  {
    Notes(if step.LinuxPush? && t.fwd[p] != s.fwd[p] then n.pushed + [step.r] else n.pushed,
          if step.WorkerStep? && t.popped[p] != s.popped[p] && s.fwd[p] != []
          then n.taken + [Taking(s.fwd[p][0], step.x)] else n.taken,
          if step.WorkerStep? && !step.room && t.k.worker != s.k.worker && Todo(s, p) != []
          then n.lost + {s.popped[p]} else n.lost)
  }

  /** What has been noted about ring `p` by the end of a run. */
  ghost function NotesOf(stopControl: bool, s: State, steps: seq<Step>, p: nat, n: Notes): Notes
    requires Inv(s) && p < 4
    decreases |steps|
  {
    if steps == [] then n
    else
      var t := Apply(stopControl, s, steps[0]);
      StepKeeps(stopControl, s, steps[0], t);
      NotesOf(stopControl, t, steps[1..], p, Note(s, steps[0], t, p, n))
  }

  // ----- What is due, by the kind of the answer -----

  /** The words of a frame. */
  datatype Content = Content(kind: u32, word0: u32, word1: u32, word2: u32)

  function ContentOf(a: Answer): Content {
    Content(a.kind, a.word0, a.word1, a.word2)
  }

  predicate StopRequest(p: nat, r: Request) {
    p == 0 && r.kind == MSG_STOP_REQUEST
  }

  /** A request for a device that CPU3 cannot serve: on the wrong ring, of the wrong shape, or refused by the device. */
  predicate Denied(p: nat, r: Request, x: Devices) {
    || (r.kind == MSG_PERIPHERAL_REQUEST && !(p == 1 && x.ready && x.executed))
    || (r.kind == MSG_GPIO_READ_REQUEST && !(p == 1 && x.ready && !x.spiProfile && r.length == 4 && x.gpioRead))
  }

  predicate Due(stopControl: bool, p: nat, t: Taking, c: Content) {
    var r, x := t.r, t.x;
    var ok, named := r.code == Ring.RING_OK, c.word0 == r.sequence && c.word2 == 0;
    || (c.kind == MSG_STOP_READY && ok && StopRequest(p, r) && r.length == 0 && stopControl && named && c.word1 == 0)
    || (c.kind == MSG_STOP_REFUSED && ok && StopRequest(p, r) && named
        && ((r.length != 0 && c.word1 == 1) || (r.length == 0 && !stopControl && c.word1 == 2)))
    || (c.kind == MSG_ACK && ok && p < 2 && !StopRequest(p, r) && !Denied(p, r, x) && named && c.word1 == 0)
    || (c.kind == MSG_NACK && p < 2 && named
        && ((r.code == Ring.RING_BAD_CRC && c.word1 == 1)
            || (r.code == Ring.RING_INVALID && c.word1 == 2)
            || (ok && !StopRequest(p, r) && Denied(p, r, x) && c.word1 == 2)))
    || (c.kind == MSG_PERIPHERAL_RESULT && ok && r.kind == MSG_PERIPHERAL_REQUEST && !Denied(p, r, x)
        && named && c.word1 == 0)
    || (c.kind == MSG_GPIO_READ_RESULT && ok && r.kind == MSG_GPIO_READ_REQUEST && !Denied(p, r, x)
        && c.word0 == r.sequence && c.word1 == r.value && c.word2 == x.level)
    || (c == Content(MSG_PONG, (r.value + 1) % 0x1_0000_0000, 0, 0) && ok && r.kind == MSG_PING)
    || (c == Content(MSG_NOP, (r.value + 1) % 0x1_0000_0000, 0, 0) && ok && !StopRequest(p, r)
        && r.kind != MSG_PING && r.kind != MSG_PERIPHERAL_REQUEST && r.kind != MSG_GPIO_READ_REQUEST)
  }

  predicate Lists(todo: seq<Answer>, c: Content) {
    exists i :: 0 <= i < |todo| && ContentOf(todo[i]) == c
  }

  predicate Has(q: seq<Sent>, tag: nat, c: Content) {
    exists i :: 0 <= i < |q| && q[i].request == tag && ContentOf(q[i].answer) == c
  }

  /** The worker's answers to a request that it has taken. */
  function Reaction(stopControl: bool, p: nat, t: Taking): seq<Answer> {
    if Accepted(t.r) then Plan(stopControl, p, t.r, t.x) else Rejection(p, t.r)
  }

  lemma ReactionIsDue(stopControl: bool, p: nat, t: Taking, i: nat)
    requires i < |Reaction(stopControl, p, t)|
    ensures Due(stopControl, p, t, ContentOf(Reaction(stopControl, p, t)[i]))
  {}

  lemma DueIsListed(stopControl: bool, p: nat, t: Taking, c: Content)
    requires Due(stopControl, p, t, c)
    ensures Lists(Reaction(stopControl, p, t), c)
  {
    var todo := Reaction(stopControl, p, t);
    assert |todo| >= 1 && (ContentOf(todo[0]) == c || (|todo| == 2 && ContentOf(todo[1]) == c));
  }

  // ----- What every run keeps about one ring -----

  /** A frame is READY, on p0, or due to the request whose number it carries. */
  predicate FrameRight(stopControl: bool, p: nat, generation: u32, taken: seq<Taking>, f: Sent) {
    if f.request == 0 then p == 0 && ContentOf(f.answer) == Content(MSG_SESSION_READY, generation, PROTOCOL_VERSION, 0)
    else f.request <= |taken| && Due(stopControl, p, taken[f.request - 1], ContentOf(f.answer))
  }

  predicate FramesRight(stopControl: bool, p: nat, generation: u32, taken: seq<Taking>, q: seq<Sent>) {
    forall i :: 0 <= i < |q| ==> FrameRight(stopControl, p, generation, taken, q[i])
  }

  /** What is due to a request that lost nothing has been sent, or is still to be sent. */
  ghost predicate Complete(stopControl: bool, p: nat, taken: seq<Taking>, lost: set<nat>, q: seq<Sent>,
                           todo: seq<Answer>) {
    forall tag: nat, c :: 1 <= tag <= |taken| && tag !in lost && Due(stopControl, p, taken[tag - 1], c) ==>
      Has(q, tag, c) || (tag == |taken| && Lists(todo, c))
  }

  predicate TodoRight(stopControl: bool, p: nat, taken: seq<Taking>, todo: seq<Answer>) {
    taken != [] && forall i :: 0 <= i < |todo| ==> Due(stopControl, p, taken[|taken| - 1], ContentOf(todo[i]))
  }

  /** Requests are taken in the order in which they were pushed. */
  predicate InOrder(n: Notes, fwd: seq<Request>) {
    && |n.pushed| == |n.taken| + |fwd|
    && (forall i :: 0 <= i < |n.taken| ==> n.taken[i].r == n.pushed[i])
    && (forall i :: 0 <= i < |fwd| ==> fwd[i] == n.pushed[|n.taken| + i])
  }

  predicate Answering(s: State, p: nat) {
    s.k.worker.Sending? && s.k.worker.p == p
  }

  function Todo(s: State, p: nat): seq<Answer> {
    if Answering(s, p) then s.k.worker.todo else []
  }

  ghost predicate AnswerInv(stopControl: bool, s: State, p: nat, n: Notes)
    requires Shaped(s) && p < 4
  {
    && |n.taken| == s.popped[p] && InOrder(n, s.fwd[p])
    && FramesRight(stopControl, p, s.generation, n.taken, s.out[p])
    && Complete(stopControl, p, n.taken, n.lost, s.out[p], Todo(s, p))
    && (Answering(s, p) ==>
          TodoRight(stopControl, p, n.taken, s.k.worker.todo) && (!s.k.worker.lastOk ==> s.popped[p] in n.lost))
  }

  // ----- The pieces that steps are made of -----

  lemma HasAfter(q: seq<Sent>, f: Sent, tag: nat, c: Content)
    ensures Has(q, tag, c) ==> Has(q + [f], tag, c)
    ensures f.request == tag && ContentOf(f.answer) == c ==> Has(q + [f], tag, c)
  {
    if Has(q, tag, c) {
      var i :| 0 <= i < |q| && q[i].request == tag && ContentOf(q[i].answer) == c;
      assert (q + [f])[i] == q[i];
    }
    assert (q + [f])[|q|] == f;
  }

  lemma ListsRest(todo: seq<Answer>, c: Content)
    requires todo != [] && Lists(todo, c) && ContentOf(todo[0]) != c
    ensures Lists(todo[1..], c)
  {
    var i :| 0 <= i < |todo| && ContentOf(todo[i]) == c;
    assert todo[1..][i - 1] == todo[i];
  }

  lemma TakeOne(stopControl: bool, p: nat, generation: u32, taken: seq<Taking>, lost: set<nat>, q: seq<Sent>, x: Taking)
    requires FramesRight(stopControl, p, generation, taken, q) && Complete(stopControl, p, taken, lost, q, [])
    ensures FramesRight(stopControl, p, generation, taken + [x], q)
    ensures Complete(stopControl, p, taken + [x], lost, q, Reaction(stopControl, p, x))
    ensures TodoRight(stopControl, p, taken + [x], Reaction(stopControl, p, x))
  {
    var more, todo := taken + [x], Reaction(stopControl, p, x);
    forall i | 0 <= i < |q| ensures FrameRight(stopControl, p, generation, more, q[i]) {
      assert FrameRight(stopControl, p, generation, taken, q[i]);
    }
    forall i | 0 <= i < |todo| ensures Due(stopControl, p, x, ContentOf(todo[i])) {
      ReactionIsDue(stopControl, p, x, i);
    }
    forall tag: nat, c | 1 <= tag <= |more| && tag !in lost && Due(stopControl, p, more[tag - 1], c)
      ensures Has(q, tag, c) || (tag == |more| && Lists(todo, c))
    {
      if tag == |more| { DueIsListed(stopControl, p, x, c); }
      else { assert Due(stopControl, p, taken[tag - 1], c); assert !Lists([], c); }
    }
  }

  lemma SendOne(stopControl: bool, p: nat, generation: u32, taken: seq<Taking>, lost: set<nat>, q: seq<Sent>,
                todo: seq<Answer>)
    requires FramesRight(stopControl, p, generation, taken, q) && Complete(stopControl, p, taken, lost, q, todo)
    requires todo != [] && TodoRight(stopControl, p, taken, todo)
    ensures var q' := q + [Sent(todo[0], |taken|)];
            && FramesRight(stopControl, p, generation, taken, q')
            && Complete(stopControl, p, taken, lost, q', todo[1..]) && TodoRight(stopControl, p, taken, todo[1..])
  {
    var f := Sent(todo[0], |taken|);
    forall tag: nat, c | 1 <= tag <= |taken| && tag !in lost && Due(stopControl, p, taken[tag - 1], c)
      ensures Has(q + [f], tag, c) || (tag == |taken| && Lists(todo[1..], c))
    {
      HasAfter(q, f, tag, c);
      if !Has(q, tag, c) && ContentOf(todo[0]) != c { ListsRest(todo, c); }
    }
  }

  lemma SkipOne(stopControl: bool, p: nat, taken: seq<Taking>, lost: set<nat>, q: seq<Sent>, todo: seq<Answer>)
    requires Complete(stopControl, p, taken, lost, q, todo) && |taken| in lost
    requires todo != [] && TodoRight(stopControl, p, taken, todo)
    ensures Complete(stopControl, p, taken, lost, q, todo[1..]) && TodoRight(stopControl, p, taken, todo[1..])
  {}

  lemma LoseMore(stopControl: bool, p: nat, taken: seq<Taking>, lost: set<nat>, more: set<nat>, q: seq<Sent>,
                 todo: seq<Answer>)
    requires Complete(stopControl, p, taken, lost, q, todo) && lost <= more
    ensures Complete(stopControl, p, taken, more, q, todo)
  {}

  lemma SendReady(stopControl: bool, p: nat, generation: u32, taken: seq<Taking>, lost: set<nat>, q: seq<Sent>,
                  todo: seq<Answer>, f: Sent)
    requires FramesRight(stopControl, p, generation, taken, q) && Complete(stopControl, p, taken, lost, q, todo)
    requires FrameRight(stopControl, p, generation, taken, f)
    ensures FramesRight(stopControl, p, generation, taken, q + [f])
    ensures Complete(stopControl, p, taken, lost, q + [f], todo)
  {
    forall tag: nat, c | 1 <= tag <= |taken| && tag !in lost && Due(stopControl, p, taken[tag - 1], c)
      ensures Has(q + [f], tag, c) || (tag == |taken| && Lists(todo, c)) { HasAfter(q, f, tag, c); }
  }

  // ----- Every step keeps it -----

  lemma TakeElsewhere(s: State, stopControl: bool, x: Devices, p: nat, t: State)
    requires Shaped(s) && p < 4 && s.k.worker.Drain? && s.k.worker.p != p && t == Receive(s, stopControl, x)
    ensures |t.fwd| == |t.popped| == 4 && t.popped[p] == s.popped[p] && t.fwd[p] == s.fwd[p] && !Answering(t, p)
  {}

  lemma TakeHere(s: State, stopControl: bool, x: Devices, t: State)
    requires Shaped(s) && s.k.worker.Drain? && t == Receive(s, stopControl, x)
    ensures |t.fwd| == |t.popped| == 4
    ensures var p := s.k.worker.p;
            || (t.popped[p] == s.popped[p] && t.fwd[p] == s.fwd[p] && !Answering(t, p))
            || (s.fwd[p] != [] && t.popped[p] == s.popped[p] + 1 && t.fwd[p] == s.fwd[p][1..] && Answering(t, p)
                && t.k.worker.lastOk && t.k.worker.todo == Reaction(stopControl, p, Taking(s.fwd[p][0], x)))
  {}

  lemma TakeShape(s: State, stopControl: bool, x: Devices, p: nat, t: State)
    requires Shaped(s) && p < 4 && s.k.worker.Drain? && t == Receive(s, stopControl, x)
    ensures t.out == s.out && |t.fwd| == |t.popped| == 4 && t.generation == s.generation
    ensures || (t.popped[p] == s.popped[p] && t.fwd[p] == s.fwd[p] && !Answering(t, p))
            || (s.fwd[p] != [] && t.popped[p] == s.popped[p] + 1 && t.fwd[p] == s.fwd[p][1..] && Answering(t, p)
                && t.k.worker.lastOk && t.k.worker.todo == Reaction(stopControl, p, Taking(s.fwd[p][0], x)))
  {
    if s.k.worker.p == p { TakeHere(s, stopControl, x, t); } else { TakeElsewhere(s, stopControl, x, p, t); }
  }

  lemma TakeKeeps(s: State, stopControl: bool, room: bool, x: Devices, p: nat, n: Notes, t: State)
    requires Shaped(s) && p < 4 && AnswerInv(stopControl, s, p, n) && s.k.worker.Drain?
    requires t == Receive(s, stopControl, x) && Shaped(t)
    ensures AnswerInv(stopControl, t, p, Note(s, WorkerStep(room, x), t, p, n))
  {
    TakeShape(s, stopControl, x, p, t);
    if t.popped[p] != s.popped[p] {
      TakeOne(stopControl, p, s.generation, n.taken, n.lost, s.out[p], Taking(s.fwd[p][0], x));
    }
  }

  lemma SendGeneration(s: State, room: bool, t: State)
    requires Shaped(s) && s.k.worker.Sending? && t == SendNext(s, room)
    ensures t.generation == s.generation && t.fwd == s.fwd && t.popped == s.popped
  {}

  lemma SendKeepsAnswers(s: State, stopControl: bool, room: bool, x: Devices, p: nat, n: Notes, t: State)
    requires Shaped(s) && p < 4 && AnswerInv(stopControl, s, p, n) && s.k.worker.Sending?
    requires t == SendNext(s, room) && Shaped(t)
    ensures AnswerInv(stopControl, t, p, Note(s, WorkerStep(room, x), t, p, n))
  {
    var w, after := s.k.worker, Note(s, WorkerStep(room, x), t, p, n);
    SendGeneration(s, room, t);
    SendElsewhere(s, room, p, t);
    if w.p == p {
      LoseMore(stopControl, p, n.taken, n.lost, after.lost, s.out[p], w.todo);
      if w.todo != [] {
        SendHere(s, room, t);
        if !room || (w.todo[0].needsPrevious && !w.lastOk) {
          SkipOne(stopControl, p, n.taken, after.lost, s.out[p], w.todo);
        } else {
          SendOne(stopControl, p, s.generation, n.taken, after.lost, s.out[p], w.todo);
        }
      }
    }
  }

  lemma MainOut(s: State, room: bool, t: State)
    requires Shaped(s) && t == MainMove(s, room)
    ensures t.generation == s.generation && t.fwd == s.fwd && t.popped == s.popped && t.k == s.k && |t.out| == 4
    ensures t.out[1] == s.out[1] && t.out[2] == s.out[2] && t.out[3] == s.out[3]
    ensures || t.out[0] == s.out[0]
            || t.out[0] == s.out[0] + [Sent(Answer(MSG_SESSION_READY, s.generation, PROTOCOL_VERSION, 0, false), 0)]
  {}

  lemma MainKeepsAnswers(s: State, stopControl: bool, room: bool, p: nat, n: Notes, t: State)
    requires Shaped(s) && p < 4 && AnswerInv(stopControl, s, p, n) && t == MainMove(s, room) && Shaped(t)
    ensures AnswerInv(stopControl, t, p, n)
  {
    MainOut(s, room, t);
    if t.out[p] != s.out[p] {
      SendReady(stopControl, p, s.generation, n.taken, n.lost, s.out[p], Todo(s, p), t.out[p][|s.out[p]|]);
    }
  }

  lemma LinuxFwd(s: State, step: Step, p: nat, t: State)
    requires Shaped(s) && p < 4 && t == LinuxStep(s, step)
    ensures t.generation == s.generation && |t.fwd| == 4
    ensures t.fwd[p] == s.fwd[p] || (step.LinuxPush? && t.fwd[p] == s.fwd[p] + [step.r])
  {}

  lemma LinuxKeepsAnswers(s: State, stopControl: bool, step: Step, p: nat, n: Notes, t: State)
    requires Shaped(s) && p < 4 && AnswerInv(stopControl, s, p, n)
    requires ByLinux(step) && t == LinuxStep(s, step) && Shaped(t)
    ensures AnswerInv(stopControl, t, p, Note(s, step, t, p, n))
  {
    LinuxQuiet(s, step, t);
    LinuxFwd(s, step, p, t);
  }

  lemma StepAnswers(stopControl: bool, s: State, step: Step, p: nat, n: Notes, t: State)
    requires Inv(s) && p < 4 && AnswerInv(stopControl, s, p, n) && t == Apply(stopControl, s, step) && Shaped(t)
    ensures AnswerInv(stopControl, t, p, Note(s, step, t, p, n))
  {
    var w := s.k.worker;
    if ByLinux(step) { LinuxKeepsAnswers(s, stopControl, step, p, n, t); }
    else if s.k.halted || (s.k.isr.Cleared? && !step.IsrClear? && !step.IsrPost?) {
      StillAnswers(stopControl, s, step, p, n, t);
    } else if step.IsrClear? || step.IsrPost? { IsrQuiet(s, step, t); }
    else if step.WorkerStep? {
      if w.Drain? { TakeKeeps(s, stopControl, step.room, step.x, p, n, t); }
      else if w.Sending? { SendKeepsAnswers(s, stopControl, step.room, step.x, p, n, t); }
      else { PassHalts(s.k, s.published, w.Recheck? && s.fwd[w.p] != []); }
    } else { MainKeepsAnswers(s, stopControl, step.room, p, n, t); }
  }

  lemma StillAnswers(stopControl: bool, s: State, step: Step, p: nat, n: Notes, t: State)
    requires Shaped(s) && p < 4 && AnswerInv(stopControl, s, p, n) && t == s && !step.LinuxPush?
    ensures AnswerInv(stopControl, t, p, Note(s, step, t, p, n))
  {
    LoseMore(stopControl, p, n.taken, n.lost, Note(s, step, t, p, n).lost, s.out[p], Todo(s, p));
  }

  // ----- Whole runs -----

  lemma {:induction false} RunAnswers(stopControl: bool, s: State, steps: seq<Step>, p: nat, n: Notes)
    requires Inv(s) && p < 4 && AnswerInv(stopControl, s, p, n)
    ensures AnswerInv(stopControl, Run(stopControl, s, steps), p, NotesOf(stopControl, s, steps, p, n))
    decreases |steps|
  {
    if steps != [] {
      var t := Apply(stopControl, s, steps[0]);
      StepKeeps(stopControl, s, steps[0], t);
      StepAnswers(stopControl, s, steps[0], p, n, t);
      RunAnswers(stopControl, t, steps[1..], p, Note(s, steps[0], t, p, n));
    }
  }

  lemma BootAnswers(stopControl: bool, generation: u32, p: nat)
    requires p < 4
    ensures Inv(Init(generation)) && AnswerInv(stopControl, Init(generation), p, NOTHING)
  {
    InitInv(generation);
  }

  /** In every run from boot, every frame on a reverse ring is the READY of this generation, on p0, or an answer that is
      due to the request whose number it carries; that request is the one that Linux pushed as that number. */
  lemma EveryFrameIsDue(stopControl: bool, generation: u32, steps: seq<Step>, p: nat, i: nat)
    requires p < 4
    ensures Inv(Init(generation))
    ensures var s := Run(stopControl, Init(generation), steps);
            var n := NotesOf(stopControl, Init(generation), steps, p, NOTHING);
            i < |s.out[p]| ==>
              var f := s.out[p][i];
              if f.request == 0
              then p == 0 && ContentOf(f.answer) == Content(MSG_SESSION_READY, generation, PROTOCOL_VERSION, 0)
              else f.request <= |n.taken| <= |n.pushed| && n.taken[f.request - 1].r == n.pushed[f.request - 1]
                   && Due(stopControl, p, n.taken[f.request - 1], ContentOf(f.answer))
  {
    BootAnswers(stopControl, generation, p);
    RunAnswers(stopControl, Init(generation), steps, p, NOTHING);
    GenerationKept(stopControl, Init(generation), steps);
    var s, n := Run(stopControl, Init(generation), steps), NotesOf(stopControl, Init(generation), steps, p, NOTHING);
    if i < |s.out[p]| { assert FrameRight(stopControl, p, s.generation, n.taken, s.out[p][i]); }
  }

  lemma StepGeneration(stopControl: bool, s: State, step: Step, t: State)
    requires Shaped(s) && t == Apply(stopControl, s, step)
    ensures t.generation == s.generation
  {
    var w := s.k.worker;
    if ByLinux(step) { LinuxFwd(s, step, 0, t); }
    else if s.k.halted { }
    else if step.IsrClear? || step.IsrPost? { IsrQuiet(s, step, t); }
    else if s.k.isr.Cleared? { }
    else if step.WorkerStep? {
      if w.Drain? { TakeShape(s, stopControl, step.x, 0, t); } else if w.Sending? { SendGeneration(s, step.room, t); }
    } else { MainOut(s, step.room, t); }
  }

  lemma {:induction false} GenerationKept(stopControl: bool, s: State, steps: seq<Step>)
    requires Inv(s)
    ensures Run(stopControl, s, steps).generation == s.generation
    decreases |steps|
  {
    if steps != [] {
      var t := Apply(stopControl, s, steps[0]);
      StepKeeps(stopControl, s, steps[0], t);
      StepGeneration(stopControl, s, steps[0], t);
      GenerationKept(stopControl, t, steps[1..]);
    }
  }

  /** The worker has taken this request and is not in the middle of answering it, and no send for it found the ring
      full. */
  predicate Settled(s: State, n: Notes, p: nat, tag: nat)
    requires p < |s.popped|
  {
    1 <= tag <= |n.taken| && tag !in n.lost && !(Todo(s, p) != [] && tag == s.popped[p])
  }

  /** In every run from boot, everything that is due to a settled request is on its ring. */
  lemma EverythingDueIsSent(stopControl: bool, generation: u32, steps: seq<Step>, p: nat, tag: nat, c: Content)
    requires p < 4
    ensures Inv(Init(generation))
    ensures var s := Run(stopControl, Init(generation), steps);
            var n := NotesOf(stopControl, Init(generation), steps, p, NOTHING);
            |n.taken| == s.popped[p] && (Settled(s, n, p, tag) && Due(stopControl, p, n.taken[tag - 1], c) ==>
                                         Has(s.out[p], tag, c))
  {
    BootAnswers(stopControl, generation, p);
    RunAnswers(stopControl, Init(generation), steps, p, NOTHING);
    var s, n := Run(stopControl, Init(generation), steps), NotesOf(stopControl, Init(generation), steps, p, NOTHING);
    assert AnswerInv(stopControl, s, p, n);
    if Todo(s, p) == [] { assert !Lists([], c); }
  }

  // ----- What that means, request by request -----

  /** A build without stop control never sends STOP_READY and never takes CPU3 offline. */
  lemma NeverStopsWithoutControl(generation: u32, steps: seq<Step>, p: nat)
    requires p < 4
    ensures Inv(Init(generation))
    ensures var s := Run(false, Init(generation), steps); !s.k.halted && NoStopReady(s.out[p])
  {
    InitInv(generation);
    NoStopReadyOn(generation, steps, p);
    NoStopReadyOn(generation, steps, 0);
    RunHalts(false, Init(generation), steps);
  }

  lemma NoStopReadyOn(generation: u32, steps: seq<Step>, p: nat)
    requires Inv(Init(generation)) && p < 4
    ensures NoStopReady(Run(false, Init(generation), steps).out[p])
  {
    var s := Run(false, Init(generation), steps);
    forall i | 0 <= i < |s.out[p]| ensures s.out[p][i].answer.kind != MSG_STOP_READY {
      EveryFrameIsDue(false, generation, steps, p, i);
    }
  }

  ghost predicate HaltsWithReady(s: State)
    requires |s.out| == 4
  {
    s.k.halted ==> !NoStopReady(s.out[0])
  }

  lemma StepHalts(stopControl: bool, s: State, step: Step, t: State)
    requires Inv(s) && HaltsWithReady(s) && StopInv(s, 0) && t == Apply(stopControl, s, step) && Inv(t)
    ensures HaltsWithReady(t) && StopInv(t, 0)
  {
    StepStops(stopControl, s, step, 0, t);
    var w := s.k.worker;
    if ByLinux(step) { LinuxQuiet(s, step, t); }
    else if s.k.halted { }
    else if step.IsrClear? || step.IsrPost? { IsrQuiet(s, step, t); }
    else if s.k.isr.Cleared? { }
    else if step.WorkerStep? {
      if w.Drain? { Cpu3Drain.ReceiveShape(s, stopControl, step.x, t); }
      else if w.Sending? { if t.k.halted { SendHalts(s, step.room, t); } }
      else { PassHalts(s.k, s.published, w.Recheck? && s.fwd[w.p] != []); }
    } else { MainOut(s, step.room, t); }
  }

  lemma SendHalts(s: State, room: bool, t: State)
    requires Shaped(s) && s.k.worker.Sending? && !s.k.halted && StopInv(s, 0) && t == SendNext(s, room) && t.k.halted
    ensures |t.out| == 4 && !NoStopReady(t.out[0])
  {
    var w := s.k.worker;
    SendHere(s, room, t);
    assert t.out[w.p][|s.out[w.p]|].answer.kind == MSG_STOP_READY;
  }

  lemma {:induction false} RunHalts(stopControl: bool, s: State, steps: seq<Step>)
    requires Inv(s) && HaltsWithReady(s) && StopInv(s, 0)
    ensures HaltsWithReady(Run(stopControl, s, steps))
    decreases |steps|
  {
    if steps != [] {
      var t := Apply(stopControl, s, steps[0]);
      StepKeeps(stopControl, s, steps[0], t);
      StepHalts(stopControl, s, steps[0], t);
      RunHalts(stopControl, t, steps[1..]);
    }
  }

  /** At the end of a run from boot, `t` is the settled request number `tag` of ring `p`. */
  ghost predicate Answered(stopControl: bool, generation: u32, steps: seq<Step>, p: nat, s: State, tag: nat, t: Taking)
    requires Inv(Init(generation)) && p < 4
  {
    var n := NotesOf(stopControl, Init(generation), steps, p, NOTHING);
    s == Run(stopControl, Init(generation), steps) && Settled(s, n, p, tag) && t == n.taken[tag - 1]
  }

  lemma DueIsSent(stopControl: bool, generation: u32, steps: seq<Step>, p: nat, s: State, tag: nat, t: Taking,
                  c: Content)
    requires Inv(Init(generation)) && p < 4 && Answered(stopControl, generation, steps, p, s, tag, t)
    requires Due(stopControl, p, t, c)
    ensures Has(s.out[p], tag, c)
  {
    EverythingDueIsSent(stopControl, generation, steps, p, tag, c);
  }

  /** A stop request is answered READY with stop control, BUSY without, and INVALID_REQUEST if it carries anything. */
  lemma StopRequestsAreAnswered(stopControl: bool, generation: u32, steps: seq<Step>, s: State, tag: nat, t: Taking)
    requires Inv(Init(generation)) && Answered(stopControl, generation, steps, 0, s, tag, t)
    requires t.r.code == Ring.RING_OK && t.r.kind == MSG_STOP_REQUEST
    ensures Has(s.out[0], tag,
                if t.r.length != 0 then Content(MSG_STOP_REFUSED, t.r.sequence, 1, 0)
                else if stopControl then Content(MSG_STOP_READY, t.r.sequence, 0, 0)
                else Content(MSG_STOP_REFUSED, t.r.sequence, 2, 0))
  {
    DueIsSent(stopControl, generation, steps, 0, s, tag, t,
              if t.r.length != 0 then Content(MSG_STOP_REFUSED, t.r.sequence, 1, 0)
              else if stopControl then Content(MSG_STOP_READY, t.r.sequence, 0, 0)
              else Content(MSG_STOP_REFUSED, t.r.sequence, 2, 0));
  }

  /** A PING is answered PONG, any other request that is for no device NOP, with the next value; on p0 and p1 with an
      ACK besides. */
  lemma PlainRequestsAreAnswered(stopControl: bool, generation: u32, steps: seq<Step>, p: nat, s: State, tag: nat,
                                 t: Taking)
    requires Inv(Init(generation)) && p < 4 && Answered(stopControl, generation, steps, p, s, tag, t)
    requires t.r.code == Ring.RING_OK && !(p == 0 && t.r.kind == MSG_STOP_REQUEST)
    requires t.r.kind != MSG_PERIPHERAL_REQUEST && t.r.kind != MSG_GPIO_READ_REQUEST
    ensures Has(s.out[p], tag, Content(if t.r.kind == MSG_PING then MSG_PONG else MSG_NOP,
                                       if t.r.value == 0xffff_ffff then 0 else t.r.value + 1, 0, 0))
    ensures p < 2 ==> Has(s.out[p], tag, Content(MSG_ACK, t.r.sequence, 0, 0))
  {
    var kind, value := if t.r.kind == MSG_PING then MSG_PONG else MSG_NOP, (t.r.value + 1) % 0x1_0000_0000;
    DueIsSent(stopControl, generation, steps, p, s, tag, t, Content(kind, value, 0, 0));
    if p < 2 { DueIsSent(stopControl, generation, steps, p, s, tag, t, Content(MSG_ACK, t.r.sequence, 0, 0)); }
  }

  /** CPU3 serves a device request on p1, with the devices up, if the service executes it; or, for a GPIO read, outside
      the SPI profile, with a line in it, if the line can be read. */
  predicate Serves(p: nat, t: Taking) {
    && p == 1 && t.x.ready
    && if t.r.kind == MSG_PERIPHERAL_REQUEST then t.x.executed
       else !t.x.spiProfile && t.r.length == 4 && t.x.gpioRead
  }

  /** A device request that is served is answered ACK and its result, a GPIO read with the line asked for and the level
      read; one that is not served, NACK, on p0 and p1. */
  lemma DeviceRequestsAreAnswered(stopControl: bool, generation: u32, steps: seq<Step>, p: nat, s: State, tag: nat,
                                  t: Taking)
    requires Inv(Init(generation)) && p < 4 && Answered(stopControl, generation, steps, p, s, tag, t)
    requires t.r.code == Ring.RING_OK && (t.r.kind == MSG_PERIPHERAL_REQUEST || t.r.kind == MSG_GPIO_READ_REQUEST)
    ensures Serves(p, t) ==>
      && Has(s.out[p], tag, Content(MSG_ACK, t.r.sequence, 0, 0))
      && Has(s.out[p], tag,
             if t.r.kind == MSG_PERIPHERAL_REQUEST then Content(MSG_PERIPHERAL_RESULT, t.r.sequence, 0, 0)
             else Content(MSG_GPIO_READ_RESULT, t.r.sequence, t.r.value, t.x.level))
    ensures !Serves(p, t) && p < 2 ==> Has(s.out[p], tag, Content(MSG_NACK, t.r.sequence, 2, 0))
  {
    if Serves(p, t) {
      DueIsSent(stopControl, generation, steps, p, s, tag, t, Content(MSG_ACK, t.r.sequence, 0, 0));
      DueIsSent(stopControl, generation, steps, p, s, tag, t,
                if t.r.kind == MSG_PERIPHERAL_REQUEST then Content(MSG_PERIPHERAL_RESULT, t.r.sequence, 0, 0)
                else Content(MSG_GPIO_READ_RESULT, t.r.sequence, t.r.value, t.x.level));
    } else if p < 2 {
      DueIsSent(stopControl, generation, steps, p, s, tag, t, Content(MSG_NACK, t.r.sequence, 2, 0));
    }
  }

  /** A damaged request on p0 or p1 is answered NACK with the reason. */
  lemma DamagedRequestsAreAnswered(stopControl: bool, generation: u32, steps: seq<Step>, p: nat, s: State, tag: nat,
                                   t: Taking)
    requires Inv(Init(generation)) && p < 2 && Answered(stopControl, generation, steps, p, s, tag, t)
    requires t.r.code == Ring.RING_BAD_CRC || t.r.code == Ring.RING_INVALID
    ensures Has(s.out[p], tag, Content(MSG_NACK, t.r.sequence, if t.r.code == Ring.RING_BAD_CRC then 1 else 2, 0))
  {
    var reason := if t.r.code == Ring.RING_BAD_CRC then 1 else 2;
    DueIsSent(stopControl, generation, steps, p, s, tag, t, Content(MSG_NACK, t.r.sequence, reason, 0));
  }
}
