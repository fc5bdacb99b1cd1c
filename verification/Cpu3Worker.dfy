/** The worker's drain loop as the source writes it, over its own variables, in step with the machine of Cpu3Service:
    one pass of the loop is a run of worker steps. */
module Cpu3Worker {
  import opened Words
  import opened Protocol
  import opened Cpu3Service
  import opened Cpu3Wakeup
  import Cpu3Drain
  import Cpu3Fairness
  import Cpu3Replies
  import Ring

  /** The dispatch of one accepted request. */
  method Dispatch(stopControl: bool, priority: nat, request: Request, x: Devices) returns (todo: seq<Answer>)
    ensures todo == Plan(stopControl, priority, request, x)
  {
    todo := [];
    if priority == 0 && request.kind == MSG_STOP_REQUEST {
      if request.length != 0 {
        todo := todo + [Feedback(MSG_STOP_REFUSED, request, STOP_REFUSED_INVALID_REQUEST)];
        return;
      }
      if stopControl { todo := todo + [Feedback(MSG_STOP_READY, request, 0)]; }
      else { todo := todo + [Feedback(MSG_STOP_REFUSED, request, STOP_REFUSED_BUSY)]; }
      return;
    }
    if request.kind == MSG_PERIPHERAL_REQUEST {
      if priority != 1 || !x.ready || !x.executed {
        if Reliable(priority) { todo := todo + [Feedback(MSG_NACK, request, NACK_INVALID_FRAME)]; }
        return;
      }
      todo := todo + [Feedback(MSG_ACK, request, 0)];
      todo := todo + [Answer(MSG_PERIPHERAL_RESULT, request.sequence, 0, 0, true)];
      return;
    }
    if request.kind == MSG_GPIO_READ_REQUEST {
      if priority != 1 || !x.ready || x.spiProfile || request.length != 4 {
        if Reliable(priority) { todo := todo + [Feedback(MSG_NACK, request, NACK_INVALID_FRAME)]; }
        return;
      }
      if !x.gpioRead {
        todo := todo + [Feedback(MSG_NACK, request, NACK_INVALID_FRAME)];
        return;
      }
      todo := todo + [Feedback(MSG_ACK, request, 0)];
      todo := todo + [Answer(MSG_GPIO_READ_RESULT, request.sequence, request.value, x.level, true)];
      return;
    }
    if Reliable(priority) { todo := todo + [Feedback(MSG_ACK, request, 0)]; }
    var kind := if request.kind == MSG_PING then MSG_PONG else MSG_NOP;
    todo := todo + [Answer(kind, (request.value + 1) % U32, 0, 0, false)];
  }

  /** The variables of the loop that the machine also has. */
  datatype Vars = Vars(
    fwd: seq<seq<Request>>, out: seq<seq<Sent>>, popped: seq<nat>, reschedule: set<nat>, halted: bool)

  ghost function VarsOf(m: State): Vars {
    Vars(m.fwd, m.out, m.popped, m.k.reschedule, m.k.halted)
  }

  /** What the pass meets at each of its events, numbered from its start: what Linux, the interrupt handler and the main
      thread did just before it, whether a send finds room, and what the devices answer. */
  datatype Surroundings = Surroundings(others: nat -> seq<Step>, room: nat -> bool, devices: nat -> Devices)

  /** The steps that are not the worker's. */
  function Others(steps: seq<Step>): (r: seq<Step>)
    ensures forall i :: 0 <= i < |r| ==> !r[i].WorkerStep?
  {
    if steps == [] then []
    else (if steps[0].WorkerStep? then [] else [steps[0]]) + Others(steps[1..])
  }

  /** The others' steps before event `n`; a handler that has begun ends before a thread moves again. */
  function Before(io: Surroundings, n: nat): (steps: seq<Step>)
    ensures forall i :: 0 <= i < |steps| ==> !steps[i].WorkerStep?
  {
    Others(io.others(n)) + [IsrPost]
  }

  /** The first `n` events of the pass, with what happens between them. */
  function Events(io: Surroundings, n: nat): seq<Step> {
    if n == 0 then [] else Events(io, n - 1) + Before(io, n - 1) + [WorkerStep(io.room(n - 1), io.devices(n - 1))]
  }

  ghost predicate Undisturbed(m: State) {
    Inv(m) && m.published && m.main == Checking
  }

  /** After `n` events from `start` the machine is `m`, and the loop's variables agree with it. */
  ghost predicate InStep(stopControl: bool, io: Surroundings, start: State, n: nat, m: State, v: Vars)
    requires Inv(start)
  {
    m == Run(stopControl, start, Events(io, n)) && Undisturbed(m) && v == VarsOf(m)
  }

  /** What anyone but the worker leaves alone. */
  ghost predicate LeavesWorker(m: State, u: State) {
    && u.k.worker == m.k.worker && u.k.current == m.k.current && u.published && u.main == Checking
    && VarsOf(u) == VarsOf(m).(fwd := u.fwd)
  }

  lemma OtherStep(stopControl: bool, m: State, step: Step, u: State)
    requires Undisturbed(m) && !step.WorkerStep? && u == Apply(stopControl, m, step)
    ensures Undisturbed(u) && LeavesWorker(m, u)
  {
    StepKeeps(stopControl, m, step, u);
    Cpu3Fairness.OthersWait(stopControl, m, step, u);
    if ByLinux(step) { Cpu3Replies.LinuxQuiet(m, step, u); }
  }

  lemma {:induction false} OthersLeave(stopControl: bool, m: State, steps: seq<Step>)
    requires Undisturbed(m) && forall i :: 0 <= i < |steps| ==> !steps[i].WorkerStep?
    ensures var u := Run(stopControl, m, steps); Undisturbed(u) && LeavesWorker(m, u)
    decreases |steps|
  {
    if steps != [] {
      var t := Apply(stopControl, m, steps[0]);
      StepKeeps(stopControl, m, steps[0], t);
      OtherStep(stopControl, m, steps[0], t);
      OthersLeave(stopControl, t, steps[1..]);
    }
  }

  lemma {:induction false} RunInTwo(stopControl: bool, m: State, a: seq<Step>, b: seq<Step>)
    requires Inv(m)
    ensures Run(stopControl, m, a + b) == Run(stopControl, Run(stopControl, m, a), b)
    decreases |a|
  {
    if a == [] { assert a + b == b; }
    else {
      StepKeeps(stopControl, m, a[0], Apply(stopControl, m, a[0]));
      assert (a + b)[0] == a[0] && (a + b)[1..] == a[1..] + b;
      RunInTwo(stopControl, Apply(stopControl, m, a[0]), a[1..], b);
    }
  }

  /** The handler is idle once the last of the others' steps is done. */
  lemma HandlerIdle(stopControl: bool, io: Surroundings, n: nat, m: State)
    requires Inv(m) && !Run(stopControl, m, Before(io, n)).k.halted
    ensures Run(stopControl, m, Before(io, n)).k.isr == IsrIdle
  {
    Cpu3Drain.RunSnoc(stopControl, m, Others(io.others(n)), IsrPost);
  }

  /** The machine once the others have made their moves before event `n`. */
  function Meanwhile(stopControl: bool, io: Surroundings, n: nat, m: State): (u: State)
    requires Undisturbed(m)
    ensures Undisturbed(u) && LeavesWorker(m, u)
  {
    OthersLeave(stopControl, m, Before(io, n));
    Run(stopControl, m, Before(io, n))
  }

  /** One event: the others have moved the machine from `m` to `u`, and the worker moves it on. */
  lemma Advance(stopControl: bool, io: Surroundings, start: State, n: nat, m: State, u: State) returns (t: State)
    requires Inv(start) && InStep(stopControl, io, start, n, m, VarsOf(m)) && !m.k.halted
    requires u == Meanwhile(stopControl, io, n, m)
    ensures t == WorkerMove(u, stopControl, io.room(n), io.devices(n))
    ensures InStep(stopControl, io, start, n + 1, t, VarsOf(t))
    ensures !m.k.worker.Woken? && !m.k.worker.Gate? ==> t.k.current == m.k.current
  {
    var step := WorkerStep(io.room(n), io.devices(n));
    RunInTwo(stopControl, start, Events(io, n), Before(io, n));
    HandlerIdle(stopControl, io, n, m);
    t := WorkerMove(u, stopControl, io.room(n), io.devices(n));
    Cpu3Drain.RunSnoc(stopControl, start, Events(io, n) + Before(io, n), step);
    WorkerLeaves(u, stopControl, io.room(n), io.devices(n), t);
    StepKeeps(stopControl, u, step, t);
  }

  lemma WorkerLeaves(m: State, stopControl: bool, room: bool, x: Devices, t: State)
    requires Shaped(m) && t == WorkerMove(m, stopControl, room, x)
    ensures t.published == m.published && t.main == m.main
    ensures !m.k.worker.Woken? && !m.k.worker.Gate? ==> t.k.current == m.k.current
  {
    if m.k.worker.Drain? { Cpu3Drain.ReceiveShape(m, stopControl, x, t); }
    else if m.k.worker.Sending? { Cpu3Drain.SendShape(m, room, t); }
  }

  /** An event at which the worker only moves on: the gate, the scan, the recheck, and the loop that reaches its quota.
      `v` holds what memory shows after it. */
  method MoveOn(stopControl: bool, io: Surroundings, at: nat, before: Vars, machine: State, ghost start: State)
    returns (v: Vars, m: State)
    requires Inv(start) && InStep(stopControl, io, start, at, machine, before) && !before.halted
    requires var w := machine.k.worker; w.Gate? || w.Scan? || w.Recheck? || (w.Drain? && w.handled == QUOTA)
    ensures InStep(stopControl, io, start, at + 1, m, v) && m.k.current == machine.k.current
    ensures !v.halted && m.k.worker == NextPlace(machine.k)
    ensures v == before.(fwd := v.fwd, reschedule := v.reschedule)
    ensures !machine.k.worker.Recheck? ==> v.reschedule == before.reschedule
  {
    var u := Meanwhile(stopControl, io, at, machine);
    m := WorkerMove(u, stopControl, io.room(at), io.devices(at));
    ghost var t := Advance(stopControl, io, start, at, machine, u);
    v := before.(fwd := u.fwd);
    var w := machine.k.worker;
    if w.Recheck? && w.handled == QUOTA && v.fwd[w.p] != [] { v := v.(reschedule := v.reschedule + {w.p}); }
  }

  function NextPlace(k: Plumbing): Worker {
    if k.worker.Gate? then Scan(0)
    else if k.worker.Scan? then
      if k.worker.p >= 4 then Finish
      else if k.worker.p in k.current then Drain(k.worker.p, 0)
      else Scan(k.worker.p + 1)
    else if k.worker.Recheck? then Scan(k.worker.p + 1)
    else if k.worker.Drain? then Recheck(k.worker.p, k.worker.handled)
    else k.worker
  }

  /** One endpoint send: refused if it needs the one before it and that failed, or if the ring is full. */
  method SendOne(priority: nat, a: Answer, lastOk: bool, room: bool, before: Vars, ghost u: State)
    returns (v: Vars, ok: bool)
    requires Shaped(u) && before == VarsOf(u) && !before.halted && u.k.worker.Sending? && u.k.worker.p == priority
    requires u.k.worker.todo != [] && u.k.worker.todo[0] == a && u.k.worker.lastOk == lastOk
    ensures v == VarsOf(SendNext(u, room))
    ensures SendNext(u, room).k.worker == u.k.worker.(todo := u.k.worker.todo[1..], lastOk := ok)
  {
    if (a.needsPrevious && !lastOk) || !room { return before, false; }
    v, ok := before.(out := before.out[priority := before.out[priority] + [Sent(a, before.popped[priority])]]), true;
    if a.kind == MSG_STOP_READY { v := v.(halted := true); }
  }

  /** The event at which the first of the answers still to send is sent. */
  method SendEvent(stopControl: bool, priority: nat, a: Answer, lastOk: bool, io: Surroundings, at: nat, before: Vars,
                   machine: State, ghost start: State)
    returns (v: Vars, ok: bool, m: State)
    requires Inv(start) && InStep(stopControl, io, start, at, machine, before) && !before.halted
    requires machine.k.worker.Sending? && machine.k.worker.p == priority && machine.k.worker.lastOk == lastOk
    requires machine.k.worker.todo != [] && machine.k.worker.todo[0] == a
    ensures InStep(stopControl, io, start, at + 1, m, v) && m.k.current == machine.k.current
    ensures m.k.worker == machine.k.worker.(todo := machine.k.worker.todo[1..], lastOk := ok)
  {
    var u := Meanwhile(stopControl, io, at, machine);
    ghost var t := Advance(stopControl, io, start, at, machine, u);
    m := WorkerMove(u, stopControl, io.room(at), io.devices(at));
    v, ok := SendOne(priority, a, lastOk, io.room(at), before.(fwd := u.fwd), u);
  }

  /** The sends for one request. */
  method SendAll(stopControl: bool, priority: nat, handled: nat, answers: seq<Answer>, leave: bool, io: Surroundings,
                 at: nat, before: Vars, machine: State, ghost start: State)
    returns (v: Vars, now: nat, m: State)
    requires Inv(start) && InStep(stopControl, io, start, at, machine, before) && !before.halted
    requires machine.k.worker == Sending(priority, handled, answers, true, leave)
    ensures InStep(stopControl, io, start, now, m, v) && m.k.current == machine.k.current
    ensures !v.halted ==> m.k.worker == if leave then Recheck(priority, handled) else Drain(priority, handled)
  {
    v, now, m := before, at, machine;
    var i, lastOk := 0, true;
    while i < |answers| && !v.halted
      invariant 0 <= i <= |answers| && InStep(stopControl, io, start, now, m, v)
      invariant m.k.worker == Sending(priority, handled, answers[i..], lastOk, leave)
      invariant m.k.current == machine.k.current
    {
      assert answers[i..][0] == answers[i] && answers[i..][1..] == answers[i + 1..];
      v, lastOk, m := SendEvent(stopControl, priority, answers[i], lastOk, io, now, v, m, start);
      now := now + 1;
      i := i + 1;
    }
    if !v.halted {
      v, now, m := SendsDone(stopControl, priority, handled, lastOk, leave, io, now, v, m, start);
    }
  }

  /** With nothing left to send the worker goes back to its loop, or leaves it. */
  method SendsDone(stopControl: bool, priority: nat, handled: nat, lastOk: bool, leave: bool, io: Surroundings,
                   at: nat, before: Vars, machine: State, ghost start: State)
    returns (v: Vars, now: nat, m: State)
    requires Inv(start) && InStep(stopControl, io, start, at, machine, before) && !before.halted
    requires machine.k.worker == Sending(priority, handled, [], lastOk, leave)
    ensures InStep(stopControl, io, start, now, m, v) && m.k.current == machine.k.current && !v.halted
    ensures m.k.worker == if leave then Recheck(priority, handled) else Drain(priority, handled)
  {
    var u := Meanwhile(stopControl, io, at, machine);
    ghost var t := Advance(stopControl, io, start, at, machine, u);
    m := WorkerMove(u, stopControl, io.room(at), io.devices(at));
    v, now := before.(fwd := u.fwd), at + 1;
  }

  /** One receive from a ring as memory shows it: whether it took a frame, the answers to it, and in `left` whether the
      source leaves its loop. */
  method TakeNext(stopControl: bool, priority: nat, taken: nat, x: Devices, before: Vars, ghost u: State)
    returns (v: Vars, handled: nat, took: bool, left: bool, answers: seq<Answer>, ghost t: State)
    requires Shaped(u) && before == VarsOf(u) && priority < 4 && taken < QUOTA && u.k.worker == Drain(priority, taken)
    ensures t == Receive(u, stopControl, x) && v == VarsOf(t) && v.halted == before.halted
    ensures taken <= handled <= taken + 1 && (left || handled == taken + 1)
    ensures took ==> t.k.worker == Sending(priority, handled, answers, true, left)
    ensures !took ==> left && t.k.worker == Recheck(priority, handled)
  {
    t := Receive(u, stopControl, x);
    v, handled, took, left, answers := before, taken, true, false, [];
    if v.fwd[priority] == [] || v.fwd[priority][0].code == Ring.RING_INCOMPLETE {
      took, left := false, true;
      return;
    }
    var request := v.fwd[priority][0];
    v := v.(fwd := v.fwd[priority := v.fwd[priority][1..]], popped := v.popped[priority := v.popped[priority] + 1]);
    if request.code != Ring.RING_OK {
      if request.code == Ring.RING_BAD_CRC || request.code == Ring.RING_INVALID {
        var reason := if request.code == Ring.RING_BAD_CRC then NACK_BAD_CRC else NACK_INVALID_FRAME;
        if Reliable(priority) { answers := [Feedback(MSG_NACK, request, reason)]; }
        handled := handled + 1;
      }
      left := true;
    } else {
      handled := handled + 1;
      answers := Dispatch(stopControl, priority, request, x);
    }
  }

  /** One turn of the quota loop: a receive and the sends that follow from it. */
  method HandleNext(stopControl: bool, priority: nat, taken: nat, io: Surroundings, at: nat, before: Vars,
                    machine: State, ghost start: State)
    returns (v: Vars, now: nat, handled: nat, left: bool, m: State)
    requires Inv(start) && InStep(stopControl, io, start, at, machine, before) && !before.halted
    requires priority < 4 && taken < QUOTA && machine.k.worker == Drain(priority, taken)
    ensures InStep(stopControl, io, start, now, m, v) && m.k.current == machine.k.current
    ensures taken <= handled <= taken + 1 && (left || handled == taken + 1)
    ensures !v.halted ==> m.k.worker == if left then Recheck(priority, handled) else Drain(priority, handled)
  {
    var u := Meanwhile(stopControl, io, at, machine);
    m := WorkerMove(u, stopControl, io.room(at), io.devices(at));
    ghost var t := Advance(stopControl, io, start, at, machine, u);
    now := at + 1;
    var x, took, answers := io.devices(at), false, [];
    v, handled, took, left, answers, t := TakeNext(stopControl, priority, taken, x, before.(fwd := u.fwd), u);
    if took {
      v, now, m := SendAll(stopControl, priority, handled, answers, left, io, now, v, m, start);
    }
  }

  /** The quota loop over one priority, and the recheck behind it. */
  method DrainPriority(stopControl: bool, priority: nat, io: Surroundings, at: nat, before: Vars,
                       machine: State, ghost start: State)
    returns (v: Vars, now: nat, m: State)
    requires Inv(start) && InStep(stopControl, io, start, at, machine, before) && !before.halted
    requires priority < 4 && machine.k.worker == Drain(priority, 0)
    ensures InStep(stopControl, io, start, now, m, v) && m.k.current == machine.k.current
    ensures !v.halted ==> m.k.worker == Scan(priority + 1)
  {
    v, now, m := before, at, machine;
    var handled, left := 0, false;
    while handled < QUOTA && !left && !v.halted
      invariant handled <= QUOTA && InStep(stopControl, io, start, now, m, v) && m.k.current == machine.k.current
      invariant !v.halted ==> m.k.worker == if left then Recheck(priority, handled) else Drain(priority, handled)
      decreases QUOTA - handled, !left
    {
      v, now, handled, left, m := HandleNext(stopControl, priority, handled, io, now, v, m, start);
    }
    if !v.halted { v, now, m := LeaveLoop(stopControl, priority, handled, left, io, now, v, m, start); }
  }

  /** Behind the quota loop: the loop test, if the body has not left already, and the recheck. */
  method LeaveLoop(stopControl: bool, priority: nat, handled: nat, left: bool, io: Surroundings, at: nat,
                   before: Vars, machine: State, ghost start: State)
    returns (v: Vars, now: nat, m: State)
    requires Inv(start) && InStep(stopControl, io, start, at, machine, before) && !before.halted
    requires machine.k.worker == if left then Recheck(priority, handled) else Drain(priority, handled)
    requires left || handled == QUOTA
    ensures InStep(stopControl, io, start, now, m, v) && m.k.current == machine.k.current
    ensures !v.halted && m.k.worker == Scan(priority + 1)
  {
    v, now, m := before, at, machine;
    if !left {
      v, m := MoveOn(stopControl, io, now, v, m, start);
      now := now + 1;
    }
    v, m := MoveOn(stopControl, io, now, v, m, start);
    now := now + 1;
  }

  /** One turn of the loop over the priorities; `asked` says that the mask names this one. */
  method VisitPriority(stopControl: bool, priority: nat, asked: bool, io: Surroundings, at: nat, before: Vars,
                       machine: State, ghost start: State)
    returns (v: Vars, now: nat, m: State)
    requires Inv(start) && InStep(stopControl, io, start, at, machine, before) && !before.halted
    requires priority < 4 && machine.k.worker == Scan(priority) && asked == (priority in machine.k.current)
    ensures InStep(stopControl, io, start, now, m, v) && m.k.current == machine.k.current
    ensures !v.halted ==> m.k.worker == Scan(priority + 1)
  {
    v, m := MoveOn(stopControl, io, at, before, machine, start);
    now := at + 1;
    if asked { v, now, m := DrainPriority(stopControl, priority, io, now, v, m, start); }
  }

  /** One call of the service, over every priority of the mask that the worker took, lowest number first, while Linux
      goes on pushing and ringing and interrupts arrive.  With READY published it leaves the rings, answers, reschedule
      mask and halt of a run of the machine that has brought the worker to the end of its pass. */
  method ServicePass(stopControl: bool, io: Surroundings, before: Vars, start: State) returns (v: Vars, now: nat)
    requires Undisturbed(start) && !start.k.halted && start.k.worker == Gate && before == VarsOf(start)
    ensures var m := Run(stopControl, start, Events(io, now)); v == VarsOf(m) && (m.k.halted || m.k.worker == Finish)
  {
    var m: State;
    v, m := MoveOn(stopControl, io, 0, before, start, start);
    now := 1;
    var priority := 0;
    while priority < 4 && !v.halted
      invariant 0 <= priority <= 4 && InStep(stopControl, io, start, now, m, v)
      invariant !v.halted ==> m.k.worker == Scan(priority)
      invariant m.k.current == start.k.current
    {
      v, now, m := VisitPriority(stopControl, priority, priority in start.k.current, io, now, v, m, start);
      priority := priority + 1;
    }
    if !v.halted {
      v, m := MoveOn(stopControl, io, now, v, m, start);
      now := now + 1;
    }
  }

  /** Before READY is published the service does nothing: the pass that the worker has begun is over at once. */
  lemma UnpublishedPassDoesNothing(stopControl: bool, start: State, room: bool, x: Devices)
    requires Inv(start) && !start.published && start.k.isr == IsrIdle && !start.k.halted && start.k.worker == Gate
    ensures var m := Apply(stopControl, start, WorkerStep(room, x)); VarsOf(m) == VarsOf(start) && m.k.worker == Waiting
  {}
}
