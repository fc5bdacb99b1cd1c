/** No pending priority is starved: the worker comes to it within a bounded number of its own steps, whatever Linux,
    the interrupt handler and the main thread do in between. */
module Cpu3Fairness {
  import opened Words
  import opened Cpu3Service
  import opened Cpu3Wakeup
  import Cpu3Drain

  /** The pass that is running still has `p` before it. */
  predicate NotYet(k: Plumbing, p: nat) {
    var w := k.worker;
    p in k.current && (w.Gate? || (w.Scan? && w.p <= p) || ((w.Drain? || w.Sending? || w.Recheck?) && w.p < p))
  }

  /** `p` is before the worker in this pass, or the next pass will begin with it in its mask. */
  predicate Due(k: Plumbing, p: nat) {
    || NotYet(k, p)
    || p in k.pending
    || (p in k.reschedule
        && (k.worker.Scan? || k.worker.Drain? || k.worker.Sending? || k.worker.Recheck? || k.worker.Finish?))
  }

  /** Worker steps that a priority can take once the worker is at it: seven requests of at most four steps each, the
      receive that finds nothing, and the recheck. */
  function Here(w: Worker): nat
    requires w.Drain? || w.Sending? || w.Recheck?
    requires w.handled <= QUOTA
  {
    match w
    case Drain(_, handled) => 2 + 4 * (QUOTA - handled)
    case Sending(_, handled, todo, _, leave) => 1 + |todo| + if leave then 1 else 2 + 4 * (QUOTA - handled)
    case Recheck(_, _) => 1
  }

  /** Steps from the scan at `p` to the end of the pass. */
  function Rest(p: nat): nat
    requires p <= 4
  {
    1 + 31 * (4 - p)
  }

  function PassLeft(k: Plumbing): nat
    requires Placed(k)
  {
    match k.worker
    case Gate => 1 + Rest(0)
    case Scan(p) => Rest(p)
    case Drain(p, _) => Here(k.worker) + Rest(p + 1)
    case Sending(p, _, _, _, _) => Here(k.worker) + Rest(p + 1)
    case Recheck(p, _) => Here(k.worker) + Rest(p + 1)
    case _ => 0
  }

  /** Steps until the worker takes the pending mask. */
  function UntilTaken(k: Plumbing): nat
    requires Placed(k)
  {
    match k.worker
    case Woken => 1
    case Waiting => 2
    case Giving => 3
    case Finish => 4
    case _ => 4 + PassLeft(k)
  }

  /** Steps until the worker is at `p`. */
  function Bound(k: Plumbing, p: nat): nat
    requires Placed(k)
  {
    if NotYet(k, p) then PassLeft(k) else UntilTaken(k) + 1 + Rest(0)
  }

  /** The worker is before its first receive from `p`, or CPU3 has gone offline. */
  predicate Served(k: Plumbing, p: nat) {
    k.halted || k.worker == Drain(p, 0)
  }

  lemma PassNearer(k: Plumbing, more: bool, p: nat, t: Plumbing)
    requires Placed(k) && Tokened(k) && p < 4 && Due(k, p) && !k.halted && t == PassMove(k, true, more) && Placed(t)
    requires !k.worker.Drain? && !k.worker.Sending?
    ensures Served(t, p) || (Due(t, p) && Bound(t, p) < Bound(k, p))
  {
    if k.worker == Waiting { assert k.sem; }
    else if k.worker == Woken { assert p in k.pending; }
  }

  lemma ReceiveNearer(k: Plumbing, w: Worker, p: nat, t: Plumbing)
    requires Placed(k) && p < 4 && Due(k, p) && k.worker.Drain? && t == k.(worker := w) && Placed(t)
    requires || w == Recheck(k.worker.p, k.worker.handled)
             || (w.Sending? && w.p == k.worker.p && |w.todo| <= 2 && k.worker.handled < QUOTA
                 && (w.handled == k.worker.handled + 1 || (w.leave && |w.todo| <= 1)))
    ensures Due(t, p) && Bound(t, p) < Bound(k, p)
  {}

  lemma SendNearer(k: Plumbing, v: Worker, p: nat, t: Plumbing)
    requires Placed(k) && p < 4 && Due(k, p) && k.worker.Sending? && t == k.(worker := v) && Placed(t)
    requires var w := k.worker;
             || (w.todo == [] && v == if w.leave then Recheck(w.p, w.handled) else Drain(w.p, w.handled))
             || (w.todo != [] && v.Sending? && v == Sending(w.p, w.handled, w.todo[1..], v.lastOk, w.leave))
    ensures Served(t, p) || (Due(t, p) && Bound(t, p) < Bound(k, p))
  {}

  /** The shapes that a receive and a send leave the worker in. */
  lemma ReceiveFate(s: State, stopControl: bool, x: Devices, t: State)
    requires Shaped(s) && s.k.worker.Drain? && t == Receive(s, stopControl, x)
    ensures var w := t.k.worker;
            && t.k == s.k.(worker := w)
            && (|| w == Recheck(s.k.worker.p, s.k.worker.handled)
                || (w.Sending? && w.p == s.k.worker.p && |w.todo| <= 2 && s.k.worker.handled < QUOTA
                    && (w.handled == s.k.worker.handled + 1 || (w.leave && |w.todo| <= 1))))
  {
    var p := s.k.worker.p;
    if s.fwd[p] != [] { Cpu3Drain.PlanIsShort(stopControl, p, s.fwd[p][0], x); }
  }

  lemma SendFate(s: State, room: bool, t: State)
    requires Shaped(s) && s.k.worker.Sending? && t == SendNext(s, room)
    ensures var w, v := s.k.worker, t.k.worker;
            && (t.k.halted || t.k == s.k.(worker := v))
            && (|| (w.todo == [] && v == if w.leave then Recheck(w.p, w.handled) else Drain(w.p, w.handled))
                || (w.todo != [] && v.Sending? && v == Sending(w.p, w.handled, w.todo[1..], v.lastOk, w.leave)))
  {}

  lemma WorkerNearer(s: State, stopControl: bool, room: bool, x: Devices, p: nat, t: State)
    requires Inv(s) && s.published && p < 4 && Due(s.k, p) && !s.k.halted
    requires t == WorkerMove(s, stopControl, room, x) && Shaped(t)
    ensures Served(t.k, p) || (Due(t.k, p) && Bound(t.k, p) < Bound(s.k, p))
  {
    var w := s.k.worker;
    if w.Drain? {
      ReceiveFate(s, stopControl, x, t);
      ReceiveNearer(s.k, t.k.worker, p, t.k);
    } else if w.Sending? {
      SendFate(s, room, t);
      if !t.k.halted { SendNearer(s.k, t.k.worker, p, t.k); }
    } else {
      PassNearer(s.k, w.Recheck? && s.fwd[w.p] != [], p, t.k);
    }
  }

  /** The step is one that the worker takes: CPU3 is up and the handler is not running. */
  predicate Works(s: State, step: Step) {
    step.WorkerStep? && !s.k.halted && s.k.isr.IsrIdle?
  }

  /** Nobody else moves the worker, its mask or its reschedule mask, or takes a pending bit away. */
  lemma OthersWait(stopControl: bool, s: State, step: Step, t: State)
    requires Shaped(s) && !Works(s, step) && t == Apply(stopControl, s, step)
    ensures t.k.worker == s.k.worker && t.k.current == s.k.current && t.k.reschedule == s.k.reschedule
    ensures s.k.pending <= t.k.pending && (s.published ==> t.published)
  {}

  /** Worker steps taken in a run. */
  ghost function Worked(stopControl: bool, s: State, steps: seq<Step>): nat
    requires Inv(s)
    decreases |steps|
  {
    if steps == [] then 0
    else
      StepKeeps(stopControl, s, steps[0], Apply(stopControl, s, steps[0]));
      (if Works(s, steps[0]) then 1 else 0) + Worked(stopControl, Apply(stopControl, s, steps[0]), steps[1..])
  }

  lemma PublishedStays(stopControl: bool, s: State, step: Step, t: State)
    requires Shaped(s) && s.published && t == Apply(stopControl, s, step)
    ensures t.published
  {}

  lemma {:induction false} ServedWithin(stopControl: bool, s: State, steps: seq<Step>, p: nat) returns (i: nat)
    requires Inv(s) && s.published && p < 4 && Due(s.k, p)
    requires Worked(stopControl, s, steps) >= Bound(s.k, p)
    ensures i <= |steps| && Served(Run(stopControl, s, steps[..i]).k, p)
    decreases |steps|
  {
    if Served(s.k, p) { i := 0; }
    else {
      var step, t := steps[0], Apply(stopControl, s, steps[0]);
      StepKeeps(stopControl, s, step, t);
      PublishedStays(stopControl, s, step, t);
      if Works(s, step) { WorkerNearer(s, stopControl, step.room, step.x, p, t); }
      else { OthersWait(stopControl, s, step, t); }
      var j := 0;
      if !Served(t.k, p) { j := ServedWithin(stopControl, t, steps[1..], p); }
      i := j + 1;
      assert steps[..i][0] == step && steps[..i][1..] == steps[1..][..j];
    }
  }

  // ----- A constant bound for every reachable state -----

  predicate Short(k: Plumbing) {
    k.worker.Sending? ==> |k.worker.todo| <= 2
  }

  lemma StepShort(stopControl: bool, s: State, step: Step, t: State)
    requires Inv(s) && Short(s.k) && t == Apply(stopControl, s, step)
    ensures Short(t.k)
  {
    var w := s.k.worker;
    if !Works(s, step) { OthersWait(stopControl, s, step, t); }
    else if w.Drain? { ReceiveFate(s, stopControl, step.x, t); }
    else if w.Sending? { SendFate(s, step.room, t); }
    else { PassShort(s.k, s.published, w.Recheck? && s.fwd[w.p] != []); }
  }

  lemma PassShort(k: Plumbing, published: bool, more: bool)
    requires !k.worker.Sending?
    ensures !PassMove(k, published, more).worker.Sending?
  {}

  lemma {:induction false} RunShort(stopControl: bool, s: State, steps: seq<Step>)
    requires Inv(s) && Short(s.k)
    ensures Short(Run(stopControl, s, steps).k)
    decreases |steps|
  {
    if steps != [] {
      var t := Apply(stopControl, s, steps[0]);
      StepKeeps(stopControl, s, steps[0], t);
      StepShort(stopControl, s, steps[0], t);
      RunShort(stopControl, t, steps[1..]);
    }
  }

  lemma BoundIsSmall(k: Plumbing, p: nat)
    requires Placed(k) && Short(k)
    ensures Bound(k, p) <= 260
  {}

  /** From every reachable state with READY published, a priority that is pending or still before the worker is come to
      within 260 worker steps, or CPU3 has gone offline, however Linux goes on pushing and ringing. */
  lemma NoPendingPriorityIsStarved(stopControl: bool, generation: u32, steps: seq<Step>, later: seq<Step>, p: nat)
    returns (i: nat)
    requires Inv(Init(generation)) && p < 4
    requires var s := Run(stopControl, Init(generation), steps);
             s.published && Due(s.k, p) && Worked(stopControl, s, later) >= 260
    ensures i <= |later|
    ensures Served(Run(stopControl, Run(stopControl, Init(generation), steps), later[..i]).k, p)
  {
    RunShort(stopControl, Init(generation), steps);
    var s := Run(stopControl, Init(generation), steps);
    BoundIsSmall(s.k, p);
    i := ServedWithin(stopControl, s, later, p);
  }
}
