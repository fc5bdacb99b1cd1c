/** What the worker's wakeup rule is good for: runs without early doorbells or rejected frames lose nothing, and once
    Linux falls silent the worker takes every announced frame. */
module Cpu3Drain {
  import opened Words
  import opened Cpu3Service
  import opened Cpu3Wakeup
  import Ring

  // ----- Clean runs -----

  /** Linux pushes only intact frames, at any time, and sets no A2B bit before CPU3 has set its published flag. */
  predicate CleanStep(s: State, step: Step) {
    && (step.LinuxPush? ==> Accepted(step.r))
    && (step.LinuxRing? ==> s.published)
  }

  ghost predicate AllAccepted(q: seq<Request>) {
    forall i :: 0 <= i < |q| ==> Accepted(q[i])
  }

  ghost predicate CleanInv(s: State) {
    && Inv(s) && s.abandoned == {}
    && (forall p :: 0 <= p < 4 ==> AllAccepted(s.fwd[p]))
    && (!s.published ==>
          && s.k.a2b == {} && s.k.isr == IsrIdle && s.k.pending == {} && s.k.worker == Waiting && !s.k.sem)
  }

  ghost predicate Clean(stopControl: bool, s: State, steps: seq<Step>)
    requires Inv(s)
    decreases |steps|
  {
    steps == [] ||
    (CleanStep(s, steps[0])
     && (StepKeeps(stopControl, s, steps[0], Apply(stopControl, s, steps[0]));
         Clean(stopControl, Apply(stopControl, s, steps[0]), steps[1..])))
  }

  lemma CleanReceive(s: State, stopControl: bool, x: Devices, t: State)
    requires CleanInv(s) && s.published && s.k.worker.Drain? && t == Receive(s, stopControl, x)
    ensures t.abandoned == {} && t.published && |t.fwd| == 4 && forall p :: 0 <= p < 4 ==> AllAccepted(t.fwd[p])
  {
    assert AllAccepted(s.fwd[s.k.worker.p]);
  }

  lemma CleanLinux(s: State, step: Step, t: State)
    requires CleanInv(s) && CleanStep(s, step) && t == LinuxStep(s, step)
    ensures t.abandoned == {} && t.published == s.published && |t.fwd| == 4
    ensures forall p :: 0 <= p < 4 ==> AllAccepted(t.fwd[p])
    ensures !s.published ==> t.k == s.k.(linux := t.k.linux)
  {}

  lemma CleanWorker(s: State, stopControl: bool, room: bool, x: Devices, t: State)
    requires CleanInv(s) && t == WorkerMove(s, stopControl, room, x) && Inv(t)
    ensures CleanInv(t)
  {
    var w := s.k.worker;
    if w.Drain? { CleanReceive(s, stopControl, x, t); }
    else if w.Sending? { SendShape(s, room, t); }
  }

  lemma CleanMain(s: State, room: bool, t: State)
    requires CleanInv(s) && t == MainMove(s, room) && Inv(t)
    ensures CleanInv(t)
  {}

  lemma CleanKeeps(stopControl: bool, s: State, step: Step, t: State)
    requires CleanInv(s) && CleanStep(s, step) && t == Apply(stopControl, s, step)
    ensures CleanInv(t)
  {
    StepKeeps(stopControl, s, step, t);
    if ByLinux(step) { CleanLinux(s, step, t); }
    else if !s.k.halted && s.k.isr.IsrIdle? {
      if step.WorkerStep? { CleanWorker(s, stopControl, step.room, step.x, t); }
      else if step.MainStep? { CleanMain(s, step.room, t); }
    }
  }

  lemma {:induction false} CleanRun(stopControl: bool, s: State, steps: seq<Step>)
    requires CleanInv(s) && Clean(stopControl, s, steps)
    ensures CleanInv(Run(stopControl, s, steps))
    decreases |steps|
  {
    if steps != [] {
      var t := Apply(stopControl, s, steps[0]);
      CleanKeeps(stopControl, s, steps[0], t);
      CleanRun(stopControl, t, steps[1..]);
    }
  }

  /** With no rejected frames and no doorbell bit set before READY is published, every announced frame is covered, those
      that were pushed before READY included. */
  lemma CleanRunsLoseNothing(stopControl: bool, generation: u32, steps: seq<Step>, p: nat)
    requires Inv(Init(generation)) && Clean(stopControl, Init(generation), steps) && p < 4
    ensures var s := Run(stopControl, Init(generation), steps); s.announced[p] > 0 && !s.k.halted ==> Covers(s.k, p)
  {
    CleanRun(stopControl, Init(generation), steps);
    NoLostWakeup(stopControl, generation, steps, p);
  }

  // ----- Progress once Linux is silent -----

  predicate OnCpu3(step: Step) {
    step.IsrClear? || step.IsrPost? || step.WorkerStep? || step.MainStep?
  }

  /** What the rest of a pass may still cost, from the moment that it comes to priority `p`. */
  function PassRank(p: nat, reschedule: set<nat>): nat
    requires p <= 4
  {
    2 + 4 * (4 - p) + if reschedule == {} then 0 else 35
  }

  function WorkerRank(k: Plumbing): nat
    requires Placed(k)
  {
    match k.worker
    case Waiting => 0
    case Woken => 20
    case Gate => 1 + PassRank(0, k.reschedule)
    case Scan(p) => PassRank(p, k.reschedule)
    case Drain(p, handled) => 2 + PassRank(p + 1, k.reschedule) + 5 * handled
    case Sending(p, handled, todo, _, _) => 3 + PassRank(p + 1, k.reschedule) + 5 * handled + |todo|
    case Recheck(p, handled) => 1 + PassRank(p + 1, k.reschedule) + 5 * handled
    case Finish => 1 + if k.reschedule == {} then 0 else 35
    case Giving => 35
  }

  function QueueRank(fwd: seq<seq<Request>>): nat
    requires |fwd| == 4
  {
    10 * (|fwd[0]| + |fwd[1]| + |fwd[2]| + |fwd[3]|)
  }

  function PlumbingRank(k: Plumbing): nat
    requires Placed(k)
  {
    36 * |k.a2b| + (if k.isr.Cleared? then 35 else 0) + (if k.sem then 34 else 0) + WorkerRank(k)
  }

  /** Every move of CPU3 uses some of this up. */
  ghost function Rank(s: State): nat
    requires Shaped(s)
  {
    QueueRank(s.fwd) + PlumbingRank(s.k)
  }

  lemma PassSpends(k: Plumbing, published: bool, more: bool, t: Plumbing)
    requires Placed(k) && Placed(t) && t == PassMove(k, published, more) && t != k
    ensures PlumbingRank(t) < PlumbingRank(k)
  {
    if k.worker.Recheck? { assert k.worker.handled <= QUOTA; }
  }

  lemma PlanIsShort(stopControl: bool, p: nat, r: Request, x: Devices)
    ensures |Plan(stopControl, p, r, x)| <= 2 && |Rejection(p, r)| <= 1
  {}

  lemma QueueShrinks(fwd: seq<seq<Request>>, p: nat, after: seq<seq<Request>>)
    requires |fwd| == 4 && p < 4 && fwd[p] != [] && after == fwd[p := fwd[p][1..]]
    ensures QueueRank(after) == QueueRank(fwd) - 10
  {}

  /** The worker stops receiving from a ring exactly after seven frames, on an empty ring, at an uncommitted frame, or
      behind a frame that it rejects. */
  lemma StopsReceivingExactly(s: State, stopControl: bool, x: Devices, t: State)
    requires Shaped(s) && s.k.worker.Drain? && t == Receive(s, stopControl, x)
    ensures var p, w := s.k.worker.p, t.k.worker;
            && (w.Recheck? <==> s.k.worker.handled == 7 || s.fwd[p] == [] || s.fwd[p][0].code == Ring.RING_INCOMPLETE)
            && (w.Recheck? || w.Sending?) && w.p == p
            && (w.Recheck? ==> w.handled == s.k.worker.handled)
            && (w.Sending? ==> (w.leave <==> s.fwd[p][0].code != Ring.RING_OK))
  {}

  /** The two shapes of a receive: nothing taken and the loop left, or one frame taken and its answers begun. */
  lemma ReceiveShape(s: State, stopControl: bool, x: Devices, t: State)
    requires Shaped(s) && s.k.worker.Drain? && t == Receive(s, stopControl, x)
    ensures var p, w := s.k.worker.p, t.k.worker;
            && t.k == s.k.(worker := w)
            && (|| (w == Recheck(p, s.k.worker.handled) && t.fwd == s.fwd)
                || (w.Sending? && w.p == p && w.handled <= s.k.worker.handled + 1 && |w.todo| <= 2
                    && s.fwd[p] != [] && t.fwd == s.fwd[p := s.fwd[p][1..]]))
  {
    var p := s.k.worker.p;
    if s.fwd[p] != [] { PlanIsShort(stopControl, p, s.fwd[p][0], x); }
  }

  lemma DrainSpends(k: Plumbing, w: Worker, t: Plumbing)
    requires Placed(k) && k.worker.Drain? && t == k.(worker := w) && Placed(t)
    ensures w == Recheck(k.worker.p, k.worker.handled) ==> PlumbingRank(t) < PlumbingRank(k)
    ensures w.Sending? && w.p == k.worker.p && w.handled <= k.worker.handled + 1 && |w.todo| <= 2 ==>
      PlumbingRank(t) < PlumbingRank(k) + 10
  {}

  lemma ReceiveSpends(s: State, stopControl: bool, x: Devices, t: State)
    requires Shaped(s) && Shaped(t) && s.k.worker.Drain? && t == Receive(s, stopControl, x)
    ensures Rank(t) < Rank(s)
  {
    ReceiveShape(s, stopControl, x, t);
    DrainSpends(s.k, t.k.worker, t.k);
    if t.k.worker.Sending? { QueueShrinks(s.fwd, s.k.worker.p, t.fwd); }
  }

  lemma SendShape(s: State, room: bool, t: State)
    requires Shaped(s) && s.k.worker.Sending? && t == SendNext(s, room)
    ensures var w, v := s.k.worker, t.k.worker;
            && t.fwd == s.fwd && (t.k == s.k.(worker := v) || t.k == s.k.(worker := v, halted := true, a2b := {}))
            && (|| v == Recheck(w.p, w.handled) || v == Drain(w.p, w.handled)
                || (w.todo != [] && v.Sending? && v == Sending(w.p, w.handled, w.todo[1..], v.lastOk, w.leave)))
  {}

  lemma AnswerSpends(k: Plumbing, v: Worker, t: Plumbing)
    requires Placed(k) && k.worker.Sending? && Placed(t)
    requires t == k.(worker := v) || t == k.(worker := v, halted := true, a2b := {})
    requires var w := k.worker;
             || v == Recheck(w.p, w.handled) || v == Drain(w.p, w.handled)
             || (w.todo != [] && v.Sending? && v == Sending(w.p, w.handled, w.todo[1..], v.lastOk, w.leave))
    ensures PlumbingRank(t) < PlumbingRank(k)
  {}

  lemma SendSpends(s: State, room: bool, t: State)
    requires Shaped(s) && Shaped(t) && s.k.worker.Sending? && t == SendNext(s, room)
    ensures Rank(t) < Rank(s)
  {
    SendShape(s, room, t);
    AnswerSpends(s.k, t.k.worker, t.k);
  }

  lemma IsrSpends(s: State, step: Step, t: State)
    requires Shaped(s) && Shaped(t) && t == IsrStep(s, step) && t != s
    ensures Rank(t) < Rank(s)
  {}

  /** Once READY is published, every CPU3 move that changes anything lowers the rank. */
  lemma MovesSpend(stopControl: bool, s: State, step: Step, t: State)
    requires Inv(s) && s.published && s.main == Checking && OnCpu3(step)
    requires t == Apply(stopControl, s, step) && t != s
    ensures Inv(t) && t.published && t.main == Checking && Rank(t) < Rank(s)
  {
    StepKeeps(stopControl, s, step, t);
    var w := s.k.worker;
    if step.IsrClear? || step.IsrPost? { IsrSpends(s, step, t); }
    else if step.WorkerStep? {
      if w.Drain? { ReceiveSpends(s, stopControl, step.x, t); }
      else if w.Sending? { SendSpends(s, step.room, t); }
      else { PassSpends(s.k, s.published, w.Recheck? && s.fwd[w.p] != [], t.k); }
    }
  }

  /** Nothing of CPU3 can move. */
  predicate Stuck(s: State) {
    && s.k.a2b == {} && s.k.isr == IsrIdle && s.k.worker == Waiting && !s.k.sem && s.main == Checking && s.published
  }

  /** Until then something can. */
  lemma MovesUntilStuck(stopControl: bool, s: State) returns (step: Step)
    requires Inv(s) && s.published && s.main == Checking && !s.k.halted && !Stuck(s)
    ensures OnCpu3(step) && Apply(stopControl, s, step) != s
  {
    var x := Devices(true, false, true, true, 0);
    if s.k.isr.Cleared? {
      step := IsrPost;
      assert Apply(stopControl, s, step).k.isr == IsrIdle;
    } else if s.k.worker == Waiting && !s.k.sem {
      var p :| p in s.k.a2b;
      step := IsrClear(p);
      assert Apply(stopControl, s, step).k.isr == Cleared(p);
    } else {
      step := WorkerStep(true, x);
      WorkerMoves(s, stopControl, true, x);
    }
  }

  lemma PassMoves(k: Plumbing, published: bool, more: bool)
    requires !(k.worker == Waiting && !k.sem) && !k.worker.Drain? && !k.worker.Sending?
    ensures PassMove(k, published, more).worker != k.worker
  {}

  lemma WorkerMoves(s: State, stopControl: bool, room: bool, x: Devices)
    requires Shaped(s) && !(s.k.worker == Waiting && !s.k.sem)
    ensures WorkerMove(s, stopControl, room, x).k.worker != s.k.worker
  {
    var w := s.k.worker;
    if w.Drain? { ReceiveShape(s, stopControl, x, Receive(s, stopControl, x)); }
    else if w.Sending? { SendShape(s, room, SendNext(s, room)); }
    else { PassMoves(s.k, s.published, w.Recheck? && s.fwd[w.p] != []); }
  }

  /** When nothing can move, no announced frame is left that the worker did not give up on. */
  lemma StuckIsDrained(s: State, p: nat)
    requires Inv(s) && Stuck(s) && !s.k.halted && p < 4 && p !in s.abandoned
    ensures s.announced[p] == 0
  {
    assert CoverAt(s, p);
  }

  /** A stretch in which only CPU3 moves, and every step moves something. */
  ghost predicate Busy(stopControl: bool, s: State, steps: seq<Step>)
    requires Inv(s)
    decreases |steps|
  {
    steps == [] ||
    (OnCpu3(steps[0]) && Apply(stopControl, s, steps[0]) != s
     && (StepKeeps(stopControl, s, steps[0], Apply(stopControl, s, steps[0]));
         Busy(stopControl, Apply(stopControl, s, steps[0]), steps[1..])))
  }

  lemma {:induction false} BusyEnds(stopControl: bool, s: State, steps: seq<Step>)
    requires CleanInv(s) && s.published && s.main == Checking && Busy(stopControl, s, steps)
    ensures var t := Run(stopControl, s, steps); CleanInv(t) && t.published && |steps| + Rank(t) <= Rank(s)
    decreases |steps|
  {
    if steps != [] {
      var t := Apply(stopControl, s, steps[0]);
      CleanKeeps(stopControl, s, steps[0], t);
      MovesSpend(stopControl, s, steps[0], t);
      BusyEnds(stopControl, t, steps[1..]);
    }
  }

  /** Once Linux stops and with no rejected frames, CPU3 moves at most `Rank` times more; it can move until it is
      stuck, and when it is stuck no announced frame is left; a ring whose every frame was announced is then empty. */
  lemma WorkerDrainsAnnouncedRings(stopControl: bool, s: State, steps: seq<Step>, p: nat)
    requires CleanInv(s) && s.published && s.main == Checking && Busy(stopControl, s, steps) && p < 4
    ensures |steps| <= Rank(s)
    ensures var t := Run(stopControl, s, steps);
            && (Stuck(t) && !t.k.halted ==> t.announced[p] == 0)
            && (Stuck(t) && !t.k.halted && s.announced[p] == |s.fwd[p]| ==> t.fwd[p] == [])
  {
    BusyEnds(stopControl, s, steps);
    if s.announced[p] == |s.fwd[p]| { StaysAnnounced(stopControl, s, steps, p); }
    var t := Run(stopControl, s, steps);
    if Stuck(t) && !t.k.halted { StuckIsDrained(t, p); }
  }

  /** A ring of which everything is announced stays so while only CPU3 moves. */
  lemma AnnouncedStep(stopControl: bool, s: State, step: Step, p: nat, t: State)
    requires Shaped(s) && p < 4 && s.announced[p] == |s.fwd[p]| && OnCpu3(step)
    requires t == Apply(stopControl, s, step) && Shaped(t)
    ensures t.announced[p] == |t.fwd[p]|
  {
    if step.WorkerStep? && !s.k.halted && s.k.isr.IsrIdle? {
      if s.k.worker.Drain? { ReceiveAnnounced(s, stopControl, step.x, p, t); }
      else if s.k.worker.Sending? { SendAnnounced(s, step.room, t); }
    }
  }

  lemma ReceiveAnnounced(s: State, stopControl: bool, x: Devices, p: nat, t: State)
    requires Shaped(s) && p < 4 && s.announced[p] == |s.fwd[p]| && s.k.worker.Drain? && t == Receive(s, stopControl, x)
    ensures |t.announced| == |t.fwd| == 4 && t.announced[p] == |t.fwd[p]|
  {}

  lemma SendAnnounced(s: State, room: bool, t: State)
    requires Shaped(s) && s.k.worker.Sending? && t == SendNext(s, room)
    ensures t.announced == s.announced && t.fwd == s.fwd
  {}

  lemma {:induction false} StaysAnnounced(stopControl: bool, s: State, steps: seq<Step>, p: nat)
    requires Inv(s) && p < 4 && s.announced[p] == |s.fwd[p]| && Busy(stopControl, s, steps)
    ensures var t := Run(stopControl, s, steps); t.announced[p] == |t.fwd[p]|
    decreases |steps|
  {
    if steps != [] {
      var t := Apply(stopControl, s, steps[0]);
      StepKeeps(stopControl, s, steps[0], t);
      AnnouncedStep(stopControl, s, steps[0], p, t);
      StaysAnnounced(stopControl, t, steps[1..], p);
    }
  }

  lemma {:induction false} RunSnoc(stopControl: bool, s: State, steps: seq<Step>, step: Step)
    requires Inv(s)
    ensures Run(stopControl, s, steps + [step]) == Apply(stopControl, Run(stopControl, s, steps), step)
    decreases |steps|
  {
    if steps == [] {
      assert steps + [step] == [step] && [step][1..] == [];
    } else {
      var t := Apply(stopControl, s, steps[0]);
      StepKeeps(stopControl, s, steps[0], t);
      assert (steps + [step])[1..] == steps[1..] + [step];
      RunSnoc(stopControl, t, steps[1..], step);
    }
  }
}
