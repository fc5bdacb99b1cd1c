/** No wakeup is lost between a Linux doorbell and CPU3's worker, and the worker empties what was announced. */
module Cpu3Wakeup {
  import opened Words
  import opened Cpu3Service
  import Ring

  /** The worker is in a pass that still has priority `p` before it, or has put it on its reschedule mask. */
  predicate InPass(k: Plumbing, p: nat) {
    var w := k.worker;
    || (p in k.current && w == Gate)
    || (p in k.current && w.Scan? && w.p <= p)
    || (p in k.current && (w.Drain? || w.Sending? || w.Recheck?) && w.p < p)
    || (w.Drain? && w.p == p)
    || (w.Sending? && w.p == p && (!w.leave || w.handled == QUOTA))
    || (w.Recheck? && w.p == p && w.handled == QUOTA)
    || (p in k.reschedule && (w.Scan? || w.Drain? || w.Sending? || w.Recheck? || w.Finish?))
  }

  /** A doorbell bit, an interrupt handler past its acknowledgement, or a pending bit will start a new pass. */
  predicate Queued(k: Plumbing, p: nat) {
    p in k.a2b || k.isr == Cleared(p) || p in k.pending
  }

  predicate Covers(k: Plumbing, p: nat) {
    Queued(k, p) || InPass(k, p)
  }

  /** A pending bit has its semaphore token, or the worker is about to look or about to give one. */
  predicate Tokened(k: Plumbing) {
    k.pending != {} ==> k.sem || k.worker == Woken || k.worker == Giving
  }

  ghost predicate CoverAt(s: State, p: nat)
    requires Shaped(s) && p < 4
  {
    && s.announced[p] <= |s.fwd[p]|
    && (s.announced[p] > 0 && !s.k.halted ==> Covers(s.k, p) || p in s.abandoned)
  }

  ghost predicate Inv(s: State) {
    Shaped(s) && Tokened(s.k) && forall p :: 0 <= p < 4 ==> CoverAt(s, p)
  }

  /** Coverage of one priority, over its parts: `live` says that an announced frame is in the ring. */
  predicate Kept(k: Plumbing, p: nat, live: bool, given: bool) {
    live && !k.halted ==> Covers(k, p) || given
  }

  lemma PassKeeps(k: Plumbing, published: bool, more: bool, p: nat, live: bool, given: bool, t: Plumbing)
    requires Kept(k, p, live, given) && Tokened(k) && p < 4 && t == PassMove(k, published, more)
    requires k.worker.Recheck? && k.worker.p == p && !more ==> !live
    ensures Kept(t, p, live, given || (k.worker == Gate && !published && p in k.current)) && Tokened(t)
  {
    if k.worker == Waiting { assert Tokened(t); }
    else if k.worker == Woken { assert Tokened(t); }
    else if k.worker == Gate { assert Tokened(t); }
    else if k.worker.Scan? { assert Tokened(t); }
    else if k.worker.Recheck? { assert Tokened(t); }
    else if k.worker == Finish { assert Tokened(t); }
    else if k.worker == Giving { assert Tokened(t); }
  }

  lemma SendKeeps(k: Plumbing, w: Worker, p: nat, live: bool, given: bool, t: Plumbing)
    requires Kept(k, p, live, given) && Tokened(k) && k.worker.Sending? && t == k.(worker := w)
    requires || (w.Sending? && w.p == k.worker.p && w.handled == k.worker.handled && w.leave == k.worker.leave)
             || w == (if k.worker.leave then Recheck(k.worker.p, k.worker.handled)
                      else Drain(k.worker.p, k.worker.handled))
    ensures Kept(t, p, live, given) && Tokened(t)
  {}

  lemma ReceiveKeeps(k: Plumbing, w: Worker, p: nat, live: bool, given: bool, live': bool, given': bool, t: Plumbing)
    requires Kept(k, p, live, given) && Tokened(k) && k.worker.Drain? && t == k.(worker := w)
    requires (w.Sending? || w.Recheck?) && w.p == k.worker.p
    requires p != k.worker.p ==> live' == live && given' == given
    requires p == k.worker.p ==> (given ==> given') && (live' ==> given' || InPass(t, p))
    ensures Kept(t, p, live', given') && Tokened(t)
  {}

  lemma AnnounceKeeps(s: State, q: nat, k: Plumbing, p: nat, t: State)
    requires Shaped(s) && Tokened(s.k) && p < 4 && CoverAt(s, p) && q < 4 && t == Announce(s, q, k)
    requires k == s.k.(linux := LinuxIdle, a2b := k.a2b) && k.a2b == s.k.a2b + {q}
    ensures Shaped(t) && Tokened(t.k) && CoverAt(t, p)
  {}

  lemma LinuxKeeps(s: State, step: Step, p: nat, t: State)
    requires Shaped(s) && Tokened(s.k) && p < 4 && CoverAt(s, p) && t == LinuxStep(s, step)
    ensures Shaped(t) && Tokened(t.k) && CoverAt(t, p)
  {
    if (step.LinuxRead? && s.k.linux.Notifying? && s.k.linux.p in s.k.a2b) || (step.LinuxRing? && s.k.linux.Ringing?) {
      AnnounceKeeps(s, s.k.linux.p, t.k, p, t);
    }
  }

  lemma IsrKeeps(s: State, step: Step, p: nat, t: State)
    requires Shaped(s) && Tokened(s.k) && p < 4 && CoverAt(s, p) && t == IsrStep(s, step)
    ensures Shaped(t) && Tokened(t.k) && CoverAt(t, p)
  {}

  lemma PassPlaced(k: Plumbing, published: bool, more: bool, t: Plumbing)
    requires Placed(k) && t == PassMove(k, published, more)
    ensures Placed(t)
  {}

  lemma ReceiveShaped(s: State, stopControl: bool, x: Devices, t: State)
    requires Shaped(s) && s.k.worker.Drain? && t == Receive(s, stopControl, x)
    ensures Shaped(t)
  {}

  lemma SendShaped(s: State, room: bool, t: State)
    requires Shaped(s) && s.k.worker.Sending? && t == SendNext(s, room)
    ensures Shaped(t)
  {}

  lemma ReceiveFate(s: State, stopControl: bool, x: Devices, p: nat, t: State)
    requires Shaped(s) && p < 4 && s.announced[p] <= |s.fwd[p]| && s.k.worker.Drain? && t == Receive(s, stopControl, x)
    ensures t.k == s.k.(worker := t.k.worker) && (t.k.worker.Sending? || t.k.worker.Recheck?)
    ensures t.k.worker.p == s.k.worker.p
    ensures |t.fwd| == |t.announced| == 4 && t.announced[p] <= |t.fwd[p]|
    ensures p != s.k.worker.p ==> t.announced[p] == s.announced[p] && (p in t.abandoned <==> p in s.abandoned)
    ensures p == s.k.worker.p ==> (p in s.abandoned ==> p in t.abandoned)
    ensures p == s.k.worker.p && t.announced[p] > 0 ==> p in t.abandoned || InPass(t.k, p)
  {}

  lemma ReceiveCovers(s: State, stopControl: bool, x: Devices, p: nat, t: State)
    requires Shaped(s) && Tokened(s.k) && p < 4 && CoverAt(s, p) && s.k.worker.Drain? && t == Receive(s, stopControl, x)
    ensures Tokened(t.k) && |t.fwd| == |t.announced| == 4 && t.announced[p] <= |t.fwd[p]|
    ensures Kept(t.k, p, t.announced[p] > 0, p in t.abandoned)
  {
    ReceiveFate(s, stopControl, x, p, t);
    ReceiveKeeps(s.k, t.k.worker, p, s.announced[p] > 0, p in s.abandoned, t.announced[p] > 0, p in t.abandoned, t.k);
  }

  lemma SendCovers(s: State, room: bool, p: nat, t: State)
    requires Shaped(s) && Tokened(s.k) && p < 4 && CoverAt(s, p) && s.k.worker.Sending? && t == SendNext(s, room)
    ensures Tokened(t.k) && t.fwd == s.fwd && t.announced == s.announced && t.abandoned == s.abandoned
    ensures Kept(t.k, p, t.announced[p] > 0, p in t.abandoned)
  {
    SendKeeps(s.k, t.k.worker, p, s.announced[p] > 0, p in s.abandoned, s.k.(worker := t.k.worker));
  }

  lemma WorkerKeeps(s: State, stopControl: bool, room: bool, x: Devices, p: nat, t: State)
    requires Shaped(s) && Tokened(s.k) && p < 4 && CoverAt(s, p) && t == WorkerMove(s, stopControl, room, x)
    ensures Shaped(t) && Tokened(t.k) && CoverAt(t, p)
  {
    var w := s.k.worker;
    if w.Drain? {
      ReceiveShaped(s, stopControl, x, t);
      ReceiveCovers(s, stopControl, x, p, t);
    } else if w.Sending? {
      SendShaped(s, room, t);
      SendCovers(s, room, p, t);
    } else {
      PassPlaced(s.k, s.published, w.Recheck? && s.fwd[w.p] != [], t.k);
      PassKeeps(s.k, s.published, w.Recheck? && s.fwd[w.p] != [], p, s.announced[p] > 0, p in s.abandoned, t.k);
    }
  }

  lemma StepKeepsAt(stopControl: bool, s: State, step: Step, p: nat, t: State)
    requires Shaped(s) && Tokened(s.k) && p < 4 && CoverAt(s, p) && t == Apply(stopControl, s, step)
    ensures Shaped(t) && Tokened(t.k) && CoverAt(t, p)
  {
    if ByLinux(step) { LinuxKeeps(s, step, p, t); }
    else if s.k.halted { }
    else if step.IsrClear? || step.IsrPost? { IsrKeeps(s, step, p, t); }
    else if s.k.isr.IsrIdle? && step.WorkerStep? { WorkerKeeps(s, stopControl, step.room, step.x, p, t); }
  }

  lemma StepKeeps(stopControl: bool, s: State, step: Step, t: State)
    requires Inv(s) && t == Apply(stopControl, s, step)
    ensures Inv(t)
  {
    StepKeepsAt(stopControl, s, step, 0, t);
    forall p | 0 <= p < 4 ensures CoverAt(t, p) { StepKeepsAt(stopControl, s, step, p, t); }
  }

  function Run(stopControl: bool, s: State, steps: seq<Step>): (t: State)
    requires Inv(s)
    ensures Inv(t)
    decreases |steps|
  {
    if steps == [] then s
    else
      StepKeeps(stopControl, s, steps[0], Apply(stopControl, s, steps[0]));
      Run(stopControl, Apply(stopControl, s, steps[0]), steps[1..])
  }

  lemma InitInv(generation: u32)
    ensures Inv(Init(generation))
  {}

  /** In every reachable state, a ring that holds a frame whose doorbell was SENT or COALESCED is covered, unless the
      worker gave that priority up or CPU3 has gone offline. */
  lemma NoLostWakeup(stopControl: bool, generation: u32, steps: seq<Step>, p: nat)
    requires p < 4
    ensures Inv(Init(generation))
    ensures var s := Run(stopControl, Init(generation), steps);
            && (s.announced[p] > 0 && !s.k.halted && p !in s.abandoned ==> Covers(s.k, p))
            && (p in s.k.pending ==> s.k.sem || s.k.worker == Woken || s.k.worker == Giving)
  {
    InitInv(generation);
    var s := Run(stopControl, Init(generation), steps);
    assert CoverAt(s, p);
  }

  // ----- Exactly when a wakeup is given up -----

  /** The reschedule mask holds only priorities that the pass has behind it. */
  predicate OrderedAt(k: Plumbing, p: nat) {
    && (p in k.reschedule && (k.worker.Scan? || k.worker.Drain? || k.worker.Sending? || k.worker.Recheck?) ==>
          p < k.worker.p)
    && (p in k.reschedule ==> !k.worker.Gate?)
  }

  lemma PassOrdered(k: Plumbing, published: bool, more: bool, p: nat, t: Plumbing)
    requires OrderedAt(k, p) && t == PassMove(k, published, more)
    ensures OrderedAt(t, p)
  {}

  lemma ReceiveOrdered(s: State, stopControl: bool, x: Devices, p: nat, t: State)
    requires Shaped(s) && s.k.worker.Drain? && OrderedAt(s.k, p) && t == Receive(s, stopControl, x)
    ensures OrderedAt(t.k, p)
  {}

  lemma SendOrdered(s: State, room: bool, p: nat, t: State)
    requires Shaped(s) && s.k.worker.Sending? && OrderedAt(s.k, p) && t == SendNext(s, room)
    ensures OrderedAt(t.k, p)
  {}

  lemma LinuxOrdered(s: State, step: Step, t: State)
    requires Shaped(s) && t == LinuxStep(s, step)
    ensures t.k.worker == s.k.worker && t.k.reschedule == s.k.reschedule
  {}

  lemma StepOrdered(stopControl: bool, s: State, step: Step, p: nat, t: State)
    requires Inv(s) && OrderedAt(s.k, p) && t == Apply(stopControl, s, step)
    ensures OrderedAt(t.k, p)
  {
    var w := s.k.worker;
    if ByLinux(step) { LinuxOrdered(s, step, t); }
    else if step.WorkerStep? && !s.k.halted && s.k.isr.IsrIdle? {
      if w.Drain? { ReceiveOrdered(s, stopControl, step.x, p, t); }
      else if w.Sending? { SendOrdered(s, step.room, p, t); }
      else { PassOrdered(s.k, s.published, w.Recheck? && s.fwd[w.p] != [], p, t.k); }
    }
  }

  lemma {:induction false} RunOrdered(stopControl: bool, s: State, steps: seq<Step>, p: nat)
    requires Inv(s) && OrderedAt(s.k, p)
    ensures OrderedAt(Run(stopControl, s, steps).k, p)
    decreases |steps|
  {
    if steps != [] {
      var t := Apply(stopControl, s, steps[0]);
      StepKeeps(stopControl, s, steps[0], t);
      StepOrdered(stopControl, s, steps[0], p, t);
      RunOrdered(stopControl, t, steps[1..], p);
    }
  }

  /** The guards behind which the worker gives a priority up: a pass that starts before READY is published, or a
      frame that receive rejects before the quota is used up. */
  predicate GivesUp(s: State, step: Step, p: nat)
    requires |s.fwd| == 4 && p < 4
  {
    && step.WorkerStep? && !s.k.halted && s.k.isr.IsrIdle?
    && (|| (s.k.worker.Gate? && !s.published && p in s.k.current)
        || (s.k.worker.Drain? && s.k.worker.p == p && s.k.worker.handled < QUOTA
            && RejectsHead(s.fwd[p], s.k.worker.handled)))
  }

  predicate RejectsHead(q: seq<Request>, handled: nat) {
    && q != [] && !Accepted(q[0])
    && !(handled + 1 == QUOTA && (q[0].code == Ring.RING_BAD_CRC || q[0].code == Ring.RING_INVALID))
  }

  lemma PassLoses(k: Plumbing, published: bool, more: bool, p: nat, t: Plumbing)
    requires Covers(k, p) && OrderedAt(k, p) && p < 4 && t == PassMove(k, published, more)
    requires k.worker.Recheck? && k.worker.p == p ==> more
    ensures Covers(t, p) <==> Queued(k, p) || !(k.worker.Gate? && !published && p in k.current)
  {
    if k.worker == Waiting { assert Covers(t, p); }
    else if k.worker == Woken { assert Covers(t, p); }
    else if k.worker.Gate? { }
    else if k.worker.Scan? { assert Covers(t, p); }
    else if k.worker.Recheck? { assert Covers(t, p); }
    else if k.worker == Finish { assert Covers(t, p); }
    else if k.worker == Giving { assert Covers(t, p); }
  }

  lemma ReceiveLoses(s: State, stopControl: bool, x: Devices, p: nat, t: State)
    requires Shaped(s) && p < 4 && s.k.worker.Drain? && t == Receive(s, stopControl, x)
    requires CoverAt(s, p) && Covers(s.k, p) && OrderedAt(s.k, p) && |t.announced| == 4 && t.announced[p] > 0
    ensures Covers(t.k, p) <==>
      Queued(s.k, p) || !(s.k.worker.p == p && s.k.worker.handled < QUOTA && RejectsHead(s.fwd[p], s.k.worker.handled))
  {}

  lemma SendLoses(s: State, room: bool, p: nat, t: State)
    requires Shaped(s) && p < 4 && s.k.worker.Sending? && t == SendNext(s, room)
    requires Covers(s.k, p) && OrderedAt(s.k, p) && !t.k.halted
    ensures Covers(t.k, p)
  {}

  lemma CoverLost(stopControl: bool, s: State, step: Step, p: nat, t: State)
    requires Inv(s) && p < 4 && OrderedAt(s.k, p) && t == Apply(stopControl, s, step)
    requires Covers(s.k, p) && |t.announced| == 4 && t.announced[p] > 0 && !t.k.halted
    ensures !Covers(t.k, p) <==> GivesUp(s, step, p) && !Queued(s.k, p)
  {
    var w := s.k.worker;
    if step.WorkerStep? && s.k.isr.IsrIdle? && !s.k.halted {
      if w.Drain? { ReceiveLoses(s, stopControl, step.x, p, t); }
      else if w.Sending? { SendLoses(s, step.room, p, t); }
      else { PassLoses(s.k, s.published, w.Recheck? && s.fwd[w.p] != [], p, t.k); }
    } else if ByLinux(step) {
      LinuxKeepsCover(s, step, p, t);
    }
  }

  /** In every reachable state: while an announced frame is in the ring and CPU3 is up, a step takes the last cover away
      from its priority if and only if one of those guards holds and no new doorbell is on its way. */
  lemma CoverLostExactly(stopControl: bool, generation: u32, steps: seq<Step>, step: Step, p: nat)
    requires p < 4
    ensures Inv(Init(generation))
    ensures var s := Run(stopControl, Init(generation), steps);
            var t := Apply(stopControl, s, step);
            && |t.announced| == 4
            && (Covers(s.k, p) && t.announced[p] > 0 && !t.k.halted ==>
                  (!Covers(t.k, p) <==> GivesUp(s, step, p) && !Queued(s.k, p)))
  {
    InitInv(generation);
    RunOrdered(stopControl, Init(generation), steps, p);
    var s := Run(stopControl, Init(generation), steps);
    var t := Apply(stopControl, s, step);
    StepKeeps(stopControl, s, step, t);
    if Covers(s.k, p) && t.announced[p] > 0 && !t.k.halted { CoverLost(stopControl, s, step, p, t); }
  }

  lemma LinuxKeepsCover(s: State, step: Step, p: nat, t: State)
    requires Shaped(s) && Covers(s.k, p) && t == LinuxStep(s, step)
    ensures Covers(t.k, p)
  {}
}
