/** The two ways in which CPU3 loses a wakeup are real: each is shown by a run from boot. */
module Cpu3Exceptions {
  import opened Protocol
  import opened Cpu3Service
  import opened Cpu3Wakeup
  import opened Cpu3Drain
  import Ring

  const WORK: Step := WorkerStep(true, Devices(true, false, true, true, 0))
  const IDLE: Plumbing := Plumbing(LinuxIdle, {}, IsrIdle, {}, false, Waiting, {}, {}, false)
  const PING: Request := Request(Ring.RING_OK, MSG_PING, 1, 4, 41)
  const READY: Sent := Sent(Answer(MSG_SESSION_READY, 1, PROTOCOL_VERSION, 0, false), 0)

  /** READY is committed and one PING is in ring p1. */
  function Early(k: Plumbing, announced: nat, abandoned: set<nat>, main: Main, done: bool): State {
    State(1, k, [[], [PING], [], []], [0, announced, 0, 0], abandoned, main, done, done,
          [[READY], [], [], []], [0, 0, 0, 0], [MSG_SESSION_READY])
  }

  /** `steps` lead from boot to `s`. */
  ghost predicate Leads(steps: seq<Step>, s: State)
    requires Inv(Init(1))
  {
    Run(false, Init(1), steps) == s
  }

  lemma Then(steps: seq<Step>, s: State, step: Step, t: State) returns (more: seq<Step>)
    requires Inv(Init(1)) && Leads(steps, s) && Shaped(s) && t == Apply(false, s, step)
    ensures Leads(more, t)
  {
    more := steps + [step];
    RunSnoc(false, Init(1), steps, step);
  }

  lemma EarlyReady() returns (steps: seq<Step>)
    requires Inv(Init(1))
    ensures Leads(steps, Early(IDLE.(linux := Notifying(1)), 0, {}, Committed, false))
  {
    var s := Init(1);
    var t := s.(main := InSend);
    steps := Then([], s, MainStep(true), t);
    assert t.out[0] + [READY] == [READY] && t.first + [MSG_SESSION_READY] == [MSG_SESSION_READY];
    var u := t.(main := Committed, out := [[READY], [], [], []], first := [MSG_SESSION_READY]);
    assert t.out[0 := [READY]] == u.out;
    steps := Then(steps, t, MainStep(true), u);
    assert u.fwd[1] + [PING] == [PING];
    assert u.fwd[1 := [PING]] == [[], [PING], [], []];
    steps := Then(steps, u, LinuxPush(1, PING), Early(IDLE.(linux := Notifying(1)), 0, {}, Committed, false));
  }

  lemma EarlyBell(steps: seq<Step>) returns (more: seq<Step>)
    requires Inv(Init(1)) && Leads(steps, Early(IDLE.(linux := Notifying(1)), 0, {}, Committed, false))
    ensures Leads(more, Early(IDLE.(a2b := {1}), 1, {}, Committed, false))
  {
    var s := Early(IDLE.(linux := Notifying(1)), 0, {}, Committed, false);
    var ringing := s.(k := IDLE.(linux := Ringing(1)));
    more := Then(steps, s, LinuxRead, ringing);
    more := Then(more, ringing, LinuxRing, Early(IDLE.(a2b := {1}), 1, {}, Committed, false));
  }

  lemma EarlyInterrupt(steps: seq<Step>) returns (more: seq<Step>)
    requires Inv(Init(1)) && Leads(steps, Early(IDLE.(a2b := {1}), 1, {}, Committed, false))
    ensures Leads(more, Early(IDLE.(pending := {1}, sem := true), 1, {}, Committed, false))
  {
    var s := Early(IDLE.(a2b := {1}), 1, {}, Committed, false);
    assert {1} - {1} == {};
    more := Then(steps, s, IsrClear(1), s.(k := IDLE.(isr := Cleared(1))));
    more := Then(more, s.(k := IDLE.(isr := Cleared(1))), IsrPost, s.(k := IDLE.(pending := {1}, sem := true)));
  }

  lemma EarlyPass(steps: seq<Step>) returns (more: seq<Step>)
    requires Inv(Init(1)) && Leads(steps, Early(IDLE.(pending := {1}, sem := true), 1, {}, Committed, false))
    ensures Leads(more, Early(IDLE, 1, {1}, Committed, false))
  {
    var s := Early(IDLE.(pending := {1}, sem := true), 1, {}, Committed, false);
    var woken, gate := s.(k := IDLE.(pending := {1}, worker := Woken)), s.(k := IDLE.(current := {1}, worker := Gate));
    more := Then(steps, s, WORK, woken);
    more := Then(more, woken, WORK, gate);
    more := Then(more, gate, WORK, Early(IDLE, 1, {1}, Committed, false));
  }

  lemma EarlyFlag(steps: seq<Step>) returns (more: seq<Step>)
    requires Inv(Init(1)) && Leads(steps, Early(IDLE, 1, {1}, Committed, false))
    ensures Leads(more, Early(IDLE, 1, {1}, Checking, true))
  {
    var s := Early(IDLE, 1, {1}, Committed, false);
    more := Then(steps, s, MainStep(true), s.(main := Returned));
    more := Then(more, s.(main := Returned), MainStep(true), s.(main := Flagged, committed := true));
    more := Then(more, s.(main := Flagged, committed := true), MainStep(true), Early(IDLE, 1, {1}, Checking, true));
  }

  /** READY is committed, and so Linux may open the data plane, before the published flag is set.  A doorbell rung in
      between is dropped: CPU3 comes to rest with an announced frame that nothing covers. */
  lemma EarlyDoorbellIsLost() returns (steps: seq<Step>, s: State)
    ensures Inv(Init(1)) && Leads(steps, s)
    ensures Stuck(s) && !s.k.halted && s.announced == [0, 1, 0, 0] && s.fwd == [[], [PING], [], []] && !Covers(s.k, 1)
  {
    InitInv(1);
    steps := EarlyReady();
    steps := EarlyBell(steps);
    steps := EarlyInterrupt(steps);
    steps := EarlyPass(steps);
    steps := EarlyFlag(steps);
    s := Early(IDLE, 1, {1}, Checking, true);
  }

  // ----- A rejected frame -----

  const BAD: Request := Request(Ring.RING_BAD_CRC, MSG_PING, 1, 4, 41)

  /** CPU3 is up; what ring p2 holds, and how much of it is announced. */
  function Up(k: Plumbing, q: seq<Request>, announced: nat, abandoned: set<nat>, popped: nat): State {
    State(1, k, [[], [], q, []], [0, 0, announced, 0], abandoned, Checking, true, true,
          [[READY], [], [], []], [0, 0, popped, 0], [MSG_SESSION_READY])
  }

  lemma ComesUp() returns (steps: seq<Step>)
    requires Inv(Init(1))
    ensures Leads(steps, Up(IDLE, [], 0, {}, 0))
  {
    var s := Init(1);
    var t := s.(main := InSend);
    steps := Then([], s, MainStep(true), t);
    assert t.out[0] + [READY] == [READY] && t.first + [MSG_SESSION_READY] == [MSG_SESSION_READY];
    var u := t.(main := Committed, out := [[READY], [], [], []], first := [MSG_SESSION_READY]);
    assert t.out[0 := [READY]] == u.out;
    steps := Then(steps, t, MainStep(true), u);
    var v := u.(main := Returned);
    steps := Then(steps, u, MainStep(true), v);
    var w := v.(main := Flagged, committed := true);
    steps := Then(steps, v, MainStep(true), w);
    steps := Then(steps, w, MainStep(true), Up(IDLE, [], 0, {}, 0));
  }

  /** Two frames are queued, and one doorbell announces both. */
  lemma RejectPush(steps: seq<Step>) returns (more: seq<Step>)
    requires Inv(Init(1)) && Leads(steps, Up(IDLE, [], 0, {}, 0))
    ensures Leads(more, Up(IDLE.(linux := Notifying(2)), [BAD, PING], 0, {}, 0))
  {
    var notifying := IDLE.(linux := Notifying(2));
    var s := Up(IDLE, [], 0, {}, 0);
    assert s.fwd[2] + [BAD] == [BAD] && s.fwd[2 := [BAD]] == [[], [], [BAD], []];
    more := Then(steps, s, LinuxPush(2, BAD), Up(notifying, [BAD], 0, {}, 0));
    more := Then(more, Up(notifying, [BAD], 0, {}, 0), LinuxSkip, Up(IDLE, [BAD], 0, {}, 0));
    var t := Up(IDLE, [BAD], 0, {}, 0);
    assert t.fwd[2] + [PING] == [BAD, PING] && t.fwd[2 := [BAD, PING]] == [[], [], [BAD, PING], []];
    more := Then(more, t, LinuxPush(2, PING), Up(notifying, [BAD, PING], 0, {}, 0));
  }

  lemma RejectBell(steps: seq<Step>) returns (more: seq<Step>)
    requires Inv(Init(1)) && Leads(steps, Up(IDLE.(linux := Notifying(2)), [BAD, PING], 0, {}, 0))
    ensures Leads(more, Up(IDLE.(pending := {2}, sem := true), [BAD, PING], 2, {}, 0))
  {
    var s := Up(IDLE.(linux := Notifying(2)), [BAD, PING], 0, {}, 0);
    var ringing := Up(IDLE.(linux := Ringing(2)), [BAD, PING], 0, {}, 0);
    more := Then(steps, s, LinuxRead, ringing);
    var rung := Up(IDLE.(a2b := {2}), [BAD, PING], 2, {}, 0);
    more := Then(more, ringing, LinuxRing, rung);
    assert {2} - {2} == {};
    var cleared := Up(IDLE.(isr := Cleared(2)), [BAD, PING], 2, {}, 0);
    more := Then(more, rung, IsrClear(2), cleared);
    more := Then(more, cleared, IsrPost, Up(IDLE.(pending := {2}, sem := true), [BAD, PING], 2, {}, 0));
  }

  lemma RejectScan(steps: seq<Step>) returns (more: seq<Step>)
    requires Inv(Init(1)) && Leads(steps, Up(IDLE.(pending := {2}, sem := true), [BAD, PING], 2, {}, 0))
    ensures Leads(more, Up(IDLE.(current := {2}, worker := Drain(2, 0)), [BAD, PING], 2, {}, 0))
  {
    var s := Up(IDLE.(pending := {2}, sem := true), [BAD, PING], 2, {}, 0);
    var woken := s.(k := IDLE.(pending := {2}, worker := Woken));
    more := Then(steps, s, WORK, woken);
    var pass := IDLE.(current := {2});
    more := Then(more, woken, WORK, s.(k := pass.(worker := Gate)));
    more := Then(more, s.(k := pass.(worker := Gate)), WORK, s.(k := pass.(worker := Scan(0))));
    more := Then(more, s.(k := pass.(worker := Scan(0))), WORK, s.(k := pass.(worker := Scan(1))));
    more := Then(more, s.(k := pass.(worker := Scan(1))), WORK, s.(k := pass.(worker := Scan(2))));
    more := Then(more, s.(k := pass.(worker := Scan(2))), WORK, s.(k := pass.(worker := Drain(2, 0))));
  }

  lemma RejectLeave(steps: seq<Step>) returns (more: seq<Step>)
    requires Inv(Init(1)) && Leads(steps, Up(IDLE.(current := {2}, worker := Drain(2, 0)), [BAD, PING], 2, {}, 0))
    ensures Leads(more, Up(IDLE.(current := {2}, worker := Sending(2, 1, [], true, true)), [PING], 1, {2}, 1))
  {
    var pass := IDLE.(current := {2});
    assert [BAD, PING][1..] == [PING];
    var s := Up(pass.(worker := Drain(2, 0)), [BAD, PING], 2, {}, 0);
    var t := Up(pass.(worker := Sending(2, 1, [], true, true)), [PING], 1, {2}, 1);
    assert s.fwd[2 := [PING]] == t.fwd && s.popped[2 := 1] == t.popped && s.announced[2 := 1] == t.announced;
    more := Then(steps, s, WORK, t);
  }

  lemma RejectFinish(steps: seq<Step>) returns (more: seq<Step>)
    requires Inv(Init(1))
    requires Leads(steps, Up(IDLE.(current := {2}, worker := Sending(2, 1, [], true, true)), [PING], 1, {2}, 1))
    ensures Leads(more, Up(IDLE.(current := {2}), [PING], 1, {2}, 1))
  {
    var pass := IDLE.(current := {2});
    var t := Up(pass.(worker := Sending(2, 1, [], true, true)), [PING], 1, {2}, 1);
    more := Then(steps, t, WORK, t.(k := pass.(worker := Recheck(2, 1))));
    more := Then(more, t.(k := pass.(worker := Recheck(2, 1))), WORK, t.(k := pass.(worker := Scan(3))));
    more := Then(more, t.(k := pass.(worker := Scan(3))), WORK, t.(k := pass.(worker := Scan(4))));
    more := Then(more, t.(k := pass.(worker := Scan(4))), WORK, t.(k := pass.(worker := Finish)));
    more := Then(more, t.(k := pass.(worker := Finish)), WORK, t.(k := pass));
  }

  /** A run from boot in which a damaged frame, announced together with an intact one behind it, makes the worker leave
      its loop: CPU3 comes to rest with the intact frame announced and nothing covering it. */
  lemma RejectedFrameStrandsTheNext() returns (steps: seq<Step>, s: State)
    ensures Inv(Init(1)) && Leads(steps, s)
    ensures Stuck(s) && !s.k.halted && s.announced == [0, 0, 1, 0] && s.fwd == [[], [], [PING], []] && !Covers(s.k, 2)
  {
    InitInv(1);
    steps := ComesUp();
    steps := RejectPush(steps);
    steps := RejectBell(steps);
    steps := RejectScan(steps);
    steps := RejectLeave(steps);
    steps := RejectFinish(steps);
    s := Up(IDLE.(current := {2}), [PING], 1, {2}, 1);
  }
}
