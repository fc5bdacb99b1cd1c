/** Linux and CPU3 in one run: the driver's locked regions interleaved with the steps of the CPU3 machine, whose frames
    are what the driver finds in its reverse rings.  Every such run is a run of the stop protocol. */
module StopJoint {
  import opened Protocol
  import opened Lifecycle
  import opened LifecycleSafety
  import opened StopProtocol
  import opened StopSides
  import Cpu3Service
  import Cpu3Wakeup
  import Cpu3Replies

  /** Both sides; `on` says that CPU3 has been booted, `session` counts its boots. */
  datatype Joint = Joint(d: Driver, on: bool, c: Cpu3Service.State, session: nat)

  /** What CPU3 does before one turn of the control loop, and whether the deadline has passed by then. */
  datatype Span = Span(steps: seq<Cpu3Service.Step>, expired: bool)

  datatype Move =
    | Linux(step: Step)                                // a locked region, with CPU3 standing still
    | Control(expired: bool, spans: seq<Span>)         // the control work, with CPU3 moving between its turns
    | Cpu3(its: Cpu3Service.Step)

  function Delivered(rx: seq<seq<Reply>>, c: Cpu3Service.State, t: Cpu3Service.State): (after: seq<seq<Reply>>)
    requires |rx| == 4
    ensures |after| == 4
  {
    [rx[0] + Fresh(c, t, 0), rx[1] + Fresh(c, t, 1), rx[2] + Fresh(c, t, 2), rx[3] + Fresh(c, t, 3)]
  }

  /** CPU3 before turn `n` of the control loop, once it has made the moves of the first `n` spans. */
  function Spanned(stopControl: bool, c: Cpu3Service.State, spans: seq<Span>, n: nat): (t: Cpu3Service.State)
    requires Cpu3Wakeup.Inv(c)
    ensures Cpu3Wakeup.Inv(t)
    decreases |spans|
  {
    if n == 0 || spans == [] then c
    else Spanned(stopControl, Cpu3Wakeup.Run(stopControl, c, spans[0].steps), spans[1..], n - 1)
  }

  /** What the control loop finds on p0, turn by turn. */
  function RoundsOf(stopControl: bool, c: Cpu3Service.State, spans: seq<Span>): (rounds: seq<Round>)
    requires Cpu3Wakeup.Inv(c)
    ensures RoundsCoded(rounds)
    decreases |spans|
  {
    if spans == [] then []
    else
      var t := Cpu3Wakeup.Run(stopControl, c, spans[0].steps);
      [Round(Fresh(c, t, 0), spans[0].expired)] + RoundsOf(stopControl, t, spans[1..])
  }

  predicate Watching(d: Driver, expired: bool) {
    (d.life == Starting || d.life == Stopping) && !expired
  }

  /** The control work with CPU3 moving; what CPU3 sends on other rings waits there for user code. */
  ghost function Controlled(g: Geometry, stopControl: bool, j: Joint, spans: seq<Span>): Joint
    requires Ready(j.d, g) && Cpu3Wakeup.Inv(j.c)
  {
    var work := ControlLoop(j.d, RoundsOf(stopControl, j.c, spans));
    var t := Spanned(stopControl, j.c, spans, work.turns);
    LoopRings(j.d, RoundsOf(stopControl, j.c, spans), work);
    var rx := Delivered(work.d.page.rx, j.c, t)[0 := work.d.page.rx[0]];
    j.(d := work.d.(page := work.d.page.(rx := rx)), c := t)
  }

  /** CPU3 starts afresh at each successful CPU_ON, for the generation that Linux has put in the page. */
  ghost function Moved(g: Geometry, stopControl: bool, j: Joint, move: Move): Joint
    requires Ready(j.d, g) && Cpu3Wakeup.Inv(j.c)
  {
    match move
    case Linux(step) =>
      if step.Cpu3Push? || step.ControlWork? || !Possible(j.d, step) then j
      else
        var d := Next(g, j.d, step);
        if Powered(j.d, g, step) then Joint(d, true, Cpu3Service.Init(d.session.generation), j.session + 1)
        else j.(d := d)
    case Control(expired, spans) =>
      if !Watching(j.d, expired) || !j.on then j.(d := ControlWorked(j.d, expired, []))
      else Controlled(g, stopControl, j, spans)
    case Cpu3(step) =>
      if !j.on then j
      else
        var t := Cpu3Service.Apply(stopControl, j.c, step);
        j.(d := j.d.(page := j.d.page.(rx := Delivered(j.d.page.rx, j.c, t))), c := t)
  }

  // ----- The stop protocol's view of it -----

  function View(j: Joint): System {
    System(j.d, j.on && !j.c.k.halted, j.session)
  }

  ghost predicate JointInv(j: Joint, g: Geometry) {
    && StopInv(View(j), g) && Cpu3Wakeup.Inv(j.c) && Cpu3Replies.StopInv(j.c, 0)
    && (j.d.life != Unarmed ==> j.on)
  }

  function Pushing(p: nat, q: seq<Reply>): (steps: seq<Step>)
    ensures |steps| == |q| && forall i :: 0 <= i < |q| ==> steps[i] == Cpu3Push(p, q[i])
  {
    if q == [] then [] else [Cpu3Push(p, q[0])] + Pushing(p, q[1..])
  }

  function PushingOthers(c: Cpu3Service.State, t: Cpu3Service.State): seq<Step> {
    Pushing(1, Fresh(c, t, 1)) + (Pushing(2, Fresh(c, t, 2)) + Pushing(3, Fresh(c, t, 3)))
  }

  /** The steps of the stop protocol that a move amounts to. */
  ghost function Steps(g: Geometry, stopControl: bool, j: Joint, move: Move): seq<Step>
    requires Ready(j.d, g) && Cpu3Wakeup.Inv(j.c)
  {
    match move
    case Linux(step) => if step.Cpu3Push? || step.ControlWork? || !Possible(j.d, step) then [] else [step]
    case Control(expired, spans) =>
      if !Watching(j.d, expired) || !j.on then [ControlWork(expired, [])]
      else
        var rounds := RoundsOf(stopControl, j.c, spans);
        var t := Spanned(stopControl, j.c, spans, ControlLoop(j.d, rounds).turns);
        [ControlWork(false, rounds)] + PushingOthers(j.c, t)
    case Cpu3(step) =>
      if !j.on then []
      else
        var t := Cpu3Service.Apply(stopControl, j.c, step);
        Pushing(0, Fresh(j.c, t, 0)) + PushingOthers(j.c, t)
  }

  /** `t` is where these steps lead, each of them enabled in its turn. */
  ghost predicate Leads(g: Geometry, s: System, steps: seq<Step>, t: System) {
    StopInv(s, g) && AllEnabled(g, s, steps) && t == StopProtocol.Run(g, s, steps)
  }

  lemma {:induction false} LeadsOn(g: Geometry, s: System, a: seq<Step>, m: System, b: seq<Step>, t: System)
    requires Leads(g, s, a, m) && Leads(g, m, b, t)
    ensures Leads(g, s, a + b, t)
    decreases |a|
  {
    if a == [] { assert a + b == b; }
    else {
      assert (a + b)[0] == a[0] && (a + b)[1..] == a[1..] + b;
      StepStops(s, g, a[0], StopProtocol.Apply(g, s, a[0]));
      LeadsOn(g, StopProtocol.Apply(g, s, a[0]), a[1..], m, b, t);
    }
  }

  lemma LeadsOne(g: Geometry, s: System, step: Step, t: System)
    requires StopInv(s, g) && Enabled(s, step) && t == StopProtocol.Apply(g, s, step)
    ensures Leads(g, s, [step], t) && StopInv(t, g)
  {
    StepStops(s, g, step, t);
    assert StopProtocol.Run(g, t, []) == t;
  }

  function PushedTo(d: Driver, p: nat, q: seq<Reply>): Driver
    requires p < |d.page.rx|
  {
    d.(page := d.page.(rx := d.page.rx[p := d.page.rx[p] + q]))
  }

  /** CPU3's frames on one ring are enabled pushes, one after the other. */
  lemma {:induction false} PushesLead(g: Geometry, s: System, p: nat, q: seq<Reply>, t: System)
    requires StopInv(s, g) && p < 4 && WellCoded(q) && (p == 0 ==> FromCpu3(s.up, q))
    requires t == System(PushedTo(s.d, p, q), if p == 0 then UpAfter(s.up, q) else s.up, s.session)
    ensures Leads(g, s, Pushing(p, q), t) && StopInv(t, g)
    decreases |q|
  {
    if q == [] {
      assert s.d.page.rx[p] + q == s.d.page.rx[p] && s.d.page.rx[p := s.d.page.rx[p]] == s.d.page.rx;
      assert t == s;
    } else {
      var m := StopProtocol.Apply(g, s, Cpu3Push(p, q[0]));
      LeadsOne(g, s, Cpu3Push(p, q[0]), m);
      SplitWord(s.up, q);
      SplitPush(s.d, p, q);
      PushesLead(g, m, p, q[1..], t);
      LeadsOn(g, s, [Cpu3Push(p, q[0])], m, Pushing(p, q[1..]), t);
    }
  }

  lemma SplitWord(up: bool, q: seq<Reply>)
    requires q != []
    ensures FromCpu3(up, q) ==> FromCpu3(UpAfter(up, [q[0]]), q[1..])
    ensures UpAfter(up, q) == UpAfter(UpAfter(up, [q[0]]), q[1..])
  {
    assert q == [q[0]] + q[1..];
    if FromCpu3(up, q) && Stops([q[0]]) { assert [q[0]][0].kind == MSG_STOP_READY; }
    if Stops(q[1..]) {
      var i :| 0 <= i < |q[1..]| && q[1..][i].kind == MSG_STOP_READY;
      assert q[i + 1].kind == MSG_STOP_READY;
    }
    if Stops(q) {
      var i :| 0 <= i < |q| && q[i].kind == MSG_STOP_READY;
      if i == 0 { assert [q[0]][0].kind == MSG_STOP_READY; } else { assert q[1..][i - 1].kind == MSG_STOP_READY; }
    }
  }

  lemma SplitPush(d: Driver, p: nat, q: seq<Reply>)
    requires p < |d.page.rx| && q != []
    ensures PushedTo(d, p, q) == PushedTo(PushedTo(d, p, [q[0]]), p, q[1..])
  {
    assert d.page.rx[p] + q == d.page.rx[p] + [q[0]] + q[1..];
  }

  lemma OthersLead(g: Geometry, s: System, c: Cpu3Service.State, u: Cpu3Service.State, t: System)
    requires StopInv(s, g)
    requires t == s.(d := s.d.(page := s.d.page.(rx := Delivered(s.d.page.rx, c, u)[0 := s.d.page.rx[0]])))
    ensures Leads(g, s, PushingOthers(c, u), t) && StopInv(t, g)
  {
    var m := s.(d := PushedTo(s.d, 1, Fresh(c, u, 1)));
    var n := m.(d := PushedTo(m.d, 2, Fresh(c, u, 2)));
    PushesLead(g, s, 1, Fresh(c, u, 1), m);
    PushesLead(g, m, 2, Fresh(c, u, 2), n);
    assert t == n.(d := PushedTo(n.d, 3, Fresh(c, u, 3)));
    PushesLead(g, n, 3, Fresh(c, u, 3), t);
    LeadsOn(g, m, Pushing(2, Fresh(c, u, 2)), n, Pushing(3, Fresh(c, u, 3)), t);
    LeadsOn(g, s, Pushing(1, Fresh(c, u, 1)), m, Pushing(2, Fresh(c, u, 2)) + Pushing(3, Fresh(c, u, 3)), t);
  }

  // ----- Every move is enabled -----

  lemma FramesLead(g: Geometry, s: System, c: Cpu3Service.State, u: Cpu3Service.State, t: System)
    requires StopInv(s, g) && FromCpu3(s.up, Fresh(c, u, 0))
    requires t == System(s.d.(page := s.d.page.(rx := Delivered(s.d.page.rx, c, u))), UpAfter(s.up, Fresh(c, u, 0)),
                         s.session)
    ensures Leads(g, s, Pushing(0, Fresh(c, u, 0)) + PushingOthers(c, u), t) && StopInv(t, g)
  {
    var m := System(PushedTo(s.d, 0, Fresh(c, u, 0)), t.up, s.session);
    PushesLead(g, s, 0, Fresh(c, u, 0), m);
    OthersLead(g, m, c, u, t);
    LeadsOn(g, s, Pushing(0, Fresh(c, u, 0)), m, PushingOthers(c, u), t);
  }

  lemma Cpu3Leads(g: Geometry, stopControl: bool, j: Joint, step: Cpu3Service.Step, t: Joint)
    requires JointInv(j, g) && j.on && t == Moved(g, stopControl, j, Cpu3(step))
    ensures JointInv(t, g) && Leads(g, View(j), Steps(g, stopControl, j, Cpu3(step)), View(t))
  {
    Cpu3StepKeeps(stopControl, j.c, step, t.c);
    FramesLead(g, View(j), j.c, t.c, View(t));
  }

  lemma Cpu3StepKeeps(stopControl: bool, c: Cpu3Service.State, step: Cpu3Service.Step, t: Cpu3Service.State)
    requires Cpu3Wakeup.Inv(c) && Cpu3Replies.StopInv(c, 0) && t == Cpu3Service.Apply(stopControl, c, step)
    ensures Cpu3Wakeup.Inv(t) && Cpu3Replies.StopInv(t, 0)
    ensures FromCpu3(!c.k.halted, Fresh(c, t, 0)) && !t.k.halted == UpAfter(!c.k.halted, Fresh(c, t, 0))
  {
    Cpu3Wakeup.StepKeeps(stopControl, c, step, t);
    Cpu3Replies.StepStops(stopControl, c, step, 0, t);
    Cpu3KeepsItsWord(stopControl, c, step, t);
  }

  /** What arrives between the turns is what CPU3 may push, and CPU3 is up after `n` turns exactly if its machine is. */
  lemma {:induction false} SpansKeepTheirWord(stopControl: bool, c: Cpu3Service.State, spans: seq<Span>, n: nat)
    requires Cpu3Wakeup.Inv(c) && Cpu3Replies.StopInv(c, 0)
    ensures Cpu3Replies.StopInv(Spanned(stopControl, c, spans, n), 0)
    ensures RoundsFromCpu3(!c.k.halted, RoundsOf(stopControl, c, spans))
    ensures UpIn(!c.k.halted, RoundsOf(stopControl, c, spans), n) == !Spanned(stopControl, c, spans, n).k.halted
    decreases |spans|
  {
    if spans != [] {
      var t := Cpu3Wakeup.Run(stopControl, c, spans[0].steps);
      Cpu3RunKeepsItsWord(stopControl, c, spans[0].steps, t);
      SpansKeepTheirWord(stopControl, t, spans[1..], if n == 0 then 0 else n - 1);
    }
  }

  lemma ControlLeads(g: Geometry, stopControl: bool, j: Joint, spans: seq<Span>, t: Joint)
    requires JointInv(j, g) && j.on && Watching(j.d, false) && t == Controlled(g, stopControl, j, spans)
    ensures JointInv(t, g) && Leads(g, View(j), Steps(g, stopControl, j, Control(false, spans)), View(t))
  {
    var rounds := RoundsOf(stopControl, j.c, spans);
    var work := ControlLoop(j.d, rounds);
    SpansKeepTheirWord(stopControl, j.c, spans, work.turns);
    var step := ControlWork(false, rounds);
    var m := StopProtocol.Apply(g, View(j), step);
    LeadsOne(g, View(j), step, m);
    assert m == System(work.d, !t.c.k.halted, j.session);
    OthersLead(g, m, j.c, t.c, View(t));
    LeadsOn(g, View(j), [step], m, PushingOthers(j.c, t.c), View(t));
  }

  lemma ArmedByPower(d: Driver, g: Geometry, step: Step, t: Driver)
    requires Inv(d, g) && Possible(d, step) && t == Next(g, d, step)
    ensures d.life == Unarmed && t.life != Unarmed ==> Powered(d, g, step)
  {
    if t.life != d.life { EveryTransitionHasItsCause(d, g, step, t); }
  }

  lemma LinuxLeads(g: Geometry, stopControl: bool, j: Joint, step: Step, t: Joint)
    requires JointInv(j, g) && t == Moved(g, stopControl, j, Linux(step))
    ensures JointInv(t, g) && Leads(g, View(j), Steps(g, stopControl, j, Linux(step)), View(t))
  {
    if !(step.Cpu3Push? || step.ControlWork? || !Possible(j.d, step)) {
      Cpu3Wakeup.InitInv(t.d.session.generation);
      LeadsOne(g, View(j), step, View(t));
      ArmedByPower(j.d, g, step, t.d);
    }
  }

  lemma MoveLeads(g: Geometry, stopControl: bool, j: Joint, move: Move, t: Joint)
    requires JointInv(j, g) && t == Moved(g, stopControl, j, move)
    ensures JointInv(t, g) && Leads(g, View(j), Steps(g, stopControl, j, move), View(t))
  {
    match move
    case Linux(step) => LinuxLeads(g, stopControl, j, step, t);
    case Control(expired, spans) =>
      if !Watching(j.d, expired) || !j.on { LeadsOne(g, View(j), ControlWork(expired, []), View(t)); }
      else { ControlLeads(g, stopControl, j, spans, t); }
    case Cpu3(step) => if j.on { Cpu3Leads(g, stopControl, j, step, t); }
  }

  // ----- Whole runs -----

  ghost function JointRun(g: Geometry, stopControl: bool, j: Joint, moves: seq<Move>): (t: Joint)
    requires JointInv(j, g)
    ensures JointInv(t, g)
    decreases |moves|
  {
    if moves == [] then j
    else
      MoveLeads(g, stopControl, j, moves[0], Moved(g, stopControl, j, moves[0]));
      JointRun(g, stopControl, Moved(g, stopControl, j, moves[0]), moves[1..])
  }

  ghost function Trace(g: Geometry, stopControl: bool, j: Joint, moves: seq<Move>): seq<Step>
    requires JointInv(j, g)
    decreases |moves|
  {
    if moves == [] then []
    else
      MoveLeads(g, stopControl, j, moves[0], Moved(g, stopControl, j, moves[0]));
      Steps(g, stopControl, j, moves[0]) + Trace(g, stopControl, Moved(g, stopControl, j, moves[0]), moves[1..])
  }

  ghost predicate Powerless(j: Joint, g: Geometry) {
    Boot(View(j), g) && !j.on && j.c == Cpu3Service.Init(0)
  }

  lemma PowerlessInv(j: Joint, g: Geometry)
    requires Powerless(j, g)
    ensures JointInv(j, g)
  {
    BootInv(View(j), g);
    Cpu3Wakeup.InitInv(0);
  }

  /** Every run of the two machines is, step for step, a run of the stop protocol: whatever the CPU3 machine sends is
      a push that the protocol allows at that point. */
  lemma {:induction false} JointRunsFollowTheProtocol(g: Geometry, stopControl: bool, j: Joint, moves: seq<Move>)
    requires JointInv(j, g)
    ensures Leads(g, View(j), Trace(g, stopControl, j, moves), View(JointRun(g, stopControl, j, moves)))
    decreases |moves|
  {
    if moves != [] {
      var t := Moved(g, stopControl, j, moves[0]);
      MoveLeads(g, stopControl, j, moves[0], t);
      JointRunsFollowTheProtocol(g, stopControl, t, moves[1..]);
      LeadsOn(g, View(j), Steps(g, stopControl, j, moves[0]), View(t), Trace(g, stopControl, t, moves[1..]),
              View(JointRun(g, stopControl, t, moves[1..])));
    }
  }

  /** From power-up of the whole system: when Linux has recorded STOP_READY the CPU3 machine has gone offline and
      Linux has read everything that it put on p0; and the session is never ACTIVE again before the next boot. */
  lemma StopIsFinalOnBothSides(g: Geometry, stopControl: bool, j: Joint, moves: seq<Move>, later: seq<Move>)
    requires Powerless(j, g)
    ensures JointInv(j, g)
    ensures var t := JointRun(g, stopControl, j, moves);
            var u := JointRun(g, stopControl, t, later);
            t.d.stop.reply == MSG_STOP_READY ==>
              && t.on && t.c.k.halted && t.d.page.rx[0] == []
              && (u.session == t.session ==> u.d.life != Active && t.d.life != Active)
  {
    PowerlessInv(j, g);
    var t := JointRun(g, stopControl, j, moves);
    var u := JointRun(g, stopControl, t, later);
    JointRunsFollowTheProtocol(g, stopControl, j, moves);
    JointRunsFollowTheProtocol(g, stopControl, t, later);
    StopReadyIsFinal(View(j), g, Trace(g, stopControl, j, moves), Trace(g, stopControl, t, later));
  }
}
