/** The controlled stop, seen from both sides: the Linux driver composed with what CPU3 can put on its p0 ring. */
module StopProtocol {
  import opened Protocol
  import opened Lifecycle
  import opened LifecycleSafety

  /** The driver, and whether CPU3 can still send: it cannot before its first boot, nor once it has committed
      STOP_READY, until the next successful CPU_ON.  `session` counts those. */
  datatype System = System(d: Driver, up: bool, session: nat)

  predicate Stops(q: seq<Reply>) {
    exists i :: 0 <= i < |q| && q[i].kind == MSG_STOP_READY
  }

  /** What CPU3 may push in one go: anything while it is up, but nothing behind a STOP_READY. */
  predicate FromCpu3(up: bool, q: seq<Reply>) {
    && (!up ==> q == [])
    && forall i :: 0 <= i < |q| && q[i].kind == MSG_STOP_READY ==> i == |q| - 1
  }

  function UpAfter(up: bool, q: seq<Reply>): bool {
    up && !Stops(q)
  }

  /** The pushes that fall between the turns of a control loop, and whether CPU3 is up after the first `n` turns. */
  predicate RoundsFromCpu3(up: bool, rounds: seq<Round>)
    decreases |rounds|
  {
    rounds == [] ||
    (FromCpu3(up, rounds[0].arrivals) && RoundsFromCpu3(UpAfter(up, rounds[0].arrivals), rounds[1..]))
  }

  function UpIn(up: bool, rounds: seq<Round>, n: nat): bool
    decreases |rounds|
  {
    if rounds == [] || n == 0 then up else UpIn(UpAfter(up, rounds[0].arrivals), rounds[1..], n - 1)
  }

  ghost predicate Enabled(s: System, step: Step) {
    && Possible(s.d, step)
    && (step.ControlWork? ==> RoundsFromCpu3(s.up, step.rounds))
    && (step.Cpu3Push? && step.priority == 0 ==> s.up)
  }

  ghost function Apply(g: Geometry, s: System, step: Step): System
    requires Ready(s.d, g)
  {
    if !Enabled(s, step) then s
    else
      System(Next(g, s.d, step),
             if Powered(s.d, g, step) then true
             else if step.Cpu3Push? && step.priority == 0 then UpAfter(s.up, [step.reply])
             else if step.ControlWork? && !step.expired && (s.d.life == Starting || s.d.life == Stopping) then
               UpIn(s.up, step.rounds, ControlLoop(s.d, step.rounds).turns)
             else s.up,
             if Powered(s.d, g, step) then s.session + 1 else s.session)
  }

  /** A STOP_READY in p0 is its last frame, and CPU3 is silent. */
  predicate LastWord(q: seq<Reply>, up: bool) {
    forall i :: 0 <= i < |q| && q[i].kind == MSG_STOP_READY ==> i == |q| - 1 && !up
  }

  /** Linux has recorded STOP_READY: p0 is then empty, CPU3 silent, and the data plane shut. */
  ghost predicate Recorded(d: Driver, up: bool)
    requires |d.page.rx| == 4
  {
    d.stop.reply == MSG_STOP_READY ==> d.page.rx[0] == [] && !up && d.life in {Stopping, StopTimeout, Offline}
  }

  ghost predicate StopInv(s: System, g: Geometry) {
    Inv(s.d, g) && LastWord(s.d.page.rx[0], s.up) && Recorded(s.d, s.up)
  }

  lemma Appended(q: seq<Reply>, up: bool, arrivals: seq<Reply>)
    requires LastWord(q, up) && FromCpu3(up, arrivals)
    ensures LastWord(q + arrivals, UpAfter(up, arrivals))
  {
    var all := q + arrivals;
    forall i | 0 <= i < |all| && all[i].kind == MSG_STOP_READY ensures i == |all| - 1 && !UpAfter(up, arrivals) {
      if i >= |q| { assert arrivals[i - |q|].kind == MSG_STOP_READY; }
    }
  }

  lemma Dropped(q: seq<Reply>, up: bool)
    requires q != [] && LastWord(q, up)
    ensures LastWord(q[1..], up)
    ensures q[0].kind == MSG_STOP_READY ==> q[1..] == [] && !up
  {}

  /** A turn records STOP_READY only by taking a STOP_READY frame. */
  lemma TurnRecords(d: Driver, round: Round, t: Turn)
    requires |d.page.rx| == 4 && WellCoded(d.page.rx[0]) && |d.users.wakes| == 4
    requires d.life == Starting || d.life == Stopping
    requires WellCoded(round.arrivals) && t == ControlTurn(d, round)
    ensures t.d.stop.reply != d.stop.reply && t.d.stop.reply == MSG_STOP_READY ==>
      var q := d.page.rx[0] + round.arrivals;
      q != [] && q[0].kind == MSG_STOP_READY && t.d.page.rx[0] == q[1..] && t.d.life == Stopping && !t.stay
    ensures t.stay ==> t.d.stop.reply == d.stop.reply
    ensures d.page.rx[0] + round.arrivals == [] ==> t.d.life == d.life && t.d.stop.reply == d.stop.reply && !t.stay
  {
    var page := Arrived(d.page, round.arrivals);
    ReceiveTakes(d.link, page, Received(d.link, page, 0));
  }

  /** One turn keeps both parts of the invariant, `up` being whether CPU3 is up once its arrivals are in. */
  lemma TurnStops(d: Driver, up: bool, round: Round, t: Turn)
    requires |d.page.rx| == 4 && WellCoded(d.page.rx[0]) && |d.users.wakes| == 4 && WellCoded(round.arrivals)
    requires (d.life == Starting || d.life == Stopping) && t == ControlTurn(d, round)
    requires FromCpu3(up, round.arrivals) && LastWord(d.page.rx[0], up) && Recorded(d, up)
    ensures |t.d.page.rx| == 4
    ensures LastWord(t.d.page.rx[0], UpAfter(up, round.arrivals)) && Recorded(t.d, UpAfter(up, round.arrivals))
  {
    var up', q := UpAfter(up, round.arrivals), d.page.rx[0] + round.arrivals;
    TurnMoves(d, round, t);
    TurnConsumes(d, round, t);
    TurnRecords(d, round, t);
    Appended(d.page.rx[0], up, round.arrivals);
    if q != [] { Dropped(q, up'); }
  }

  /** A turn that stays in the loop leaves what the next one needs, and fewer frames to come. */
  lemma TurnGoesOn(d: Driver, rounds: seq<Round>, t: Turn, rest: seq<Round>)
    requires |d.page.rx| == 4 && WellCoded(d.page.rx[0]) && |d.users.wakes| == 4 && RoundsCoded(rounds)
    requires (d.life == Starting || d.life == Stopping) && t == ControlTurn(d, RoundAt(rounds, 0))
    requires rest == if rounds == [] then [] else rounds[1..]
    ensures |t.d.page.rx| == 4 && WellCoded(t.d.page.rx[0]) && |t.d.users.wakes| == 4 && RoundsCoded(rest)
    ensures t.stay ==> t.d.life == d.life && |t.d.page.rx[0]| + Arrivals(rest) < |d.page.rx[0]| + Arrivals(rounds)
    ensures ControlLoop(d, rounds) ==
      if t.stay then var c := ControlLoop(t.d, rest); c.(turns := c.turns + 1) else Controlled(t.d, 1)
  {
    TurnConsumes(d, RoundAt(rounds, 0), t);
  }

  lemma UpInSplits(up: bool, rounds: seq<Round>, n: nat)
    requires n >= 1
    ensures UpIn(up, rounds, n)
              == UpIn(UpAfter(up, RoundAt(rounds, 0).arrivals), if rounds == [] then [] else rounds[1..], n - 1)
    ensures RoundsFromCpu3(up, rounds) ==> FromCpu3(up, RoundAt(rounds, 0).arrivals)
    ensures RoundsFromCpu3(up, rounds) ==>
      RoundsFromCpu3(UpAfter(up, RoundAt(rounds, 0).arrivals), if rounds == [] then [] else rounds[1..])
  {}

  /** What the control loop needs before a turn. */
  ghost predicate Loops(d: Driver, up: bool, rounds: seq<Round>) {
    && |d.page.rx| == 4 && WellCoded(d.page.rx[0]) && |d.users.wakes| == 4 && RoundsCoded(rounds)
    && (d.life == Starting || d.life == Stopping)
    && RoundsFromCpu3(up, rounds) && LastWord(d.page.rx[0], up) && Recorded(d, up)
  }

  lemma FirstTurn(d: Driver, up: bool, rounds: seq<Round>, c: Controlled) returns (t: Turn, up': bool, rest: seq<Round>)
    requires Loops(d, up, rounds) && c == ControlLoop(d, rounds)
    ensures |t.d.page.rx| == 4 && c.turns >= 1 && UpIn(up, rounds, c.turns) == UpIn(up', rest, c.turns - 1)
    ensures !t.stay ==> c == Controlled(t.d, 1) && LastWord(t.d.page.rx[0], up') && Recorded(t.d, up')
    ensures t.stay ==>
      && Loops(t.d, up', rest) && |t.d.page.rx[0]| + Arrivals(rest) < |d.page.rx[0]| + Arrivals(rounds)
      && ControlLoop(t.d, rest) == c.(turns := c.turns - 1)
  {
    var round := RoundAt(rounds, 0);
    t, up' := ControlTurn(d, round), UpAfter(up, round.arrivals);
    rest := if rounds == [] then [] else rounds[1..];
    UpInSplits(up, rounds, c.turns);
    TurnStops(d, up, round, t);
    TurnGoesOn(d, rounds, t, rest);
  }

  lemma {:induction false} LoopRecords(d: Driver, up: bool, rounds: seq<Round>, c: Controlled)
    requires Loops(d, up, rounds) && c == ControlLoop(d, rounds)
    ensures |c.d.page.rx| == 4
    ensures LastWord(c.d.page.rx[0], UpIn(up, rounds, c.turns)) && Recorded(c.d, UpIn(up, rounds, c.turns))
    decreases |d.page.rx[0]| + Arrivals(rounds)
  {
    var t, up', rest := FirstTurn(d, up, rounds, c);
    if t.stay { LoopRecords(t.d, up', rest, ControlLoop(t.d, rest)); }
  }

  lemma ControlStops(s: System, g: Geometry, expired: bool, rounds: seq<Round>, t: Driver)
    requires StopInv(s, g) && RoundsCoded(rounds) && RoundsFromCpu3(s.up, rounds)
    requires t == ControlWorked(s.d, expired, rounds)
    requires s.d.life == Starting || s.d.life == Stopping
    ensures Inv(t, g)
    ensures var up := if expired then s.up else UpIn(s.up, rounds, ControlLoop(s.d, rounds).turns);
            LastWord(t.page.rx[0], up) && Recorded(t, up)
    ensures s.d.stop.reply == MSG_STOP_READY ==> t.stop.reply == MSG_STOP_READY
  {
    ControlKeeps(s.d, g, expired, rounds, t);
    if expired { TimeoutMoves(s.d, t); }
    else {
      LoopRecords(s.d, s.up, rounds, ControlLoop(s.d, rounds));
      if s.d.stop.reply == MSG_STOP_READY {
        assert s.d.page.rx[0] + RoundAt(rounds, 0).arrivals == [];
        TurnRecords(s.d, RoundAt(rounds, 0), ControlTurn(s.d, RoundAt(rounds, 0)));
      }
    }
  }

  lemma TimerStops(d: Driver, g: Geometry, up: bool, step: Step, t: Driver)
    requires Inv(d, g) && LastWord(d.page.rx[0], up) && Recorded(d, up)
    requires (step.TimeoutWork? || step.ReadAffinity? || step.AffinityWork?) && t == Next(g, d, step)
    ensures t.page == d.page && t.stop.reply == d.stop.reply && Recorded(t, up)
  {
    RefreshMoves(d, step.sample, Refresh(d, step.sample));
    if step.TimeoutWork? {
      TimeoutMoves(d, SetTimeout(d));
      if Refresh(d, step.sample).life != Offline {
        TimeoutMoves(Refresh(d, step.sample), SetTimeout(Refresh(d, step.sample)));
      }
    }
  }

  lemma PowerStops(d: Driver, g: Geometry, up: bool, step: Step, t: Driver)
    requires Inv(d, g) && LastWord(d.page.rx[0], up) && Recorded(d, up)
    requires (step.Start? || step.Rearm?) && t == Next(g, d, step)
    ensures |t.page.rx| == 4 && (t.page.rx[0] == [] || t.page.rx == d.page.rx)
    ensures t.stop.reply == 0 || t.stop.reply == d.stop.reply
    ensures t.stop.reply == MSG_STOP_READY ==> Recorded(t, up) && t.page == d.page
    ensures d.stop.reply == MSG_STOP_READY ==> t.stop.reply == MSG_STOP_READY || t.life == Unarmed
    ensures Powered(d, g, step) ==> t.page.rx[0] == [] && t.stop.reply == 0
  {
    RefreshMoves(d, step.sample, Refresh(d, step.sample));
  }

  lemma PushStops(s: System, g: Geometry, step: Step, t: System)
    requires StopInv(s, g) && step.Cpu3Push? && Enabled(s, step) && t == Apply(g, s, step)
    ensures |t.d.page.rx| == 4 && LastWord(t.d.page.rx[0], t.up) && Recorded(t.d, t.up)
  {
    if step.priority == 0 {
      assert FromCpu3(s.up, [step.reply]);
      Appended(s.d.page.rx[0], s.up, [step.reply]);
    }
  }

  lemma StepStops(s: System, g: Geometry, step: Step, t: System)
    requires StopInv(s, g) && t == Apply(g, s, step)
    ensures StopInv(t, g)
  {
    if Enabled(s, step) {
      StepKeeps(s.d, g, step, t.d);
      if step.ControlWork? {
        if s.d.life == Starting || s.d.life == Stopping { ControlStops(s, g, step.expired, step.rounds, t.d); }
      } else if step.TimeoutWork? || step.ReadAffinity? || step.AffinityWork? { TimerStops(s.d, g, s.up, step, t.d); }
      else if step.Start? || step.Rearm? { PowerStops(s.d, g, s.up, step, t.d); }
      else if step.Cpu3Push? { PushStops(s, g, step, t); }
      else if step.UserReceive? && s.d.page.rx[0] != [] { Dropped(s.d.page.rx[0], s.up); }
    }
  }

  ghost function Run(g: Geometry, s: System, steps: seq<Step>): (t: System)
    requires StopInv(s, g)
    ensures StopInv(t, g)
    decreases |steps|
  {
    if steps == [] then s
    else
      StepStops(s, g, steps[0], Apply(g, s, steps[0]));
      Run(g, Apply(g, s, steps[0]), steps[1..])
  }

  ghost predicate Boot(s: System, g: Geometry) {
    g.Valid() && |s.d.carveout| == g.statusOffset && s == System(Probed(s.d.carveout), false, 0)
  }

  /** Every step is enabled where the run has come to. */
  ghost predicate AllEnabled(g: Geometry, s: System, steps: seq<Step>)
    requires StopInv(s, g)
    decreases |steps|
  {
    steps == [] ||
    (Enabled(s, steps[0])
     && (StepStops(s, g, steps[0], Apply(g, s, steps[0])); AllEnabled(g, Apply(g, s, steps[0]), steps[1..])))
  }

  lemma BootInv(s: System, g: Geometry)
    requires Boot(s, g)
    ensures StopInv(s, g)
  {
    ProbeInv(World(s.d, false, [], false), g);
  }

  /** The session has had its STOP_READY, or is over. */
  predicate Ended(d: Driver) {
    d.stop.reply == MSG_STOP_READY || d.life == Unarmed
  }

  lemma EndedStays(s: System, g: Geometry, step: Step, t: System)
    requires StopInv(s, g) && Ended(s.d) && t == Apply(g, s, step) && t.session == s.session
    ensures Ended(t.d)
  {
    if Enabled(s, step) {
      if s.d.life == Unarmed {
        if t.d.life != Unarmed { EveryTransitionHasItsCause(s.d, g, step, t.d); }
      } else if step.ControlWork? {
        if s.d.life == Stopping { ControlStops(s, g, step.expired, step.rounds, t.d); }
      } else if step.TimeoutWork? || step.ReadAffinity? || step.AffinityWork? { TimerStops(s.d, g, s.up, step, t.d); }
      else if step.Start? || step.Rearm? { PowerStops(s.d, g, s.up, step, t.d); }
    }
  }

  lemma {:induction false} SessionsGrow(s: System, g: Geometry, steps: seq<Step>)
    requires StopInv(s, g)
    ensures Run(g, s, steps).session >= s.session
    decreases |steps|
  {
    if steps != [] {
      StepStops(s, g, steps[0], Apply(g, s, steps[0]));
      SessionsGrow(Apply(g, s, steps[0]), g, steps[1..]);
    }
  }

  lemma {:induction false} EndedForGood(s: System, g: Geometry, steps: seq<Step>)
    requires StopInv(s, g) && Ended(s.d) && Run(g, s, steps).session == s.session
    ensures Ended(Run(g, s, steps).d)
    decreases |steps|
  {
    if steps != [] {
      var t := Apply(g, s, steps[0]);
      StepStops(s, g, steps[0], t);
      SessionsGrow(t, g, steps[1..]);
      EndedStays(s, g, steps[0], t);
      EndedForGood(t, g, steps[1..]);
    }
  }

  /** Once Linux has recorded STOP_READY, no run of both sides brings that session back to ACTIVE: every later state
      before the next successful start is shut, whatever CPU3, user space, timers and firmware do. */
  lemma StopReadyIsFinal(s: System, g: Geometry, steps: seq<Step>, later: seq<Step>)
    requires Boot(s, g)
    ensures StopInv(s, g)
    ensures var t := Run(g, s, steps);
            var u := Run(g, t, later);
            t.d.stop.reply == MSG_STOP_READY && u.session == t.session ==> u.d.life != Active && t.d.life != Active
  {
    BootInv(s, g);
    var t := Run(g, s, steps);
    var u := Run(g, t, later);
    if t.d.stop.reply == MSG_STOP_READY && u.session == t.session {
      EndedForGood(t, g, later);
      assert StopInv(u, g);
    }
  }
}
