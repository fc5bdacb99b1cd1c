/** What each step of the driver does in every reachable state: the state it leads to and the result it records, as
    exact conditions on what it finds. */
module LifecycleEffects {
  import opened Protocol
  import opened Lifecycle
  import opened LifecycleSafety
  import Ring
  import Endpoint

  /** The counters of all four priorities have moved by one, and nothing else of the users has changed. */
  predicate Woken(u: Users, v: Users) {
    && v == u.(wakes := v.wakes) && |u.wakes| == |v.wakes| == 4
    && forall p :: 0 <= p < 4 ==> v.wakes[p] == (u.wakes[p] as int + 1) % 0x1_0000_0000
  }

  lemma WokenUpWakes(u: Users)
    requires |u.wakes| == 4
    ensures Woken(u, WokenUp(u))
  {}

  // ----- The deadline -----

  /** The session's operation has timed out: a start or a stop, with -ETIMEDOUT as its result. */
  predicate TimesOut(d: Driver, t: Driver) {
    && Woken(d.users, t.users)
    && (d.life == Starting ==>
          t == d.(life := StartTimeout, session := d.session.(result := -110), users := t.users))
    && (d.life == Stopping ==>
          t == d.(life := StopTimeout, stop := d.stop.(result := -110), users := t.users))
  }

  lemma SetTimeoutIs(d: Driver)
    requires |d.users.wakes| == 4 && (d.life == Starting || d.life == Stopping)
    ensures TimesOut(d, SetTimeout(d))
  {
    WokenUpWakes(d.users);
  }

  /** Timeout work does nothing before the deadline or outside a start or stop.  Behind it a start times out; a stop
      goes OFFLINE, keeping its result, if and only if STOP_READY is recorded and the core is sampled OFF, and
      otherwise times out. */
  lemma TimeoutWorkExactly(d: Driver, g: Geometry, expired: bool, sample: int, t: Driver)
    requires Inv(d, g) && t == Next(g, d, TimeoutWork(expired, sample))
    ensures !expired || (d.life != Starting && d.life != Stopping) ==> t == d
    ensures expired && d.life == Starting ==> TimesOut(d, t)
    ensures expired && d.life == Stopping && d.stop.reply != MSG_STOP_READY ==> TimesOut(d, t)
    ensures expired && d.life == Stopping && d.stop.reply == MSG_STOP_READY ==>
      if sample == PSCI_OFF
      then Woken(d.users, t.users)
           && t == d.(life := Offline, power := d.power.(affinity := PSCI_OFF), users := t.users)
      else TimesOut(d.(power := d.power.(affinity := sample)), t)
  {
    WokenUpWakes(d.users);
    if d.life == Starting || d.life == Stopping {
      SetTimeoutIs(d);
      SetTimeoutIs(d.(power := Sampled(d.power, sample)));
    }
  }

  /** The same of whole runs: in every reachable STOPPING state, overdue timeout work leaves the stop's result alone and
      goes OFFLINE exactly after STOP_READY and on an OFF sample, and else records -ETIMEDOUT in STOP_TIMEOUT. */
  lemma OverdueStopExactly(w: World, g: Geometry, steps: seq<Step>, sample: int)
    requires Probe(w, g)
    ensures WorldInv(w, g)
    ensures var d := Run(g, w, steps).d;
            var t := Apply(g, Run(g, w, steps), TimeoutWork(true, sample)).d;
            d.life == Stopping ==>
              && (t.life == Offline && t.stop == d.stop <==> d.stop.reply == MSG_STOP_READY && sample == PSCI_OFF)
              && (t.life == Offline || (t.life == StopTimeout && t.stop == d.stop.(result := -110)))
  {
    ProbeInv(w, g);
    var d := Run(g, w, steps).d;
    TimeoutWorkExactly(d, g, true, sample, Next(g, d, TimeoutWork(true, sample)));
  }

  // ----- The control loop -----

  /** The frame answers what the driver is waiting for. */
  predicate Matches(d: Driver, r: Reply) {
    if d.life == Starting
    then r.kind == MSG_SESSION_READY && r.length >= 8 && r.word0 == d.session.generation && r.word1 == PROTOCOL_VERSION
    else r.kind in {MSG_STOP_READY, MSG_STOP_REFUSED} && r.length >= 8 && r.word0 == d.stop.sequence
  }

  /** The loop takes the frame and goes on: it is stale or damaged, or intact, in time and not the answer. */
  predicate PassedOver(d: Driver, r: Reply, expired: bool) {
    || r.code in {Endpoint.STALE_FRAME, Ring.RING_BAD_CRC, Ring.RING_INVALID}
    || (r.code == Ring.RING_OK && !expired && !Matches(d, r))
  }

  /** A damaged frame leaves -EBADMSG or -EPROTO as the result. */
  function ResultOf(r: Reply, result: int): int {
    if r.code == Ring.RING_BAD_CRC then -74 else if r.code == Ring.RING_INVALID then -71 else result
  }

  function ResultAfter(passed: seq<Reply>, result: int): int {
    if passed == [] then result else ResultAfter(passed[1..], ResultOf(passed[0], result))
  }

  function Result(d: Driver): int {
    if d.life == Starting then d.session.result else d.stop.result
  }

  function WithResult(d: Driver, result: int): Driver {
    if d.life == Starting then d.(session := d.session.(result := result)) else d.(stop := d.stop.(result := result))
  }

  /** How the loop ends once it has passed over `passed` and finds `next`, if anything; `page` is what it leaves. */
  predicate Ends(d: Driver, passed: seq<Reply>, next: Option<Reply>, expired: bool, t: Driver) {
    if next.None? || next.value.code == Ring.RING_INCOMPLETE
    then t == WithResult(d, ResultAfter(passed, Result(d))).(page := t.page)
    else if expired then TimesOut(d.(page := t.page), t)
    else if d.life == Starting
    then t == d.(life := Active, session := Session(d.session.generation, d.session.generation, 0),
                 power := d.power.(seenOn := true), page := t.page)
    else if next.value.kind == MSG_STOP_READY
    then t == d.(stop := d.stop.(reply := MSG_STOP_READY, result := 0), page := t.page)
    else t == d.(life := Active, stop := d.stop.(reply := MSG_STOP_REFUSED, result := -125), page := t.page)
  }

  lemma TurnDecides(d: Driver, round: Round, t: Turn)
    requires |d.page.rx| == 4 && |d.users.wakes| == 4 && WellCoded(d.page.rx[0]) && WellCoded(round.arrivals)
    requires (d.life == Starting || d.life == Stopping) && SessionCode(d.link, d.page) == 0
    requires t == ControlTurn(d, round)
    ensures var q := d.page.rx[0] + round.arrivals;
            if q != [] && PassedOver(d, q[0], round.expired)
            then t.stay && t.d == WithResult(d, ResultOf(q[0], Result(d))).(page := t.d.page)
                 && t.d.page == d.page.(rx := t.d.page.rx)
            else !t.stay && Ends(d, [], if q == [] then None else Some(q[0]), round.expired, t.d)
  {
    var page := Arrived(d.page, round.arrivals);
    ReceiveTakes(d.link, page, Received(d.link, page, 0));
    SetTimeoutIs(d.(page := Received(d.link, page, 0)));
  }

  /** Turn `i` found the oldest frame left there, and passed it over. */
  ghost predicate PassedIn(d: Driver, rounds: seq<Round>, q: seq<Reply>, all: seq<Reply>, i: nat) {
    i < |all| && i < |q| + |ArrivedIn(rounds, i + 1)| && PassedOver(d, all[i], RoundAt(rounds, i).expired)
  }

  ghost predicate AllPassed(d: Driver, rounds: seq<Round>, q: seq<Reply>, all: seq<Reply>, n: nat) {
    forall i :: 0 <= i < n ==> PassedIn(d, rounds, q, all, i)
  }

  /** The loop ended in turn `n`, having passed over one frame in each turn before; each had arrived by then. */
  ghost predicate Decided(d: Driver, rounds: seq<Round>, n: nat, t: Driver)
    requires |d.page.rx| == 4
  {
    var q, all := d.page.rx[0], d.page.rx[0] + ArrivedIn(rounds, n + 1);
    && n <= |all| && AllPassed(d, rounds, q, all, n)
    && (n < |all| ==> !PassedOver(d, all[n], RoundAt(rounds, n).expired))
    && Ends(d, all[..n], if n < |all| then Some(all[n]) else None, RoundAt(rounds, n).expired, t)
  }

  /** A turn that passes over `x` changes nothing that later turns look at, except what the result was. */
  ghost predicate After(d: Driver, x: Reply, e: Driver) {
    && (d.life == Starting || d.life == Stopping)
    && e == WithResult(d, ResultOf(x, Result(d))).(page := e.page) && e.page == d.page.(rx := e.page.rx)
  }

  lemma EndsEarlier(d: Driver, x: Reply, e: Driver, passed: seq<Reply>, next: Option<Reply>, expired: bool, t: Driver)
    requires After(d, x, e) && Ends(e, passed, next, expired, t)
    ensures Ends(d, [x] + passed, next, expired, t)
  {
    assert ([x] + passed)[1..] == passed;
    assert ResultAfter([x] + passed, Result(d)) == ResultAfter(passed, Result(e));
    if next.None? || next.value.code == Ring.RING_INCOMPLETE {
      var r := ResultAfter(passed, Result(e));
      assert WithResult(e, r).(page := t.page) == WithResult(d, r).(page := t.page);
    }
  }

  lemma PassedSame(d: Driver, x: Reply, e: Driver, r: Reply, expired: bool)
    requires After(d, x, e)
    ensures PassedOver(e, r, expired) == PassedOver(d, r, expired)
  {}

  lemma ArrivedMore(rounds: seq<Round>, n: nat)
    ensures ArrivedIn(rounds, n + 1)
              == RoundAt(rounds, 0).arrivals + ArrivedIn(if rounds == [] then [] else rounds[1..], n)
  {}

  lemma RoundsShift(rounds: seq<Round>, i: nat)
    ensures RoundAt(if rounds == [] then [] else rounds[1..], i) == RoundAt(rounds, i + 1)
  {}

  lemma Regroup(q: seq<Reply>, a: seq<Reply>, b: seq<Reply>, x: seq<Reply>, r: seq<Reply>)
    requires q + a == x + r
    ensures q + (a + b) == x + (r + b)
  {
    assert q + (a + b) == (q + a) + b;
    assert (x + r) + b == x + (r + b);
  }

  lemma PassedEarlier(d: Driver, rounds: seq<Round>, x: Reply, e: Driver, rest: seq<Round>, n: nat,
                      q: seq<Reply>, all: seq<Reply>, q': seq<Reply>, all': seq<Reply>)
    requires After(d, x, e) && rest == if rounds == [] then [] else rounds[1..]
    requires q + RoundAt(rounds, 0).arrivals == [x] + q' && all == [x] + all' && n <= |all'|
    requires PassedOver(d, x, RoundAt(rounds, 0).expired) && AllPassed(e, rest, q', all', n)
    ensures AllPassed(d, rounds, q, all, n + 1)
  {
    forall i | 0 <= i < n + 1 ensures PassedIn(d, rounds, q, all, i) {
      ArrivedMore(rounds, i);
      assert |q| + |RoundAt(rounds, 0).arrivals| == |[x] + q'|;
      if i > 0 {
        assert PassedIn(e, rest, q', all', i - 1);
        RoundsShift(rounds, i - 1);
        PassedSame(d, x, e, all'[i - 1], RoundAt(rest, i - 1).expired);
      }
    }
  }

  /** One more turn in front of a loop that is known. */
  lemma DecidedEarlier(d: Driver, rounds: seq<Round>, x: Reply, e: Driver, rest: seq<Round>, n: nat, t: Driver)
    requires |d.page.rx| == 4 && |e.page.rx| == 4 && After(d, x, e)
    requires rest == if rounds == [] then [] else rounds[1..]
    requires d.page.rx[0] + RoundAt(rounds, 0).arrivals == [x] + e.page.rx[0]
    requires PassedOver(d, x, RoundAt(rounds, 0).expired) && Decided(e, rest, n, t)
    ensures Decided(d, rounds, n + 1, t)
  {
    var q, q' := d.page.rx[0], e.page.rx[0];
    var all, all' := q + ArrivedIn(rounds, n + 2), q' + ArrivedIn(rest, n + 1);
    ArrivedMore(rounds, n + 1);
    Regroup(q, RoundAt(rounds, 0).arrivals, ArrivedIn(rest, n + 1), [x], q');
    assert all == [x] + all';
    PassedEarlier(d, rounds, x, e, rest, n, q, all, q', all');
    RoundsShift(rounds, n);
    if n < |all'| { PassedSame(d, x, e, all'[n], RoundAt(rest, n).expired); }
    assert all[..n + 1] == [x] + all'[..n];
    assert n < |all'| ==> all[n + 1] == all'[n];
    EndsEarlier(d, x, e, all'[..n], if n < |all'| then Some(all'[n]) else None, RoundAt(rest, n).expired, t);
  }

  lemma FirstTurnDecides(d: Driver, rounds: seq<Round>, turn: Turn)
    requires |d.page.rx| == 4 && |d.users.wakes| == 4 && WellCoded(d.page.rx[0]) && RoundsCoded(rounds)
    requires (d.life == Starting || d.life == Stopping) && SessionCode(d.link, d.page) == 0
    requires turn == ControlTurn(d, RoundAt(rounds, 0)) && !turn.stay
    ensures Decided(d, rounds, 0, turn.d)
  {
    TurnDecides(d, RoundAt(rounds, 0), turn);
    ArrivedMore(rounds, 0);
    assert ArrivedIn(if rounds == [] then [] else rounds[1..], 0) == [];
    var all := d.page.rx[0] + ArrivedIn(rounds, 1);
    assert all == d.page.rx[0] + RoundAt(rounds, 0).arrivals && all[..0] == [];
  }

  lemma LaterTurnDecides(d: Driver, round: Round, turn: Turn) returns (x: Reply)
    requires |d.page.rx| == 4 && |d.users.wakes| == 4 && WellCoded(d.page.rx[0]) && WellCoded(round.arrivals)
    requires (d.life == Starting || d.life == Stopping) && SessionCode(d.link, d.page) == 0
    requires turn == ControlTurn(d, round) && turn.stay
    ensures |turn.d.page.rx| == 4 && After(d, x, turn.d) && PassedOver(d, x, round.expired)
    ensures d.page.rx[0] + round.arrivals == [x] + turn.d.page.rx[0]
    ensures turn.d.life == d.life && SessionCode(turn.d.link, turn.d.page) == 0
  {
    TurnDecides(d, round, turn);
    TurnConsumes(d, round, turn);
    x := (d.page.rx[0] + round.arrivals)[0];
  }

  /** What the control loop needs before a turn. */
  ghost predicate Waiting(d: Driver, rounds: seq<Round>) {
    && |d.page.rx| == 4 && |d.users.wakes| == 4 && WellCoded(d.page.rx[0]) && RoundsCoded(rounds)
    && (d.life == Starting || d.life == Stopping) && SessionCode(d.link, d.page) == 0
  }

  /** The first turn has decided, or has passed over a frame and left the rest of the loop to do. */
  lemma OneTurn(d: Driver, rounds: seq<Round>, c: Controlled) returns (turn: Turn, x: Reply, rest: seq<Round>)
    requires Waiting(d, rounds) && c == ControlLoop(d, rounds)
    ensures rest == if rounds == [] then [] else rounds[1..]
    ensures !turn.stay ==> c == Controlled(turn.d, 1) && Decided(d, rounds, 0, turn.d)
    ensures turn.stay ==>
      && Waiting(turn.d, rest) && |turn.d.page.rx[0]| + Arrivals(rest) < |d.page.rx[0]| + Arrivals(rounds)
      && c.turns >= 1 && ControlLoop(turn.d, rest) == c.(turns := c.turns - 1)
      && After(d, x, turn.d) && PassedOver(d, x, RoundAt(rounds, 0).expired)
      && d.page.rx[0] + RoundAt(rounds, 0).arrivals == [x] + turn.d.page.rx[0]
  {
    var round := RoundAt(rounds, 0);
    x, turn, rest := Reply(0, 0, 0, 0, 0), ControlTurn(d, round), if rounds == [] then [] else rounds[1..];
    TurnConsumes(d, round, turn);
    if !turn.stay { FirstTurnDecides(d, rounds, turn); } else { x := LaterTurnDecides(d, round, turn); }
  }

  /** The control loop passes over frames in order until it finds nothing, an uncommitted frame, the deadline, or the
      answer, and does then what that calls for; `Decided` leaves one possibility for every input. */
  lemma {:induction false} ControlLoopDecides(d: Driver, rounds: seq<Round>, c: Controlled)
    requires Waiting(d, rounds) && c == ControlLoop(d, rounds)
    ensures c.turns >= 1 && Decided(d, rounds, c.turns - 1, c.d)
    decreases |d.page.rx[0]| + Arrivals(rounds)
  {
    var turn, x, rest := OneTurn(d, rounds, c);
    if turn.stay {
      ControlLoopDecides(turn.d, rest, ControlLoop(turn.d, rest));
      DecidedEarlier(d, rounds, x, turn.d, rest, c.turns - 2, c.d);
    }
  }

  lemma NotEarlier(d: Driver, rounds: seq<Round>, m: nat, n: nat, u: Driver)
    requires |d.page.rx| == 4 && Decided(d, rounds, n, u) && m < n
    ensures var all := d.page.rx[0] + ArrivedIn(rounds, m + 1);
            m < |all| && PassedOver(d, all[m], RoundAt(rounds, m).expired)
  {
    var q := d.page.rx[0];
    ArrivedGrows(rounds, m + 1, n + 1);
    assert PassedIn(d, rounds, q, q + ArrivedIn(rounds, n + 1), m);
  }

  /** There is at most one turn in which the loop can have ended. */
  lemma OneDecision(d: Driver, rounds: seq<Round>, m: nat, t: Driver, n: nat, u: Driver)
    requires |d.page.rx| == 4 && Decided(d, rounds, m, t) && Decided(d, rounds, n, u)
    ensures m == n
  {
    if m < n { NotEarlier(d, rounds, m, n, u); }
    if n < m { NotEarlier(d, rounds, n, m, t); }
  }

  lemma {:induction false} ArrivedGrows(rounds: seq<Round>, a: nat, b: nat)
    requires a <= b
    ensures ArrivedIn(rounds, a) <= ArrivedIn(rounds, b)
  {
    if a > 0 && rounds != [] { ArrivedGrows(rounds[1..], a - 1, b - 1); }
  }

  /** Control work in a reachable state: nothing outside a start or stop, a timeout behind the deadline, and else the
      decision of the loop. */
  lemma ControlWorkExactly(d: Driver, g: Geometry, expired: bool, rounds: seq<Round>, t: Driver) returns (n: nat)
    requires Inv(d, g) && RoundsCoded(rounds) && t == Next(g, d, ControlWork(expired, rounds))
    ensures d.life != Starting && d.life != Stopping ==> t == d
    ensures (d.life == Starting || d.life == Stopping) && expired ==> TimesOut(d, t)
    ensures (d.life == Starting || d.life == Stopping) && !expired ==> Decided(d, rounds, n, t)
  {
    n := 0;
    if d.life == Starting || d.life == Stopping {
      SetTimeoutIs(d);
      if !expired {
        var c := ControlLoop(d, rounds);
        ControlLoopDecides(d, rounds, c);
        n := c.turns - 1;
      }
    }
  }

  // ----- Samples -----

  /** What a sample tells: ON and ON_PENDING are remembered. */
  function Noticed(p: Power, sample: int): Power {
    Power(p.attempted, p.cpuOnRet, sample, p.seenOn || sample == PSCI_ON || sample == PSCI_ON_PENDING)
  }

  /** A sample takes an armed session OFFLINE if and only if it is OFF and something has shown before that CPU3 ran; it
      never touches a result. */
  lemma SampleExactly(d: Driver, g: Geometry, step: Step, t: Driver)
    requires Inv(d, g) && (step.ReadAffinity? || step.AffinityWork?) && t == Next(g, d, step)
    ensures step.AffinityWork? && (d.life == Unarmed || d.life == Offline) ==> t == d
    ensures step.ReadAffinity? || (d.life != Unarmed && d.life != Offline) ==>
      if step.sample == PSCI_OFF && d.power.seenOn && d.life != Unarmed && d.life != Offline
      then t == d.(life := Offline, power := Noticed(d.power, step.sample), users := t.users) && Woken(d.users, t.users)
      else t == d.(power := Noticed(d.power, step.sample))
  {
    WokenUpWakes(d.users);
  }

  // ----- The image -----

  /** An image write is refused once CPU_ON was attempted, off the end of what is written, or beyond the image. */
  lemma ImageExactly(d: Driver, g: Geometry, off: nat, data: seq<bv8>, t: Driver)
    requires Inv(d, g) && t == Next(g, d, ImageWrite(off, data))
    ensures d.power.attempted ==> ImageCode(d, g, off, data) == -16 && t == d
    ensures !d.power.attempted && off != d.written ==> ImageCode(d, g, off, data) == -29 && t == d
    ensures !d.power.attempted && off == d.written && off + |data| > g.imageSize ==>
      ImageCode(d, g, off, data) == -27 && t == d
    ensures !d.power.attempted && off == d.written && off + |data| <= g.imageSize ==>
      && ImageCode(d, g, off, data) == |data| && t == d.(carveout := t.carveout, written := off + |data|)
      && |t.carveout| == |d.carveout|
      && forall k :: 0 <= k < |d.carveout| ==>
           t.carveout[k] == if off <= k < off + |data| then data[k - off] else d.carveout[k]
  {}

  // ----- Start and rearm -----

  /** A fresh session: the next generation, never zero, in an empty page; a refused CPU_ON leaves it unarmed. */
  predicate NewSession(d: Driver, cpuOn: int, t: Driver) {
    var s := t.session.generation;
    && s == (if d.session.generation == 0xffff_ffff then 1 else d.session.generation as int + 1)
    && t == d.(life := if cpuOn == 0 then Starting else Unarmed,
               session := Session(s, 0, if cpuOn == 0 then -115 else cpuOn),
               page := Page(PROTOCOL_MAGIC, PROTOCOL_VERSION, s, [[], [], [], []]), link := Link(s, 0),
               stop := Stop(0, 0, -11, -11), power := Power(true, cpuOn, PSCI_OFF, false))
  }

  lemma StartExactly(d: Driver, g: Geometry, sample: int, cpuOn: int, t: Driver)
    requires Inv(d, g) && t == Next(g, d, Start(sample, cpuOn))
    ensures d.power.attempted ==> StartCode(d, g, sample, cpuOn) == -114 && t == d
    ensures !d.power.attempted && d.written < g.imageSize ==> StartCode(d, g, sample, cpuOn) == -61 && t == d
    ensures !d.power.attempted && d.written == g.imageSize && sample != PSCI_OFF ==>
      StartCode(d, g, sample, cpuOn) == -16 && t == d.(power := Noticed(d.power, sample))
    ensures !d.power.attempted && d.written == g.imageSize && sample == PSCI_OFF ==>
      StartCode(d, g, sample, cpuOn) == cpuOn && NewSession(d, cpuOn, t)
  {}

  /** A rearm that finds no CPU_ON or an open file does nothing; one that finds the core not OFF, or a doorbell, only
      samples; any other forgets the session, its image and its results, but not the generation. */
  lemma RearmExactly(d: Driver, g: Geometry, sample: int, doorbell: bool, t: Driver, sampled: Driver)
    requires Inv(d, g) && t == Next(g, d, Rearm(sample, doorbell)) && sampled == Next(g, d, ReadAffinity(sample))
    ensures !d.power.attempted ==> RearmCode(d, sample, doorbell) == -22 && t == d
    ensures d.power.attempted && d.users.files != map[] ==> RearmCode(d, sample, doorbell) == -16 && t == d
    ensures d.power.attempted && d.users.files == map[] && (sample != PSCI_OFF || doorbell) ==>
      RearmCode(d, sample, doorbell) == -16 && t == sampled
    ensures d.power.attempted && d.users.files == map[] && sample == PSCI_OFF && !doorbell ==>
      && RearmCode(d, sample, doorbell) == 0
      && t == d.(life := Unarmed, written := 0, link := Link(0, 0), stop := Stop(0, 0, -11, -11),
                 users := sampled.users, power := Power(false, -11, PSCI_OFF, false),
                 session := Session(d.session.generation, 0, -11))
  {
    if d.users.files != map[] { assert |d.users.files| > 0 by { var id :| id in d.users.files; } }
  }

  // ----- The stop request -----

  /** In a reachable state the stop is refused with -ENOLINK when OFFLINE, with -EBUSY unless ACTIVE, or with a file
      open, or with a frame in reverse p0; without room it is given up with -ENOSPC; and else it is under way, with the
      next sequence and the doorbell's answer. */
  lemma StopExactly(d: Driver, g: Geometry, tr: Traffic, full: bool, notified: int, t: Driver)
    requires Inv(d, g) && |tr.forward| == 4 && t == Next(g, d, StopStore(tr, full, notified))
    ensures d.life == Offline ==> StopCode(d, tr, full, notified) == -67 && t == d
    ensures d.life != Active && d.life != Offline ==> StopCode(d, tr, full, notified) == -16 && t == d
    ensures d.life == Active && (d.users.files != map[] || d.page.rx[0] != []) ==>
      StopCode(d, tr, full, notified) == -16 && t == d
    ensures d.life == Active && d.users.files == map[] && d.page.rx[0] == [] ==>
      var s := t.link.nextSequence;
      && s == (if d.link.nextSequence == 0xffff_ffff then 1 else d.link.nextSequence as int + 1)
      && if full
         then StopCode(d, tr, full, notified) == -28
              && t == d.(stop := Stop(0, 0, -28, -115), link := Link(d.link.generation, s))
         else StopCode(d, tr, full, notified) == (if notified < 0 then notified else 0)
              && t == d.(life := Stopping, stop := Stop(s, 0, -115, notified), link := Link(d.link.generation, s))
  {
    PreflightLooksAtOneRing(d, tr);
    if d.users.files != map[] { assert |d.users.files| > 0 by { var id :| id in d.users.files; } }
  }

  // ----- Reading -----

  /** What a reader gets in a reachable state, by what its ring begins with. */
  lemma ReadExactly(d: Driver, g: Geometry, p: nat, nonblock: bool)
    requires Inv(d, g) && p < 4 && d.users.files != map[]
    ensures var end := ReadEndOf(d.life, d.link, d.page, p, nonblock);
            if d.life == Offline then end == Failed(-67)
            else
              && d.life == Active
              && if d.page.rx[p] == [] then end == (if nonblock then Failed(-11) else Sleeps)
                 else
                   var r := d.page.rx[p][0];
                   && (r.code == Ring.RING_OK ==> end == Delivered(r))
                   && (r.code == Ring.RING_INCOMPLETE ==> end == Failed(-11))
                   && (r.code == Ring.RING_BAD_CRC ==> end == Failed(-74))
                   && (r.code == Ring.RING_INVALID ==> end == Failed(-71))
                   && (r.code == Endpoint.STALE_FRAME ==> end == Failed(-116))
  {}
}
