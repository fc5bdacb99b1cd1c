/** A blocking reader of one priority (the read loop of the Linux driver), interleaved with every other step of the
    driver, with CPU3's pushes and doorbells, and with the mailbox interrupt. */
module ReaderWakeup {
  import opened Words
  import opened Protocol
  import opened Lifecycle
  import opened LifecycleSafety
  import Ring
  import Endpoint

  /** CPU3 inside an endpoint send: the frame is committed, and the B2A bit has been read as clear. */
  datatype Bell = Quiet | Pushed | Ringing

  /** The read loop: before loading rx_generation, with the value loaded, asleep on that value, or returned.
      `at` is the number of wakes that had happened when the value was loaded. */
  datatype Reader = Looping | Loaded(seen: u32, at: nat) | Asleep(seen: u32, at: nat) | Returned

  /** `wakes` counts the changes of this priority's rx_generation without wrapping round. */
  datatype State = State(d: Driver, bell: Bell, b2a: bool, acked: bool, reader: Reader, wakes: nat)

  datatype Move =
    | Handler(step: Step)                 // any locked region of the driver
    | Load | Try | Wake                   // the reader
    | Push(reply: Reply) | ReadBit | WriteBit   // CPU3
    | Ack | Callback                      // the mailbox driver clears B2A, then calls back

  /** A notification for this priority is on its way to the callback. */
  predicate InFlight(s: State) {
    s.bell != Quiet || s.b2a || s.acked
  }

  /** The file that the reader holds: it cannot be released while the read is running, and frames and callbacks of
      its priority come only through the moves below. */
  ghost predicate Allowed(s: State, p: nat, id: nat, m: Move) {
    match m
    case Handler(step) =>
      && Possible(s.d, step)
      && !(step.ReleaseFile? && step.id == id)
      && !(step.Cpu3Push? && step.priority == p) && !(step.MailboxCallback? && step.priority == p)
    case Push(reply) => WellCoded([reply])
    case _ => true
  }

  function Changes(before: u32, after: u32): nat {
    if before == after then 0 else 1
  }

  ghost function Apply(g: Geometry, s: State, p: nat, id: nat, m: Move): State
    requires Ready(s.d, g) && p < 4
  {
    if !Allowed(s, p, id, m) then s
    else
      match m
      case Handler(step) =>
        var t := Next(g, s.d, step);
        s.(d := t, wakes := s.wakes + if |t.users.wakes| == 4 then Changes(s.d.users.wakes[p], t.users.wakes[p]) else 0)
      case Load => if s.reader == Looping then s.(reader := Loaded(s.d.users.wakes[p], s.wakes)) else s
      case Try =>
        if !s.reader.Loaded? then s
        else if Gate(s.d.life) != 0 then s.(reader := Returned)
        else
          var code := ReceiveCode(s.d.link, s.d.page, p);
          s.(d := s.d.(page := Received(s.d.link, s.d.page, p)),
             reader := if code == Ring.RING_EMPTY then Asleep(s.reader.seen, s.reader.at) else Returned)
      case Wake =>
        if s.reader.Asleep? && s.d.users.wakes[p] != s.reader.seen then s.(reader := Looping) else s
      case Push(reply) =>
        if s.bell == Quiet then
          s.(d := s.d.(page := s.d.page.(rx := s.d.page.rx[p := s.d.page.rx[p] + [reply]])), bell := Pushed)
        else s
      case ReadBit => if s.bell == Pushed then s.(bell := if s.b2a then Quiet else Ringing) else s
      case WriteBit => if s.bell == Ringing then s.(bell := Quiet, b2a := true) else s
      case Ack => if s.b2a && !s.acked then s.(b2a := false, acked := true) else s
      case Callback =>
        if s.acked then s.(acked := false, d := s.d.(users := Rung(s.d.users, p)), wakes := s.wakes + 1) else s
  }

  /** A reader that sleeps on an unchanged counter has an open session, and an empty ring or a notification coming. */
  ghost predicate ReaderInv(s: State, g: Geometry, p: nat, id: nat) {
    && p < 4 && Inv(s.d, g) && WellCoded(s.d.page.rx[p])
    && id in s.d.users.files && s.d.users.files[id].priority == p
    && s.d.users.wakes[p] == s.wakes % U32
    && (s.reader.Loaded? || s.reader.Asleep? ==> s.reader.seen == s.reader.at % U32 && s.reader.at <= s.wakes)
    && (s.reader.Asleep? && s.reader.at == s.wakes ==> s.d.life == Active && (s.d.page.rx[p] == [] || InFlight(s)))
  }

  lemma BumpMoves(x: u32, n: nat)
    requires x == n % U32
    ensures Endpoint.Bump(x) == (n + 1) % U32 && Endpoint.Bump(x) != x
  {}

  /** With the reader's file open, a locked region moves this priority's counter by at most one, leaves an empty ring
      empty, keeps the file, and wakes the reader if it closes the session. */
  lemma HandlerMoves(d: Driver, g: Geometry, p: nat, id: nat, step: Step, t: Driver)
    requires Inv(d, g) && p < 4 && WellCoded(d.page.rx[p]) && id in d.users.files && d.users.files[id].priority == p
    requires Possible(d, step) && !(step.ReleaseFile? && step.id == id)
    requires !(step.Cpu3Push? && step.priority == p) && !(step.MailboxCallback? && step.priority == p)
    requires t == Next(g, d, step)
    ensures Inv(t, g) && id in t.users.files && t.users.files[id].priority == p
    ensures t.users.wakes[p] == d.users.wakes[p] || t.users.wakes[p] == Endpoint.Bump(d.users.wakes[p])
    ensures (d.page.rx[p] == [] ==> t.page.rx[p] == []) && WellCoded(t.page.rx[p])
    ensures d.life == Active && t.life != Active ==> t.users.wakes[p] == Endpoint.Bump(d.users.wakes[p])
  {
    StepKeeps(d, g, step, t);
    assert d.users.files != map[] && (d.life == Active || d.life == Offline);
    if d.life == Active && t.life != Active { LeavingActiveWakesReaders(d, g, step, t); }
    if step.ReadAffinity? || step.AffinityWork? || step.Start? || step.Rearm? {
      RefreshMoves(d, step.sample, Refresh(d, step.sample));
    }
  }

  lemma HandlerKeeps(s: State, g: Geometry, p: nat, id: nat, m: Move, t: State)
    requires ReaderInv(s, g, p, id) && m.Handler? && t == Apply(g, s, p, id, m)
    ensures ReaderInv(t, g, p, id)
  {
    if Allowed(s, p, id, m) {
      HandlerMoves(s.d, g, p, id, m.step, t.d);
      BumpMoves(s.d.users.wakes[p], s.wakes);
    }
  }

  lemma DoorbellKeeps(s: State, g: Geometry, p: nat, id: nat, m: Move, t: State)
    requires ReaderInv(s, g, p, id) && (m.ReadBit? || m.WriteBit? || m.Ack? || m.Callback?)
    requires t == Apply(g, s, p, id, m)
    ensures ReaderInv(t, g, p, id)
  {
    BumpMoves(s.d.users.wakes[p], s.wakes);
    TrafficKeeps(s.d, g, MailboxCallback(p), s.d.(users := Rung(s.d.users, p)));
  }

  lemma ReaderKeeps(s: State, g: Geometry, p: nat, id: nat, m: Move, t: State)
    requires ReaderInv(s, g, p, id) && (m.Load? || m.Try? || m.Wake?) && t == Apply(g, s, p, id, m)
    ensures ReaderInv(t, g, p, id)
  {
    if m.Try? && s.d.life == Active {
      TrafficKeeps(s.d, g, UserReceive(p), s.d.(page := Received(s.d.link, s.d.page, p)));
    }
  }

  lemma PushKeeps(s: State, g: Geometry, p: nat, id: nat, m: Move, t: State)
    requires ReaderInv(s, g, p, id) && m.Push? && t == Apply(g, s, p, id, m)
    ensures ReaderInv(t, g, p, id)
  {
    if Allowed(s, p, id, m) && s.bell == Quiet { TrafficKeeps(s.d, g, Cpu3Push(p, m.reply), t.d); }
  }

  lemma MoveKeeps(s: State, g: Geometry, p: nat, id: nat, m: Move, t: State)
    requires ReaderInv(s, g, p, id) && t == Apply(g, s, p, id, m)
    ensures ReaderInv(t, g, p, id)
  {
    if m.Handler? { HandlerKeeps(s, g, p, id, m, t); }
    else if m.Load? || m.Try? || m.Wake? { ReaderKeeps(s, g, p, id, m, t); }
    else if m.Push? { PushKeeps(s, g, p, id, m, t); }
    else { DoorbellKeeps(s, g, p, id, m, t); }
  }

  ghost function Run(g: Geometry, s: State, p: nat, id: nat, moves: seq<Move>): (t: State)
    requires ReaderInv(s, g, p, id)
    ensures ReaderInv(t, g, p, id)
    decreases |moves|
  {
    if moves == [] then s
    else
      MoveKeeps(s, g, p, id, moves[0], Apply(g, s, p, id, moves[0]));
      Run(g, Apply(g, s, p, id, moves[0]), p, id, moves[1..])
  }

  /** A read begins: the file is open, and nothing is known about the rings or the doorbells. */
  ghost predicate Begins(s: State, g: Geometry, p: nat, id: nat) {
    && p < 4 && Inv(s.d, g) && WellCoded(s.d.page.rx[p]) && id in s.d.users.files && s.d.users.files[id].priority == p
    && s.reader == Looping && s.wakes == s.d.users.wakes[p]
  }

  /** However the read is interleaved, a reader that sleeps and is not being woken has missed nothing: its counter has
      not moved, the session is ACTIVE, and its ring is empty or a notification is in flight - unless the counter has
      gone exactly all the way round, a multiple of 2^32 wakes, since it was loaded. */
  lemma NeverSleepsThroughAFrame(s: State, g: Geometry, p: nat, id: nat, moves: seq<Move>)
    requires Begins(s, g, p, id)
    ensures ReaderInv(s, g, p, id)
    ensures var t := Run(g, s, p, id, moves);
            t.reader.Asleep? && t.d.users.wakes[p] == t.reader.seen ==>
              if t.wakes == t.reader.at then t.d.life == Active && (t.d.page.rx[p] == [] || InFlight(t))
              else t.wakes - t.reader.at >= U32 && (t.wakes - t.reader.at) % U32 == 0
  {
    var t := Run(g, s, p, id, moves);
    if t.reader.Asleep? && t.d.users.wakes[p] == t.reader.seen { SameRemainder(t.reader.at, t.wakes); }
  }

  lemma SameRemainder(a: nat, b: nat)
    requires a <= b && a % U32 == b % U32
    ensures (b - a) % U32 == 0
  {}

  /** A frame or a closed session behind a moved counter is not slept through: the reader's next check lets it go. */
  lemma MovedCounterWakes(s: State, g: Geometry, p: nat, id: nat)
    requires ReaderInv(s, g, p, id) && s.reader.Asleep? && s.reader.at < s.wakes < s.reader.at + U32
    ensures Apply(g, s, p, id, Wake).reader == Looping
  {}

  // ----- All the way round -----

  const NOTE: Reply := Reply(Ring.RING_OK, MSG_PONG, 4, 0, 0)

  /** CPU3 sends one frame, rings, and the mailbox driver calls back. */
  const SENDS: seq<Move> := [Push(NOTE), ReadBit, WriteBit, Ack, Callback]

  /** Nothing is in flight on either side of this priority, and the session is open. */
  ghost predicate Still(s: State, p: nat)
    requires p < |s.d.page.rx|
  {
    !InFlight(s) && s.d.life == Active && s.d.page.rx[p] == []
  }

  /** The state once the counter has moved `n` times since `s`, with `q` in the ring. */
  ghost function Later(s: State, p: nat, n: nat, q: seq<Reply>): State
    requires p < |s.d.page.rx| && p < |s.d.users.wakes|
  {
    s.(d := s.d.(page := s.d.page.(rx := s.d.page.rx[p := q]),
                 users := s.d.users.(wakes := s.d.users.wakes[p := (s.wakes + n) % U32])),
       wakes := s.wakes + n)
  }

  lemma {:induction false} RunInTwo(g: Geometry, s: State, p: nat, id: nat, a: seq<Move>, b: seq<Move>)
    requires ReaderInv(s, g, p, id)
    ensures Run(g, s, p, id, a + b) == Run(g, Run(g, s, p, id, a), p, id, b)
    decreases |a|
  {
    if a == [] { assert a + b == b; }
    else {
      assert (a + b)[0] == a[0] && (a + b)[1..] == a[1..] + b;
      MoveKeeps(s, g, p, id, a[0], Apply(g, s, p, id, a[0]));
      RunInTwo(g, Apply(g, s, p, id, a[0]), p, id, a[1..], b);
    }
  }

  lemma RunOne(g: Geometry, s: State, p: nat, id: nat, m: Move, rest: seq<Move>, t: State)
    requires ReaderInv(s, g, p, id) && t == Apply(g, s, p, id, m)
    ensures ReaderInv(t, g, p, id) && Run(g, s, p, id, [m] + rest) == Run(g, t, p, id, rest)
  {
    MoveKeeps(s, g, p, id, m, t);
    assert ([m] + rest)[1..] == rest;
  }

  lemma Rings(g: Geometry, s: State, p: nat, id: nat)
    requires ReaderInv(s, g, p, id) && s.bell == Pushed && !s.b2a && !s.acked
    ensures Run(g, s, p, id, SENDS[1..]) == Later(s.(bell := Quiet), p, 1, s.d.page.rx[p])
  {
    var a := s.(bell := Ringing);
    assert SENDS[1..] == [ReadBit] + ([WriteBit] + ([Ack] + ([Callback] + [])));
    RunOne(g, s, p, id, ReadBit, [WriteBit] + ([Ack] + ([Callback] + [])), a);
    var b := s.(bell := Quiet, b2a := true);
    RunOne(g, a, p, id, WriteBit, [Ack] + ([Callback] + []), b);
    var c := s.(bell := Quiet, b2a := false, acked := true);
    RunOne(g, b, p, id, Ack, [Callback] + [], c);
    var d := Apply(g, c, p, id, Callback);
    RunOne(g, c, p, id, Callback, [], d);
    BumpMoves(s.d.users.wakes[p], s.wakes);
    assert s.d.page.rx[p := s.d.page.rx[p]] == s.d.page.rx;
  }

  /** One frame and its doorbell move the counter by one, and leave the sleeping reader asleep. */
  lemma SendsMove(g: Geometry, s: State, p: nat, id: nat)
    requires ReaderInv(s, g, p, id) && Still(s, p)
    ensures Run(g, s, p, id, SENDS) == Later(s, p, 1, [NOTE])
  {
    var a := Apply(g, s, p, id, Push(NOTE));
    assert SENDS == [Push(NOTE)] + SENDS[1..];
    RunOne(g, s, p, id, Push(NOTE), SENDS[1..], a);
    assert [] + [NOTE] == [NOTE];
    Rings(g, a, p, id);
    assert a.d.page.rx[p := [NOTE]] == s.d.page.rx[p := [NOTE]];
  }

  /** Another thread that shares the file takes the frame. */
  function Rounds(p: nat, n: nat): seq<Move> {
    if n == 0 then [] else Rounds(p, n - 1) + (SENDS + [Handler(UserReceive(p))])
  }

  lemma RoundMoves(g: Geometry, s: State, p: nat, id: nat)
    requires ReaderInv(s, g, p, id) && Still(s, p)
    ensures Run(g, s, p, id, SENDS + [Handler(UserReceive(p))]) == Later(s, p, 1, [])
  {
    SendsMove(g, s, p, id);
    RunInTwo(g, s, p, id, SENDS, [Handler(UserReceive(p))]);
    var a := Later(s, p, 1, [NOTE]);
    RunOne(g, a, p, id, Handler(UserReceive(p)), [], Apply(g, a, p, id, Handler(UserReceive(p))));
    assert [NOTE][1..] == [];
    assert ReceiveCode(a.d.link, a.d.page, p) == Ring.RING_OK;
    assert a.d.page.rx[p := []] == s.d.page.rx[p := []];
  }

  lemma {:induction false} RoundsMove(g: Geometry, s: State, p: nat, id: nat, n: nat)
    requires ReaderInv(s, g, p, id) && Still(s, p)
    ensures Run(g, s, p, id, Rounds(p, n)) == Later(s, p, n, [])
  {
    if n == 0 {
      assert s.d.page.rx[p := []] == s.d.page.rx;
      assert s.d.users.wakes[p := s.wakes % U32] == s.d.users.wakes;
    } else {
      RoundsMove(g, s, p, id, n - 1);
      RunInTwo(g, s, p, id, Rounds(p, n - 1), SENDS + [Handler(UserReceive(p))]);
      var a := Later(s, p, n - 1, []);
      RoundMoves(g, a, p, id);
      LaterAgain(s, p, n - 1, []);
    }
  }

  lemma LaterAgain(s: State, p: nat, n: nat, q: seq<Reply>)
    requires p < |s.d.page.rx| && p < |s.d.users.wakes|
    ensures Later(Later(s, p, n, []), p, 1, q) == Later(s, p, n + 1, q)
  {
    assert s.d.page.rx[p := []][p := q] == s.d.page.rx[p := q];
  }

  /** The reader loads the counter, finds the ring empty and goes to sleep. */
  lemma FallsAsleep(g: Geometry, s: State, p: nat, id: nat)
    requires Begins(s, g, p, id) && ReaderInv(s, g, p, id) && Still(s, p)
    ensures Run(g, s, p, id, [Load, Try]) == s.(reader := Asleep(s.d.users.wakes[p], s.wakes))
  {
    var a := s.(reader := Loaded(s.d.users.wakes[p], s.wakes));
    assert [Load, Try] == [Load] + ([Try] + []);
    RunOne(g, s, p, id, Load, [Try] + [], a);
    RunOne(g, a, p, id, Try, [], Apply(g, a, p, id, Try));
  }

  /** The way round is real: from every read that begins on an empty ring with nothing in flight, there is a run of 2^32
      wakes after which the reader sleeps on, its counter unmoved for all it can tell, with a frame in its ring and no
      notification on its way. */
  lemma WrappedCounterStrandsTheReader(g: Geometry, s: State, p: nat, id: nat) returns (moves: seq<Move>)
    requires Begins(s, g, p, id) && Still(s, p)
    ensures ReaderInv(s, g, p, id)
    ensures var t := Run(g, s, p, id, moves);
            && t.reader.Asleep? && t.d.users.wakes[p] == t.reader.seen && t.wakes == t.reader.at + U32
            && t.d.life == Active && t.d.page.rx[p] == [NOTE] && !InFlight(t)
            && Apply(g, t, p, id, Wake) == t
  {
    var n: nat := U32 - 1;
    FallsAsleep(g, s, p, id);
    var a := Run(g, s, p, id, [Load, Try]);
    RoundsMove(g, a, p, id, n);
    var b := Run(g, a, p, id, Rounds(p, n));
    SendsMove(g, b, p, id);
    LaterAgain(a, p, n, [NOTE]);
    moves := [Load, Try] + (Rounds(p, n) + SENDS);
    RunInTwo(g, s, p, id, [Load, Try], Rounds(p, n) + SENDS);
    RunInTwo(g, a, p, id, Rounds(p, n), SENDS);
  }
}
