/** One peripheral call from end to end: the agent's request through CPU3's worker and service and back. */
module PeripheralRpc {
  import opened Words
  import opened Protocol
  import opened Cpu3Service
  import opened Cpu3Wakeup
  import opened Cpu3Replies
  import Cpu3Drain
  import Ring
  import Codec = PeripheralCodec
  import Service = PeripheralService
  import Agent = PeripheralAgent

  /** An answer to the call: a verdict or a result that names its sequence. */
  predicate Ours(a: Answer, r: Request) {
    a.word0 == r.sequence && (a.kind == MSG_ACK || a.kind == MSG_NACK || a.kind == MSG_PERIPHERAL_RESULT)
  }

  predicate AllOurs(todo: seq<Answer>, r: Request) {
    forall i :: 0 <= i < |todo| ==> Ours(todo[i], r)
  }

  /** Ring p1 since the call began: `n` frames had been committed and `popped` requests taken before it. */
  ghost predicate CallInv(s: State, r: Request, n: nat, popped: nat)
    requires Shaped(s)
  {
    && n <= |s.out[1]| && popped <= s.popped[1]
    && s.popped[1] + |s.fwd[1]| <= popped + 1
    && (s.fwd[1] != [] ==> s.fwd[1][0] == r)
    && (forall i :: 0 <= i < n ==> s.out[1][i].request <= popped)
    && (forall i :: n <= i < |s.out[1]| ==> s.out[1][i].request == popped + 1 && Ours(s.out[1][i].answer, r))
    && (s.k.worker.Sending? && s.k.worker.p == 1 ==> s.popped[1] == popped + 1 && AllOurs(s.k.worker.todo, r))
  }

  /** Nobody else writes to p1: the call's own request is pushed, once. */
  predicate OnlyOurRequest(s: State, step: Step, r: Request, popped: nat)
    requires Shaped(s)
  {
    step.LinuxPush? && step.p == 1 ==> step.r == r && s.popped[1] + |s.fwd[1]| == popped
  }

  lemma PlansAreOurs(stopControl: bool, r: Request, x: Devices)
    requires r.kind == MSG_PERIPHERAL_REQUEST
    ensures AllOurs(Plan(stopControl, 1, r, x), r) && AllOurs(Rejection(1, r), r)
  {}

  lemma ReceiveCall(s: State, stopControl: bool, x: Devices, r: Request, n: nat, popped: nat, t: State)
    requires Shaped(s) && CallInv(s, r, n, popped) && r.kind == MSG_PERIPHERAL_REQUEST
    requires s.k.worker.Drain? && t == Receive(s, stopControl, x) && Shaped(t)
    ensures CallInv(t, r, n, popped)
  {
    PlansAreOurs(stopControl, r, x);
    ReceiveBegins(s, stopControl, x, t);
    Cpu3Drain.ReceiveShape(s, stopControl, x, t);
  }

  lemma SendOut(s: State, room: bool, t: State)
    requires Shaped(s) && s.k.worker.Sending? && t == SendNext(s, room)
    ensures |t.out| == 4 && t.popped == s.popped && t.fwd == s.fwd
    ensures var w := s.k.worker;
            || t.out[1] == s.out[1]
            || (w.p == 1 && w.todo != [] && t.out[1] == s.out[1] + [Sent(w.todo[0], s.popped[1])])
  {}

  lemma SendCall(s: State, room: bool, r: Request, n: nat, popped: nat, t: State)
    requires Shaped(s) && CallInv(s, r, n, popped) && s.k.worker.Sending? && t == SendNext(s, room) && Shaped(t)
    ensures CallInv(t, r, n, popped)
  {
    SendOut(s, room, t);
    Cpu3Drain.SendShape(s, room, t);
  }

  lemma PassCall(s: State, r: Request, n: nat, popped: nat, t: State)
    requires Shaped(s) && CallInv(s, r, n, popped) && Shaped(t)
    requires t.out == s.out && t.popped == s.popped && t.fwd == s.fwd && !t.k.worker.Sending?
    ensures CallInv(t, r, n, popped)
  {}

  lemma LinuxCall(s: State, step: Step, r: Request, n: nat, popped: nat, t: State)
    requires Shaped(s) && CallInv(s, r, n, popped) && OnlyOurRequest(s, step, r, popped)
    requires t == LinuxStep(s, step) && Shaped(t)
    ensures CallInv(t, r, n, popped)
  {
    LinuxQuiet(s, step, t);
  }

  lemma WorkerCall(stopControl: bool, s: State, room: bool, x: Devices, r: Request, n: nat, popped: nat, t: State)
    requires Shaped(s) && CallInv(s, r, n, popped) && r.kind == MSG_PERIPHERAL_REQUEST
    requires t == WorkerMove(s, stopControl, room, x) && Shaped(t)
    ensures CallInv(t, r, n, popped)
  {
    var w := s.k.worker;
    if w.Drain? { ReceiveCall(s, stopControl, x, r, n, popped, t); }
    else if w.Sending? { SendCall(s, room, r, n, popped, t); }
    else {
      PassHalts(s.k, s.published, w.Recheck? && s.fwd[w.p] != []);
      PassCall(s, r, n, popped, t);
    }
  }

  lemma MainCall(s: State, room: bool, r: Request, n: nat, popped: nat, t: State)
    requires Shaped(s) && CallInv(s, r, n, popped) && t == MainMove(s, room) && Shaped(t)
    ensures CallInv(t, r, n, popped)
  {}

  lemma StepCall(stopControl: bool, s: State, step: Step, r: Request, n: nat, popped: nat, t: State)
    requires Inv(s) && CallInv(s, r, n, popped) && r.kind == MSG_PERIPHERAL_REQUEST
    requires OnlyOurRequest(s, step, r, popped) && t == Apply(stopControl, s, step) && Inv(t)
    ensures CallInv(t, r, n, popped)
  {
    if ByLinux(step) { LinuxCall(s, step, r, n, popped, t); }
    else if s.k.halted { }
    else if step.IsrClear? || step.IsrPost? { IsrQuiet(s, step, t); }
    else if s.k.isr.Cleared? { }
    else if step.WorkerStep? { WorkerCall(stopControl, s, step.room, step.x, r, n, popped, t); }
    else { MainCall(s, step.room, r, n, popped, t); }
  }

  ghost predicate OneCall(stopControl: bool, s: State, steps: seq<Step>, r: Request, popped: nat)
    requires Inv(s)
    decreases |steps|
  {
    steps == [] ||
    (OnlyOurRequest(s, steps[0], r, popped)
     && (StepKeeps(stopControl, s, steps[0], Apply(stopControl, s, steps[0]));
         OneCall(stopControl, Apply(stopControl, s, steps[0]), steps[1..], r, popped)))
  }

  lemma {:induction false} RunCall(stopControl: bool, s: State, steps: seq<Step>, r: Request, n: nat, popped: nat)
    requires Inv(s) && ReadyInv(s) && RingInv(s, 1) && CallInv(s, r, n, popped) && r.kind == MSG_PERIPHERAL_REQUEST
    requires OneCall(stopControl, s, steps, r, popped)
    ensures var t := Run(stopControl, s, steps); CallInv(t, r, n, popped) && RingInv(t, 1)
    decreases |steps|
  {
    if steps != [] {
      var t := Apply(stopControl, s, steps[0]);
      StepKeeps(stopControl, s, steps[0], t);
      StepReady(stopControl, s, steps[0], t);
      StepReplies(stopControl, s, steps[0], 1, t);
      StepCall(stopControl, s, steps[0], r, n, popped, t);
      RunCall(stopControl, t, steps[1..], r, n, popped);
    }
  }

  /** A call begins: no request waits for CPU3 on p1, and it is not answering there; what it has sent may still wait for
      Linux. */
  ghost predicate Begins(s: State) {
    && Inv(s) && ReadyInv(s) && RingInv(s, 1) && s.fwd[1] == []
    && !(s.k.worker.Sending? && s.k.worker.p == 1)
  }

  /** Nothing, one verdict, or an acknowledgement and its result. */
  predicate AnswerShape(q: seq<Sent>, r: Request) {
    || q == []
    || (|q| == 1 && IsVerdict(q[0].answer) && Ours(q[0].answer, r))
    || (|q| == 2 && q[0].answer.kind == MSG_ACK && Ours(q[0].answer, r)
        && q[1].answer.kind == MSG_PERIPHERAL_RESULT && Ours(q[1].answer, r))
  }

  lemma NotAResult(all: seq<Sent>, n: nat, popped: nat)
    requires n < |all| && Paired(all) && all[n].request == popped + 1
    requires forall i :: 0 <= i < n ==> all[i].request <= popped
    ensures !IsResult(all[n].answer)
  {
    if n > 0 { assert all[n - 1].request <= popped; }
  }

  lemma NothingThird(all: seq<Sent>, n: nat, popped: nat, r: Request)
    requires n + 2 < |all| && Paired(all) && OneVerdict(all)
    requires all[n].answer.kind == MSG_ACK && all[n + 1].answer.kind == MSG_PERIPHERAL_RESULT
    requires all[n].request == popped + 1
    ensures !(all[n + 2].request == popped + 1 && Ours(all[n + 2].answer, r))
  {
    assert IsVerdict(all[n].answer) && IsVerdict(all[n + 2].answer) ==> all[n].request != all[n + 2].request;
  }

  lemma SuffixShape(all: seq<Sent>, n: nat, popped: nat, r: Request)
    requires n <= |all| && Paired(all) && OneVerdict(all)
    requires forall i :: 0 <= i < n ==> all[i].request <= popped
    requires forall i :: n <= i < |all| ==> all[i].request == popped + 1 && Ours(all[i].answer, r)
    ensures AnswerShape(all[n..], r)
  {
    var q := all[n..];
    if |q| >= 1 {
      assert q[0] == all[n] && Ours(all[n].answer, r);
      NotAResult(all, n, popped);
    }
    if |q| >= 2 {
      assert q[1] == all[n + 1] && Ours(all[n + 1].answer, r);
      assert !IsVerdict(all[n + 1].answer);
      assert Acknowledges(all[n], all[n + 1].answer, all[n + 1].request);
    }
    if |q| >= 3 { NothingThird(all, n, popped, r); }
  }

  /** CPU3 committed these frames for the request that it took with this number. */
  predicate ForRequest(q: seq<Sent>, tag: nat) {
    forall i :: 0 <= i < |q| ==> q[i].request == tag
  }

  /** From an empty p1 with one call in flight, everything that CPU3 puts on p1 is the answer to that call: nothing yet,
      one verdict, or its acknowledgement followed by its result. */
  lemma OneCallOneAnswer(stopControl: bool, s: State, steps: seq<Step>, r: Request)
    requires Begins(s) && r.kind == MSG_PERIPHERAL_REQUEST && OneCall(stopControl, s, steps, r, s.popped[1])
    ensures var t := Run(stopControl, s, steps);
            |s.out[1]| <= |t.out[1]| && AnswerShape(t.out[1][|s.out[1]|..], r)
            && ForRequest(t.out[1][|s.out[1]|..], s.popped[1] + 1)
  {
    RunCall(stopControl, s, steps, r, |s.out[1]|, s.popped[1]);
    var t := Run(stopControl, s, steps);
    SuffixShape(t.out[1], |s.out[1]|, s.popped[1], r);
  }

  // ----- Back at the agent -----

  /** The user record in which the driver delivers a committed frame; `answers` are the service's answers to the
      requests that CPU3 has taken from p1, by number. */
  ghost predicate Carries(bytes: seq<bv8>, f: Sent, answers: nat -> Codec.Result) {
    && |bytes| == 48
    && var u := Codec.LoadFrame(bytes);
       && u.priority == 1 && u.kind == f.answer.kind && u.length <= 28
       && (u.kind == MSG_ACK || u.kind == MSG_NACK ==>
             u.length == 8 && LoadU32(u.payload, 0) == f.answer.word0 && LoadU32(u.payload, 4) == f.answer.word1)
       && (u.kind == MSG_PERIPHERAL_RESULT ==>
             && u.length == 28 && u.payload[..28] == Codec.StoreResult(answers(f.request))
             && answers(f.request).sequence == f.answer.word0)
  }

  /** The records that the agent reads are these frames, in order. */
  ghost predicate Delivered(events: seq<Agent.Event>, q: seq<Sent>, answers: nat -> Codec.Result)
    decreases |events|
  {
    events == [] ||
    (if !events[0].Readable? then Delivered(events[1..], q, answers)
     else q != [] && Carries(events[0].bytes, q[0], answers) && Delivered(events[1..], q[1..], answers))
  }

  predicate IsAck(f: Sent) {
    f.answer.kind == MSG_ACK && f.answer.word1 == 0
  }

  predicate AllAcks(q: seq<Sent>) {
    forall i :: 0 <= i < |q| ==> IsAck(q[i])
  }

  /** A result that an agent waiting for `op` can report as a success. */
  predicate Good(f: Sent, op: u32, answers: nat -> Codec.Result) {
    && f.answer.kind == MSG_PERIPHERAL_RESULT
    && var r := answers(f.request); r.op == op && r.status == 0 && r.length <= 8
  }

  /** What the agent makes of one frame: an acknowledgement, a result for its operation, or an error. */
  predicate Shows(turn: Agent.Turn, f: Sent, op: u32, answers: nat -> Codec.Result) {
    var r := answers(f.request);
    if IsAck(f) then turn.AckSeen? && turn.ack.peer == f.answer.word0
    else if f.answer.kind == MSG_PERIPHERAL_RESULT && r.op == op && r.length <= 8
    then turn == Agent.ResultSeen(r) && r.sequence == f.answer.word0
    else turn == Agent.Over(Agent.Failure(Complaint(f)))
  }

  /** What the agent calls a frame that it has no use for. */
  function Complaint(f: Sent): string {
    if f.answer.kind == MSG_ACK then "ack_failed"
    else if f.answer.kind == MSG_NACK then "nack"
    else if f.answer.kind == MSG_PERIPHERAL_RESULT then "invalid_peripheral_result"
    else "unexpected_frame"
  }

  lemma ResultShows(op: u32, bytes: seq<bv8>, f: Sent, answers: nat -> Codec.Result)
    requires Carries(bytes, f, answers) && f.answer.kind == MSG_PERIPHERAL_RESULT
    ensures Shows(Agent.Seen(op, Agent.Readable(bytes)), f, op, answers)
  {
    Codec.ResultRoundTrip(answers(f.request), Codec.StoreResult(answers(f.request)));
  }

  lemma CarriedShows(op: u32, bytes: seq<bv8>, f: Sent, answers: nat -> Codec.Result)
    requires Carries(bytes, f, answers)
    ensures Shows(Agent.Seen(op, Agent.Readable(bytes)), f, op, answers)
  {
    if f.answer.kind == MSG_PERIPHERAL_RESULT { ResultShows(op, bytes, f, answers); }
  }

  /** How many records come before the deadline or an error ends the waiting. */
  function InTime(events: seq<Agent.Event>): nat {
    if events == [] || events[0].Deadline? || events[0].Hangup? || events[0].ReadFails? then 0
    else (if events[0].Readable? then 1 else 0) + InTime(events[1..])
  }

  /** The turns of the loop show the first `n` of these frames, and then end it. */
  predicate Shown(turns: seq<Agent.Turn>, q: seq<Sent>, n: nat, op: u32, answers: nat -> Codec.Result)
    decreases |turns|
  {
    if turns == [] then n == 0
    else if turns[0].Idle? then Shown(turns[1..], q, n, op, answers)
    else if n == 0 then turns[0].Over? && !turns[0].outcome.Success?
    else q != [] && Shows(turns[0], q[0], op, answers) && Shown(turns[1..], q[1..], n - 1, op, answers)
  }

  lemma ShownNext(turn: Agent.Turn, rest: seq<Agent.Turn>, q: seq<Sent>, n: nat, op: u32, answers: nat -> Codec.Result)
    requires q != [] && Shows(turn, q[0], op, answers) && Shown(rest, q[1..], n, op, answers)
    ensures Shown([turn] + rest, q, n + 1, op, answers)
  {
    assert ([turn] + rest)[1..] == rest;
  }

  lemma ShownQuiet(turn: Agent.Turn, rest: seq<Agent.Turn>, q: seq<Sent>, n: nat, op: u32, answers: nat -> Codec.Result)
    requires (turn.Idle? || (turn.Over? && !turn.outcome.Success?)) && Shown(rest, q, n, op, answers)
    ensures Shown([turn] + rest, q, if turn.Idle? then n else 0, op, answers)
  {
    assert ([turn] + rest)[1..] == rest;
  }

  /** `seen` makes of every event what the loop makes of it. */
  ghost predicate Sees(seen: Agent.Event -> Agent.Turn, op: u32, answers: nat -> Codec.Result) {
    && (forall bytes, f :: Carries(bytes, f, answers) ==> Shows(seen(Agent.Readable(bytes)), f, op, answers))
    && seen(Agent.Nothing).Idle?
    && (forall e: Agent.Event :: e.Deadline? || e.Hangup? || e.ReadFails? ==>
          seen(e).Over? && !seen(e).outcome.Success?)
  }

  lemma {:induction false} DeliveredShows(seen: Agent.Event -> Agent.Turn, op: u32, events: seq<Agent.Event>,
                                          q: seq<Sent>, answers: nat -> Codec.Result)
    requires Sees(seen, op, answers) && Delivered(events, q, answers)
    ensures InTime(events) <= |q| && Shown(Agent.Turns(seen, events), q, InTime(events), op, answers)
    decreases |events|
  {
    if events != [] {
      var rest := events[1..];
      if events[0].Readable? {
        DeliveredShows(seen, op, rest, q[1..], answers);
        ShownNext(seen(events[0]), Agent.Turns(seen, rest), q, InTime(rest), op, answers);
      } else {
        DeliveredShows(seen, op, rest, q, answers);
        ShownQuiet(seen(events[0]), Agent.Turns(seen, rest), q, InTime(rest), op, answers);
      }
    }
  }

  lemma LoopSees(op: u32, answers: nat -> Codec.Result)
    ensures Sees(Agent.SeenFor(op), op, answers)
  {
    forall bytes, f | Carries(bytes, f, answers)
      ensures Shows(Agent.SeenFor(op)(Agent.Readable(bytes)), f, op, answers)
    {
      CarriedShows(op, bytes, f, answers);
    }
  }

  /** Every result but one in front stands right behind its acknowledgement. */
  predicate Followed(q: seq<Sent>) {
    forall i :: 0 < i < |q| && IsResult(q[i].answer) ==> Acknowledges(q[i - 1], q[i].answer, q[i].request)
  }

  /** The acknowledgements in front. */
  function Acks(q: seq<Sent>): (n: nat)
    ensures n <= |q| && AllAcks(q[..n]) && (n < |q| ==> !IsAck(q[n]))
  {
    if q == [] || !IsAck(q[0]) then 0
    else
      assert q == [q[0]] + q[1..];
      1 + Acks(q[1..])
  }

  /** The last acknowledgement that the agent has read belongs to the frame that is next, if that is a result. */
  predicate Linked(ack: Option<Agent.Ack>, q: seq<Sent>) {
    q != [] && IsResult(q[0].answer) ==> ack.Some? && ack.value.peer == q[0].answer.word0
  }

  /** The success that a result amounts to: its value and the bytes that it says it has. */
  function Reports(r: Codec.Result): Agent.Outcome {
    Agent.Success(r.value, r.data[..if r.length <= 8 then r.length else 8], r.sequence)
  }

  /** What a frame that is no status-zero acknowledgement makes of the call, behind its acknowledgement if it is a
      result. */
  function Verdict(f: Sent, op: u32, answers: nat -> Codec.Result): Agent.Outcome {
    var r := answers(f.request);
    if f.answer.kind != MSG_PERIPHERAL_RESULT || r.op != op || r.length > 8 then Agent.Failure(Complaint(f))
    else if r.status == 0 then Reports(r)
    else if r.status == -1 then Agent.Failure("peripheral_invalid_request")
    else if r.status == -2 then Agent.Failure("peripheral_timeout")
    else if r.status == -19 then Agent.Failure("peripheral_unavailable")
    else if r.status == -22 then Agent.Failure("peripheral_invalid_argument")
    else Agent.Failure("peripheral_failed")
  }

  /** Waiting with no result yet: an acknowledgement replaces the one before; the first frame that is none decides. */
  lemma {:induction false} SettledExactly(ack: Option<Agent.Ack>, turns: seq<Agent.Turn>, q: seq<Sent>, n: nat, op: u32,
                                          answers: nat -> Codec.Result)
    requires Shown(turns, q, n, op, answers) && Linked(ack, q) && Followed(q)
    ensures var k, o := Acks(q), Agent.Settled(ack, None, turns);
            if k < n && k < |q| then o == Verdict(q[k], op, answers) else !o.Success?
    decreases |turns|
  {
    if turns != [] {
      if turns[0].Idle? { SettledExactly(ack, turns[1..], q, n, op, answers); }
      else if n > 0 && IsAck(q[0]) {
        SettledExactly(Some(turns[0].ack), turns[1..], q[1..], n - 1, op, answers);
      }
    }
  }

  // ----- A result whose acknowledgement is gone -----

  /** The front of the ring is the result of a call whose agent has read the acknowledgement and then given up. */
  predicate Orphan(q: seq<Sent>) {
    q != [] && IsResult(q[0].answer)
  }

  lemma {:induction false} SettledByAck(r: Codec.Result, turns: seq<Agent.Turn>, q: seq<Sent>, n: nat, op: u32,
                                        answers: nat -> Codec.Result)
    requires Shown(turns, q, n, op, answers) && !Orphan(q)
    ensures var o := Agent.Settled(None, Some(r), turns);
            if n > 0 && q != [] && IsAck(q[0])
            then o == if q[0].answer.word0 != r.sequence then Agent.Failure("sequence_mismatch")
                      else if r.status != 0 then Agent.Failure(Agent.StatusError(r.status)) else Reports(r)
            else !o.Success?
    decreases |turns|
  {
    if turns != [] && turns[0].Idle? { SettledByAck(r, turns[1..], q, n, op, answers); }
  }

  /** It is taken for a success only if the next frame is an acknowledgement of a request with the same sequence; with
      another sequence the call ends in sequence_mismatch. */
  lemma {:induction false} OrphanExactly(turns: seq<Agent.Turn>, q: seq<Sent>, n: nat, op: u32,
                                         answers: nat -> Codec.Result)
    requires Shown(turns, q, n, op, answers) && Followed(q) && Orphan(q)
    ensures var r, o := answers(q[0].request), Agent.Settled(None, None, turns);
            var met := n >= 2 && |q| >= 2 && Good(q[0], op, answers) && IsAck(q[1]);
            && (o.Success? <==> met && q[1].answer.word0 == r.sequence)
            && (o.Success? ==> o == Reports(r))
            && (met && q[1].answer.word0 != r.sequence ==> o == Agent.Failure("sequence_mismatch"))
    decreases |turns|
  {
    if turns != [] {
      if turns[0].Idle? { OrphanExactly(turns[1..], q, n, op, answers); }
      else if n > 0 {
        assert !Orphan(q[1..]);
        SettledByAck(answers(q[0].request), turns[1..], q[1..], n - 1, op, answers);
      }
    }
  }

  // ----- Which frame is taken for the answer -----

  /** The frame whose result an agent reports that waits for `op` and reads `q`: the first that is no status-zero
      acknowledgement, if it is a good result; a result in front needs a matching acknowledgement behind it. */
  function Taken(q: seq<Sent>, op: u32, answers: nat -> Codec.Result): (taken: Option<nat>)
    ensures taken.Some? ==> taken.value < |q| && Good(q[taken.value], op, answers)
  {
    if Orphan(q) then
      if |q| >= 2 && Good(q[0], op, answers) && IsAck(q[1]) && q[1].answer.word0 == answers(q[0].request).sequence
      then Some(0) else None
    else
      var n := Acks(q);
      if n < |q| && Good(q[n], op, answers) then Some(n) else None
  }

  lemma {:induction false} AcksBefore(q: seq<Sent>, n: nat)
    requires n <= |q|
    ensures Acks(q[..n]) == if Acks(q) <= n then Acks(q) else n
    decreases |q|
  {
    if n > 0 && IsAck(q[0]) {
      assert q[..n][1..] == q[1..][..n - 1];
      AcksBefore(q[1..], n - 1);
    }
  }

  /** The agent succeeds exactly if there is such a frame among those that come in time, and reports its result. */
  lemma SuccessExactly(op: u32, q: seq<Sent>, answers: nat -> Codec.Result, events: seq<Agent.Event>)
    requires Delivered(events, q, answers) && Followed(q)
    ensures InTime(events) <= |q|
    ensures var taken, o := Taken(q[..InTime(events)], op, answers), Agent.Awaited(op, None, None, events);
            && (o.Success? <==> taken.Some?)
            && (taken.Some? ==> o == Reports(answers(q[taken.value].request)))
  {
    var n, turns := InTime(events), Agent.Turns(Agent.SeenFor(op), events);
    LoopSees(op, answers);
    DeliveredShows(Agent.SeenFor(op), op, events, q, answers);
    Agent.AwaitedIsSettled(op, None, None, events);
    if Orphan(q) { OrphanExactly(turns, q, n, op, answers); }
    else {
      SettledExactly(None, turns, q, n, op, answers);
      AcksBefore(q, n);
    }
  }

  /** Without a lone result in front, the first frame that is no status-zero acknowledgement decides the call. */
  lemma OutcomeExactly(op: u32, q: seq<Sent>, answers: nat -> Codec.Result, events: seq<Agent.Event>)
    requires Delivered(events, q, answers) && Followed(q) && !Orphan(q)
    ensures var k, o := Acks(q), Agent.Awaited(op, None, None, events);
            if k < InTime(events) then k < |q| && o == Verdict(q[k], op, answers) else !o.Success?
  {
    LoopSees(op, answers);
    DeliveredShows(Agent.SeenFor(op), op, events, q, answers);
    Agent.AwaitedIsSettled(op, None, None, events);
    SettledExactly(None, Agent.Turns(Agent.SeenFor(op), events), q, InTime(events), op, answers);
  }

  /** A good result that has lost its acknowledgement makes the next call fail, unless the sequences are the same. */
  lemma OrphanEndsInMismatch(op: u32, q: seq<Sent>, answers: nat -> Codec.Result, events: seq<Agent.Event>)
    requires Delivered(events, q, answers) && Followed(q) && Orphan(q) && Good(q[0], op, answers)
    requires InTime(events) >= 2 && |q| >= 2 && IsAck(q[1]) && q[1].answer.word0 != answers(q[0].request).sequence
    ensures Agent.Awaited(op, None, None, events) == Agent.Failure("sequence_mismatch")
  {
    LoopSees(op, answers);
    DeliveredShows(Agent.SeenFor(op), op, events, q, answers);
    Agent.AwaitedIsSettled(op, None, None, events);
    OrphanExactly(Agent.Turns(Agent.SeenFor(op), events), q, InTime(events), op, answers);
  }

  /** With the frames of a call behind stale ones, a success is the call's own exactly if every stale frame is an
      acknowledgement; and, unless a lone result is in front, a stale success is reported exactly if the stale frames by
      themselves hold one. */
  lemma OwnExactly(op: u32, stale: seq<Sent>, own: seq<Sent>, answers: nat -> Codec.Result, n: nat)
    requires n <= |stale + own| && !Orphan(own)
    ensures var taken := Taken((stale + own)[..n], op, answers);
            && (taken.Some? ==> (taken.value >= |stale| <==> AllAcks(stale)))
            && (!Orphan(stale) && n >= |stale| ==>
                  (Taken(stale, op, answers).Some? <==> taken.Some? && taken.value < |stale|))
  {
    var q := stale + own;
    AcksBefore(q, n);
    AcksBefore(q, |stale|);
    assert q[..|stale|] == stale;
    assert AllAcks(stale) <==> Acks(stale) == |stale|;
    assert stale != [] ==> stale[0] == q[0];
    assert stale == [] ==> q == own;
  }

  lemma WhoseExactly(op: u32, stale: seq<Sent>, own: seq<Sent>, tag: nat, answers: nat -> Codec.Result,
                     events: seq<Agent.Event>)
    requires Delivered(events, stale + own, answers) && Followed(stale + own) && !Orphan(own)
    requires ForRequest(own, tag) && forall i :: 0 <= i < |stale| ==> stale[i].request != tag
    ensures InTime(events) <= |stale + own|
    ensures var q := stale + own;
            var taken, o := Taken(q[..InTime(events)], op, answers), Agent.Awaited(op, None, None, events);
            && (o.Success? <==> taken.Some?)
            && (o.Success? ==>
                  o == Reports(answers(q[taken.value].request)) && (q[taken.value].request == tag <==> AllAcks(stale)))
            && (!Orphan(stale) && InTime(events) >= |stale| ==>
                  (Taken(stale, op, answers).Some? <==> o.Success? && q[taken.value].request != tag))
  {
    SuccessExactly(op, stale + own, answers, events);
    OwnExactly(op, stale, own, answers, InTime(events));
  }

  /** Of all requests that CPU3 has ever taken from p1, whatever their answers were, and from wherever in p1 the agent
      begins to read: it succeeds exactly if some frame is there to be taken, and that frame was sent for this very call
      exactly if everything that waited in p1 when the call began is status-zero acknowledgements. */
  lemma SuccessIsOwnExactly(stopControl: bool, s: State, steps: seq<Step>, t: State, r: Request,
                            op: u32, answers: nat -> Codec.Result, read: nat, events: seq<Agent.Event>)
    requires Begins(s) && OneCall(stopControl, s, steps, r, s.popped[1]) && t == Run(stopControl, s, steps)
    requires r.kind == MSG_PERIPHERAL_REQUEST && read <= |s.out[1]| <= |t.out[1]|
    requires Delivered(events, t.out[1][read..], answers)
    ensures AnswerShape(t.out[1][|s.out[1]|..], r) && InTime(events) <= |t.out[1]| - read
    ensures var q, stale := t.out[1][read..], s.out[1][read..];
            var taken, o := Taken(q[..InTime(events)], op, answers), Agent.Awaited(op, None, None, events);
            && (o.Success? <==> taken.Some?)
            && (o.Success? ==>
                  && o == Reports(answers(q[taken.value].request))
                  && (q[taken.value].request == s.popped[1] + 1 <==> AllAcks(stale)))
            && (!Orphan(stale) && InTime(events) >= |stale| ==>
                  (Taken(stale, op, answers).Some? <==> o.Success? && q[taken.value].request != s.popped[1] + 1))
  {
    OneCallOneAnswer(stopControl, s, steps, r);
    RunGrows(stopControl, s, steps);
    var q, stale, own := t.out[1][read..], s.out[1][read..], t.out[1][|s.out[1]|..];
    assert q == stale + own;
    CallFollowed(stopControl, s, steps, t, r, read);
    assert TagsBelow(s.out[1], s.popped[1]);
    WhoseExactly(op, stale, own, s.popped[1] + 1, answers, events);
  }

  lemma CallFollowed(stopControl: bool, s: State, steps: seq<Step>, t: State, r: Request, read: nat)
    requires Begins(s) && OneCall(stopControl, s, steps, r, s.popped[1]) && t == Run(stopControl, s, steps)
    requires r.kind == MSG_PERIPHERAL_REQUEST && read <= |t.out[1]|
    ensures Followed(t.out[1][read..])
  {
    RunCall(stopControl, s, steps, r, |s.out[1]|, s.popped[1]);
    var q := t.out[1][read..];
    forall i | 0 < i < |q| && IsResult(q[i].answer) ensures Acknowledges(q[i - 1], q[i].answer, q[i].request) {
      assert q[i] == t.out[1][read + i] && q[i - 1] == t.out[1][read + i - 1];
    }
  }

  /** So a success that the agent reports with nothing but acknowledgements in front of its call is the service's answer
      to that very request: same sequence, operation, status zero, and the value and bytes that were stored. */
  lemma SuccessBelongsToTheCall(stopControl: bool, s: State, steps: seq<Step>, t: State, r: Request,
                                op: u32, m: Ring.Message, spi: bool, b: Service.Drivers,
                                answers: nat -> Codec.Result, read: nat, events: seq<Agent.Event>)
    requires Begins(s) && OneCall(stopControl, s, steps, r, s.popped[1]) && t == Run(stopControl, s, steps)
    requires r.kind == m.kind == MSG_PERIPHERAL_REQUEST && r.sequence == m.sequence
    requires answers(s.popped[1] + 1) == Service.Answer(m, spi, b)
    requires read <= |s.out[1]| <= |t.out[1]| && AllAcks(s.out[1][read..])
    requires Delivered(events, t.out[1][read..], answers)
    ensures var answer := Service.Answer(m, spi, b);
            var o := Agent.Awaited(op, None, None, events);
            o.Success? ==>
              && answer.status == 0 && answer.op == op && answer.sequence == r.sequence && answer.length <= 8
              && o == Agent.Success(answer.value, answer.data[..answer.length], r.sequence)
  {
    SuccessIsOwnExactly(stopControl, s, steps, t, r, op, answers, read, events);
  }

  // ----- From the decision to the device and back -----

  /** The message carries an accepted decision, and `op` is the operation that the agent waits for. */
  ghost predicate Asks(d: Agent.Decision, m: Ring.Message, op: u32, b: Service.Drivers) {
    && Agent.Accepted(d) && Agent.Carried(Agent.RequestRecord(d), m) && op == Agent.Arguments(d).op
    && Service.Honest(b, Codec.Load(m.payload).word2)
  }

  /** What the agent reports of a success: the level or conversion for the two decisions that read one, and the bytes
      that the driver delivered. */
  ghost predicate Tells(d: Agent.Decision, b: Service.Drivers, o: Agent.Outcome) {
    && o.Success? && b.first == 0 && (d.SpiTransfer? || d.AdcRead? ==> b.second == 0)
    && o.value == (if d.GpioRead? || d.AdcRead? then b.value else 0)
    && |o.data| <= 8 && o.data == b.bytes[..|o.data|]
    && |o.data| == match d
                   case UartRead(_, length) => b.received
                   case I2cRead(_, length) => length
                   case I2cWriteRead(_, _, length) => length
                   case SpiTransfer(_, _, data) => |data|
                   case _ => 0
  }

  lemma SuccessTells(d: Agent.Decision, m: Ring.Message, op: u32, spi: bool, b: Service.Drivers, a: Codec.Result,
                     o: Agent.Outcome)
    requires Asks(d, m, op, b) && a == Service.Answer(m, spi, b) && a.status == 0 && a.length <= 8
    requires o == Agent.Success(a.value, a.data[..a.length], m.sequence)
    ensures m.kind == MSG_PERIPHERAL_REQUEST && Agent.InProfile(d, spi) && Tells(d, b, o)
    ensures Agent.Reaches(d, b, Service.Calls(Codec.Load(m.payload), spi, b))
  {
    Agent.DecisionReachesTheDevice(d, m, spi, b);
    Service.SuccessReportsTheDrivers(m, spi, b, a);
    Agent.RequestWords(d, m);
    assert a.data[..a.length] == b.bytes[..a.length];
  }

  /** A success that the agent reports for a decision, with nothing but acknowledgements waiting in p1 when its call
      begins, means that the drivers were called with that decision's arguments and said what the agent says. */
  lemma SuccessTellsTheDevice(stopControl: bool, s: State, steps: seq<Step>, t: State, r: Request,
                              d: Agent.Decision, op: u32, m: Ring.Message, spi: bool, b: Service.Drivers,
                              answers: nat -> Codec.Result, read: nat, events: seq<Agent.Event>)
    requires Begins(s) && OneCall(stopControl, s, steps, r, s.popped[1]) && t == Run(stopControl, s, steps)
    requires Asks(d, m, op, b) && r.kind == m.kind == MSG_PERIPHERAL_REQUEST && r.sequence == m.sequence
    requires answers(s.popped[1] + 1) == Service.Answer(m, spi, b)
    requires read <= |s.out[1]| <= |t.out[1]| && AllAcks(s.out[1][read..])
    requires Delivered(events, t.out[1][read..], answers)
    ensures var o := Agent.Awaited(op, None, None, events);
            o.Success? ==>
              && Agent.Reaches(d, b, Service.Calls(Codec.Load(m.payload), spi, b))
              && Tells(d, b, o) && o.peer == r.sequence
  {
    SuccessBelongsToTheCall(stopControl, s, steps, t, r, op, m, spi, b, answers, read, events);
    var o := Agent.Awaited(op, None, None, events);
    if o.Success? { SuccessTells(d, m, op, spi, b, Service.Answer(m, spi, b), o); }
  }
}
