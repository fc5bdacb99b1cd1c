/** A run from boot in which the agent takes the late answer of one call for the answer to the next. */
module PeripheralExceptions {
  import opened Words
  import opened Protocol
  import opened Cpu3Service
  import opened Cpu3Wakeup
  import opened Cpu3Replies
  import opened Cpu3Exceptions
  import opened PeripheralRpc
  import Codec = PeripheralCodec
  import Agent = PeripheralAgent
  import Ring

  // ----- The records of an acknowledgement and a result -----

  function TwoWords(v: u32, w: u32): (payload: seq<bv8>)
    ensures |payload| == 32
  {
    StoreU32(v) + StoreU32(w) + Codec.Zeros(24)
  }

  lemma TwoWordsLoad(v: u32, w: u32)
    ensures LoadU32(TwoWords(v, w), 0) == v && LoadU32(TwoWords(v, w), 4) == w
  {
    assert TwoWords(v, w)[0..4] == StoreU32(v) && TwoWords(v, w)[4..8] == StoreU32(w);
    Codec.LoadWordAt(TwoWords(v, w), 0, v);
    Codec.LoadWordAt(TwoWords(v, w), 4, w);
  }

  function AckBytes(f: Sent, sequence: u32): (bytes: seq<bv8>)
    ensures |bytes| == 48
  {
    Codec.PackFrame(Codec.UserFrame(1, MSG_ACK, sequence, 8, TwoWords(f.answer.word0, f.answer.word1)))
  }

  function ResultBytes(r: Codec.Result, sequence: u32): (bytes: seq<bv8>)
    ensures |bytes| == 48
  {
    Codec.PackFrame(Codec.UserFrame(1, MSG_PERIPHERAL_RESULT, sequence, 28, Codec.StoreResult(r) + Codec.Zeros(4)))
  }

  lemma AckCarries(f: Sent, sequence: u32, answers: nat -> Codec.Result)
    requires f.answer.kind == MSG_ACK
    ensures Carries(AckBytes(f, sequence), f, answers)
  {
    Codec.FrameRoundTrip(Codec.UserFrame(1, MSG_ACK, sequence, 8, TwoWords(f.answer.word0, f.answer.word1)));
    TwoWordsLoad(f.answer.word0, f.answer.word1);
  }

  lemma ResultCarries(f: Sent, sequence: u32, answers: nat -> Codec.Result)
    requires f.answer.kind == MSG_PERIPHERAL_RESULT && answers(f.request).sequence == f.answer.word0
    ensures Carries(ResultBytes(answers(f.request), sequence), f, answers)
  {
    var payload := Codec.StoreResult(answers(f.request)) + Codec.Zeros(4);
    Codec.FrameRoundTrip(Codec.UserFrame(1, MSG_PERIPHERAL_RESULT, sequence, 28, payload));
    assert payload[..28] == Codec.StoreResult(answers(f.request));
  }

  // ----- The run -----

  const CALL: Request := Request(Ring.RING_OK, MSG_PERIPHERAL_REQUEST, 1, 28, 0)
  const ACK: Sent := Sent(Answer(MSG_ACK, 1, 0, 0, false), 1)
  const RESULT: Sent := Sent(Answer(MSG_PERIPHERAL_RESULT, 1, 0, 0, true), 1)

  /** The worker is about to send the two answers. */
  const ANSWERING: Plumbing :=
    IDLE.(current := {1}, worker := Sending(1, 1, [ACK.answer, RESULT.answer], true, false))

  /** CPU3 is up; what ring p1 holds each way. */
  function Calling(k: Plumbing, q: seq<Request>, announced: nat, popped: nat, sent: seq<Sent>, first: seq<u32>): State {
    State(1, k, [[], q, [], []], [0, announced, 0, 0], {}, Checking, true, true,
          [[READY], sent, [], []], [0, popped, 0, 0], [MSG_SESSION_READY] + first)
  }

  lemma CallRung(steps: seq<Step>) returns (more: seq<Step>)
    requires Inv(Init(1)) && Leads(steps, Calling(IDLE, [], 0, 0, [], []))
    ensures Leads(more, Calling(IDLE.(a2b := {1}), [CALL], 1, 0, [], []))
  {
    var s := Calling(IDLE, [], 0, 0, [], []);
    assert s.fwd[1] + [CALL] == [CALL] && s.fwd[1 := [CALL]] == [[], [CALL], [], []];
    var t := Calling(IDLE.(linux := Notifying(1)), [CALL], 0, 0, [], []);
    more := Then(steps, s, LinuxPush(1, CALL), t);
    var ringing := Calling(IDLE.(linux := Ringing(1)), [CALL], 0, 0, [], []);
    more := Then(more, t, LinuxRead, ringing);
    more := Then(more, ringing, LinuxRing, Calling(IDLE.(a2b := {1}), [CALL], 1, 0, [], []));
  }

  lemma CallScanned(steps: seq<Step>) returns (more: seq<Step>)
    requires Inv(Init(1)) && Leads(steps, Calling(IDLE.(a2b := {1}), [CALL], 1, 0, [], []))
    ensures Leads(more, Calling(IDLE.(current := {1}, worker := Drain(1, 0)), [CALL], 1, 0, [], []))
  {
    var s := Calling(IDLE.(a2b := {1}), [CALL], 1, 0, [], []);
    assert {1} - {1} == {};
    more := Then(steps, s, IsrClear(1), s.(k := IDLE.(isr := Cleared(1))));
    more := Then(more, s.(k := IDLE.(isr := Cleared(1))), IsrPost, s.(k := IDLE.(pending := {1}, sem := true)));
    var woken, pass := IDLE.(pending := {1}, worker := Woken), IDLE.(current := {1});
    more := Then(more, s.(k := IDLE.(pending := {1}, sem := true)), WORK, s.(k := woken));
    more := Then(more, s.(k := woken), WORK, s.(k := pass.(worker := Gate)));
    more := Then(more, s.(k := pass.(worker := Gate)), WORK, s.(k := pass.(worker := Scan(0))));
    more := Then(more, s.(k := pass.(worker := Scan(0))), WORK, s.(k := pass.(worker := Scan(1))));
    more := Then(more, s.(k := pass.(worker := Scan(1))), WORK, s.(k := pass.(worker := Drain(1, 0))));
  }

  lemma CallTaken(steps: seq<Step>) returns (more: seq<Step>)
    requires Inv(Init(1)) && Leads(steps, Calling(IDLE.(current := {1}, worker := Drain(1, 0)), [CALL], 1, 0, [], []))
    ensures Leads(more, Calling(ANSWERING, [], 0, 1, [], []))
  {
    var pass := IDLE.(current := {1});
    var s := Calling(pass.(worker := Drain(1, 0)), [CALL], 1, 0, [], []);
    var t := Calling(pass.(worker := Sending(1, 1, [ACK.answer, RESULT.answer], true, false)), [], 0, 1, [], []);
    assert [CALL][1..] == [] && Plan(false, 1, CALL, WORK.x) == [ACK.answer, RESULT.answer];
    assert s.fwd[1 := []] == t.fwd && s.popped[1 := 1] == t.popped && s.announced[1 := 0] == t.announced;
    more := Then(steps, s, WORK, t);
  }

  lemma Committing(s: State, a: Answer, todo: seq<Answer>, sent: seq<Sent>, first: seq<u32>, t: State)
    requires var k := IDLE.(current := {1}, worker := Sending(1, 1, [a] + todo, true, false));
             s == Calling(k, [], 0, 1, sent, first) && a.kind != MSG_STOP_READY
    requires t == Apply(false, s, WORK)
    ensures t == Calling(IDLE.(current := {1}, worker := Sending(1, 1, todo, true, false)), [], 0, 1,
                         sent + [Sent(a, 1)], first + [a.kind])
  {
    assert ([a] + todo)[1..] == todo;
    assert s.out[1 := sent + [Sent(a, 1)]] == [[READY], sent + [Sent(a, 1)], [], []];
    assert s.first + [a.kind] == [MSG_SESSION_READY] + (first + [a.kind]);
  }

  lemma CallAnswered(steps: seq<Step>) returns (more: seq<Step>, s: State)
    requires Inv(Init(1))
    requires Leads(steps, Calling(ANSWERING, [], 0, 1, [], []))
    ensures Leads(more, s) && s.out[1] == [ACK, RESULT] && s.fwd[1] == [] && s.popped[1] == 1 && s.k.worker.Drain?
  {
    var pass := IDLE.(current := {1});
    var a := Calling(pass.(worker := Sending(1, 1, [ACK.answer, RESULT.answer], true, false)), [], 0, 1, [], []);
    assert [ACK.answer, RESULT.answer] == [ACK.answer] + [RESULT.answer];
    var b := Apply(false, a, WORK);
    Committing(a, ACK.answer, [RESULT.answer], [], [], b);
    more := Then(steps, a, WORK, b);
    assert [RESULT.answer] == [RESULT.answer] + [];
    var c := Apply(false, b, WORK);
    Committing(b, RESULT.answer, [], [] + [ACK], [] + [MSG_ACK], c);
    more := Then(more, b, WORK, c);
    s := Apply(false, c, WORK);
    more := Then(more, c, WORK, s);
  }

  lemma Rested(steps: seq<Step>, s: State)
    requires Inv(Init(1)) && Leads(steps, s) && s.k.worker.Drain? && |s.fwd| == 4 && s.fwd[1] == []
    ensures Begins(s)
  {
    RunReady(false, Init(1), steps);
    RunReplies(false, Init(1), steps, 1);
  }

  lemma LateRun() returns (steps: seq<Step>, s: State)
    ensures Inv(Init(1)) && Leads(steps, s) && Begins(s) && s.popped[1] == 1 && s.out[1] == [ACK, RESULT]
  {
    InitInv(1);
    steps := ComesUp();
    steps := CallRung(steps);
    steps := CallScanned(steps);
    steps := CallTaken(steps);
    steps, s := CallAnswered(steps);
    Rested(steps, s);
  }

  lemma LateRecords(late: Codec.Result, x: u32, y: u32) returns (a: seq<bv8>, b: seq<bv8>)
    requires late.sequence == CALL.sequence
    ensures Carries(a, ACK, (_: nat) => late) && Carries(b, RESULT, (_: nat) => late)
  {
    a, b := AckBytes(ACK, x), ResultBytes(late, y);
    AckCarries(ACK, x, (_: nat) => late);
    ResultCarries(RESULT, y, (_: nat) => late);
  }

  lemma OneDelivered(b: seq<bv8>, g: Sent, answers: nat -> Codec.Result)
    requires Carries(b, g, answers)
    ensures Delivered([Agent.Readable(b)], [g], answers)
  {
    assert [Agent.Readable(b)][1..] == [];
  }

  lemma TwoDelivered(a: seq<bv8>, f: Sent, b: seq<bv8>, g: Sent, answers: nat -> Codec.Result)
    requires Carries(a, f, answers) && Carries(b, g, answers)
    ensures Delivered([Agent.Readable(a), Agent.Readable(b)], [f, g], answers)
  {
    var events := [Agent.Readable(a), Agent.Readable(b)];
    assert events[1..] == [Agent.Readable(b)] && [f, g][1..] == [g];
    OneDelivered(b, g, answers);
  }

  lemma TwoInTime(events: seq<Agent.Event>)
    requires |events| == 2 && events[0].Readable? && events[1].Readable?
    ensures InTime(events) == 2
  {
    assert InTime(events[1..][1..]) == 0;
    assert InTime(events[1..]) == 1;
  }

  lemma PairIsTaken(op: u32, a: seq<bv8>, f: Sent, b: seq<bv8>, g: Sent, answers: nat -> Codec.Result)
    requires Carries(a, f, answers) && Carries(b, g, answers) && IsAck(f) && Good(g, op, answers)
    requires Acknowledges(f, g.answer, g.request)
    ensures Agent.Awaited(op, None, None, [Agent.Readable(a), Agent.Readable(b)]) == Reports(answers(g.request))
  {
    var q, events := [f, g], [Agent.Readable(a), Agent.Readable(b)];
    TwoDelivered(a, f, b, g, answers);
    TwoInTime(events);
    assert q[1..] == [g] && Acks(q) == 1 + Acks([g]) && q[..2] == q;
    SuccessExactly(op, q, answers, events);
  }

  /** The agent has given up on its first call, whose answer is then committed.  Its second call begins with p1 as it
      should be on CPU3's side, and reads the late pair: for every successful answer to the first request it reports
      that as the success of the second, which CPU3 has not even received. */
  lemma LateAnswerPassesForTheNext(late: Codec.Result, x: u32, y: u32)
    returns (steps: seq<Step>, s: State, a: seq<bv8>, b: seq<bv8>)
    requires late.sequence == CALL.sequence && late.status == 0 && late.length <= 8
    ensures Inv(Init(1)) && Leads(steps, s) && Begins(s) && s.popped[1] == 1 && s.out[1] == [ACK, RESULT]
    ensures Carries(a, s.out[1][0], (_: nat) => late) && Carries(b, s.out[1][1], (_: nat) => late)
    ensures Agent.Awaited(late.op, None, None, [Agent.Readable(a), Agent.Readable(b)])
              == Agent.Success(late.value, late.data[..late.length], CALL.sequence)
  {
    steps, s := LateRun();
    a, b := LateRecords(late, x, y);
    PairIsTaken(late.op, a, ACK, b, RESULT, (_: nat) => late);
  }
}
