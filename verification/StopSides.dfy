/** The CPU3 that the stop protocol is composed with is the one that the service model describes. */
module StopSides {
  import opened Words
  import opened Protocol
  import opened Cpu3Service
  import Cpu3Replies
  import Cpu3Wakeup
  import Cpu3Drain
  import Lifecycle
  import LifecycleEffects
  import LifecycleRings
  import Endpoint
  import PeripheralCodec
  import StopProtocol
  import Ring

  function LengthOf(kind: u32): u32 {
    if kind == MSG_PONG || kind == MSG_NOP then 4
    else if kind == MSG_GPIO_READ_RESULT then 12
    else if kind == MSG_PERIPHERAL_RESULT then 28
    else 8
  }

  /** A frame that CPU3 committed, as the driver will judge it. */
  function AsReply(f: Sent): Lifecycle.Reply {
    Lifecycle.Reply(Ring.RING_OK, f.answer.kind, LengthOf(f.answer.kind), f.answer.word0, f.answer.word1)
  }

  function AsReplies(q: seq<Sent>): (r: seq<Lifecycle.Reply>)
    ensures |r| == |q| && forall i :: 0 <= i < |q| ==> r[i] == AsReply(q[i])
  {
    if q == [] then [] else [AsReply(q[0])] + AsReplies(q[1..])
  }

  // ----- The same frame in bytes -----

  /** What CPU3 hands to its endpoint: the words of the answer, little-endian, as many as its kind carries. */
  function PayloadOf(a: Answer): seq<bv8> {
    if a.kind == MSG_PONG || a.kind == MSG_NOP then StoreU32(a.word0)
    else if a.kind == MSG_GPIO_READ_RESULT then StoreU32(a.word0) + StoreU32(a.word1) + StoreU32(a.word2)
    else StoreU32(a.word0) + StoreU32(a.word1)
  }

  /** A frame that carries these bytes, sent and received as the endpoint does, is seen by the driver as this model has
      it: kind, length and the two words that the lifecycle looks at. */
  lemma FramesArriveAsSent(f: Sent, p: u32, m: Ring.Message, generation: u32)
    requires var a := f.answer;
             && a.kind != MSG_PERIPHERAL_RESULT && (a.kind == MSG_PONG || a.kind == MSG_NOP ==> a.word1 == 0)
             && Endpoint.CarriesRequest(m, Endpoint.Request(p, a.kind, Some(PayloadOf(a)), |PayloadOf(a)|), generation)
             && Ring.Judge(m) == Ring.RING_OK
    ensures LifecycleRings.AsReply(m, generation) == AsReply(f)
  {
    PayloadWords(f.answer, m.payload);
  }

  lemma PayloadWords(a: Answer, payload: Ring.Payload)
    requires forall k :: 0 <= k < |PayloadOf(a)| ==> payload[k] == PayloadOf(a)[k]
    requires forall k :: |PayloadOf(a)| <= k < 28 ==> payload[k] == 0
    requires a.kind == MSG_PONG || a.kind == MSG_NOP ==> a.word1 == 0
    ensures LoadU32(payload, 0) == a.word0 && LoadU32(payload, 4) == a.word1
  {
    var v, w, bytes := StoreU32(a.word0), StoreU32(a.word1), PayloadOf(a);
    ZeroWord();
    TwoLanes(v, w, bytes, payload, a.kind == MSG_PONG || a.kind == MSG_NOP);
    PeripheralCodec.LoadWordAt(payload, 0, a.word0);
    PeripheralCodec.LoadWordAt(payload, 4, a.word1);
  }

  lemma TwoLanes(v: seq<bv8>, w: seq<bv8>, bytes: seq<bv8>, payload: seq<bv8>, short: bool)
    requires |v| == |w| == 4 && 8 <= |payload| && |bytes| <= |payload|
    requires if short then bytes == v && w == [0, 0, 0, 0] else v + w <= bytes
    requires forall k :: 0 <= k < |bytes| ==> payload[k] == bytes[k]
    requires forall k :: |bytes| <= k < |payload| ==> payload[k] == 0
    ensures payload[0..4] == v && payload[4..8] == w
  {
    if !short {
      assert bytes[..8] == v + w;
      assert payload[..8] == v + w;
    }
  }

  lemma ZeroWord()
    ensures StoreU32(0) == [0, 0, 0, 0]
  {}

  /** READY with the session's generation, and a stop answer with the request's sequence, are what the driver waits
      for. */
  lemma AnswersAreUnderstood(d: Lifecycle.Driver, f: Sent)
    ensures d.life == Lifecycle.Starting && f.answer.kind == MSG_SESSION_READY
            && f.answer.word0 == d.session.generation && f.answer.word1 == PROTOCOL_VERSION ==>
      LifecycleEffects.Matches(d, AsReply(f))
    ensures d.life == Lifecycle.Stopping && f.answer.kind in {MSG_STOP_READY, MSG_STOP_REFUSED}
            && f.answer.word0 == d.stop.sequence ==>
      LifecycleEffects.Matches(d, AsReply(f))
  {}

  // ----- What CPU3 may push -----

  /** What a step may do to p0 and to CPU3 itself. */
  ghost predicate Pushes(s: State, t: State)
    requires |s.out| == 4
  {
    && |t.out| == 4
    && ((t.out[0] == s.out[0] && t.k.halted == s.k.halted)
        || (!s.k.halted && |t.out[0]| == |s.out[0]| + 1 && t.out[0][..|s.out[0]|] == s.out[0]
            && (t.k.halted <==> t.out[0][|s.out[0]|].answer.kind == MSG_STOP_READY)))
  }

  lemma SendPushes(s: State, room: bool, t: State)
    requires Shaped(s) && !s.k.halted && s.k.worker.Sending? && t == SendNext(s, room) && Cpu3Replies.StopInv(s, 0)
    ensures Pushes(s, t)
  {}

  lemma MainPushes(s: State, room: bool, t: State)
    requires Shaped(s) && !s.k.halted && t == MainMove(s, room)
    ensures Pushes(s, t)
  {}

  lemma StepPushes(stopControl: bool, s: State, step: Step, t: State)
    requires Shaped(s) && Cpu3Replies.StopInv(s, 0) && t == Apply(stopControl, s, step)
    ensures Pushes(s, t)
  {
    var w := s.k.worker;
    if ByLinux(step) { Cpu3Replies.LinuxQuiet(s, step, t); }
    else if s.k.halted { }
    else if step.IsrClear? || step.IsrPost? { Cpu3Replies.IsrQuiet(s, step, t); }
    else if s.k.isr.Cleared? { }
    else if step.WorkerStep? {
      if w.Drain? {
        Cpu3Replies.ReceiveBegins(s, stopControl, step.x, t);
        Cpu3Drain.ReceiveShape(s, stopControl, step.x, t);
      } else if w.Sending? { SendPushes(s, step.room, t); }
      else { Cpu3Replies.PassHalts(s.k, s.published, w.Recheck? && s.fwd[w.p] != []); }
    } else { MainPushes(s, step.room, t); }
  }

  /** Each step of CPU3 adds at most one frame to p0, none once it is offline, and goes offline exactly with a
      STOP_READY: which is what the stop protocol assumes of its pushes. */
  lemma Cpu3KeepsItsWord(stopControl: bool, s: State, step: Step, t: State)
    requires Shaped(s) && Cpu3Replies.StopInv(s, 0) && t == Apply(stopControl, s, step)
    ensures |t.out| == 4 && s.out[0] <= t.out[0]
    ensures var added := AsReplies(t.out[0][|s.out[0]|..]);
            && StopProtocol.FromCpu3(!s.k.halted, added)
            && !t.k.halted == StopProtocol.UpAfter(!s.k.halted, added)
  {
    StepPushes(stopControl, s, step, t);
    var added := AsReplies(t.out[0][|s.out[0]|..]);
    if t.out[0] != s.out[0] {
      assert |added| == 1 && added[0].kind == t.out[0][|s.out[0]|].answer.kind;
    }
  }

  // ----- Whole runs of CPU3 -----

  /** What CPU3 has added to a ring since `s`. */
  function Fresh(s: State, t: State, p: nat): (q: seq<Lifecycle.Reply>)
    ensures Lifecycle.WellCoded(q)
  {
    if p < |s.out| && p < |t.out| && |s.out[p]| <= |t.out[p]| then AsReplies(t.out[p][|s.out[p]|..]) else []
  }

  lemma WordsJoin(up: bool, a: seq<Lifecycle.Reply>, b: seq<Lifecycle.Reply>)
    requires StopProtocol.FromCpu3(up, a) && StopProtocol.FromCpu3(StopProtocol.UpAfter(up, a), b)
    ensures StopProtocol.FromCpu3(up, a + b)
    ensures StopProtocol.UpAfter(up, a + b) == StopProtocol.UpAfter(StopProtocol.UpAfter(up, a), b)
  {
    if StopProtocol.Stops(a) {
      assert a + b == a;
    } else if StopProtocol.Stops(b) {
      var i :| 0 <= i < |b| && b[i].kind == MSG_STOP_READY;
      assert (a + b)[|a| + i].kind == MSG_STOP_READY;
    }
  }

  lemma FreshJoins(s: State, m: State, t: State, p: nat)
    requires p < 4 && Cpu3Replies.Grows(s, m) && Cpu3Replies.Grows(m, t)
    ensures Fresh(s, t, p) == Fresh(s, m, p) + Fresh(m, t, p)
  {}

  /** The same of whole runs: what CPU3 adds to p0 meanwhile holds at most one STOP_READY, as its last frame, and CPU3
      is offline afterwards exactly if it is there or CPU3 was offline before. */
  lemma {:induction false} Cpu3RunKeepsItsWord(stopControl: bool, s: State, steps: seq<Step>, t: State)
    requires Cpu3Wakeup.Inv(s) && Cpu3Replies.StopInv(s, 0) && t == Cpu3Wakeup.Run(stopControl, s, steps)
    ensures Cpu3Replies.StopInv(t, 0) && Cpu3Replies.Grows(s, t)
    ensures StopProtocol.FromCpu3(!s.k.halted, Fresh(s, t, 0))
    ensures !t.k.halted == StopProtocol.UpAfter(!s.k.halted, Fresh(s, t, 0))
    decreases |steps|
  {
    if steps != [] {
      var m := Apply(stopControl, s, steps[0]);
      Cpu3Wakeup.StepKeeps(stopControl, s, steps[0], m);
      Cpu3Replies.StepStops(stopControl, s, steps[0], 0, m);
      Cpu3KeepsItsWord(stopControl, s, steps[0], m);
      Cpu3Replies.StepGrows(stopControl, s, steps[0], m);
      Cpu3RunKeepsItsWord(stopControl, m, steps[1..], t);
      FreshJoins(s, m, t, 0);
      WordsJoin(!s.k.halted, Fresh(s, m, 0), Fresh(m, t, 0));
    }
  }
}
