/** CPU3's side of a session (zephyr/app/src/main.c): the mailbox interrupt, the worker that drains the rings, the
    SESSION_READY publisher and the stop path, interleaved with the Linux writes that wake them. */
module Cpu3Service {
  import opened Words
  import opened Protocol
  import Ring

  const QUOTA: nat := 7

  const NACK_BAD_CRC: u32 := 1
  const NACK_INVALID_FRAME: u32 := 2
  const STOP_REFUSED_INVALID_REQUEST: u32 := 1
  const STOP_REFUSED_BUSY: u32 := 2

  /** A frame of a forward ring: what receive will answer about it, and the words that the worker looks at; `value` is
      the first word of the payload. */
  datatype Request = Request(code: int, kind: u32, sequence: u32, length: u32, value: u32)

  predicate Accepted(r: Request) {
    r.code == Ring.RING_OK
  }

  // ----- What the worker answers -----

  /** One endpoint send, with the first three words of its payload; feedback and results begin with the sequence of the
      request that they answer.  A result is sent only if the acknowledgement before it was queued. */
  datatype Answer = Answer(kind: u32, word0: u32, word1: u32, word2: u32, needsPrevious: bool)

  /** What the devices behind a request reply: whether they came up, whether the header carries SPI instead of
      GPIO, whether the peripheral service executed the request, whether the GPIO line could be read, and its level. */
  datatype Devices = Devices(ready: bool, spiProfile: bool, executed: bool, gpioRead: bool, level: u32)

  predicate Reliable(p: nat) {
    p < 2
  }

  function Feedback(kind: u32, r: Request, status: u32): Answer {
    Answer(kind, r.sequence, status, 0, false)
  }

  function Nack(p: nat, r: Request, reason: u32): seq<Answer> {
    if Reliable(p) then [Feedback(MSG_NACK, r, reason)] else []
  }

  /** The sends that an accepted request leads to, in order. */
  function Plan(stopControl: bool, p: nat, r: Request, x: Devices): seq<Answer> {
    if p == 0 && r.kind == MSG_STOP_REQUEST then
      if r.length != 0 then [Feedback(MSG_STOP_REFUSED, r, STOP_REFUSED_INVALID_REQUEST)]
      else if stopControl then [Feedback(MSG_STOP_READY, r, 0)]
      else [Feedback(MSG_STOP_REFUSED, r, STOP_REFUSED_BUSY)]
    else if r.kind == MSG_PERIPHERAL_REQUEST then
      if p != 1 || !x.ready || !x.executed then Nack(p, r, NACK_INVALID_FRAME)
      else [Feedback(MSG_ACK, r, 0), Answer(MSG_PERIPHERAL_RESULT, r.sequence, 0, 0, true)]
    else if r.kind == MSG_GPIO_READ_REQUEST then
      if p != 1 || !x.ready || x.spiProfile || r.length != 4 || !x.gpioRead then Nack(p, r, NACK_INVALID_FRAME)
      else [Feedback(MSG_ACK, r, 0), Answer(MSG_GPIO_READ_RESULT, r.sequence, r.value, x.level, true)]
    else
      (if Reliable(p) then [Feedback(MSG_ACK, r, 0)] else [])
      + [Answer(if r.kind == MSG_PING then MSG_PONG else MSG_NOP, (r.value + 1) % U32, 0, 0, false)]
  }

  function Rejection(p: nat, r: Request): seq<Answer> {
    if r.code == Ring.RING_BAD_CRC then Nack(p, r, NACK_BAD_CRC)
    else if r.code == Ring.RING_INVALID then Nack(p, r, NACK_INVALID_FRAME)
    else []
  }

  // ----- The machine -----

  /** Where Linux is, under its mutex: after a push, and between reading a clear A2B bit and setting it. */
  datatype Linux = LinuxIdle | Notifying(p: nat) | Ringing(p: nat)

  /** The interrupt handler, which no CPU3 thread can interrupt, has acknowledged its channel. */
  datatype Isr = IsrIdle | Cleared(p: nat)

  datatype Worker =
    | Waiting                                   // on the semaphore
    | Woken                                     // before taking the pending bitmap
    | Gate                                      // before the READY check
    | Scan(p: nat)                              // before looking at priority p
    | Drain(p: nat, handled: nat)               // before a receive
    | Sending(p: nat, handled: nat, todo: seq<Answer>, lastOk: bool, leave: bool)
    | Recheck(p: nat, handled: nat)             // before deciding whether to reschedule p
    | Finish                                    // before putting the reschedule mask back
    | Giving                                    // before the semaphore is given

  /** The main thread inside mailmsg_service_session_ready. */
  datatype Main =
    | Checking                                  // before the flags are read
    | InSend                                    // in the endpoint send, READY not yet committed
    | Committed                                 // in the endpoint send, READY committed, doorbell not yet rung
    | Returned                                  // back from the send, no flag written yet
    | Flagged                                   // session_ready_committed written, published not yet

  /** A frame that CPU3 committed: its ring, and the request (by pop order on that ring) that it answers. */
  datatype Sent = Sent(answer: Answer, request: nat)

  /** The wakeup plumbing. */
  datatype Plumbing = Plumbing(
    linux: Linux, a2b: set<nat>, isr: Isr, pending: set<nat>, sem: bool,
    worker: Worker, current: set<nat>, reschedule: set<nat>, halted: bool)

  datatype State = State(
    generation: u32,               // of the session that CPU3 was booted for
    k: Plumbing,
    fwd: seq<seq<Request>>,        // the forward rings
    announced: seq<nat>,           // how many of their oldest frames a doorbell has been rung for
    abandoned: set<nat>,           // priorities whose wakeup the worker gave up on
    main: Main, committed: bool, published: bool,
    out: seq<seq<Sent>>,           // everything committed on each reverse ring
    popped: seq<nat>,              // requests taken from each forward ring
    first: seq<u32>)               // the kinds of all frames committed, on any ring, in commit order

  datatype Step =
    | LinuxPush(p: nat, r: Request) | LinuxBell(p: nat) | LinuxSkip | LinuxRead | LinuxRing
    | IsrClear(p: nat) | IsrPost
    | WorkerStep(room: bool, x: Devices)
    | MainStep(room: bool)

  /** CPU3 as it boots into a session, with its endpoint bound to the generation in the shared page. */
  function Init(generation: u32): State {
    State(generation, Plumbing(LinuxIdle, {}, IsrIdle, {}, false, Waiting, {}, {}, false),
          [[], [], [], []], [0, 0, 0, 0], {}, Checking, false, false, [[], [], [], []], [0, 0, 0, 0], [])
  }

  predicate Placed(k: Plumbing) {
    && (k.linux.Notifying? ==> k.linux.p < 4) && (k.linux.Ringing? ==> k.linux.p < 4)
    && (k.isr.Cleared? ==> k.isr.p < 4)
    && (forall p :: p in k.a2b ==> p < 4)
    && (k.worker.Scan? ==> k.worker.p <= 4)
    && (k.worker.Drain? || k.worker.Sending? || k.worker.Recheck? ==> k.worker.p < 4 && k.worker.handled <= QUOTA)
  }

  ghost predicate Shaped(s: State) {
    |s.fwd| == 4 && |s.announced| == 4 && |s.out| == 4 && |s.popped| == 4 && Placed(s.k)
  }

  /** A notification for `p` completed: every frame now in the ring is announced. */
  function Announce(s: State, p: nat, k: Plumbing): State
    requires p < |s.fwd| == |s.announced|
  {
    s.(k := k, announced := s.announced[p := |s.fwd[p]|], abandoned := s.abandoned - {p})
  }

  function LinuxStep(s: State, step: Step): State
    requires Shaped(s)
  {
    if step.LinuxPush? then
      if s.k.linux.LinuxIdle? && step.p < 4 && |s.fwd[step.p]| < 7 then
        s.(k := s.k.(linux := Notifying(step.p)), fwd := s.fwd[step.p := s.fwd[step.p] + [step.r]])
      else s
    else if step.LinuxBell? then
      if s.k.linux.LinuxIdle? && step.p < 4 then s.(k := s.k.(linux := Notifying(step.p))) else s
    else if step.LinuxSkip? then
      if s.k.linux.Notifying? then s.(k := s.k.(linux := LinuxIdle)) else s
    else if step.LinuxRead? && s.k.linux.Notifying? then
      if s.k.linux.p in s.k.a2b then Announce(s, s.k.linux.p, s.k.(linux := LinuxIdle))
      else s.(k := s.k.(linux := Ringing(s.k.linux.p)))
    else if step.LinuxRing? && s.k.linux.Ringing? then
      Announce(s, s.k.linux.p, s.k.(linux := LinuxIdle, a2b := s.k.a2b + {s.k.linux.p}))
    else s
  }

  function IsrStep(s: State, step: Step): State
    requires Shaped(s)
  {
    if step.IsrClear? && s.k.isr.IsrIdle? && step.p in s.k.a2b && step.p < 4 then
      s.(k := s.k.(a2b := s.k.a2b - {step.p}, isr := Cleared(step.p)))
    else if step.IsrPost? && s.k.isr.Cleared? then
      s.(k := s.k.(pending := s.k.pending + {s.k.isr.p}, sem := true, isr := IsrIdle))
    else s
  }

  /** A frame reaches a reverse ring. */
  function Commit(s: State, p: nat, f: Sent, k: Plumbing): State
    requires p < |s.out|
  {
    s.(k := k, out := s.out[p := s.out[p] + [f]], first := s.first + [f.answer.kind])
  }

  /** One receive, and the branch that it takes. */
  function Receive(s: State, stopControl: bool, x: Devices): State
    requires Shaped(s) && s.k.worker.Drain?
  {
    var p, handled := s.k.worker.p, s.k.worker.handled;
    if handled == QUOTA || s.fwd[p] == [] then s.(k := s.k.(worker := Recheck(p, handled)))
    else
      var r := s.fwd[p][0];
      if r.code == Ring.RING_INCOMPLETE then
        s.(k := s.k.(worker := Recheck(p, handled)), abandoned := s.abandoned + {p})
      else
        var taken := s.(fwd := s.fwd[p := s.fwd[p][1..]], popped := s.popped[p := s.popped[p] + 1],
                        announced := s.announced[p := if s.announced[p] == 0 then 0 else s.announced[p] - 1]);
        if Accepted(r) then
          taken.(k := s.k.(worker := Sending(p, handled + 1, Plan(stopControl, p, r, x), true, false)))
        else
          var h := if r.code == Ring.RING_BAD_CRC || r.code == Ring.RING_INVALID then handled + 1 else handled;
          taken.(k := s.k.(worker := Sending(p, h, Rejection(p, r), true, true)),
                 abandoned := if h == QUOTA then s.abandoned else s.abandoned + {p})
  }

  /** One endpoint send of the worker; `room` says whether the reverse ring had room. */
  function SendNext(s: State, room: bool): State
    requires Shaped(s) && s.k.worker.Sending?
  {
    var w := s.k.worker;
    if w.todo == [] then
      s.(k := s.k.(worker := if w.leave then Recheck(w.p, w.handled) else Drain(w.p, w.handled)))
    else
      var a := w.todo[0];
      if (a.needsPrevious && !w.lastOk) || !room then s.(k := s.k.(worker := w.(todo := w.todo[1..], lastOk := false)))
      else
        var sent := Commit(s, w.p, Sent(a, s.popped[w.p]), s.k.(worker := w.(todo := w.todo[1..], lastOk := true)));
        if a.kind == MSG_STOP_READY then sent.(k := sent.k.(halted := true, a2b := {})) else sent
  }

  /** The moves of the worker between its receives and sends; `more` says whether the ring that it rechecks holds
      another frame. */
  function PassMove(k: Plumbing, published: bool, more: bool): Plumbing {
    match k.worker
    case Waiting => if k.sem then k.(sem := false, worker := Woken) else k
    case Woken =>
      k.(current := k.pending, pending := {}, reschedule := {}, worker := if k.pending == {} then Waiting else Gate)
    case Gate => if published then k.(worker := Scan(0)) else k.(worker := Waiting, current := {})
    case Scan(p) =>
      if p >= 4 then k.(worker := Finish)
      else if p in k.current then k.(worker := Drain(p, 0))
      else k.(worker := Scan(p + 1))
    case Recheck(p, handled) =>
      k.(worker := Scan(p + 1), reschedule := if handled == QUOTA && more then k.reschedule + {p} else k.reschedule)
    case Finish =>
      if k.reschedule == {} then k.(worker := Waiting)
      else k.(worker := Giving, pending := k.pending + k.reschedule, reschedule := {})
    case Giving => k.(worker := Waiting, sem := true)
    case Drain(_, _) => k
    case Sending(_, _, _, _, _) => k
  }

  function WorkerMove(s: State, stopControl: bool, room: bool, x: Devices): State
    requires Shaped(s)
  {
    var w := s.k.worker;
    if w.Drain? then Receive(s, stopControl, x)
    else if w.Sending? then SendNext(s, room)
    else
      s.(k := PassMove(s.k, s.published, w.Recheck? && s.fwd[w.p] != []),
         abandoned := if w.Gate? && !s.published then s.abandoned + s.k.current else s.abandoned)
  }

  /** cpu3_notify answers SENT or COALESCED, so a doorbell is always accepted. */
  function MainMove(s: State, room: bool): State
    requires Shaped(s)
  {
    match s.main
    case Checking =>
      if s.published then s
      else if s.committed then s.(published := true)
      else s.(main := InSend)
    case InSend =>
      if !room then s.(main := Checking)
      else
        var ready := Answer(MSG_SESSION_READY, s.generation, PROTOCOL_VERSION, 0, false);
        Commit(s, 0, Sent(ready, 0), s.k).(main := Committed)
    case Committed => s.(main := Returned)
    case Returned => s.(main := Flagged, committed := true)
    case Flagged => s.(main := Checking, published := true)
  }

  predicate ByLinux(step: Step) {
    step.LinuxPush? || step.LinuxBell? || step.LinuxSkip? || step.LinuxRead? || step.LinuxRing?
  }

  /** While the handler runs no thread of CPU3 moves; once CPU3 has gone offline nothing of it moves. */
  function Apply(stopControl: bool, s: State, step: Step): State
    requires Shaped(s)
  {
    if ByLinux(step) then LinuxStep(s, step)
    else if s.k.halted then s
    else if step.IsrClear? || step.IsrPost? then IsrStep(s, step)
    else if s.k.isr.Cleared? then s
    else if step.WorkerStep? then WorkerMove(s, stopControl, step.room, step.x)
    else if step.MainStep? then MainMove(s, step.room)
    else s
  }
}
