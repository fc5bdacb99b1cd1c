/** The Linux side of a session: one device structure whose fields every handler updates under one mutex
    (lzamp_amp_mailmsg.c).  Each method is one locked region; each is tied to a function of the state it found. */
module Lifecycle {
  import opened Words
  import opened Protocol
  import Ring
  import Endpoint

  const EIO: int := 5
  const EAGAIN: int := 11
  const EBUSY: int := 16
  const EINVAL: int := 22
  const EFBIG: int := 27
  const ENOSPC: int := 28
  const ESPIPE: int := 29
  const ENODATA: int := 61
  const ENOLINK: int := 67
  const EPROTO: int := 71
  const EBADMSG: int := 74
  const ESHUTDOWN: int := 108
  const ETIMEDOUT: int := 110
  const EALREADY: int := 114
  const EINPROGRESS: int := 115
  const ESTALE: int := 116
  const ECANCELED: int := 125

  const PSCI_ON: int := 0
  const PSCI_OFF: int := 1
  const PSCI_ON_PENDING: int := 2

  datatype Life = Unarmed | Starting | StartTimeout | Active | Stopping | StopTimeout | Offline

  /** A frame of a reverse ring as the endpoint judges it: the code that receive will answer, and the words that
      the lifecycle looks at. */
  datatype Reply = Reply(code: int, kind: u32, length: u32, word0: u32, word1: u32)

  datatype File = File(priority: nat, claimed: bool)

  /** The launch geometry, fixed when the device is probed. */
  datatype Geometry = Geometry(imageSize: nat, statusOffset: nat) {
    ghost predicate Valid() {
      0 < imageSize <= statusOffset
    }
  }

  /** What the driver knows about the core: its own CPU_ON call and the affinity samples it has taken. */
  datatype Power = Power(attempted: bool, cpuOnRet: int, affinity: int, seenOn: bool)

  datatype Session = Session(generation: u32, peer: u32, result: int)

  datatype Stop = Stop(sequence: u32, reply: u32, result: int, notify: int)

  /** The part of the shared status page that this side reads: the header and the four reverse rings. */
  datatype Page = Page(magic: u32, version: u32, generation: u32, rx: seq<seq<Reply>>)

  /** The bound endpoint; generation zero is the zeroed structure. */
  datatype Link = Link(generation: u32, nextSequence: u32)

  /** Open files, the reader count of each priority, and the counters that wake blocked readers. */
  datatype Users = Users(openCount: int, readers: seq<int>, files: map<nat, File>, wakes: seq<u32>)

  datatype Driver = Driver(
    life: Life, power: Power, session: Session, stop: Stop,
    written: nat, carveout: seq<bv8>, page: Page, link: Link, users: Users)

  ghost predicate ShapedUsers(u: Users) {
    && |u.readers| == 4 && |u.wakes| == 4
    && forall id :: id in u.files ==> u.files[id].priority < 4
  }

  ghost predicate Shaped(d: Driver, g: Geometry) {
    && g.Valid() && |d.carveout| == g.statusOffset && d.written <= g.imageSize
    && |d.page.rx| == 4 && ShapedUsers(d.users)
  }

  const NO_STOP: Stop := Stop(0, 0, -EAGAIN, -EAGAIN)

  /** The device as probe leaves it. */
  function Probed(carveout: seq<bv8>): Driver {
    Driver(Unarmed, Power(false, -EAGAIN, 0, false), Session(0, 0, -EAGAIN), NO_STOP, 0, carveout,
           Page(0, 0, 0, [[], [], [], []]), Link(0, 0), Users(0, [0, 0, 0, 0], map[], [0, 0, 0, 0]))
  }

  // ----- Helpers that the locked regions share -----

  function Gate(life: Life): int {
    match life
    case Active => 0
    case Starting => -EAGAIN
    case StartTimeout => -ETIMEDOUT
    case Stopping => -ESHUTDOWN
    case StopTimeout => -ETIMEDOUT
    case Offline => -ENOLINK
    case Unarmed => -ENOLINK
  }

  function Errno(code: int): int {
    if code == Ring.RING_OK then 0
    else if code == Ring.RING_EMPTY then -ENODATA
    else if code == Ring.RING_FULL then -ENOSPC
    else if code == Ring.RING_INCOMPLETE then -EAGAIN
    else if code == Ring.RING_BAD_CRC then -EBADMSG
    else if code == Ring.RING_INVALID then -EPROTO
    else if code == Endpoint.ENDPOINT_INVALID then -EINVAL
    else if code == Endpoint.PROTOCOL_MISMATCH then -EPROTO
    else if code == Endpoint.STALE_SESSION || code == Endpoint.STALE_FRAME then -ESTALE
    else -EIO
  }

  function BumpAll(s: seq<u32>): (t: seq<u32>)
    requires |s| == 4
    ensures |t| == 4
  {
    [Endpoint.Bump(s[0]), Endpoint.Bump(s[1]), Endpoint.Bump(s[2]), Endpoint.Bump(s[3])]
  }

  function WokenUp(u: Users): Users
    requires |u.wakes| == 4
  {
    u.(wakes := BumpAll(u.wakes))
  }

  function MarkOffline(d: Driver): Driver
    requires |d.users.wakes| == 4
  {
    if d.life == Unarmed || d.life == Offline then d else d.(life := Offline, users := WokenUp(d.users))
  }

  function Sampled(p: Power, sample: int): Power {
    p.(affinity := sample, seenOn := p.seenOn || sample == PSCI_ON || sample == PSCI_ON_PENDING)
  }

  function Refresh(d: Driver, sample: int): Driver
    requires |d.users.wakes| == 4
  {
    var e := d.(power := Sampled(d.power, sample));
    if e.power.cpuOnRet == 0 && e.power.seenOn && sample == PSCI_OFF then MarkOffline(e) else e
  }

  function SetTimeout(d: Driver): Driver
    requires |d.users.wakes| == 4
  {
    if d.life == Starting then
      d.(session := d.session.(result := -ETIMEDOUT), life := StartTimeout, users := WokenUp(d.users))
    else if d.life == Stopping then
      d.(stop := d.stop.(result := -ETIMEDOUT), life := StopTimeout, users := WokenUp(d.users))
    else d.(users := WokenUp(d.users))
  }

  function SessionCode(link: Link, page: Page): int {
    if link.generation == 0 then Endpoint.ENDPOINT_INVALID
    else if page.magic != PROTOCOL_MAGIC || page.version != PROTOCOL_VERSION then
      Endpoint.PROTOCOL_MISMATCH
    else if page.generation != link.generation then Endpoint.STALE_SESSION
    else 0
  }

  /** What receive answers on a reverse ring. */
  function ReceiveCode(link: Link, page: Page, p: nat): int
    requires p < |page.rx|
  {
    if SessionCode(link, page) != 0 then SessionCode(link, page)
    else if page.rx[p] == [] then Ring.RING_EMPTY
    else page.rx[p][0].code
  }

  /** The codes with which receive has taken a frame out of its ring. */
  predicate Taken(code: int) {
    code in {Ring.RING_OK, Endpoint.STALE_FRAME, Ring.RING_BAD_CRC, Ring.RING_INVALID}
  }

  function Received(link: Link, page: Page, p: nat): Page
    requires p < |page.rx|
  {
    if Taken(ReceiveCode(link, page, p)) && page.rx[p] != [] then page.(rx := page.rx[p := page.rx[p][1..]]) else page
  }

  // ----- Image, start and rearm -----

  function ImageCode(d: Driver, g: Geometry, off: nat, data: seq<bv8>): int
    requires d.written <= g.imageSize
  {
    if d.power.attempted then -EBUSY
    else if off != d.written then -ESPIPE
    else if |data| > g.imageSize - d.written then -EFBIG
    else |data|
  }

  function ImageWritten(d: Driver, g: Geometry, off: nat, data: seq<bv8>): Driver
    requires Shaped(d, g)
  {
    if d.power.attempted || off != d.written || |data| > g.imageSize - d.written then d
    else d.(carveout := d.carveout[..off] + data + d.carveout[off + |data|..], written := d.written + |data|)
  }

  function StartCode(d: Driver, g: Geometry, sample: int, cpuOn: int): int {
    if d.power.attempted then -EALREADY
    else if d.written != g.imageSize then -ENODATA
    else if sample != PSCI_OFF then -EBUSY
    else cpuOn
  }

  function Started(d: Driver, g: Geometry, sample: int, cpuOn: int): Driver
    requires Shaped(d, g)
  {
    if d.power.attempted || d.written != g.imageSize then d
    else if sample != PSCI_OFF then Refresh(d, sample)
    else SessionBegun(Refresh(d, sample), cpuOn)
  }

  function SessionBegun(d: Driver, cpuOn: int): Driver {
    var s := Endpoint.NextSequence(d.session.generation);
    d.(session := Session(s, 0, if cpuOn == 0 then -EINPROGRESS else cpuOn),
       page := Page(PROTOCOL_MAGIC, PROTOCOL_VERSION, s, [[], [], [], []]),
       link := Link(s, 0), stop := NO_STOP,
       life := if cpuOn == 0 then Starting else Unarmed,
       power := Power(true, cpuOn, d.power.affinity, false))
  }

  function RearmCode(d: Driver, sample: int, doorbell: bool): int {
    if !d.power.attempted then -EINVAL
    else if d.users.openCount != 0 then -EBUSY
    else if sample != PSCI_OFF then -EBUSY
    else if doorbell then -EBUSY
    else 0
  }

  function Rearmed(d: Driver, sample: int, doorbell: bool): Driver
    requires |d.users.wakes| == 4
  {
    if !d.power.attempted || d.users.openCount != 0 then d
    else if sample != PSCI_OFF || doorbell then Refresh(d, sample)
    else SessionEnded(Refresh(d, sample))
  }

  function SessionEnded(d: Driver): Driver {
    d.(link := Link(0, 0), written := 0, power := Power(false, -EAGAIN, d.power.affinity, false), life := Unarmed,
       session := Session(d.session.generation, 0, -EAGAIN), stop := NO_STOP)
  }

  // ----- Stop -----

  /** What the forward rings and the mailbox hold when a stop is asked for. */
  datatype Traffic = Traffic(forward: seq<bool>, doorbell: bool)

  /** What has_data answers; it never answers RING_EMPTY. */
  function HasData(nonempty: bool): int {
    if nonempty then 1 else 0
  }

  function HasReceived(d: Driver, p: nat): int
    requires p < |d.page.rx|
  {
    if SessionCode(d.link, d.page) != 0 then Ring.RING_INVALID else HasData(d.page.rx[p] != [])
  }

  function Refusal(code: int): int {
    if code > 0 then -EBUSY else Errno(code)
  }

  /** The preflight loop over whatever codes has_received and has_data answered for the four priorities. */
  function PreflightFrom(received: seq<int>, forward: seq<int>, doorbell: bool, p: nat): int
    requires |received| == 4 && |forward| == 4 && p <= 4
    decreases 4 - p
  {
    if p == 4 then (if doorbell then -EBUSY else 0)
    else if received[p] != Ring.RING_EMPTY then Refusal(received[p])
    else if forward[p] != Ring.RING_EMPTY then Refusal(forward[p])
    else PreflightFrom(received, forward, doorbell, p + 1)
  }

  function ReceivedCodes(d: Driver): (s: seq<int>)
    requires |d.page.rx| == 4
    ensures |s| == 4
  {
    [HasReceived(d, 0), HasReceived(d, 1), HasReceived(d, 2), HasReceived(d, 3)]
  }

  function ForwardCodes(t: Traffic): (s: seq<int>)
    requires |t.forward| == 4
    ensures |s| == 4
  {
    [HasData(t.forward[0]), HasData(t.forward[1]), HasData(t.forward[2]), HasData(t.forward[3])]
  }

  function Preflight(d: Driver, t: Traffic): int
    requires |d.page.rx| == 4 && |t.forward| == 4
  {
    if d.users.openCount != 0 then -EBUSY
    else if d.link.generation == 0 then -EPROTO
    else PreflightFrom(ReceivedCodes(d), ForwardCodes(t), t.doorbell, 0)
  }

  function StopCode(d: Driver, t: Traffic, full: bool, notified: int): int
    requires |d.page.rx| == 4 && |t.forward| == 4
  {
    if d.life == Offline then -ENOLINK
    else if d.life != Active then -EBUSY
    else if Preflight(d, t) != 0 then Preflight(d, t)
    else if SessionCode(d.link, d.page) != 0 then Errno(SessionCode(d.link, d.page))
    else if full then -ENOSPC
    else if notified < 0 then notified else 0
  }

  function StopStored(d: Driver, t: Traffic, full: bool, notified: int): Driver
    requires |d.page.rx| == 4 && |t.forward| == 4
  {
    if d.life != Active || Preflight(d, t) != 0 then d else StopRequested(d, full, notified)
  }

  function StopRequested(d: Driver, full: bool, notified: int): Driver {
    if SessionCode(d.link, d.page) != 0 then d.(stop := Stop(0, 0, Errno(SessionCode(d.link, d.page)), -EINPROGRESS))
    else
      var s := Endpoint.NextSequence(d.link.nextSequence);
      if full then d.(stop := Stop(0, 0, -ENOSPC, -EINPROGRESS), link := d.link.(nextSequence := s))
      else d.(life := Stopping, stop := Stop(s, 0, -EINPROGRESS, notified), link := d.link.(nextSequence := s))
  }

  // ----- Control and timeout work -----

  /** One turn of the control loop: what CPU3 pushed on p0 before it, and whether the deadline has passed. */
  datatype Round = Round(arrivals: seq<Reply>, expired: bool)

  predicate SessionReady(d: Driver, r: Reply) {
    && r.kind == MSG_SESSION_READY && r.length >= 8
    && r.word0 == d.session.generation && r.word1 == PROTOCOL_VERSION
  }

  predicate StopReplied(d: Driver, r: Reply) {
    (r.kind == MSG_STOP_READY || r.kind == MSG_STOP_REFUSED) && r.length >= 8 && r.word0 == d.stop.sequence
  }

  datatype Turn = Turn(d: Driver, stay: bool)

  function Judged(d: Driver, r: Reply): Turn {
    if d.life == Starting then
      if !SessionReady(d, r) then Turn(d, true)
      else Turn(d.(session := Session(d.session.generation, d.session.generation, 0),
                   power := d.power.(seenOn := true), life := Active), false)
    else if !StopReplied(d, r) then Turn(d, true)
    else if r.kind == MSG_STOP_READY then Turn(d.(stop := d.stop.(reply := r.kind, result := 0)), false)
    else Turn(d.(stop := d.stop.(reply := r.kind, result := -ECANCELED), life := Active), false)
  }

  function NoteError(d: Driver, code: int): Driver {
    if d.life == Starting then d.(session := d.session.(result := Errno(code)))
    else d.(stop := d.stop.(result := Errno(code)))
  }

  function Arrived(page: Page, arrivals: seq<Reply>): Page
    requires |page.rx| == 4
  {
    page.(rx := page.rx[0 := page.rx[0] + arrivals])
  }

  function ControlTurn(d: Driver, round: Round): Turn
    requires |d.page.rx| == 4 && |d.users.wakes| == 4
  {
    var page := Arrived(d.page, round.arrivals);
    var code := ReceiveCode(d.link, page, 0);
    var f := d.(page := Received(d.link, page, 0));
    if code == Ring.RING_EMPTY || code == Ring.RING_INCOMPLETE then Turn(f, false)
    else if code == Endpoint.STALE_FRAME then Turn(f, true)
    else if code != 0 then Turn(NoteError(f, code), code > Endpoint.ENDPOINT_INVALID)
    else if round.expired then Turn(SetTimeout(f), false)
    else Judged(f, page.rx[0][0])
  }

  function Arrivals(rounds: seq<Round>): nat {
    if rounds == [] then 0 else |rounds[0].arrivals| + Arrivals(rounds[1..])
  }

  /** The rounds that the loop goes through; once the given ones are used up nothing more arrives. */
  function RoundAt(rounds: seq<Round>, i: nat): Round {
    if i < |rounds| then rounds[i] else Round([], false)
  }

  /** Every frame that a ring may hold is one that receive takes out, or one that is not yet committed. */
  predicate WellCoded(q: seq<Reply>) {
    forall i :: 0 <= i < |q| ==> Taken(q[i].code) || q[i].code == Ring.RING_INCOMPLETE
  }

  predicate RoundsCoded(rounds: seq<Round>) {
    forall i :: 0 <= i < |rounds| ==> WellCoded(rounds[i].arrivals)
  }

  lemma ReceiveTakes(link: Link, page: Page, after: Page)
    requires |page.rx| == 4 && WellCoded(page.rx[0]) && after == Received(link, page, 0)
    ensures |after.rx| == 4 && after.rx[1..] == page.rx[1..] && WellCoded(after.rx[0])
    ensures var code := ReceiveCode(link, page, 0);
            && ((code <= Endpoint.ENDPOINT_INVALID && code != Endpoint.STALE_FRAME)
                || Taken(code) || code == Ring.RING_EMPTY || code == Ring.RING_INCOMPLETE)
            && (if Taken(code) then page.rx[0] != [] && after.rx[0] == page.rx[0][1..] else after == page)
  {}

  lemma JudgedKeeps(d: Driver, r: Reply, t: Turn)
    requires t == Judged(d, r)
    ensures t.d.page == d.page && t.d.users == d.users && (t.stay ==> t.d == d)
  {}

  /** A turn of the control loop takes at most the oldest frame of p0, and one that stays in the loop takes it. */
  lemma TurnConsumes(d: Driver, round: Round, t: Turn)
    requires |d.page.rx| == 4 && |d.users.wakes| == 4 && WellCoded(d.page.rx[0]) && WellCoded(round.arrivals)
    requires t == ControlTurn(d, round)
    ensures |t.d.page.rx| == 4 && |t.d.users.wakes| == 4 && WellCoded(t.d.page.rx[0])
    ensures t.d.page.rx[1..] == d.page.rx[1..]
    ensures var q := d.page.rx[0] + round.arrivals;
            (t.d.page.rx[0] == q && !t.stay) || (q != [] && t.d.page.rx[0] == q[1..])
    ensures t.stay ==> t.d.life == d.life
  {
    var page := Arrived(d.page, round.arrivals);
    ReceiveTakes(d.link, page, Received(d.link, page, 0));
    if ReceiveCode(d.link, page, 0) == 0 && !round.expired {
      JudgedKeeps(d.(page := Received(d.link, page, 0)), page.rx[0][0], t);
    }
  }

  datatype Controlled = Controlled(d: Driver, turns: nat)

  function ControlLoop(d: Driver, rounds: seq<Round>): (c: Controlled)
    requires |d.page.rx| == 4 && |d.users.wakes| == 4 && WellCoded(d.page.rx[0]) && RoundsCoded(rounds)
    decreases |d.page.rx[0]| + Arrivals(rounds)
  {
    var t := ControlTurn(d, RoundAt(rounds, 0));
    TurnConsumes(d, RoundAt(rounds, 0), t);
    if !t.stay then Controlled(t.d, 1)
    else
      var c := ControlLoop(t.d, if rounds == [] then [] else rounds[1..]);
      c.(turns := c.turns + 1)
  }

  function ControlWorked(d: Driver, expired: bool, rounds: seq<Round>): Driver
    requires |d.page.rx| == 4 && |d.users.wakes| == 4 && WellCoded(d.page.rx[0]) && RoundsCoded(rounds)
  {
    if d.life != Starting && d.life != Stopping then d
    else if expired then SetTimeout(d)
    else ControlLoop(d, rounds).d
  }

  function TimedOut(d: Driver, expired: bool, sample: int): Driver
    requires |d.users.wakes| == 4
  {
    if (d.life != Starting && d.life != Stopping) || !expired then d
    else if d.life == Stopping && d.stop.reply == MSG_STOP_READY then
      var e := Refresh(d, sample);
      if e.life == Offline then e else SetTimeout(e)
    else SetTimeout(d)
  }

  // ----- User files -----

  function Opened(u: Users, id: nat, p: nat): Users {
    u.(openCount := u.openCount + 1, files := u.files[id := File(p, false)])
  }

  function ClaimCode(u: Users, id: nat): int
    requires id in u.files && u.files[id].priority < |u.readers|
  {
    if !u.files[id].claimed && u.readers[u.files[id].priority] != 0 then -EBUSY else 0
  }

  function Claimed(u: Users, id: nat): Users
    requires id in u.files && u.files[id].priority < |u.readers|
  {
    var f := u.files[id];
    if f.claimed || u.readers[f.priority] != 0 then u
    else u.(readers := u.readers[f.priority := u.readers[f.priority] + 1], files := u.files[id := f.(claimed := true)])
  }

  function Without(files: map<nat, File>, id: nat): map<nat, File> {
    map i | i in files && i != id :: files[i]
  }

  function Released(u: Users, id: nat): Users
    requires id in u.files && u.files[id].priority < |u.readers|
  {
    var f := u.files[id];
    var v := if f.claimed then u.(readers := u.readers[f.priority := u.readers[f.priority] - 1]) else u;
    v.(openCount := u.openCount - 1, files := Without(u.files, id))
  }

  /** How one pass of the read loop ends: with a frame, with an error, or asleep. */
  datatype ReadEnd = Delivered(frame: Reply) | Failed(errno: int) | Sleeps

  function ReadEndOf(life: Life, link: Link, page: Page, p: nat, nonblock: bool): ReadEnd
    requires p < |page.rx|
  {
    var code := if Gate(life) != 0 then Gate(life) else ReceiveCode(link, page, p);
    if code == 0 then Delivered(page.rx[p][0])
    else if code == -EAGAIN || code == -ENOLINK || code == -ESHUTDOWN then Failed(code)
    else if code != Ring.RING_EMPTY then Failed(Errno(code))
    else if nonblock then Failed(-EAGAIN)
    else Sleeps
  }

  // ----- The device structure, updated in place -----

  class Device {
    const geometry: Geometry
    const carveout: array<bv8>
    var life: Life
    var power: Power
    var session: Session
    var stop: Stop
    var written: nat
    var page: Page
    var link: Link
    var users: Users

    ghost function State(): Driver
      reads this, carveout
    {
      Driver(life, power, session, stop, written, carveout[..], page, link, users)
    }

    ghost predicate Valid()
      reads this, carveout
    {
      Shaped(State(), geometry)
    }

    constructor (g: Geometry)
      requires g.Valid()
      ensures fresh(carveout) && geometry == g && Valid() && State() == Probed(carveout[..])
    {
      geometry, life, power, session := g, Unarmed, Power(false, -EAGAIN, 0, false), Session(0, 0, -EAGAIN);
      stop, written, page, link := NO_STOP, 0, Page(0, 0, 0, [[], [], [], []]), Link(0, 0);
      users := Users(0, [0, 0, 0, 0], map[], [0, 0, 0, 0]);
      carveout := new bv8[g.statusOffset];
    }

    method WakeReaders()
      requires ShapedUsers(users)
      modifies this`users
      ensures users == WokenUp(old(users))
    {
      var priority := 0;
      while priority < 4
        invariant 0 <= priority <= 4 && |users.wakes| == 4
        invariant users == old(users).(wakes := users.wakes)
        invariant forall p :: 0 <= p < 4 ==>
          users.wakes[p] == if p < priority then Endpoint.Bump(old(users).wakes[p]) else old(users).wakes[p]
      {
        users := users.(wakes := users.wakes[priority := Endpoint.Bump(users.wakes[priority])]);
        priority := priority + 1;
      }
    }

    method MarkOfflineLocked()
      requires Valid()
      modifies this`life, this`users
      ensures Valid() && State() == MarkOffline(old(State()))
    {
      if life != Starting && life != StartTimeout && life != Active && life != Stopping && life != StopTimeout {
        return;
      }
      life := Offline;
      WakeReaders();
    }

    method RefreshAffinity(sample: int)
      requires Valid()
      modifies this`power, this`life, this`users
      ensures Valid() && State() == Refresh(old(State()), sample)
    {
      power := power.(affinity := sample);
      if sample == PSCI_ON || sample == PSCI_ON_PENDING { power := power.(seenOn := true); }
      if power.cpuOnRet == 0 && power.seenOn && sample == PSCI_OFF { MarkOfflineLocked(); }
    }

    method SetTimeoutLocked()
      requires Valid()
      modifies this`life, this`session, this`stop, this`users
      ensures Valid() && State() == SetTimeout(old(State()))
    {
      if life == Starting {
        session := session.(result := -ETIMEDOUT);
        life := StartTimeout;
      } else if life == Stopping {
        stop := stop.(result := -ETIMEDOUT);
        life := StopTimeout;
      }
      WakeReaders();
    }

    method AffinityWork(sample: int)
      requires Valid()
      modifies this`power, this`life, this`users
      ensures Valid()
      ensures State()
                == if old(life) == Unarmed || old(life) == Offline then old(State()) else Refresh(old(State()), sample)
    {
      if life != Starting && life != StartTimeout && life != Active && life != Stopping && life != StopTimeout {
        return;
      }
      RefreshAffinity(sample);
    }

    method TimeoutWork(expired: bool, sample: int)
      requires Valid()
      modifies this`power, this`life, this`session, this`stop, this`users
      ensures Valid() && State() == TimedOut(old(State()), expired, sample)
    {
      if life != Starting && life != Stopping { return; }
      if !expired { return; }
      if life == Stopping && stop.reply == MSG_STOP_READY {
        RefreshAffinity(sample);
        if life == Offline { return; }
      }
      SetTimeoutLocked();
    }

    method ImageWrite(off: nat, data: seq<bv8>) returns (ret: int)
      requires Valid()
      modifies this`written, carveout
      ensures Valid()
      ensures ret == ImageCode(old(State()), geometry, off, data)
      ensures State() == ImageWritten(old(State()), geometry, off, data)
    {
      if power.attempted { return -EBUSY; }
      if off != written { return -ESPIPE; }
      if |data| > geometry.imageSize - written { return -EFBIG; }
      Copy(off, data);
      written := written + |data|;
      return |data|;
    }

    method Copy(off: nat, data: seq<bv8>)
      requires off + |data| <= carveout.Length
      modifies carveout
      ensures carveout[..] == old(carveout[..off]) + data + old(carveout[off + |data|..])
    {
      var i := 0;
      while i < |data|
        invariant 0 <= i <= |data|
        invariant carveout[..] == old(carveout[..off]) + data[..i] + old(carveout[off + i..])
      {
        carveout[off + i] := data[i];
        i := i + 1;
      }
      assert data[..i] == data;
    }

    method Start(sample: int, cpuOn: int) returns (ret: int)
      requires Valid()
      modifies this
      ensures Valid()
      ensures ret == StartCode(old(State()), geometry, sample, cpuOn)
      ensures State() == Started(old(State()), geometry, sample, cpuOn)
    {
      if power.attempted { return -EALREADY; }
      if written != geometry.imageSize { return -ENODATA; }
      RefreshAffinity(sample);
      if power.affinity != PSCI_OFF { return -EBUSY; }
      BeginSession(cpuOn);
      return power.cpuOnRet;
    }

    method BeginSession(cpuOn: int)
      requires Valid()
      modifies this`session, this`page, this`link, this`stop, this`life, this`power
      ensures Valid() && State() == SessionBegun(old(State()), cpuOn)
    {
      var generation: u32 := (session.generation + 1) % 0x1_0000_0000;
      if generation == 0 { generation := (generation + 1) % 0x1_0000_0000; }
      page := Page(PROTOCOL_MAGIC, PROTOCOL_VERSION, generation, [[], [], [], []]);
      link := Link(page.generation, 0);
      session := Session(generation, 0, -EINPROGRESS);
      stop := Stop(0, 0, -EAGAIN, -EAGAIN);
      life := Starting;
      power := power.(seenOn := false, attempted := true, cpuOnRet := cpuOn);
      if power.cpuOnRet != 0 {
        life := Unarmed;
        session := session.(result := power.cpuOnRet);
      }
    }

    method Rearm(sample: int, doorbell: bool) returns (ret: int)
      requires Valid()
      modifies this
      ensures Valid()
      ensures ret == RearmCode(old(State()), sample, doorbell)
      ensures State() == Rearmed(old(State()), sample, doorbell)
    {
      if !power.attempted { return -EINVAL; }
      if users.openCount != 0 { return -EBUSY; }
      RefreshAffinity(sample);
      if power.affinity != PSCI_OFF { return -EBUSY; }
      if doorbell { return -EBUSY; }
      link := Link(0, 0);
      written := 0;
      power := power.(attempted := false, cpuOnRet := -EAGAIN, seenOn := false);
      life := Unarmed;
      session := session.(peer := 0, result := -EAGAIN);
      stop := Stop(0, 0, -EAGAIN, -EAGAIN);
      return 0;
    }

    static method PreflightLoop(received: seq<int>, forward: seq<int>, doorbell: bool) returns (ret: int)
      requires |received| == 4 && |forward| == 4
      ensures ret == PreflightFrom(received, forward, doorbell, 0)
    {
      var priority := 0;
      while priority < 4
        invariant 0 <= priority <= 4
        invariant PreflightFrom(received, forward, doorbell, 0) == PreflightFrom(received, forward, doorbell, priority)
      {
        ret := received[priority];
        if ret != Ring.RING_EMPTY { return if ret > 0 then -EBUSY else Errno(ret); }
        ret := forward[priority];
        if ret != Ring.RING_EMPTY { return if ret > 0 then -EBUSY else Errno(ret); }
        priority := priority + 1;
      }
      return if doorbell then -EBUSY else 0;
    }

    method StopStore(t: Traffic, full: bool, notified: int) returns (ret: int)
      requires Valid() && |t.forward| == 4
      modifies this`life, this`stop, this`link
      ensures Valid()
      ensures ret == StopCode(old(State()), t, full, notified)
      ensures State() == StopStored(old(State()), t, full, notified)
    {
      if life == Offline { return -ENOLINK; }
      if life != Active { return -EBUSY; }
      if users.openCount != 0 { return -EBUSY; }
      if link.generation == 0 { return -EPROTO; }
      ret := PreflightLoop(ReceivedCodes(Snapshot()), ForwardCodes(t), t.doorbell);
      if ret != 0 { return; }
      ret := RequestStop(full, notified);
    }

    /** Sends STOP_REQUEST; `full` says that the forward ring had no room, `notified` what the doorbell answered. */
    method RequestStop(full: bool, notified: int) returns (ret: int)
      requires Valid() && life == Active
      modifies this`life, this`stop, this`link
      ensures Valid() && State() == StopRequested(old(State()), full, notified)
      ensures ret == if SessionCode(link, page) != 0 then Errno(SessionCode(link, page))
                     else if full then -ENOSPC else if notified < 0 then notified else 0
    {
      life := Stopping;
      stop := Stop(0, 0, -EINPROGRESS, -EINPROGRESS);
      ret := SessionCode(link, page);
      if ret == 0 {
        link := link.(nextSequence := Endpoint.NextSequence(link.nextSequence));
        if full { ret := Ring.RING_FULL; }
      }
      if ret != 0 {
        life := Active;
        stop := stop.(result := Errno(ret));
        return stop.result;
      }
      stop := stop.(sequence := link.nextSequence, notify := notified);
      return if notified < 0 then notified else 0;
    }

    /** The state as a value, for the checks that only read it. */
    function Snapshot(): (d: Driver)
      reads this, carveout
      ensures d == State()
    {
      Driver(life, power, session, stop, written, carveout[..], page, link, users)
    }

    method ControlWork(expired: bool, rounds: seq<Round>)
      requires Valid() && WellCoded(page.rx[0]) && RoundsCoded(rounds)
      modifies this`life, this`power, this`session, this`stop, this`page, this`users
      ensures Valid()
      ensures State() == ControlWorked(old(State()), expired, rounds)
    {
      if life != Starting && life != Stopping { return; }
      if expired {
        SetTimeoutLocked();
        return;
      }
      ghost var goal := ControlLoop(State(), rounds).d;
      var rest := rounds;
      while true
        invariant Valid() && WellCoded(page.rx[0]) && RoundsCoded(rest)
        invariant ControlLoop(State(), rest).d == goal
        decreases |page.rx[0]| + Arrivals(rest)
      {
        var round := RoundAt(rest, 0);
        TurnConsumes(State(), round, ControlTurn(State(), round));
        var stay := ControlRound(round);
        if !stay { break; }
        rest := if rest == [] then [] else rest[1..];
      }
    }

    /** The body of the control loop; `stay` is false where the source leaves the loop. */
    method ControlRound(round: Round) returns (stay: bool)
      requires Valid() && WellCoded(page.rx[0]) && WellCoded(round.arrivals)
      modifies this`life, this`power, this`session, this`stop, this`page, this`users
      ensures Valid()
      ensures Turn(State(), stay) == ControlTurn(old(State()), round)
    {
      page := page.(rx := page.rx[0 := page.rx[0] + round.arrivals]);
      var code := ReceiveCode(link, page, 0);
      var response := if page.rx[0] == [] then Reply(0, 0, 0, 0, 0) else page.rx[0][0];
      page := Received(link, page, 0);
      if code == Ring.RING_EMPTY || code == Ring.RING_INCOMPLETE { return false; }
      if code != 0 {
        if code == Endpoint.STALE_FRAME { return true; }
        if life == Starting { session := session.(result := Errno(code)); }
        else { stop := stop.(result := Errno(code)); }
        return code > Endpoint.ENDPOINT_INVALID;
      }
      if round.expired {
        SetTimeoutLocked();
        return false;
      }
      stay := Respond(response);
    }

    method Respond(response: Reply) returns (stay: bool)
      requires Valid()
      modifies this`life, this`power, this`session, this`stop
      ensures Valid()
      ensures Turn(State(), stay) == Judged(old(State()), response)
    {
      if life == Starting {
        if response.kind != MSG_SESSION_READY || response.length < 8 || response.word0 != session.generation
           || response.word1 != PROTOCOL_VERSION { return true; }
        session := session.(peer := session.generation, result := 0);
        power := power.(seenOn := true);
        life := Active;
        return false;
      }
      if (response.kind != MSG_STOP_READY && response.kind != MSG_STOP_REFUSED) || response.length < 8
         || response.word0 != stop.sequence { return true; }
      if response.kind == MSG_STOP_READY {
        stop := stop.(reply := response.kind, result := 0);
        return false;
      }
      stop := stop.(reply := response.kind, result := -ECANCELED);
      life := Active;
      return false;
    }

    method Open(id: nat, priority: nat) returns (ret: int)
      requires Valid() && priority < 4 && id !in users.files
      modifies this`users
      ensures Valid()
      ensures ret == Gate(life) && users == if ret == 0 then Opened(old(users), id, priority) else old(users)
      ensures (ret == 0 <==> life == Active) && (ret == -EAGAIN <==> life == Starting)
      ensures ret == -ETIMEDOUT <==> life == StartTimeout || life == StopTimeout
      ensures (ret == -ESHUTDOWN <==> life == Stopping) && (ret == -ENOLINK <==> life == Offline || life == Unarmed)
    {
      ret := Gate(life);
      if ret != 0 { return; }
      users := users.(openCount := users.openCount + 1, files := users.files[id := File(priority, false)]);
    }

    method ClaimReader(id: nat) returns (ret: int)
      requires Valid() && id in users.files
      modifies this`users
      ensures Valid()
      ensures ret == ClaimCode(old(users), id) && users == Claimed(old(users), id)
      ensures (ret == 0 <==> users.files[id].claimed) && (ret == 0 || ret == -EBUSY)
    {
      ret := 0;
      var f := users.files[id];
      if !f.claimed {
        if users.readers[f.priority] != 0 {
          ret := -EBUSY;
        } else {
          users := users.(readers := users.readers[f.priority := users.readers[f.priority] + 1]);
          users := users.(files := users.files[id := f.(claimed := true)]);
        }
      }
    }

    method Release(id: nat)
      requires Valid() && id in users.files
      modifies this`users
      ensures Valid()
      ensures users == Released(old(users), id)
    {
      var f := users.files[id];
      if f.claimed { users := users.(readers := users.readers[f.priority := users.readers[f.priority] - 1]); }
      users := users.(openCount := users.openCount - 1, files := Without(users.files, id));
    }

    /** The locked part of a user read: the gate, then one receive; `frame` is what a successful one delivers. */
    method UserReceive(priority: nat) returns (ret: int, frame: Option<Reply>)
      requires Valid() && priority < 4
      modifies this`page
      ensures Valid()
      ensures ret == (if Gate(life) != 0 then Gate(life) else ReceiveCode(link, old(page), priority))
      ensures page == if Gate(life) != 0 then old(page) else Received(link, old(page), priority)
      ensures frame.Some? <==> ret == 0
      ensures ret == 0 ==>
        old(page).rx[priority] != [] && [frame.value] + page.rx[priority] == old(page).rx[priority]
    {
      ret, frame := Gate(life), None;
      if ret != 0 { return; }
      ret := ReceiveCode(link, page, priority);
      if Taken(ret) && page.rx[priority] != [] {
        if ret == 0 { frame := Some(page.rx[priority][0]); }
        page := page.(rx := page.rx[priority := page.rx[priority][1..]]);
      }
    }

    /** One pass of the read loop. */
    method UserRead(priority: nat, nonblock: bool) returns (end: ReadEnd)
      requires Valid() && priority < 4
      modifies this`page
      ensures Valid()
      ensures end == ReadEndOf(life, link, old(page), priority, nonblock)
      ensures page == if Gate(life) != 0 then old(page) else Received(link, old(page), priority)
    {
      var ret, frame := UserReceive(priority);
      if ret == 0 { return Delivered(frame.value); }
      if ret == -EAGAIN { return Failed(ret); }
      if ret == -ENOLINK || ret == -ESHUTDOWN { return Failed(ret); }
      if ret != Ring.RING_EMPTY { return Failed(Errno(ret)); }
      if nonblock { return Failed(-EAGAIN); }
      return Sleeps;
    }
  }
}
