/** What every run of the Linux driver keeps, whatever user space, firmware, timers and CPU3 do. */
module LifecycleSafety {
  import opened Protocol
  import opened Lifecycle
  import Ring
  import Endpoint

  /** One locked region of the driver, or one thing that happens around it. */
  datatype Step =
    | ImageWrite(off: nat, data: seq<bv8>)
    | Start(sample: int, cpuOn: int)
    | Rearm(sample: int, doorbell: bool)
    | StopStore(t: Traffic, full: bool, notified: int)
    | ReadAffinity(sample: int)
    | AffinityWork(sample: int)
    | ControlWork(expired: bool, rounds: seq<Round>)
    | TimeoutWork(expired: bool, sample: int)
    | OpenFile(id: nat, priority: nat)
    | ClaimReader(id: nat)
    | ReleaseFile(id: nat)
    | UserReceive(priority: nat)
    | UserSend
    | MailboxCallback(priority: nat)
    | Cpu3Push(priority: nat, reply: Reply)
    | Cpu3Stops

  /** The arguments that a step can carry at all. */
  ghost predicate Possible(d: Driver, step: Step) {
    match step
    case StopStore(t, full, notified) => |t.forward| == 4
    case ControlWork(expired, rounds) => RoundsCoded(rounds)
    case OpenFile(id, p) => p < 4 && id !in d.users.files
    case ClaimReader(id) => id in d.users.files
    case ReleaseFile(id) => id in d.users.files
    case UserReceive(p) => p < 4
    case MailboxCallback(p) => p < 4
    case Cpu3Push(p, r) => p < 4 && WellCoded([r])
    case _ => true
  }

  function Rung(u: Users, p: nat): Users
    requires p < |u.wakes|
  {
    u.(wakes := u.wakes[p := Endpoint.Bump(u.wakes[p])])
  }

  ghost predicate Ready(d: Driver, g: Geometry) {
    Shaped(d, g) && WellCoded(d.page.rx[0])
  }

  ghost function Next(g: Geometry, d: Driver, step: Step): Driver
    requires Ready(d, g) && Possible(d, step)
  {
    match step
    case ImageWrite(off, data) => ImageWritten(d, g, off, data)
    case Start(sample, cpuOn) => Started(d, g, sample, cpuOn)
    case Rearm(sample, doorbell) => Rearmed(d, sample, doorbell)
    case StopStore(t, full, notified) => StopStored(d, t, full, notified)
    case ReadAffinity(sample) => Refresh(d, sample)
    case AffinityWork(sample) => if d.life == Unarmed || d.life == Offline then d else Refresh(d, sample)
    case ControlWork(expired, rounds) => ControlWorked(d, expired, rounds)
    case TimeoutWork(expired, sample) => TimedOut(d, expired, sample)
    case OpenFile(id, p) => if Gate(d.life) != 0 then d else d.(users := Opened(d.users, id, p))
    case ClaimReader(id) => d.(users := Claimed(d.users, id))
    case ReleaseFile(id) => d.(users := Released(d.users, id))
    case UserReceive(p) => if Gate(d.life) != 0 then d else d.(page := Received(d.link, d.page, p))
    case UserSend =>
      if Gate(d.life) != 0 || SessionCode(d.link, d.page) != 0 then d
      else d.(link := d.link.(nextSequence := Endpoint.NextSequence(d.link.nextSequence)))
    case MailboxCallback(p) => d.(users := Rung(d.users, p))
    case Cpu3Push(p, r) => d.(page := d.page.(rx := d.page.rx[p := d.page.rx[p] + [r]]))
    case Cpu3Stops => d
  }

  // ----- The invariant -----

  /** Armed states are exactly the sessions whose CPU_ON was attempted and succeeded; an open or closing session is
      one whose peer, session and shared generations agree and are not zero. */
  ghost predicate SessionInv(d: Driver, g: Geometry) {
    && (d.life != Unarmed <==> d.power.attempted && d.power.cpuOnRet == 0)
    && (!d.power.attempted ==> d.power.cpuOnRet != 0)
    && (d.power.attempted ==> d.written == g.imageSize)
    && (d.life != Unarmed ==>
          && d.session.generation != 0 && d.link.generation == d.session.generation
          && d.page.magic == PROTOCOL_MAGIC && d.page.version == PROTOCOL_VERSION
          && d.page.generation == d.session.generation)
    && (d.life in {Active, Stopping, StopTimeout} ==> d.session.peer == d.session.generation && d.power.seenOn)
  }

  function Claims(files: map<nat, File>, p: nat): set<nat> {
    set id | id in files && files[id] == File(p, true)
  }

  ghost predicate UserInv(u: Users, life: Life)
    requires |u.readers| == 4
  {
    && u.openCount == |u.files|
    && (forall p :: 0 <= p < 4 ==> u.readers[p] == |Claims(u.files, p)| <= 1)
    && (u.files != map[] ==> life == Active || life == Offline)
  }

  ghost predicate Inv(d: Driver, g: Geometry) {
    Ready(d, g) && SessionInv(d, g) && UserInv(d.users, d.life)
  }

  // ----- The pieces that steps are made of -----

  /** How far a step that is not start or rearm can take the session. */
  ghost predicate Stays(d: Driver, t: Driver) {
    && t.written == d.written && t.carveout == d.carveout
    && t.power.attempted == d.power.attempted && t.power.cpuOnRet == d.power.cpuOnRet
    && t.session.generation == d.session.generation && t.link.generation == d.link.generation
    && t.page.magic == d.page.magic && t.page.version == d.page.version && t.page.generation == d.page.generation
    && |t.page.rx| == 4 && WellCoded(t.page.rx[0])
    && (d.power.seenOn ==> t.power.seenOn)
    && (t.session.peer == d.session.peer || t.session.peer == t.session.generation)
  }

  ghost predicate SameFiles(u: Users, v: Users) {
    v == u.(wakes := v.wakes) && |v.wakes| == 4
  }

  predicate Open(life: Life) {
    life == Active || life == Stopping || life == StopTimeout
  }

  lemma StaysKeeps(d: Driver, t: Driver, g: Geometry)
    requires Inv(d, g) && Stays(d, t) && SameFiles(d.users, t.users)
    requires t.life != d.life ==> d.life != Unarmed && t.life != Unarmed
    requires t.life != d.life && t.life != Offline ==> d.users.files == map[]
    requires Open(t.life) && !Open(d.life) ==> t.session.peer == t.session.generation && t.power.seenOn
    ensures Inv(t, g)
  {}

  lemma RefreshMoves(d: Driver, sample: int, t: Driver)
    requires |d.page.rx| == 4 && WellCoded(d.page.rx[0]) && |d.users.wakes| == 4 && t == Refresh(d, sample)
    ensures Stays(d, t) && SameFiles(d.users, t.users)
    ensures t.session == d.session && t.stop == d.stop && t.page == d.page && t.link == d.link
    ensures t.power == Sampled(d.power, sample)
    ensures t.life != d.life ==>
      && t.life == Offline && d.life != Unarmed && sample == PSCI_OFF && d.power.seenOn && d.power.cpuOnRet == 0
      && t.users.wakes == BumpAll(d.users.wakes)
    ensures sample == PSCI_OFF && d.power.seenOn && d.power.cpuOnRet == 0 ==> t.life == Offline || t.life == Unarmed
  {}

  lemma TimeoutMoves(d: Driver, t: Driver)
    requires |d.page.rx| == 4 && WellCoded(d.page.rx[0]) && |d.users.wakes| == 4 && t == SetTimeout(d)
    ensures Stays(d, t) && SameFiles(d.users, t.users) && t.power == d.power && t.page == d.page && t.link == d.link
    ensures t.life == if d.life == Starting then StartTimeout else if d.life == Stopping then StopTimeout else d.life
    ensures t.stop.reply == d.stop.reply && t.stop.sequence == d.stop.sequence
  {}

  /** What the control work can do to a session that is starting or stopping. */
  ghost predicate ControlMay(d: Driver, t: Driver) {
    && Stays(d, t) && SameFiles(d.users, t.users) && t.link == d.link
    && (d.life == Starting ==> t.life == Starting || t.life == StartTimeout || t.life == Active)
    && (d.life == Starting && t.life != Active ==> t.power == d.power)
    && (d.life == Starting && t.life == Active ==> t.session.peer == t.session.generation && t.power.seenOn)
    && (d.life == Stopping ==> t.life == Stopping || t.life == StopTimeout || t.life == Active)
    && (d.life == Stopping ==> t.power == d.power && t.session == d.session)
  }

  lemma JudgedMoves(d: Driver, r: Reply, t: Turn)
    requires |d.page.rx| == 4 && WellCoded(d.page.rx[0]) && |d.users.wakes| == 4 && t == Judged(d, r)
    requires d.life == Starting || d.life == Stopping
    ensures ControlMay(d, t.d)
  {}

  lemma TurnMoves(d: Driver, round: Round, t: Turn)
    requires |d.page.rx| == 4 && WellCoded(d.page.rx[0]) && |d.users.wakes| == 4
    requires d.life == Starting || d.life == Stopping
    requires WellCoded(round.arrivals) && t == ControlTurn(d, round)
    ensures ControlMay(d, t.d) && (t.stay ==> t.d.life == d.life)
  {
    var page := Arrived(d.page, round.arrivals);
    var after := Received(d.link, page, 0);
    TurnConsumes(d, round, t);
    ReceiveTakes(d.link, page, after);
    var f := d.(page := after);
    if ReceiveCode(d.link, page, 0) == 0 {
      if round.expired { TimeoutMoves(f, t.d); } else { JudgedMoves(f, page.rx[0][0], t); }
    }
  }

  lemma {:induction false} LoopMoves(d: Driver, rounds: seq<Round>, t: Driver)
    requires |d.page.rx| == 4 && WellCoded(d.page.rx[0]) && |d.users.wakes| == 4 && RoundsCoded(rounds)
    requires d.life == Starting || d.life == Stopping
    requires t == ControlLoop(d, rounds).d
    ensures ControlMay(d, t)
    decreases |d.page.rx[0]| + Arrivals(rounds)
  {
    var turn := ControlTurn(d, RoundAt(rounds, 0));
    TurnMoves(d, RoundAt(rounds, 0), turn);
    TurnConsumes(d, RoundAt(rounds, 0), turn);
    if turn.stay { LoopMoves(turn.d, if rounds == [] then [] else rounds[1..], t); }
  }

  // ----- Files and readers -----

  lemma OpenKeeps(u: Users, life: Life, id: nat, p: nat, v: Users)
    requires ShapedUsers(u) && UserInv(u, life) && p < 4 && id !in u.files && life == Active
    requires v == Opened(u, id, p)
    ensures ShapedUsers(v) && UserInv(v, life)
  {
    assert v.files.Keys == u.files.Keys + {id};
    forall q | 0 <= q < 4 ensures Claims(v.files, q) == Claims(u.files, q) {}
  }

  lemma ClaimKeeps(u: Users, life: Life, id: nat, v: Users)
    requires ShapedUsers(u) && UserInv(u, life) && id in u.files && v == Claimed(u, id)
    ensures ShapedUsers(v) && UserInv(v, life)
  {
    if v != u {
      var p := u.files[id].priority;
      assert v.files.Keys == u.files.Keys;
      forall q | 0 <= q < 4
        ensures Claims(v.files, q) == if q == p then Claims(u.files, q) + {id} else Claims(u.files, q) {}
      assert id !in Claims(u.files, p);
    }
  }

  lemma ReleaseKeeps(u: Users, life: Life, id: nat, v: Users)
    requires ShapedUsers(u) && UserInv(u, life) && id in u.files && v == Released(u, id)
    ensures ShapedUsers(v) && UserInv(v, life)
  {
    var f := u.files[id];
    assert v.files.Keys == u.files.Keys - {id};
    forall q | 0 <= q < 4 ensures Claims(v.files, q) == Claims(u.files, q) - {id} {}
    forall q | 0 <= q < 4 ensures v.readers[q] == |Claims(v.files, q)| <= 1 {
      assert id in Claims(u.files, q) <==> f == File(q, true);
    }
  }

  // ----- Every step keeps the invariant -----

  lemma StartKeeps(d: Driver, g: Geometry, sample: int, cpuOn: int, t: Driver)
    requires Inv(d, g) && t == Started(d, g, sample, cpuOn)
    ensures Inv(t, g)
  {
    var e := Refresh(d, sample);
    RefreshMoves(d, sample, e);
    if !(d.power.attempted || d.written != g.imageSize) {
      if sample != PSCI_OFF { StaysKeeps(d, e, g); }
    }
  }

  lemma RearmKeeps(d: Driver, g: Geometry, sample: int, doorbell: bool, t: Driver)
    requires Inv(d, g) && t == Rearmed(d, sample, doorbell)
    ensures Inv(t, g)
  {
    var e := Refresh(d, sample);
    RefreshMoves(d, sample, e);
    StaysKeeps(d, e, g);
  }

  lemma StopKeeps(d: Driver, g: Geometry, tr: Traffic, full: bool, notified: int, t: Driver)
    requires Inv(d, g) && |tr.forward| == 4 && t == StopStored(d, tr, full, notified)
    ensures Inv(t, g)
  {
    if d.life == Active && Preflight(d, tr) == 0 { StaysKeeps(d, t, g); }
  }

  lemma RefreshKeeps(d: Driver, g: Geometry, sample: int, t: Driver)
    requires Inv(d, g) && t == Refresh(d, sample)
    ensures Inv(t, g)
  {
    RefreshMoves(d, sample, t);
    StaysKeeps(d, t, g);
  }

  lemma ControlKeeps(d: Driver, g: Geometry, expired: bool, rounds: seq<Round>, t: Driver)
    requires Inv(d, g) && RoundsCoded(rounds) && t == ControlWorked(d, expired, rounds)
    ensures Inv(t, g)
  {
    if d.life == Starting || d.life == Stopping {
      if expired { TimeoutMoves(d, t); } else { LoopMoves(d, rounds, t); }
      StaysKeeps(d, t, g);
    }
  }

  lemma TimeoutKeeps(d: Driver, g: Geometry, expired: bool, sample: int, t: Driver)
    requires Inv(d, g) && t == TimedOut(d, expired, sample)
    ensures Inv(t, g)
  {
    var e := Refresh(d, sample);
    RefreshKeeps(d, g, sample, e);
    RefreshMoves(d, sample, e);
    if (d.life == Starting || d.life == Stopping) && expired {
      if d.life == Stopping && d.stop.reply == MSG_STOP_READY {
        if e.life != Offline {
          TimeoutMoves(e, t);
          StaysKeeps(e, t, g);
        }
      } else {
        TimeoutMoves(d, t);
        StaysKeeps(d, t, g);
      }
    }
  }

  lemma UserKeeps(d: Driver, g: Geometry, step: Step, t: Driver)
    requires Inv(d, g) && Possible(d, step) && t == Next(g, d, step)
    requires step.OpenFile? || step.ClaimReader? || step.ReleaseFile?
    ensures Inv(t, g)
  {
    if step.OpenFile? {
      if Gate(d.life) == 0 { OpenKeeps(d.users, d.life, step.id, step.priority, t.users); }
    } else if step.ClaimReader? {
      ClaimKeeps(d.users, d.life, step.id, t.users);
    } else {
      ReleaseKeeps(d.users, d.life, step.id, t.users);
    }
  }

  lemma TrafficKeeps(d: Driver, g: Geometry, step: Step, t: Driver)
    requires Inv(d, g) && Possible(d, step) && t == Next(g, d, step)
    requires step.UserReceive? || step.UserSend? || step.MailboxCallback? || step.Cpu3Push?
    ensures Inv(t, g)
  {
    StaysKeeps(d, t, g);
  }

  lemma StepKeeps(d: Driver, g: Geometry, step: Step, t: Driver)
    requires Inv(d, g) && Possible(d, step) && t == Next(g, d, step)
    ensures Inv(t, g)
  {
    if step.Start? { StartKeeps(d, g, step.sample, step.cpuOn, t); }
    else if step.Rearm? { RearmKeeps(d, g, step.sample, step.doorbell, t); }
    else if step.StopStore? { StopKeeps(d, g, step.t, step.full, step.notified, t); }
    else if step.ReadAffinity? { RefreshKeeps(d, g, step.sample, t); }
    else if step.AffinityWork? { RefreshKeeps(d, g, step.sample, Refresh(d, step.sample)); }
    else if step.ControlWork? { ControlKeeps(d, g, step.expired, step.rounds, t); }
    else if step.TimeoutWork? { TimeoutKeeps(d, g, step.expired, step.sample, t); }
    else if step.OpenFile? || step.ClaimReader? || step.ReleaseFile? { UserKeeps(d, g, step, t); }
    else if step.UserReceive? || step.UserSend? || step.MailboxCallback? || step.Cpu3Push? {
      TrafficKeeps(d, g, step, t);
    }
  }

  // ----- Whole runs -----

  /** The driver, the core that it controls, and what an observer has noted: the bytes uploaded since the last rearm
      and whether anything has shown, since the last successful start, that CPU3 ran. */
  datatype World = World(d: Driver, running: bool, upload: seq<bv8>, ran: bool)

  ghost predicate Probe(w: World, g: Geometry) {
    g.Valid() && |w.d.carveout| == g.statusOffset && w == World(Probed(w.d.carveout), false, [], false)
  }

  predicate Powered(d: Driver, g: Geometry, step: Step) {
    step.Start? && StartCode(d, g, step.sample, step.cpuOn) == 0
  }

  /** The step asks the firmware for the affinity state, and this is the answer. */
  predicate Samples(d: Driver, g: Geometry, step: Step, answer: int) {
    match step
    case Start(sample, _) => !d.power.attempted && d.written == g.imageSize && sample == answer
    case Rearm(sample, _) => d.power.attempted && d.users.openCount == 0 && sample == answer
    case ReadAffinity(sample) => sample == answer
    case AffinityWork(sample) => d.life != Unarmed && d.life != Offline && sample == answer
    case TimeoutWork(expired, sample) =>
      expired && d.life == Stopping && d.stop.reply == MSG_STOP_READY && sample == answer
    case _ => false
  }

  predicate ShowsLife(d: Driver, g: Geometry, step: Step, t: Driver) {
    || Samples(d, g, step, PSCI_ON) || Samples(d, g, step, PSCI_ON_PENDING)
    || (d.life == Starting && t.life == Active)
  }

  predicate Uploads(d: Driver, g: Geometry, step: Step) {
    step.ImageWrite? && d.written <= g.imageSize && ImageCode(d, g, step.off, step.data) >= 0
  }

  predicate Rearms(d: Driver, step: Step) {
    step.Rearm? && RearmCode(d, step.sample, step.doorbell) == 0
  }

  ghost function Apply(g: Geometry, w: World, step: Step): World
    requires Ready(w.d, g)
  {
    if !Possible(w.d, step) then w
    else
      var t := Next(g, w.d, step);
      World(t,
            if step.Cpu3Stops? then false else w.running || Powered(w.d, g, step),
            if Uploads(w.d, g, step) then w.upload + step.data else if Rearms(w.d, step) then [] else w.upload,
            !Powered(w.d, g, step) && (w.ran || ShowsLife(w.d, g, step, t)))
  }

  ghost predicate WorldInv(w: World, g: Geometry) {
    && Inv(w.d, g)
    && w.d.carveout[..w.d.written] == w.upload
    && (w.d.life != Unarmed && w.d.power.seenOn ==> w.ran)
  }

  ghost function Run(g: Geometry, w: World, steps: seq<Step>): (t: World)
    requires WorldInv(w, g)
    ensures WorldInv(t, g)
    decreases |steps|
  {
    if steps == [] then w
    else
      WorldStepKeeps(w, g, steps[0], Apply(g, w, steps[0]));
      Run(g, Apply(g, w, steps[0]), steps[1..])
  }

  /** Only an accepted image write touches the carve-out, only below the image size, and only before CPU_ON. */
  lemma CarveoutChanges(d: Driver, g: Geometry, step: Step, t: Driver)
    requires Inv(d, g) && Possible(d, step) && t == Next(g, d, step)
    ensures |t.carveout| == |d.carveout| && t.carveout[g.imageSize..] == d.carveout[g.imageSize..]
    ensures t.carveout != d.carveout ==> Uploads(d, g, step) && !d.power.attempted
    ensures Uploads(d, g, step) ==> t.written == d.written + |step.data| && !d.power.attempted
    ensures Uploads(d, g, step) ==> t.carveout[..t.written] == d.carveout[..d.written] + step.data
    ensures !Uploads(d, g, step) ==> t.carveout == d.carveout && t.written == if Rearms(d, step) then 0 else d.written
  {
    if step.ImageWrite? {
      if Uploads(d, g, step) { UploadShape(d.carveout, d.written, step.data, g.imageSize); }
    } else if step.ControlWork? {
      ControlQuiet(d, step.expired, step.rounds, t);
    } else if step.TimeoutWork? || step.ReadAffinity? || step.AffinityWork? || step.Start? || step.Rearm? {
      RefreshMoves(d, step.sample, Refresh(d, step.sample));
    }
  }

  lemma UploadShape(c: seq<bv8>, off: nat, data: seq<bv8>, size: nat)
    requires off + |data| <= size <= |c|
    ensures var t := c[..off] + data + c[off + |data|..];
            |t| == |c| && t[size..] == c[size..] && t[..off + |data|] == c[..off] + data
  {}

  lemma ControlQuiet(d: Driver, expired: bool, rounds: seq<Round>, t: Driver)
    requires |d.page.rx| == 4 && WellCoded(d.page.rx[0]) && |d.users.wakes| == 4 && RoundsCoded(rounds)
    requires t == ControlWorked(d, expired, rounds)
    ensures Stays(d, t)
  {
    if d.life == Starting || d.life == Stopping {
      if expired { TimeoutMoves(d, t); } else { LoopMoves(d, rounds, t); }
    }
  }

  /** `seenOn` is set only by evidence, and a successful start forgets it. */
  lemma EvidenceKept(d: Driver, g: Geometry, step: Step, t: Driver)
    requires Inv(d, g) && Possible(d, step) && t == Next(g, d, step) && Inv(t, g)
    ensures t.life != Unarmed && t.power.seenOn ==>
      !Powered(d, g, step) && ((d.life != Unarmed && d.power.seenOn) || ShowsLife(d, g, step, t))
  {
    if step.ControlWork? {
      if d.life == Starting || d.life == Stopping {
        if step.expired { TimeoutMoves(d, t); } else { LoopMoves(d, step.rounds, t); }
      }
    } else if step.TimeoutWork? {
      RefreshMoves(d, step.sample, Refresh(d, step.sample));
      if d.life == Stopping && d.stop.reply == MSG_STOP_READY {
        TimeoutMoves(Refresh(d, step.sample), SetTimeout(Refresh(d, step.sample)));
      }
      TimeoutMoves(d, SetTimeout(d));
    } else if step.ReadAffinity? || step.AffinityWork? || step.Start? || step.Rearm? {
      RefreshMoves(d, step.sample, Refresh(d, step.sample));
    }
  }

  lemma WorldStepKeeps(w: World, g: Geometry, step: Step, t: World)
    requires WorldInv(w, g) && t == Apply(g, w, step)
    ensures WorldInv(t, g)
  {
    if Possible(w.d, step) {
      StepKeeps(w.d, g, step, t.d);
      CarveoutChanges(w.d, g, step, t.d);
      EvidenceKept(w.d, g, step, t.d);
    }
  }

  lemma ProbeInv(w: World, g: Geometry)
    requires Probe(w, g)
    ensures WorldInv(w, g)
  {
    forall p | 0 <= p < 4 ensures Claims(w.d.users.files, p) == {} {}
  }

  // ----- Main results -----

  /** In every state that a run can reach, the session and user invariants hold and an armed session's image is the
      complete upload. */
  lemma EveryRunIsSafe(w: World, g: Geometry, steps: seq<Step>)
    requires Probe(w, g)
    ensures WorldInv(w, g)
    ensures var t := Run(g, w, steps);
            && SessionInv(t.d, g) && UserInv(t.d.users, t.d.life)
            && (t.d.power.attempted ==> |t.upload| == g.imageSize && t.d.carveout[..g.imageSize] == t.upload)
  {
    ProbeInv(w, g);
    var t := Run(g, w, steps);
    assert WorldInv(t, g);
  }

  /** Everything that has arrived on p0 by the time the control loop ends, if it uses up its rounds. */
  function Flatten(rounds: seq<Round>): seq<Reply> {
    if rounds == [] then [] else rounds[0].arrivals + Flatten(rounds[1..])
  }

  /** What opens the data plane: a matching SESSION_READY, or a matching STOP_REFUSED. */
  predicate Opens(d: Driver, r: Reply) {
    if d.life == Starting then SessionReady(d, r) else StopReplied(d, r) && r.kind == MSG_STOP_REFUSED
  }

  lemma TurnOpens(d: Driver, round: Round, t: Turn)
    requires |d.page.rx| == 4 && WellCoded(d.page.rx[0]) && |d.users.wakes| == 4
    requires d.life == Starting || d.life == Stopping
    requires WellCoded(round.arrivals) && t == ControlTurn(d, round)
    ensures !t.stay && t.d.life == Active ==>
      var q := d.page.rx[0] + round.arrivals; q != [] && q[0].code == Ring.RING_OK && Opens(d, q[0])
    ensures t.stay ==> t.d.session.generation == d.session.generation && t.d.stop.sequence == d.stop.sequence
  {
    var page := Arrived(d.page, round.arrivals);
    ReceiveTakes(d.link, page, Received(d.link, page, 0));
  }

  /** The control work opens the data plane only on a frame that receive accepted and that answers this session. */
  lemma {:induction false} OpenedByReply(d: Driver, rounds: seq<Round>, t: Driver)
    requires |d.page.rx| == 4 && WellCoded(d.page.rx[0]) && |d.users.wakes| == 4 && RoundsCoded(rounds)
    requires d.life == Starting || d.life == Stopping
    requires t == ControlLoop(d, rounds).d && t.life == Active
    ensures exists r :: r in d.page.rx[0] + Flatten(rounds) && r.code == Ring.RING_OK && Opens(d, r)
    decreases |d.page.rx[0]| + Arrivals(rounds)
  {
    var round := RoundAt(rounds, 0);
    var turn := ControlTurn(d, round);
    var rest := if rounds == [] then [] else rounds[1..];
    TurnMoves(d, round, turn);
    TurnConsumes(d, round, turn);
    TurnOpens(d, round, turn);
    var q := d.page.rx[0] + round.arrivals;
    assert d.page.rx[0] + Flatten(rounds) == q + Flatten(rest);
    if turn.stay {
      OpenedByReply(turn.d, rest, t);
      var r :| r in turn.d.page.rx[0] + Flatten(rest) && r.code == Ring.RING_OK && Opens(turn.d, r);
      assert turn.d.page.rx[0] == q[1..];
      assert r in q + Flatten(rest) && Opens(d, r);
    } else {
      assert q[0] in q + Flatten(rest);
    }
  }

  /** The control work or the timeout work found the deadline passed, the former perhaps between two of its turns. */
  predicate Overdue(step: Step) {
    || (step.TimeoutWork? && step.expired)
    || (step.ControlWork? && (step.expired || Expires(step.rounds)))
  }

  predicate Expires(rounds: seq<Round>) {
    exists i :: 0 <= i < |rounds| && rounds[i].expired
  }

  lemma TurnOverdue(d: Driver, round: Round, t: Turn)
    requires |d.page.rx| == 4 && WellCoded(d.page.rx[0]) && |d.users.wakes| == 4 && WellCoded(round.arrivals)
    requires (d.life == Starting || d.life == Stopping) && t == ControlTurn(d, round)
    ensures t.d.life == StartTimeout || t.d.life == StopTimeout ==> round.expired
  {
    var page := Arrived(d.page, round.arrivals);
    ReceiveTakes(d.link, page, Received(d.link, page, 0));
  }

  lemma {:induction false} LoopOverdue(d: Driver, rounds: seq<Round>, t: Driver)
    requires |d.page.rx| == 4 && WellCoded(d.page.rx[0]) && |d.users.wakes| == 4 && RoundsCoded(rounds)
    requires d.life == Starting || d.life == Stopping
    requires t == ControlLoop(d, rounds).d && (t.life == StartTimeout || t.life == StopTimeout)
    ensures Expires(rounds)
    decreases |d.page.rx[0]| + Arrivals(rounds)
  {
    var round := RoundAt(rounds, 0);
    var turn := ControlTurn(d, round);
    var rest := if rounds == [] then [] else rounds[1..];
    TurnConsumes(d, round, turn);
    TurnOverdue(d, round, turn);
    if turn.stay {
      LoopOverdue(turn.d, rest, t);
      var i :| 0 <= i < |rest| && rest[i].expired;
      assert rounds[i + 1].expired;
    }
  }

  /** Why a step may change the state of the session. */
  ghost predicate Cause(d: Driver, g: Geometry, step: Step, to: Life)
    requires |d.page.rx| == 4
  {
    match to
    case Starting => d.life == Unarmed && Powered(d, g, step) && step.sample == PSCI_OFF
    case Active =>
      && step.ControlWork? && (d.life == Starting || d.life == Stopping)
      && exists r :: r in d.page.rx[0] + Flatten(step.rounds) && r.code == Ring.RING_OK && Opens(d, r)
    case Stopping => d.life == Active && step.StopStore? && d.users.files == map[]
    case StartTimeout => d.life == Starting && Overdue(step)
    case StopTimeout => d.life == Stopping && Overdue(step)
    case Offline => d.life != Unarmed && Samples(d, g, step, PSCI_OFF) && d.power.seenOn
    case Unarmed => Rearms(d, step) && step.sample == PSCI_OFF && !step.doorbell && d.users.files == map[]
  }

  lemma ControlCause(d: Driver, g: Geometry, step: Step, t: Driver)
    requires Inv(d, g) && Possible(d, step) && step.ControlWork? && t == Next(g, d, step) && t.life != d.life
    ensures Cause(d, g, step, t.life)
  {
    if step.expired { TimeoutMoves(d, t); }
    else {
      LoopMoves(d, step.rounds, t);
      if t.life == Active { OpenedByReply(d, step.rounds, t); } else { LoopOverdue(d, step.rounds, t); }
    }
  }

  lemma TimerCause(d: Driver, g: Geometry, step: Step, t: Driver)
    requires Inv(d, g) && step.TimeoutWork? && t == Next(g, d, step) && t.life != d.life
    ensures Cause(d, g, step, t.life)
  {
    RefreshMoves(d, step.sample, Refresh(d, step.sample));
  }

  /** Every change of session state has one of the listed causes, and no other: in particular a timed-out session
      goes only OFFLINE or, by rearm, UNARMED, and OFFLINE is entered only on an OFF sample. */
  lemma EveryTransitionHasItsCause(d: Driver, g: Geometry, step: Step, t: Driver)
    requires Inv(d, g) && Possible(d, step) && t == Next(g, d, step) && t.life != d.life
    ensures Cause(d, g, step, t.life)
  {
    if step.ControlWork? { ControlCause(d, g, step, t); }
    else if step.TimeoutWork? { TimerCause(d, g, step, t); }
    else if step.ReadAffinity? || step.AffinityWork? || step.Start? || step.Rearm? {
      RefreshMoves(d, step.sample, Refresh(d, step.sample));
    }
  }

  /** OFFLINE is entered only after evidence, in this session, that CPU3 ran. */
  lemma OfflineNeedsEvidence(w: World, g: Geometry, step: Step, t: World)
    requires WorldInv(w, g) && t == Apply(g, w, step) && t.d.life == Offline && w.d.life != Offline
    ensures Samples(w.d, g, step, PSCI_OFF) && w.ran
  {
    EveryTransitionHasItsCause(w.d, g, step, t.d);
  }

  ghost predicate NeverRearmed(g: Geometry, w: World, steps: seq<Step>)
    requires WorldInv(w, g)
    decreases |steps|
  {
    steps == [] ||
    (!Rearms(w.d, steps[0])
     && (WorldStepKeeps(w, g, steps[0], Apply(g, w, steps[0])); NeverRearmed(g, Apply(g, w, steps[0]), steps[1..])))
  }

  predicate Finished(life: Life) {
    life == StartTimeout || life == StopTimeout || life == Offline
  }

  /** A session that has timed out or gone offline never reopens: without a rearm it stays there or goes OFFLINE. */
  lemma {:induction false} FinishedIsTerminal(w: World, g: Geometry, steps: seq<Step>)
    requires WorldInv(w, g) && Finished(w.d.life) && NeverRearmed(g, w, steps)
    ensures Run(g, w, steps).d.life == w.d.life || Run(g, w, steps).d.life == Offline
    decreases |steps|
  {
    if steps != [] {
      var t := Apply(g, w, steps[0]);
      WorldStepKeeps(w, g, steps[0], t);
      if Possible(w.d, steps[0]) && t.d.life != w.d.life { EveryTransitionHasItsCause(w.d, g, steps[0], t.d); }
      FinishedIsTerminal(t, g, steps[1..]);
    }
  }

  // ----- The image of a running core -----

  /** While CPU_ON is attempted no step changes the image; the flag falls only in a rearm that saw the core OFF, no
      open file and no pending doorbell. */
  lemma ImageIsFrozen(d: Driver, g: Geometry, step: Step, t: Driver)
    requires Inv(d, g) && Possible(d, step) && t == Next(g, d, step) && d.power.attempted
    ensures t.carveout == d.carveout
    ensures !t.power.attempted ==>
      Rearms(d, step) && step.sample == PSCI_OFF && !step.doorbell && d.users.files == map[]
  {
    CarveoutChanges(d, g, step, t);
    if step.ControlWork? { ControlQuiet(d, step.expired, step.rounds, t); }
    else if step.TimeoutWork? || step.ReadAffinity? || step.AffinityWork? || step.Start? || step.Rearm? {
      RefreshMoves(d, step.sample, Refresh(d, step.sample));
      if step.TimeoutWork? && Refresh(d, step.sample).life != Offline {
        TimeoutMoves(Refresh(d, step.sample), SetTimeout(Refresh(d, step.sample)));
      }
    }
  }

  /** The firmware never reports OFF for a core whose CPU_ON succeeded and which has not stopped. */
  ghost predicate Honest(g: Geometry, w: World, steps: seq<Step>)
    requires WorldInv(w, g)
    decreases |steps|
  {
    steps == [] ||
    ((w.running ==> !Samples(w.d, g, steps[0], PSCI_OFF))
     && (WorldStepKeeps(w, g, steps[0], Apply(g, w, steps[0])); Honest(g, Apply(g, w, steps[0]), steps[1..])))
  }

  ghost predicate PowerInv(w: World) {
    w.running ==> w.d.power.attempted && w.d.power.cpuOnRet == 0
  }

  lemma PowerKept(w: World, g: Geometry, step: Step, t: World)
    requires WorldInv(w, g) && PowerInv(w) && t == Apply(g, w, step)
    requires w.running ==> !Samples(w.d, g, step, PSCI_OFF)
    ensures PowerInv(t)
  {
    if Possible(w.d, step) && w.running {
      ImageIsFrozen(w.d, g, step, t.d);
      CpuOnRetKept(w.d, g, step, t.d);
    }
  }

  lemma CpuOnRetKept(d: Driver, g: Geometry, step: Step, t: Driver)
    requires Inv(d, g) && Possible(d, step) && t == Next(g, d, step) && d.power.attempted && t.power.attempted
    ensures t.power.cpuOnRet == d.power.cpuOnRet
  {
    if step.ControlWork? { ControlQuiet(d, step.expired, step.rounds, t); }
    else if step.TimeoutWork? || step.ReadAffinity? || step.AffinityWork? || step.Start? || step.Rearm? {
      RefreshMoves(d, step.sample, Refresh(d, step.sample));
      if step.TimeoutWork? && Refresh(d, step.sample).life != Offline {
        TimeoutMoves(Refresh(d, step.sample), SetTimeout(Refresh(d, step.sample)));
      }
    }
  }

  lemma {:induction false} HonestRunPower(w: World, g: Geometry, steps: seq<Step>)
    requires WorldInv(w, g) && PowerInv(w) && Honest(g, w, steps)
    ensures PowerInv(Run(g, w, steps))
    decreases |steps|
  {
    if steps != [] {
      var t := Apply(g, w, steps[0]);
      WorldStepKeeps(w, g, steps[0], t);
      PowerKept(w, g, steps[0], t);
      HonestRunPower(t, g, steps[1..]);
    }
  }

  /** Under that assumption, whenever CPU3 is running its image is the complete upload and no step changes it. */
  lemma RunningImageNeverOverwritten(w: World, g: Geometry, steps: seq<Step>, step: Step)
    requires Probe(w, g) && WorldInv(w, g) && Honest(g, w, steps)
    ensures var t := Run(g, w, steps);
            t.running ==>
              && |t.upload| == g.imageSize && t.d.carveout[..g.imageSize] == t.upload
              && Apply(g, t, step).d.carveout == t.d.carveout
  {
    HonestRunPower(w, g, steps);
    var t := Run(g, w, steps);
    if t.running && Possible(t.d, step) { ImageIsFrozen(t.d, g, step, Next(g, t.d, step)); }
  }

  // ----- Who takes frames out of the reverse rings -----

  lemma {:induction false} LoopRings(d: Driver, rounds: seq<Round>, c: Controlled)
    requires |d.page.rx| == 4 && WellCoded(d.page.rx[0]) && |d.users.wakes| == 4 && RoundsCoded(rounds)
    requires c == ControlLoop(d, rounds)
    ensures |c.d.page.rx| == 4 && c.d.page.rx[1..] == d.page.rx[1..]
    decreases |d.page.rx[0]| + Arrivals(rounds)
  {
    var turn := ControlTurn(d, RoundAt(rounds, 0));
    TurnConsumes(d, RoundAt(rounds, 0), turn);
    if turn.stay {
      var rest := if rounds == [] then [] else rounds[1..];
      LoopRings(turn.d, rest, ControlLoop(turn.d, rest));
    }
  }

  /** A frame leaves a reverse ring only by user code while ACTIVE, by the lifecycle on p0 while STARTING or STOPPING,
      or when a successful start clears the page. */
  lemma RingsHaveOneReader(d: Driver, g: Geometry, step: Step, t: Driver, p: nat)
    requires Inv(d, g) && Possible(d, step) && t == Next(g, d, step) && p < 4
    ensures |t.page.rx| == 4
    ensures !(d.page.rx[p] <= t.page.rx[p]) ==>
      || (step.UserReceive? && step.priority == p && d.life == Active)
      || (step.ControlWork? && p == 0 && (d.life == Starting || d.life == Stopping))
      || (step.Start? && d.life == Unarmed && !d.power.attempted)
  {
    StepKeeps(d, g, step, t);
    if step.ControlWork? {
      if (d.life == Starting || d.life == Stopping) && !step.expired {
        LoopRings(d, step.rounds, ControlLoop(d, step.rounds));
        if p != 0 { assert t.page.rx[p] == t.page.rx[1..][p - 1] == d.page.rx[p]; }
      } else if d.life == Starting || d.life == Stopping {
        TimeoutMoves(d, t);
      }
    } else if step.TimeoutWork? || step.ReadAffinity? || step.AffinityWork? || step.Rearm? {
      RefreshMoves(d, step.sample, Refresh(d, step.sample));
      if step.TimeoutWork? && Refresh(d, step.sample).life != Offline {
        TimeoutMoves(Refresh(d, step.sample), SetTimeout(Refresh(d, step.sample)));
      }
      TimeoutMoves(d, SetTimeout(d));
    }
  }

  /** Leaving ACTIVE with a file open wakes the readers of all four priorities. */
  lemma LeavingActiveWakesReaders(d: Driver, g: Geometry, step: Step, t: Driver)
    requires Inv(d, g) && Possible(d, step) && t == Next(g, d, step)
    requires d.life == Active && t.life != Active && d.users.files != map[]
    ensures t.life == Offline && t.users.wakes == BumpAll(d.users.wakes)
  {
    EveryTransitionHasItsCause(d, g, step, t);
    if step.ReadAffinity? || step.AffinityWork? || step.Start? || step.Rearm? {
      RefreshMoves(d, step.sample, Refresh(d, step.sample));
    }
  }

  // ----- The control loop ends -----

  /** What arrives during the first `n` turns. */
  function ArrivedIn(rounds: seq<Round>, n: nat): seq<Reply> {
    if n == 0 || rounds == [] then [] else rounds[0].arrivals + ArrivedIn(rounds[1..], n - 1)
  }

  /** `left` is what remains of `all` once `turns` turns have each taken the oldest frame, the last one perhaps not. */
  predicate Consumed(all: seq<Reply>, turns: nat, left: seq<Reply>) {
    || (1 <= turns <= |all| + 1 && left == all[turns - 1..])
    || (turns <= |all| && left == all[turns..])
  }

  lemma ConsumedOneMore(q: seq<Reply>, tail: seq<Reply>, turns: nat, left: seq<Reply>)
    requires q != [] && turns >= 1 && Consumed(q[1..] + tail, turns, left)
    ensures Consumed(q + tail, turns + 1, left)
  {
    assert q + tail == [q[0]] + (q[1..] + tail);
  }

  lemma ArrivedFirst(q: seq<Reply>, rounds: seq<Round>, n: nat)
    requires n >= 1
    ensures q + ArrivedIn(rounds, n)
              == q + RoundAt(rounds, 0).arrivals + ArrivedIn(if rounds == [] then [] else rounds[1..], n - 1)
  {}

  /** Every turn but the last takes exactly one frame, and the last at most one; so the loop takes no more turns
      than there are frames in p0 when it starts, frames that arrive while it runs, and one. */
  lemma {:induction false} ControlLoopConsumes(d: Driver, rounds: seq<Round>, c: Controlled)
    requires |d.page.rx| == 4 && WellCoded(d.page.rx[0]) && |d.users.wakes| == 4 && RoundsCoded(rounds)
    requires c == ControlLoop(d, rounds)
    ensures |c.d.page.rx| == 4
    ensures 1 <= c.turns <= |d.page.rx[0]| + Arrivals(rounds) + 1
    ensures Consumed(d.page.rx[0] + ArrivedIn(rounds, c.turns), c.turns, c.d.page.rx[0])
    decreases |d.page.rx[0]| + Arrivals(rounds)
  {
    var round := RoundAt(rounds, 0);
    var turn := ControlTurn(d, round);
    TurnConsumes(d, round, turn);
    var q := d.page.rx[0] + round.arrivals;
    var rest := if rounds == [] then [] else rounds[1..];
    ArrivedFirst(d.page.rx[0], rounds, c.turns);
    if turn.stay {
      var e := ControlLoop(turn.d, rest);
      ControlLoopConsumes(turn.d, rest, e);
      ConsumedOneMore(q, ArrivedIn(rest, e.turns), e.turns, e.d.page.rx[0]);
    } else {
      assert q + ArrivedIn(rest, 0) == q;
    }
  }

  // ----- The stop preflight -----

  /** What the preflight is meant to establish: no file open, an endpoint, all eight rings empty, no doorbell. */
  ghost predicate Quiet(d: Driver, t: Traffic)
    requires |d.page.rx| == 4 && |t.forward| == 4
  {
    && d.users.openCount == 0 && d.link.generation != 0 && SessionCode(d.link, d.page) == 0
    && (forall p :: 0 <= p < 4 ==> d.page.rx[p] == [] && !t.forward[p])
    && !t.doorbell
  }

  /** What it does establish: it answers success exactly when the checks before the loop pass and the first ring that
      it looks at, the reverse p0 ring, is empty. */
  lemma PreflightLooksAtOneRing(d: Driver, t: Traffic)
    requires |d.page.rx| == 4 && |t.forward| == 4
    ensures Preflight(d, t) == 0 <==>
      d.users.openCount == 0 && d.link.generation != 0 && SessionCode(d.link, d.page) == 0 && d.page.rx[0] == []
    ensures d.users.openCount == 0 && d.link.generation != 0 && SessionCode(d.link, d.page) == 0
            && d.page.rx[0] != [] ==>
      Preflight(d, t) == -EBUSY
  {
    assert ReceivedCodes(d)[0] == HasReceived(d, 0);
  }

  /** So it agrees with its purpose exactly when reverse p0 holds a frame, or a check before the loop fails, or the
      other seven rings are empty and no doorbell is pending. */
  lemma PreflightSound(d: Driver, t: Traffic)
    requires |d.page.rx| == 4 && |t.forward| == 4
    ensures (Preflight(d, t) == 0 <==> Quiet(d, t)) <==>
      || d.page.rx[0] != [] || d.users.openCount != 0 || SessionCode(d.link, d.page) != 0
      || (d.page.rx[1] == [] && d.page.rx[2] == [] && d.page.rx[3] == []
          && !t.forward[0] && !t.forward[1] && !t.forward[2] && !t.forward[3] && !t.doorbell)
  {
    PreflightLooksAtOneRing(d, t);
  }
}
