/** A run of the driver, from probe on, in which the stop preflight passes although traffic is queued. */
module LifecycleExceptions {
  import opened Words
  import opened Protocol
  import opened Lifecycle
  import opened LifecycleSafety
  import Ring

  /** The steps lead from the probed device to a world whose driver is `d`. */
  ghost predicate Leads(g: Geometry, w: World, steps: seq<Step>, d: Driver) {
    WorldInv(w, g) && Run(g, w, steps).d == d && Ready(d, g)
  }

  lemma {:induction false} RunSnoc(g: Geometry, w: World, steps: seq<Step>, step: Step)
    requires WorldInv(w, g)
    ensures Run(g, w, steps + [step]) == Apply(g, Run(g, w, steps), step)
    decreases |steps|
  {
    if steps == [] {
      WorldStepKeeps(w, g, step, Apply(g, w, step));
      assert Run(g, Apply(g, w, step), []) == Apply(g, w, step);
    } else {
      WorldStepKeeps(w, g, steps[0], Apply(g, w, steps[0]));
      assert (steps + [step])[0] == steps[0] && (steps + [step])[1..] == steps[1..] + [step];
      RunSnoc(g, Apply(g, w, steps[0]), steps[1..], step);
    }
  }

  lemma Then(g: Geometry, w: World, steps: seq<Step>, d: Driver, step: Step, t: Driver)
    requires Leads(g, w, steps, d) && Possible(d, step) && t == Next(g, d, step)
    ensures Leads(g, w, steps + [step], t)
  {
    RunSnoc(g, w, steps, step);
    assert WorldInv(Run(g, w, steps + [step]), g);
  }

  const READY: Reply := Reply(Ring.RING_OK, MSG_SESSION_READY, 8, 1, PROTOCOL_VERSION)
  const ACK: Reply := Reply(Ring.RING_OK, MSG_ACK, 8, 1, 0)

  /** The image is uploaded and CPU3 boots. */
  function Boot(image: seq<bv8>): seq<Step> {
    [] + [ImageWrite(0, image)] + [Start(PSCI_OFF, 0)]
  }

  /** CPU3 reports READY, and Linux reads that. */
  function Greet(image: seq<bv8>): seq<Step> {
    Boot(image) + [Cpu3Push(0, READY)] + [ControlWork(false, [])]
  }

  /** A user opens p1, sends, and closes without waiting for the acknowledgement, which CPU3 then sends. */
  function SendAndLeave(image: seq<bv8>): seq<Step> {
    Greet(image) + [OpenFile(0, 1)] + [UserSend] + [ReleaseFile(0)] + [Cpu3Push(1, ACK)]
  }

  /** The first session, with these reverse rings, and no open files. */
  ghost predicate First(d: Driver, life: Life, sequence: u32, rx: seq<seq<Reply>>) {
    && d.life == life && d.users.files == map[] && d.users.openCount == 0 && d.session.generation == 1
    && d.link == Link(1, sequence) && d.page == Page(PROTOCOL_MAGIC, PROTOCOL_VERSION, 1, rx)
  }

  lemma Boots(g: Geometry, w: World, image: seq<bv8>) returns (d: Driver)
    requires Probe(w, g) && |image| == g.imageSize && WorldInv(w, g)
    ensures Leads(g, w, Boot(image), d) && First(d, Starting, 0, [[], [], [], []])
  {
    var a := Next(g, w.d, ImageWrite(0, image));
    Then(g, w, [], w.d, ImageWrite(0, image), a);
    d := Next(g, a, Start(PSCI_OFF, 0));
    Then(g, w, [] + [ImageWrite(0, image)], a, Start(PSCI_OFF, 0), d);
  }

  lemma Greets(g: Geometry, w: World, image: seq<bv8>, b: Driver) returns (d: Driver)
    requires Leads(g, w, Boot(image), b) && First(b, Starting, 0, [[], [], [], []])
    ensures Leads(g, w, Greet(image), d) && First(d, Active, 0, [[], [], [], []])
  {
    var a := Next(g, b, Cpu3Push(0, READY));
    Then(g, w, Boot(image), b, Cpu3Push(0, READY), a);
    d := Next(g, a, ControlWork(false, []));
    Then(g, w, Boot(image) + [Cpu3Push(0, READY)], a, ControlWork(false, []), d);
    FirstFrame(b.page.rx, 0, READY);
    Welcomed(a, d);
  }

  lemma FirstFrame(rx: seq<seq<Reply>>, p: nat, r: Reply)
    requires rx == [[], [], [], []] && p < 2
    ensures rx[p := rx[p] + [r]] == if p == 0 then [[r], [], [], []] else [[], [r], [], []]
  {
    assert rx[p] + [r] == [r];
  }

  lemma Welcomed(d: Driver, t: Driver)
    requires |d.users.wakes| == 4 && First(d, Starting, 0, [[READY], [], [], []])
    requires t == ControlWorked(d, false, [])
    ensures First(t, Active, 0, [[], [], [], []])
  {
    assert d.page.rx[0] + [] == d.page.rx[0] && d.page.rx[0 := d.page.rx[0]] == d.page.rx;
    assert ReceiveCode(d.link, d.page, 0) == Ring.RING_OK && d.page.rx[0][1..] == [];
  }

  lemma Sends(g: Geometry, w: World, steps: seq<Step>, b: Driver) returns (d: Driver)
    requires Leads(g, w, steps, b) && First(b, Active, 0, [[], [], [], []])
    ensures Leads(g, w, steps + [OpenFile(0, 1)] + [UserSend], d)
    ensures d == b.(users := Opened(b.users, 0, 1), link := Link(1, 1))
  {
    var a := Next(g, b, OpenFile(0, 1));
    Then(g, w, steps, b, OpenFile(0, 1), a);
    d := Next(g, a, UserSend);
    Then(g, w, steps + [OpenFile(0, 1)], a, UserSend, d);
  }

  lemma Closes(g: Geometry, w: World, steps: seq<Step>, b: Driver, u: Users) returns (d: Driver)
    requires Leads(g, w, steps, b) && u.files == map[] && u.openCount == 0 && b.users == Opened(u, 0, 1)
    requires First(b.(users := u), Active, 1, [[], [], [], []])
    ensures Leads(g, w, steps + [ReleaseFile(0)] + [Cpu3Push(1, ACK)], d) && First(d, Active, 1, [[], [ACK], [], []])
  {
    var a := Next(g, b, ReleaseFile(0));
    Then(g, w, steps, b, ReleaseFile(0), a);
    d := Next(g, a, Cpu3Push(1, ACK));
    Then(g, w, steps + [ReleaseFile(0)], a, Cpu3Push(1, ACK), d);
    FirstFrame(b.page.rx, 1, ACK);
  }

  /** From every probed device, with any image and whatever the forward rings and the mailbox hold when the stop is
      asked for, this run reaches a state that is not quiet, since an acknowledgement waits on p1, and the stop is
      taken up all the same. */
  lemma PreflightMissesTraffic(g: Geometry, w: World, image: seq<bv8>, t: Traffic)
    requires Probe(w, g) && |image| == g.imageSize && |t.forward| == 4
    ensures WorldInv(w, g)
    ensures var busy := Run(g, w, SendAndLeave(image)).d;
            && busy.life == Active && |busy.page.rx| == 4 && busy.page.rx[1] != [] && !Quiet(busy, t)
            && Run(g, w, SendAndLeave(image) + [StopStore(t, false, 0)]).d.life == Stopping
  {
    ProbeInv(w, g);
    var a := Boots(g, w, image);
    var b := Greets(g, w, image, a);
    var c := Sends(g, w, Greet(image), b);
    var d := Closes(g, w, Greet(image) + [OpenFile(0, 1)] + [UserSend], c, b.users);
    PreflightLooksAtOneRing(d, t);
    Then(g, w, SendAndLeave(image), d, StopStore(t, false, 0), Next(g, d, StopStore(t, false, 0)));
  }
}
