/** What each counter of an endpoint counts, over every run of one binding. */
module EndpointCounters {
  import opened Words
  import opened Ring
  import opened Endpoint

  /** What a caller sees of one step: a frame queued, with the doorbell's answer and the depth of the ring behind it; no
      room; or the code of a receive. */
  datatype Event =
    | Silent
    | Queued(priority: nat, notified: int, depth: nat)
    | NoRoom(priority: nat)
    | Got(priority: nat, code: int)

  ghost function EventOf(w: World, step: Step): Event
    requires Sound(w)
  {
    match step
    case DoSend(r, notified) =>
      if !r.Readable() then Silent
      else
        var o := SendSpec(w.side, w.link, r, notified, NO_RESULT);
        SendEnqueues(w.side, w.link, r, notified, NO_RESULT, o);
        if o.code == ENDPOINT_OK then Queued(r.priority, o.result.notifyResult, |Queue(o.link.tx[r.priority])|)
        else if o.code == RING_FULL then NoRoom(r.priority)
        else Silent
    case DoReceive(priority) => Got(priority, ReceiveSpec(w.side, w.link, priority, NoMessage()).code)
    case Peer(_) => Silent
  }

  ghost function Events(w: World, steps: seq<Step>): seq<Event>
    requires Sound(w)
    decreases |steps|
  {
    if steps == [] then [] else [EventOf(w, steps[0])] + Events(Apply(w, steps[0]), steps[1..])
  }

  datatype Counter = Enqueued | Full | Rung | Coalesced | Failed | Ok | Incomplete | BadCrc | Invalid | Stale

  function Field(s: Stats, c: Counter): u32 {
    match c
    case Enqueued => s.enqueued
    case Full => s.full
    case Rung => s.sent
    case Coalesced => s.coalesced
    case Failed => s.failed
    case Ok => s.ok
    case Incomplete => s.incomplete
    case BadCrc => s.badCrc
    case Invalid => s.invalid
    case Stale => s.stale
  }

  /** The events that a counter of a priority counts. */
  predicate Counts(c: Counter, p: nat, e: Event) {
    match c
    case Enqueued => e.Queued? && e.priority == p
    case Full => e == NoRoom(p)
    case Rung => e.Queued? && e.priority == p && e.notified == NOTIFY_SENT
    case Coalesced => e.Queued? && e.priority == p && e.notified == NOTIFY_COALESCED
    case Failed => e.Queued? && e.priority == p && e.notified != NOTIFY_SENT && e.notified != NOTIFY_COALESCED
    case Ok => e == Got(p, RING_OK)
    case Incomplete => e == Got(p, RING_INCOMPLETE)
    case BadCrc => e == Got(p, RING_BAD_CRC)
    case Invalid => e == Got(p, RING_INVALID)
    case Stale => e == Got(p, STALE_FRAME)
  }

  function Occurrences(es: seq<Event>, c: Counter, p: nat): nat {
    if es == [] then 0 else (if Counts(c, p, es[0]) then 1 else 0) + Occurrences(es[1..], c, p)
  }

  /** The greatest depth that a send has left. */
  function Deepest(es: seq<Event>, p: nat): nat {
    if es == [] then 0
    else
      var d := if es[0].Queued? && es[0].priority == p then es[0].depth else 0;
      var rest := Deepest(es[1..], p);
      if d > rest then d else rest
  }

  /** What one event does to the counters of a priority. */
  predicate Moves(c: Counter, p: nat, e: Event, s: Stats, t: Stats) {
    var depth := if e.Queued? && e.priority == p then e.depth else 0;
    && Field(t, c) == (if Counts(c, p, e) then Bump(Field(s, c)) else Field(s, c))
    && t.highWater == (if depth > s.highWater then depth else s.highWater)
  }

  lemma QueuedMoves(s: Stats, depth: nat, notified: int, p: nat, c: Counter)
    requires depth <= 7
    ensures Moves(c, p, Queued(p, notified, depth), s, QueuedStats(s, depth, notified))
  {}

  lemma ReceivedMoves(s: Stats, code: int, p: nat, c: Counter)
    ensures Moves(c, p, Got(p, code), s, ReceivedStats(s, code))
  {}

  lemma SendCounts(w: World, r: Request, notified: int, p: nat, c: Counter, o: Outcome)
    requires Sound(w) && p < PRIORITIES && r.Readable() && o == SendSpec(w.side, w.link, r, notified, NO_RESULT)
    ensures |o.side.stats| == PRIORITIES
    ensures Moves(c, p, EventOf(w, DoSend(r, notified)), w.side.stats[p], o.side.stats[p])
  {
    SendEnqueues(w.side, w.link, r, notified, NO_RESULT, o);
    if o.code == ENDPOINT_OK { QueuedCounts(w, r, notified, p, c, o); }
  }

  lemma QueuedCounts(w: World, r: Request, notified: int, p: nat, c: Counter, o: Outcome)
    requires Sound(w) && p < PRIORITIES && r.Readable() && o == SendSpec(w.side, w.link, r, notified, NO_RESULT)
    requires o.code == ENDPOINT_OK && Ready(o.side, o.link) && r.priority < PRIORITIES
    ensures Moves(c, p, Queued(r.priority, notified, |Queue(o.link.tx[r.priority])|), w.side.stats[p], o.side.stats[p])
  {
    QueuedMoves(w.side.stats[r.priority], |Queue(o.link.tx[r.priority])|, notified, r.priority, c);
  }

  lemma ReceiveCounts(w: World, priority: u32, p: nat, c: Counter, o: Received)
    requires Sound(w) && p < PRIORITIES && o == ReceiveSpec(w.side, w.link, priority, NoMessage())
    ensures |o.side.stats| == PRIORITIES && Moves(c, p, Got(priority, o.code), w.side.stats[p], o.side.stats[p])
  {
    ReceiveAt(w.side, w.link, priority, o, p);
    if p == priority { ReceivedMoves(w.side.stats[p], o.code, priority, c); }
  }

  lemma StepCounts(w: World, step: Step, p: nat, c: Counter, t: World)
    requires Sound(w) && p < PRIORITIES && t == Apply(w, step)
    ensures Moves(c, p, EventOf(w, step), w.side.stats[p], t.side.stats[p])
  {
    if step.DoSend? {
      if step.r.Readable() {
        SendCounts(w, step.r, step.notified, p, c, SendSpec(w.side, w.link, step.r, step.notified, NO_RESULT));
      }
    } else if step.DoReceive? {
      ReceiveCounts(w, step.priority, p, c, ReceiveSpec(w.side, w.link, step.priority, NoMessage()));
    }
  }

  /** What a sequence of events does to them. */
  predicate Agree(c: Counter, p: nat, es: seq<Event>, s: Stats, t: Stats) {
    && Field(t, c) == (Field(s, c) + Occurrences(es, c, p)) % U32
    && t.highWater == if Deepest(es, p) > s.highWater then Deepest(es, p) else s.highWater
  }

  lemma Carry(x: u32, y: u32, one: nat, n: nat)
    requires y == (x + one) % U32
    ensures (y + n) % U32 == (x + (one + n)) % U32
  {}

  lemma AgreeFirst(c: Counter, p: nat, e: Event, es: seq<Event>, s: Stats, m: Stats, t: Stats)
    requires Moves(c, p, e, s, m) && Agree(c, p, es, m, t)
    ensures Agree(c, p, [e] + es, s, t)
  {
    FirstOccurs(c, p, e, es);
    Carry(Field(s, c), Field(m, c), if Counts(c, p, e) then 1 else 0, Occurrences(es, c, p));
  }

  lemma FirstOccurs(c: Counter, p: nat, e: Event, es: seq<Event>)
    ensures Occurrences([e] + es, c, p) == (if Counts(c, p, e) then 1 else 0) + Occurrences(es, c, p)
    ensures var depth, rest := if e.Queued? && e.priority == p then e.depth else 0, Deepest(es, p);
            Deepest([e] + es, p) == if depth > rest then depth else rest
  {
    assert ([e] + es)[1..] == es;
  }

  lemma {:induction false} RunCounts(w: World, steps: seq<Step>, p: nat, c: Counter)
    requires Sound(w) && p < PRIORITIES
    ensures Agree(c, p, Events(w, steps), w.side.stats[p], Run(w, steps).side.stats[p])
    decreases |steps|
  {
    if steps != [] {
      var t := Apply(w, steps[0]);
      StepCounts(w, steps[0], p, c, t);
      RunCounts(t, steps[1..], p, c);
      AgreeFirst(c, p, EventOf(w, steps[0]), Events(t, steps[1..]), w.side.stats[p], t.side.stats[p],
                 Run(t, steps[1..]).side.stats[p]);
    }
  }

  /** After any run of one binding, whatever the peer did meanwhile, every counter is the number of the events that it
      counts, modulo 2^32, and the high-water mark is the greatest depth that a send has left. */
  lemma CountersCountTheirEvents(w: World, steps: seq<Step>, p: nat, c: Counter)
    requires Fresh(w) && p < PRIORITIES
    ensures var t, es := Run(w, steps).side.stats[p], Events(w, steps);
            Field(t, c) == Occurrences(es, c, p) % U32 && t.highWater == Deepest(es, p)
  {
    RunCounts(w, steps, p, c);
    FromZero(c, p, Events(w, steps), w.side.stats[p], Run(w, steps).side.stats[p]);
  }

  lemma FromZero(c: Counter, p: nat, es: seq<Event>, s: Stats, t: Stats)
    requires s == NO_STATS && Agree(c, p, es, s, t)
    ensures Field(t, c) == Occurrences(es, c, p) % U32 && t.highWater == Deepest(es, p)
  {}
}
