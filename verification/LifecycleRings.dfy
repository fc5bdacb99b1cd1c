/** The reverse rings that the lifecycle model reads are the rings of the endpoint, frame by frame. */
module LifecycleRings {
  import opened Words
  import opened Protocol
  import Ring
  import Endpoint
  import Lifecycle
  import LifecycleSafety

  /** What the endpoint will answer about a frame, given its own generation. */
  function Verdict(m: Ring.Message, generation: u32): int {
    if m.commit != m.sequence then Ring.RING_INCOMPLETE
    else if Ring.Judge(m) == Ring.RING_OK && m.generation != generation then Endpoint.STALE_FRAME
    else Ring.Judge(m)
  }

  function AsReply(m: Ring.Message, generation: u32): Lifecycle.Reply {
    Lifecycle.Reply(Verdict(m, generation), m.kind, m.length, LoadU32(m.payload, 0), LoadU32(m.payload, 4))
  }

  function AsReplies(q: seq<Ring.Message>, generation: u32): (r: seq<Lifecycle.Reply>)
    ensures |r| == |q|
    ensures forall i :: 0 <= i < |q| ==> r[i] == AsReply(q[i], generation)
  {
    if q == [] then [] else [AsReply(q[0], generation)] + AsReplies(q[1..], generation)
  }

  /** The page shows the header and the frames in flight of the four reverse rings. */
  ghost predicate Shows(page: Lifecycle.Page, link: Endpoint.Link, generation: u32) {
    && page.magic == link.magic && page.version == link.version && page.generation == link.generation
    && link.Valid() && |page.rx| == 4
    && forall k :: 0 <= k < 4 ==> page.rx[k] == AsReplies(Ring.Queue(link.rx[k]), generation)
  }

  lemma VerdictsAreCoded(q: seq<Ring.Message>, generation: u32)
    ensures Lifecycle.WellCoded(AsReplies(q, generation))
  {}

  lemma ReceiveCodes(ring: Ring.RingState, generation: u32, into: Ring.Message, popped: Ring.PopResult)
    requires ring.Valid() && popped == Ring.Pop(ring, into)
    ensures popped.ring.Valid()
    ensures var q, code := Ring.Queue(ring), Endpoint.ReceiveCode(popped, generation);
            && code == (if q == [] then Ring.RING_EMPTY else Verdict(q[0], generation))
            && (if Lifecycle.Taken(code) then q != [] && popped.message == q[0] && Ring.Queue(popped.ring) == q[1..]
                else popped.ring == ring)
  {
    Ring.PopIsDequeue(ring, into);
  }

  lemma PageReceives(page: Lifecycle.Page, link: Endpoint.Link, after: Endpoint.Link, l: Lifecycle.Link, p: nat,
                     code: int)
    requires Shows(page, link, l.generation) && p < 4 && Lifecycle.SessionCode(l, page) == 0
    requires var q := Ring.Queue(link.rx[p]);
             && code == (if q == [] then Ring.RING_EMPTY else Verdict(q[0], l.generation))
             && after.Valid() && after == link.(rx := link.rx[p := after.rx[p]])
             && (if Lifecycle.Taken(code) then q != [] && Ring.Queue(after.rx[p]) == q[1..]
                 else after.rx[p] == link.rx[p])
    ensures code == Lifecycle.ReceiveCode(l, page, p)
    ensures Shows(Lifecycle.Received(l, page, p), after, l.generation)
  {
    var q := Ring.Queue(link.rx[p]);
    if Lifecycle.Taken(code) {
      assert AsReplies(q[1..], l.generation) == AsReplies(q, l.generation)[1..];
    }
  }

  /** Receive on the page answers what the endpoint's receive answers on the rings, and leaves the page that the
      rings then show. */
  lemma ReceiveRefines(page: Lifecycle.Page, side: Endpoint.Side, link: Endpoint.Link, p: u32, into: Ring.Message,
                       o: Endpoint.Received)
    requires Endpoint.Ready(side, link) && p < 4 && o == Endpoint.ReceiveSpec(side, link, p, into)
    requires Shows(page, link, side.generation)
    ensures var l := Lifecycle.Link(side.generation, side.nextSequence);
            && o.code == Lifecycle.ReceiveCode(l, page, p)
            && (o.code == Ring.RING_OK ==> page.rx[p] != [] && AsReply(o.message, side.generation) == page.rx[p][0])
            && Shows(Lifecycle.Received(l, page, p), o.link, side.generation)
  {
    var l := Lifecycle.Link(side.generation, side.nextSequence);
    if Endpoint.SessionCode(side, link) == 0 {
      ReceiveCodes(link.rx[p], side.generation, into, Ring.Pop(link.rx[p], into));
      assert o.link.Valid();
      PageReceives(page, link, o.link, l, p, o.code);
    }
  }

  // ----- What the rings may hold is what the lifecycle expects -----

  /** A driver whose page shows real rings is one that every step of the lifecycle is defined on. */
  lemma ShownIsReady(d: Lifecycle.Driver, g: Lifecycle.Geometry, link: Endpoint.Link, generation: u32)
    requires Lifecycle.Shaped(d, g) && Shows(d.page, link, generation)
    ensures LifecycleSafety.Ready(d, g)
  {
    VerdictsAreCoded(Ring.Queue(link.rx[0]), generation);
  }

  lemma AppendedReplies(q: seq<Ring.Message>, m: Ring.Message, generation: u32)
    ensures AsReplies(q + [m], generation) == AsReplies(q, generation) + [AsReply(m, generation)]
  {}

  /** A push that CPU3's ring accepts is a possible step of the lifecycle, after which the page shows the rings. */
  lemma PushRefines(d: Lifecycle.Driver, g: Lifecycle.Geometry, link: Endpoint.Link, p: nat, m: Ring.Message,
                    after: Endpoint.Link)
    requires Lifecycle.Shaped(d, g) && p < 4 && Shows(d.page, link, d.link.generation)
    requires Ring.Push(link.rx[p], m).code == Ring.RING_OK
    requires after == link.(rx := link.rx[p := Ring.Push(link.rx[p], m).ring])
    ensures var step := LifecycleSafety.Cpu3Push(p, AsReply(Ring.Sealed(m), d.link.generation));
            && LifecycleSafety.Ready(d, g) && LifecycleSafety.Possible(d, step)
            && Shows(LifecycleSafety.Next(g, d, step).page, after, d.link.generation)
  {
    var generation := d.link.generation;
    ShownIsReady(d, g, link, generation);
    Ring.PushIsEnqueue(link.rx[p], m);
    VerdictsAreCoded([Ring.Sealed(m)], generation);
    assert AsReplies([Ring.Sealed(m)], generation) == [AsReply(Ring.Sealed(m), generation)];
    AppendedReplies(Ring.Queue(link.rx[p]), Ring.Sealed(m), generation);
    assert after.Valid();
  }

  // ----- The stop request -----

  const STOP_REQUEST: Endpoint.Request := Endpoint.Request(0, MSG_STOP_REQUEST, None, 0)

  /** The stop request of the driver is the endpoint's send: it fails with the same code and sequence generator, and a
      request that was queued is one STOP_REQUEST frame behind what p0 held, with the sequence that the driver notes. */
  lemma StopRequestRefines(d: Lifecycle.Driver, side: Endpoint.Side, link: Endpoint.Link, notified: int,
                           into: Endpoint.SendResult, o: Endpoint.Outcome, t: Lifecycle.Driver)
    requires Endpoint.Ready(side, link) && Shows(d.page, link, side.generation) && d.life == Lifecycle.Active
    requires d.link == Lifecycle.Link(side.generation, side.nextSequence)
    requires o == Endpoint.SendSpec(side, link, STOP_REQUEST, notified, into)
    requires t == Lifecycle.StopRequested(d, |Ring.Queue(link.tx[0])| == 7, notified)
    ensures t.link == Lifecycle.Link(o.side.generation, o.side.nextSequence) && o.link.Valid() && o.link.rx == link.rx
    ensures o.code == 0 ==>
      && t.life == Lifecycle.Stopping
      && t.stop == Lifecycle.Stop(o.result.sequence, 0, -Lifecycle.EINPROGRESS, o.result.notifyResult)
      && exists m :: Ring.Queue(o.link.tx[0]) == Ring.Queue(link.tx[0]) + [m] && Ring.Judge(m) == Ring.RING_OK
                     && m.kind == MSG_STOP_REQUEST && m.length == 0 && m.sequence == t.stop.sequence
    ensures o.code != 0 ==>
      && t.life == Lifecycle.Active && o.link == link
      && t.stop.result == Lifecycle.Errno(if o.code <= Endpoint.ENDPOINT_INVALID then o.code else o.result.queueResult)
  {
    Endpoint.SendEnqueues(side, link, STOP_REQUEST, notified, into, o);
    if o.code == 0 {
      var m := Ring.Queue(o.link.tx[0])[|Ring.Queue(link.tx[0])|];
      assert Ring.Queue(o.link.tx[0]) == Ring.Queue(link.tx[0]) + [m];
    } else if Endpoint.SessionCode(side, link) == 0 {
      Ring.PushIsEnqueue(link.tx[0], Endpoint.Frame(side, STOP_REQUEST));
    }
  }
}
