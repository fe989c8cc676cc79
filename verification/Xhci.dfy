/** The xHCI rings of the driver: the command and transfer rings it produces, with a Link block
    in the last slot, and the event ring it consumes. */
module Xhci {
  import opened RingSpec

  const RING_SIZE: nat := 64
  const LINK: nat := 63
  const EVENT_RING_SIZE: nat := 64

  datatype Option<T> = None | Some(value: T)

  /** Last word of the Link block: its type, the cycle bit and the toggle flag. */
  function LinkWord(c: bv32): bv32 { (TYPE_LINK << 10) | (c & 1) | 2 }

  lemma LinkFacts(c: bv32)
    requires Phase(c)
    ensures LinkWord(c) & 1 == c && (LinkWord(c) >> 10) & 0x3F == TYPE_LINK && LinkWord(c) & 2 != 0
  {
  }

  datatype Producer = Producer(slots: seq<Trb>, enq: nat, pcs: bv32)

  /** The controller's read position and phase. */
  datatype Controller = Controller(deq: nat, ccs: bv32)

  /** What the driver does to enqueue one block. */
  function Enqueue(p: Producer, t: Trb): Producer
    requires |p.slots| == RING_SIZE && p.enq < LINK
  {
    var s := p.slots[p.enq := Stamp(t, p.pcs)];
    if p.enq + 1 >= LINK then
      Producer(s[LINK := s[LINK].(d3 := LinkWord(p.pcs))], 0, Flip(p.pcs))
    else
      Producer(s, p.enq + 1, p.pcs)
  }

  /** Advances past a consumed slot, following a Link that the controller owns. */
  function Advance(s: seq<Trb>, c: Controller): Controller
    requires |s| == RING_SIZE && c.deq < LINK
  {
    var u := s[c.deq + 1];
    if TypeOf(u) == TYPE_LINK && Cycle(u) == c.ccs then
      Controller(0, if u.d3 & 2 != 0 then Flip(c.ccs) else c.ccs)
    else
      Controller(c.deq + 1, c.ccs)
  }

  /** What the controller takes from the ring, cycle bit removed. */
  function Fetched(s: seq<Trb>, c: Controller): Option<Trb>
    requires |s| == RING_SIZE && c.deq < RING_SIZE
  {
    if Cycle(s[c.deq]) == c.ccs then Some(Strip(s[c.deq])) else None
  }

  function Strip(t: Trb): Trb { t.(d3 := t.d3 & 0xFFFF_FFFE) }

  lemma StripStamp(t: Trb, c: bv32)
    requires Plain(t) && Phase(c)
    ensures Strip(Stamp(t, c)) == t
  {
    StripBits(t.d3, c);
  }

  lemma StripBits(d: bv32, c: bv32)
    requires d & 1 == 0 && Phase(c)
    ensures (d | c) & 0xFFFF_FFFE == d
  {
  }

  /** The ring of the producer, seen together with the controller, holds the queue `q`. */
  ghost predicate Linked(p: Producer, c: Controller, q: seq<Trb>) {
    && |p.slots| == RING_SIZE
    && Ring(p.slots, LINK, p.enq, p.pcs, c.deq, c.ccs, q)
    && (forall i | 0 <= i < LINK :: TypeOf(p.slots[i]) != TYPE_LINK)
    && (p.slots[LINK].d3 == LinkWord(Flip(p.pcs)) || (p.slots[LINK].d3 == LinkWord(p.pcs) && p.pcs == c.ccs))
  }

  /** Enqueueing with fewer than 63 blocks outstanding appends to the queue. */
  lemma EnqueueAppends(p: Producer, c: Controller, q: seq<Trb>, t: Trb)
    requires Linked(p, c, q) && Plain(t) && |q| < LINK
    ensures Linked(Enqueue(p, t), c, q + [t])
  {
    hide Ring, Stamp, TypeOf, LinkWord, Flip;
    RingBounds(p.slots, LINK, p.enq, p.pcs, c.deq, c.ccs, q);
    StampType(t, p.pcs);
    PlainType(t);
    FlipFacts(p.pcs);
    var p' := Enqueue(p, t);
    Produce(p.slots, p'.slots, LINK, p.enq, p.pcs, c.deq, c.ccs, q, t);
  }

  lemma PlainType(t: Trb)
    requires Plain(t)
    ensures TypeOf(t) != TYPE_LINK
  {
  }

  lemma RingBounds(slots: seq<Trb>, n: nat, enq: nat, pcs: bv32, deq: nat, ccs: bv32, q: seq<Trb>)
    requires Ring(slots, n, enq, pcs, deq, ccs, q)
    ensures n <= |slots| && enq < n && deq < n && Phase(pcs) && Phase(ccs)
    ensures forall k | 0 <= k < |q| :: Plain(q[k])
    ensures q != [] && deq + 1 >= n ==> pcs != ccs
    ensures deq == 0 ==> (pcs == ccs <==> |q| < n)
  {
  }

  /** The controller sees nothing exactly when the queue is empty; otherwise it gets the head and
      its next position is again in step with the producer, also across the Link block. */
  lemma FetchTakesHead(p: Producer, c: Controller, q: seq<Trb>)
    requires Linked(p, c, q)
    ensures c.deq < LINK
    ensures Fetched(p.slots, c) == if q == [] then None else Some(q[0])
    ensures q != [] ==> Linked(p, Advance(p.slots, c), q[1..])
  {
    hide Ring, Stamp, Strip, LinkWord, Flip, Plain, Phase, Cycle, TypeOf;
    RingBounds(p.slots, LINK, p.enq, p.pcs, c.deq, c.ccs, q);
    Consume(p.slots, LINK, p.enq, p.pcs, c.deq, c.ccs, q);
    if q != [] {
      StripStamp(q[0], c.ccs);
      FollowLink(p, c, q);
    }
  }

  lemma FollowLink(p: Producer, c: Controller, q: seq<Trb>)
    requires Linked(p, c, q) && q != [] && c.deq < LINK
    ensures Advance(p.slots, c) == Controller(NextSlot(c.deq, LINK), NextPhase(c.deq, LINK, c.ccs))
    ensures p.slots[LINK].d3 == LinkWord(Flip(p.pcs)) || p.pcs == NextPhase(c.deq, LINK, c.ccs)
  {
    hide Ring, Stamp, LinkWord, Plain;
    RingBounds(p.slots, LINK, p.enq, p.pcs, c.deq, c.ccs, q);
    LinkFacts(p.pcs);
    LinkFacts(Flip(p.pcs));
    PhaseOther(p.pcs, c.ccs);
  }

  lemma PhaseOther(a: bv32, b: bv32)
    requires Phase(a) && Phase(b)
    ensures a != b <==> Flip(a) == b
  {
  }

  /** A controller that has wrapped but waits in front of the Link block instead of following it
      at once can still follow it exactly when fewer than 63 blocks are outstanding: a 63rd
      enqueue rewrites the Link's cycle bit under it. */
  lemma WaitingAtLink(p: Producer, c: Controller, q: seq<Trb>)
    requires Linked(p, c, q) && c.deq == 0 && p.slots[LINK].d3 == LinkWord(Flip(p.pcs))
    ensures Cycle(p.slots[LINK]) == Flip(c.ccs) <==> |q| < LINK
  {
    RingBounds(p.slots, LINK, p.enq, p.pcs, c.deq, c.ccs, q);
    LinkFacts(Flip(p.pcs));
  }

  // ---- Runs ------------------------------------------------------------------------------

  datatype Event = Put(t: Trb) | Get

  /** Every enqueue of the run finds fewer than `n` blocks outstanding. */
  ghost predicate Paced(queued: nat, events: seq<Event>, n: nat)
    decreases events
  {
    events == [] ||
    match events[0]
    case Put(t) => Plain(t) && queued < n && Paced(queued + 1, events[1..], n)
    case Get => Paced(if queued == 0 then 0 else queued - 1, events[1..], n)
  }

  /** Answers of an unbounded queue to the same events. */
  function QueueRun(q: seq<Trb>, events: seq<Event>): seq<Option<Trb>>
    decreases events
  {
    if events == [] then []
    else match events[0]
      case Put(t) => QueueRun(q + [t], events[1..])
      case Get => if q == [] then [None] + QueueRun(q, events[1..]) else [Some(q[0])] + QueueRun(q[1..], events[1..])
  }

  /** Answers of the ring. */
  function RingRun(p: Producer, c: Controller, events: seq<Event>): seq<Option<Trb>>
    requires |p.slots| == RING_SIZE && p.enq < LINK && c.deq < LINK
    decreases events
  {
    if events == [] then []
    else match events[0]
      case Put(t) => RingRun(Enqueue(p, t), c, events[1..])
      case Get =>
        if Fetched(p.slots, c).None? then [None] + RingRun(p, c, events[1..])
        else
          var c' := Advance(p.slots, c);
          [Fetched(p.slots, c)] + (if c'.deq < LINK then RingRun(p, c', events[1..]) else [])
  }

  /** Over any run, with any number of wraps, the controller receives exactly the blocks that the
      driver enqueued, in order, none lost and none twice. */
  lemma {:induction false} RingIsQueue(p: Producer, c: Controller, q: seq<Trb>, events: seq<Event>)
    requires Linked(p, c, q) && Paced(|q|, events, LINK)
    ensures p.enq < LINK && c.deq < LINK
    ensures RingRun(p, c, events) == QueueRun(q, events)
    decreases events
  {
    hide Linked, Plain, Enqueue, Advance, Fetched;
    LinkedBounds(p, c, q);
    if events != [] {
      match events[0]
      case Put(t) =>
        EnqueueAppends(p, c, q, t);
        RingIsQueue(Enqueue(p, t), c, q + [t], events[1..]);
      case Get =>
        FetchTakesHead(p, c, q);
        if q == [] {
          RingIsQueue(p, c, q, events[1..]);
        } else {
          LinkedBounds(p, Advance(p.slots, c), q[1..]);
          RingIsQueue(p, Advance(p.slots, c), q[1..], events[1..]);
        }
    }
  }

  lemma LinkedBounds(p: Producer, c: Controller, q: seq<Trb>)
    requires Linked(p, c, q)
    ensures |p.slots| == RING_SIZE && p.enq < LINK && c.deq < LINK
  {
  }

  // ---- A controller that waits in front of the Link --------------------------------------

  /** Whether the Link block belongs to a controller in phase `ccs`. */
  predicate OwnsLink(s: seq<Trb>, ccs: bv32)
    requires |s| == RING_SIZE
  {
    TypeOf(s[LINK]) == TYPE_LINK && Cycle(s[LINK]) == ccs
  }

  /** Behind the Link block. */
  function Past(s: seq<Trb>, ccs: bv32): Controller
    requires |s| == RING_SIZE
  {
    Controller(0, if s[LINK].d3 & 2 != 0 then Flip(ccs) else ccs)
  }

  /** What a controller takes that looks at the Link block only when it comes to read there. */
  function LazyFetched(s: seq<Trb>, l: Controller): Option<Trb>
    requires |s| == RING_SIZE && l.deq <= LINK
  {
    if l.deq < LINK then Fetched(s, l)
    else if OwnsLink(s, l.ccs) then Fetched(s, Past(s, l.ccs))
    else None
  }

  /** Where it is afterwards. */
  function LazyNext(s: seq<Trb>, l: Controller): (r: Controller)
    requires |s| == RING_SIZE && l.deq <= LINK
    ensures r.deq <= LINK
  {
    if l.deq == LINK && !OwnsLink(s, l.ccs) then l
    else
      var c := if l.deq < LINK then l else Past(s, l.ccs);
      if Fetched(s, c).Some? then Controller(c.deq + 1, c.ccs) else c
  }

  function LazyRun(p: Producer, l: Controller, events: seq<Event>): seq<Option<Trb>>
    requires |p.slots| == RING_SIZE && p.enq < LINK && l.deq <= LINK
    decreases events
  {
    if events == [] then []
    else match events[0]
      case Put(t) => LazyRun(Enqueue(p, t), l, events[1..])
      case Get => [LazyFetched(p.slots, l)] + LazyRun(p, LazyNext(p.slots, l), events[1..])
  }

  /** The ring and such a controller hold the queue `q`. */
  ghost predicate Lagging(p: Producer, l: Controller, q: seq<Trb>) {
    && l.deq <= LINK && Phase(l.ccs)
    && if l.deq < LINK then Linked(p, l, q)
       else Linked(p, Controller(0, Flip(l.ccs)), q) && p.slots[LINK].d3 == LinkWord(Flip(p.pcs))
  }

  lemma LaggingBounds(p: Producer, l: Controller, q: seq<Trb>)
    requires Lagging(p, l, q)
    ensures |p.slots| == RING_SIZE && p.enq < LINK && |q| <= LINK
  {
  }

  lemma LagAppends(p: Producer, l: Controller, q: seq<Trb>, t: Trb)
    requires Lagging(p, l, q) && Plain(t) && |q| < LINK
    ensures Lagging(Enqueue(p, t), l, q + [t])
  {
    hide Linked, LinkWord, Flip, Plain, Stamp;
    LaggingBounds(p, l, q);
    LagPhase(p, l, q);
    FlipFacts(p.pcs);
    EnqueueAppends(p, if l.deq < LINK then l else Controller(0, Flip(l.ccs)), q, t);
  }

  lemma LagPhase(p: Producer, l: Controller, q: seq<Trb>)
    requires Lagging(p, l, q)
    ensures Phase(p.pcs) && Flip(Flip(l.ccs)) == l.ccs && Phase(Flip(l.ccs))
  {
    FlipFacts(l.ccs);
  }

  /** In front of the Link the controller may go on exactly when fewer than 63 are outstanding. */
  lemma LinkIsOpen(p: Producer, l: Controller, q: seq<Trb>)
    requires Lagging(p, l, q) && l.deq == LINK
    ensures |p.slots| == RING_SIZE && (OwnsLink(p.slots, l.ccs) <==> |q| < LINK)
    ensures Past(p.slots, l.ccs) == Controller(0, Flip(l.ccs))
  {
    hide Ring;
    LagPhase(p, l, q);
    LinkFacts(Flip(p.pcs));
    WaitingAtLink(p, Controller(0, Flip(l.ccs)), q);
  }

  /** Away from the Link it takes the head of the queue. */
  lemma LagFetches(p: Producer, l: Controller, q: seq<Trb>)
    requires Lagging(p, l, q) && l.deq < LINK
    ensures |p.slots| == RING_SIZE && Fetched(p.slots, l) == if q == [] then None else Some(q[0])
    ensures q != [] ==> Lagging(p, Controller(l.deq + 1, l.ccs), q[1..])
  {
    hide Ring, Fetched, LinkWord, Flip, Cycle, TypeOf;
    FetchTakesHead(p, l, q);
    if q != [] {
      RingBounds(p.slots, LINK, p.enq, p.pcs, l.deq, l.ccs, q);
      FollowLink(p, l, q);
    }
  }

  /** A read by such a controller, unless it stands in front of a Link that was taken back. */
  lemma LazyTakesHead(p: Producer, l: Controller, q: seq<Trb>)
    requires Lagging(p, l, q) && (l.deq == LINK ==> |q| < LINK)
    ensures |p.slots| == RING_SIZE && LazyFetched(p.slots, l) == if q == [] then None else Some(q[0])
    ensures Lagging(p, LazyNext(p.slots, l), if q == [] then q else q[1..])
    ensures LazyNext(p.slots, l).deq == if q == [] then Behind(l.deq) else Behind(l.deq) + 1
  {
    hide Linked, LinkWord, Flip, Fetched, OwnsLink, Past;
    LagPhase(p, l, q);
    if l.deq < LINK {
      LagFetches(p, l, q);
    } else {
      LinkIsOpen(p, l, q);
      LagFetches(p, Controller(0, Flip(l.ccs)), q);
    }
  }

  /** The position from which slots are read: behind the Link when in front of it. */
  function Behind(pos: nat): nat { if pos == LINK then 0 else pos }

  /** From positions and counts alone: no read finds the controller in front of the Link with 63
      blocks outstanding. */
  ghost predicate NeverStuck(pos: nat, queued: nat, events: seq<Event>)
    decreases events
  {
    events == [] ||
    match events[0]
    case Put(_) => NeverStuck(pos, queued + 1, events[1..])
    case Get =>
      && !(pos == LINK && queued == LINK)
      && if queued == 0 then NeverStuck(Behind(pos), 0, events[1..]) else NeverStuck(Behind(pos) + 1, queued - 1, events[1..])
  }

  /** A controller that waits in front of the Link receives the enqueued blocks in order exactly in
      the runs where it is never caught there by a 63rd block. */
  lemma {:induction false} LazyIsQueueIff(p: Producer, l: Controller, q: seq<Trb>, events: seq<Event>)
    requires Lagging(p, l, q) && Paced(|q|, events, LINK)
    ensures |p.slots| == RING_SIZE && p.enq < LINK && l.deq <= LINK
    ensures LazyRun(p, l, events) == QueueRun(q, events) <==> NeverStuck(l.deq, |q|, events)
    decreases events
  {
    hide Lagging, Linked, Plain, Enqueue, LazyFetched, LazyNext;
    LazyBounds(p, l, q);
    if events != [] {
      match events[0]
      case Put(t) =>
        LagAppends(p, l, q, t);
        LazyIsQueueIff(Enqueue(p, t), l, q + [t], events[1..]);
      case Get =>
        if l.deq == LINK && |q| == LINK {
          StuckSeesNothing(p, l, q);
          assert LazyRun(p, l, events)[0] == None && QueueRun(q, events)[0] == Some(q[0]);
        } else {
          LazyTakesHead(p, l, q);
          var l', q' := LazyNext(p.slots, l), if q == [] then q else q[1..];
          LazyIsQueueIff(p, l', q', events[1..]);
          SameTail(LazyFetched(p.slots, l), LazyRun(p, l', events[1..]), QueueRun(q', events[1..]));
        }
    }
  }

  lemma LazyBounds(p: Producer, l: Controller, q: seq<Trb>)
    requires Lagging(p, l, q)
    ensures |p.slots| == RING_SIZE && p.enq < LINK && l.deq <= LINK && |q| <= LINK
  {
  }

  lemma StuckSeesNothing(p: Producer, l: Controller, q: seq<Trb>)
    requires Lagging(p, l, q) && l.deq == LINK && |q| == LINK
    ensures |p.slots| == RING_SIZE && LazyFetched(p.slots, l) == None && LazyNext(p.slots, l) == l
  {
    hide Linked;
    LinkIsOpen(p, l, q);
  }

  lemma SameTail(x: Option<Trb>, s: seq<Option<Trb>>, t: seq<Option<Trb>>)
    ensures [x] + s == [x] + t <==> s == t
  {
    if [x] + s == [x] + t {
      assert s == ([x] + s)[1..] && t == ([x] + t)[1..];
    }
  }

  /** With at most 62 blocks outstanding it is never caught. */
  lemma {:induction false} SlackNeverStuck(pos: nat, queued: nat, events: seq<Event>)
    requires Paced(queued, events, LINK - 1) && queued < LINK
    ensures NeverStuck(pos, queued, events) && Paced(queued, events, LINK)
    decreases events
  {
    hide Plain;
    if events != [] {
      match events[0]
      case Put(_) => SlackNeverStuck(pos, queued + 1, events[1..]);
      case Get => SlackNeverStuck(if queued == 0 then Behind(pos) else Behind(pos) + 1, if queued == 0 then 0 else queued - 1, events[1..]);
    }
  }

  /** So with one slot of slack the ring is a queue for this controller too. */
  lemma LazyIsQueue(p: Producer, l: Controller, q: seq<Trb>, events: seq<Event>)
    requires Lagging(p, l, q) && |q| < LINK && Paced(|q|, events, LINK - 1)
    ensures |p.slots| == RING_SIZE && p.enq < LINK && l.deq <= LINK
    ensures LazyRun(p, l, events) == QueueRun(q, events)
  {
    hide Lagging, Paced, NeverStuck, LazyRun, QueueRun;
    SlackNeverStuck(l.deq, |q|, events);
    LazyIsQueueIff(p, l, q, events);
  }

  // The run that goes wrong: fill, drain, fill, read.

  function Repeat(e: Event, n: nat): seq<Event> { if n == 0 then [] else [e] + Repeat(e, n - 1) }

  lemma {:induction false} PutsFill(t: Trb, n: nat, pos: nat, queued: nat, rest: seq<Event>)
    requires Plain(t) && queued + n <= LINK
    ensures Paced(queued, Repeat(Put(t), n) + rest, LINK) <==> Paced(queued + n, rest, LINK)
    ensures NeverStuck(pos, queued, Repeat(Put(t), n) + rest) <==> NeverStuck(pos, queued + n, rest)
    decreases n
  {
    hide Plain;
    if n == 0 {
      assert Repeat(Put(t), n) + rest == rest;
    } else {
      var events := Repeat(Put(t), n) + rest;
      assert events[0] == Put(t) && events[1..] == Repeat(Put(t), n - 1) + rest;
      PutsFill(t, n - 1, pos, queued + 1, rest);
    }
  }

  lemma {:induction false} GetsDrain(n: nat, pos: nat, queued: nat, rest: seq<Event>)
    requires n <= queued && pos + n <= LINK
    ensures Paced(queued, Repeat(Get, n) + rest, LINK) <==> Paced(queued - n, rest, LINK)
    ensures NeverStuck(pos, queued, Repeat(Get, n) + rest) <==> NeverStuck(pos + n, queued - n, rest)
    decreases n
  {
    hide Plain;
    if n == 0 {
      assert Repeat(Get, n) + rest == rest;
    } else {
      var events := Repeat(Get, n) + rest;
      assert events[0] == Get && events[1..] == Repeat(Get, n - 1) + rest;
      GetsDrain(n - 1, pos + 1, queued - 1, rest);
    }
  }

  function FillDrainFill(t: Trb): seq<Event> {
    Repeat(Put(t), LINK) + (Repeat(Get, LINK) + (Repeat(Put(t), LINK) + [Get]))
  }

  /** A paced run from a fresh ring after which such a controller reads nothing although 63 blocks
      are waiting. */
  lemma LazyFails(p: Producer, t: Trb)
    requires Linked(p, Controller(0, 1), []) && Plain(t)
    ensures |p.slots| == RING_SIZE && p.enq < LINK && Paced(0, FillDrainFill(t), LINK)
    ensures LazyRun(p, Controller(0, 1), FillDrainFill(t)) != QueueRun([], FillDrainFill(t))
  {
    hide Linked, Plain, LazyRun, QueueRun, Repeat;
    var last := Repeat(Put(t), LINK) + [Get];
    PutsFill(t, LINK, 0, 0, Repeat(Get, LINK) + last);
    GetsDrain(LINK, 0, LINK, last);
    PutsFill(t, LINK, LINK, 0, [Get]);
    assert !NeverStuck(LINK, LINK, [Get]);
    assert Paced(LINK - 1, [], LINK);
    LazyIsQueueIff(p, Controller(0, 1), [], FillDrainFill(t));
  }

  // ---- The driver's ring in memory -------------------------------------------------------

  class DriverRing {
    const trbs: array<Trb>
    var enqueue: nat
    var pcs: bv32

    ghost function View(): Producer
      reads this, trbs
    {
      Producer(trbs[..], enqueue, pcs)
    }

    /** Zeroes the ring and puts the Link block into the last slot. */
    constructor (low: bv32, high: bv32)
      ensures fresh(trbs) && trbs.Length == RING_SIZE
      ensures Linked(View(), Controller(0, 1), [])
      ensures trbs[LINK].d0 == low && trbs[LINK].d1 == high
    {
      var a := new Trb[RING_SIZE](_ => Trb(0, 0, 0, 0));
      a[LINK] := Trb(low, high, 0, LinkWord(1));
      trbs := a;
      enqueue := 0;
      pcs := 1;
      new;
      Fresh(trbs[..], LINK);
      assert TypeOf(Trb(0, 0, 0, 0)) != TYPE_LINK;
    }

    /** Writes one block and, at the end of the ring, the Link block, then flips the phase. */
    method RingEnqueue(d0: bv32, d1: bv32, d2: bv32, d3: bv32)
      requires trbs.Length == RING_SIZE && enqueue < LINK
      modifies this, trbs
      ensures View() == Enqueue(old(View()), Trb(d0, d1, d2, d3))
    {
      var idx := enqueue;
      trbs[idx] := Trb(d0, d1, d2, d3 | pcs);
      enqueue := enqueue + 1;
      if enqueue >= RING_SIZE - 1 {
        trbs[LINK] := trbs[LINK].(d3 := LinkWord(pcs));
        pcs := pcs ^ 1;
        enqueue := 0;
      }
    }
  }

  // ---- The event ring --------------------------------------------------------------------

  /** The fields of an event that the driver looks at. */
  datatype EventInfo = EventInfo(kind: bv32, code: bv32, slot: bv32)

  function Info(t: Trb): EventInfo {
    EventInfo(TypeOf(t), Top(t.d2), Top(t.d3))
  }

  /** Words two and three of an event as section 6.4.2 of the xHCI specification lays them out: the completion
      code above 24 bits of parameter; slot, endpoint, type and ten flags, the lowest the cycle bit. */
  function WordTwo(code: bv32, parameter: bv32): bv32 { (code << 24) | parameter }

  function WordThree(slot: bv32, endpoint: bv32, kind: bv32, flags: bv32): bv32 {
    (slot << 24) | (endpoint << 16) | (kind << 10) | flags
  }

  /** Bits 24 to 31. */
  function Top(d: bv32): bv32 { (d >> 24) & 0xFF }

  lemma KindAndSlot(slot: bv32, endpoint: bv32, kind: bv32, flags: bv32)
    requires slot <= 0xFF && endpoint <= 0xFF && kind <= 0x3F && flags <= 0x3FF
    ensures Top(WordThree(slot, endpoint, kind, flags)) == slot
    ensures forall t: Trb | t.d3 == WordThree(slot, endpoint, kind, flags) :: TypeOf(t) == kind && Cycle(t) == flags & 1
  {
  }

  lemma CodeAbove(code: bv32, parameter: bv32)
    requires code <= 0xFF && parameter <= 0xFF_FFFF
    ensures Top(WordTwo(code, parameter)) == code
  {
  }

  /** The driver reads type, completion code and slot where the controller puts them. */
  lemma InfoOfEvent(d0: bv32, d1: bv32, code: bv32, parameter: bv32, slot: bv32, endpoint: bv32, kind: bv32, flags: bv32)
    requires code <= 0xFF && parameter <= 0xFF_FFFF && slot <= 0xFF && endpoint <= 0xFF && kind <= 0x3F && flags <= 0x3FF
    ensures var t := Trb(d0, d1, WordTwo(code, parameter), WordThree(slot, endpoint, kind, flags));
            Info(t) == EventInfo(kind, code, slot) && TypeOf(t) == kind && Cycle(t) == flags & 1
  {
    hide WordTwo, WordThree, Top, TypeOf, Cycle;
    KindAndSlot(slot, endpoint, kind, flags);
    CodeAbove(code, parameter);
  }

  lemma InfoIgnoresCycle(t: Trb, c: bv32)
    requires Phase(c)
    ensures Info(Stamp(t, c)) == Info(t)
  {
    HighBits(t.d3, c);
    TypeBits(t.d3, c);
  }

  lemma HighBits(d: bv32, c: bv32)
    requires Phase(c)
    ensures ((d | c) >> 24) & 0xFF == (d >> 24) & 0xFF
  {
  }

  lemma TypeBits(d: bv32, c: bv32)
    requires Phase(c)
    ensures ((d | c) >> 10) & 0x3F == (d >> 10) & 0x3F
  {
  }

  /** The controller's side of the event ring: it writes events in its own phase. */
  function Post(p: Producer, t: Trb): Producer
    requires |p.slots| == EVENT_RING_SIZE && p.enq < EVENT_RING_SIZE
  {
    Producer(p.slots[p.enq := Stamp(t, p.pcs)], NextSlot(p.enq, EVENT_RING_SIZE), NextPhase(p.enq, EVENT_RING_SIZE, p.pcs))
  }

  ghost predicate Events(p: Producer, c: Controller, q: seq<Trb>) {
    |p.slots| == EVENT_RING_SIZE && Ring(p.slots, EVENT_RING_SIZE, p.enq, p.pcs, c.deq, c.ccs, q)
  }

  lemma PostAppends(p: Producer, c: Controller, q: seq<Trb>, t: Trb)
    requires Events(p, c, q) && Plain(t) && |q| < EVENT_RING_SIZE
    ensures Events(Post(p, t), c, q + [t])
  {
    Produce(p.slots, Post(p, t).slots, EVENT_RING_SIZE, p.enq, p.pcs, c.deq, c.ccs, q, t);
  }

  /** The driver's next read position. */
  function Step(c: Controller): Controller {
    Controller(NextSlot(c.deq, EVENT_RING_SIZE), NextPhase(c.deq, EVENT_RING_SIZE, c.ccs))
  }

  function Seen(s: seq<Trb>, c: Controller): Option<EventInfo>
    requires c.deq < |s|
  {
    if Cycle(s[c.deq]) == c.ccs then Some(Info(s[c.deq])) else None
  }

  lemma SeenIsHead(p: Producer, c: Controller, q: seq<Trb>)
    requires Events(p, c, q)
    ensures c.deq < EVENT_RING_SIZE
    ensures Seen(p.slots, c) == if q == [] then None else Some(Info(q[0]))
    ensures q != [] ==> Events(p, Step(c), q[1..])
  {
    hide Ring, Stamp, Info, Cycle;
    RingBounds(p.slots, EVENT_RING_SIZE, p.enq, p.pcs, c.deq, c.ccs, q);
    Consume(p.slots, EVENT_RING_SIZE, p.enq, p.pcs, c.deq, c.ccs, q);
    if q != [] {
      InfoIgnoresCycle(q[0], c.ccs);
    }
  }

  /** What the driver learns from an unbounded event queue. */
  function InfoRun(q: seq<Trb>, events: seq<Event>): seq<Option<EventInfo>>
    decreases events
  {
    if events == [] then []
    else match events[0]
      case Put(t) => InfoRun(q + [t], events[1..])
      case Get => if q == [] then [None] + InfoRun(q, events[1..]) else [Some(Info(q[0]))] + InfoRun(q[1..], events[1..])
  }

  /** What it learns from the event ring. */
  function EventRun(p: Producer, c: Controller, events: seq<Event>): seq<Option<EventInfo>>
    requires |p.slots| == EVENT_RING_SIZE && p.enq < EVENT_RING_SIZE && c.deq < EVENT_RING_SIZE
    decreases events
  {
    if events == [] then []
    else match events[0]
      case Put(t) => EventRun(Post(p, t), c, events[1..])
      case Get =>
        if Seen(p.slots, c).None? then [None] + EventRun(p, c, events[1..])
        else [Seen(p.slots, c)] + EventRun(p, Step(c), events[1..])
  }

  /** Over any run with at most 64 events outstanding the driver learns of exactly the posted
      events, in order. */
  lemma {:induction false} EventRingIsQueue(p: Producer, c: Controller, q: seq<Trb>, events: seq<Event>)
    requires Events(p, c, q) && Paced(|q|, events, EVENT_RING_SIZE)
    ensures p.enq < EVENT_RING_SIZE && c.deq < EVENT_RING_SIZE
    ensures EventRun(p, c, events) == InfoRun(q, events)
    decreases events
  {
    hide Ring, Plain, Info, Post, Stamp, Cycle;
    RingBounds(p.slots, EVENT_RING_SIZE, p.enq, p.pcs, c.deq, c.ccs, q);
    if events != [] {
      match events[0]
      case Put(t) =>
        PostAppends(p, c, q, t);
        EventRingIsQueue(Post(p, t), c, q + [t], events[1..]);
      case Get =>
        SeenIsHead(p, c, q);
        if q == [] {
          EventRingIsQueue(p, c, q, events[1..]);
        } else {
          EventRingIsQueue(p, Step(c), q[1..], events[1..]);
        }
    }
  }

  class EventRing {
    const ring: array<Trb>
    var dequeue: nat
    var ccs: bv32

    constructor ()
      ensures fresh(ring) && ring.Length == EVENT_RING_SIZE && dequeue == 0 && ccs == 1
      ensures Events(Producer(ring[..], 0, 1), Controller(dequeue, ccs), [])
    {
      ring := new Trb[EVENT_RING_SIZE](_ => Trb(0, 0, 0, 0));
      dequeue := 0;
      ccs := 1;
      new;
      Fresh(ring[..], EVENT_RING_SIZE);
    }

    /** Consumes one event if the slot at the read position is in the driver's phase. */
    method ConsumeEvent() returns (got: bool, info: EventInfo)
      requires ring.Length == EVENT_RING_SIZE && dequeue < EVENT_RING_SIZE
      modifies this`dequeue, this`ccs
      ensures got <==> Seen(ring[..], old(Controller(dequeue, ccs))).Some?
      ensures got ==> info == Seen(ring[..], old(Controller(dequeue, ccs))).value
      ensures Controller(dequeue, ccs) == if got then Step(old(Controller(dequeue, ccs))) else old(Controller(dequeue, ccs))
    {
      hide Cycle, Info, Flip;
      var evt := ring[dequeue];
      if Cycle(evt) != ccs {
        return false, EventInfo(0, 0, 0);
      }
      info := Info(evt);
      dequeue := dequeue + 1;
      if dequeue >= EVENT_RING_SIZE {
        dequeue := 0;
        ccs := Flip(ccs);
      }
      return true, info;
    }
  }
}
