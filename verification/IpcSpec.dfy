/** Synchronous message passing over one endpoint, and the proof that it is an exactly-once
    first-in first-out channel. */
module IpcSpec {
  import opened CapSpec

  datatype Msg = Msg(tag: bv64, words: seq<bv64>, capCount: bv32)

  /** An endpoint together with the message buffers of the tasks, by address. */
  datatype Link = Link(ep: Endpoint, mem: map<nat, Msg>)

  /** Result of a send or receive: which task to wake and which to block, 0 for none. */
  datatype Rendezvous = Rendezvous(link: Link, err: Err, wake: nat, block: nat)

  predicate Sound(l: Link) {
    (l.ep.state == Idle || l.ep.pending in l.mem) && 0 !in l.mem
  }

  function Send(l: Link, msg: nat, cur: nat): Rendezvous
    requires msg in l.mem && Sound(l)
  {
    match l.ep.state
    case RecvWaiting =>
      var mem := if l.ep.pending != 0 then l.mem[l.ep.pending := l.mem[msg]] else l.mem;
      Rendezvous(Link(l.ep.(state := Idle, pending := 0, parked := 0), mem), Ok, l.ep.parked, 0)
    case Idle => Rendezvous(l.(ep := l.ep.(state := SendWaiting, pending := msg, parked := cur)), Ok, 0, cur)
    case SendWaiting => Rendezvous(l, ErrState, 0, 0)
  }

  function Recv(l: Link, out: nat, cur: nat): Rendezvous
    requires out in l.mem && Sound(l)
  {
    match l.ep.state
    case SendWaiting =>
      var mem := if l.ep.pending != 0 then l.mem[out := l.mem[l.ep.pending]] else l.mem;
      Rendezvous(Link(l.ep.(state := Idle, pending := 0, parked := 0), mem), Ok, l.ep.parked, 0)
    case Idle => Rendezvous(l.(ep := l.ep.(state := RecvWaiting, pending := out, parked := cur)), Ok, 0, cur)
    case RecvWaiting => Rendezvous(l, ErrState, 0, 0)
  }

  /** A task sends or receives through the endpoint, or writes one of its buffers. */
  datatype Event = DoSend(ptr: nat, cur: nat) | DoRecv(ptr: nat, cur: nat) | Store(ptr: nat, msg: Msg)

  /** Buffers exist, and a parked sender leaves its message alone until it is delivered. */
  predicate Allowed(l: Link, e: Event) {
    e.ptr in l.mem && (e.Store? && l.ep.state == SendWaiting ==> e.ptr != l.ep.pending)
  }

  function Step(l: Link, e: Event): Rendezvous
    requires Sound(l) && Allowed(l, e)
  {
    match e
    case DoSend(ptr, cur) => Send(l, ptr, cur)
    case DoRecv(ptr, cur) => Recv(l, ptr, cur)
    case Store(ptr, msg) => Rendezvous(l.(mem := l.mem[ptr := msg]), Ok, 0, 0)
  }

  /** What an observer records: the messages of successful sends, the buffers of successful
      receives, what each of those buffers held when its receive completed, and who parked. */
  datatype History = History(sent: seq<Msg>, outs: seq<nat>, got: seq<Msg>, parker: nat)

  ghost function Observe(h: History, before: Link, after: Link, e: Event): History
    requires e.ptr in before.mem && before.mem.Keys <= after.mem.Keys
    requires before.ep.state == RecvWaiting ==> |h.got| < |h.outs| && h.outs[|h.got|] in before.mem
  {
    match e
    case DoSend(ptr, cur) =>
      if before.ep.state == SendWaiting then h
      else if before.ep.state == RecvWaiting then
        h.(sent := h.sent + [before.mem[ptr]], got := h.got + [after.mem[h.outs[|h.got|]]])
      else h.(sent := h.sent + [before.mem[ptr]], parker := cur)
    case DoRecv(ptr, cur) =>
      if before.ep.state == RecvWaiting then h
      else if before.ep.state == SendWaiting then h.(outs := h.outs + [ptr], got := h.got + [after.mem[ptr]])
      else h.(outs := h.outs + [ptr], parker := cur)
    case Store(_, _) => h
  }

  /** Sends minus receives is +1, 0 or -1 as the state says, every completed receive got the
      message of the send with the same number, and the parked task is the recorded one. */
  ghost predicate Channel(l: Link, h: History) {
    && Sound(l)
    && |h.got| <= |h.sent| && h.got == h.sent[..|h.got|]
    && match l.ep.state
       case Idle => |h.sent| == |h.outs| == |h.got|
       case SendWaiting =>
         && |h.sent| == |h.outs| + 1 && |h.outs| == |h.got|
         && l.mem[l.ep.pending] == h.sent[|h.got|] && l.ep.parked == h.parker
       case RecvWaiting =>
         && |h.outs| == |h.sent| + 1 && |h.sent| == |h.got|
         && l.ep.pending == h.outs[|h.got|] && l.ep.parked == h.parker
  }

  /** The other side is waiting. */
  predicate Delivers(l: Link, e: Event) {
    (e.DoSend? && l.ep.state == RecvWaiting) || (e.DoRecv? && l.ep.state == SendWaiting)
  }

  /** Nobody is waiting yet. */
  predicate Parks(l: Link, e: Event) { !e.Store? && l.ep.state == Idle }

  /** Every event keeps the channel invariant; whoever is woken is whoever parked, exactly on delivery, and
      whoever finds nobody waiting is blocked. */
  lemma StepKeepsChannel(l: Link, h: History, e: Event)
    requires Channel(l, h) && Allowed(l, e)
    ensures Channel(Step(l, e).link, Observe(h, l, Step(l, e).link, e))
    ensures Step(l, e).wake == if Delivers(l, e) then h.parker else 0
    ensures Step(l, e).block == if Parks(l, e) then e.cur else 0
    ensures Step(l, e).err != Ok <==> (e.DoSend? && l.ep.state == SendWaiting) || (e.DoRecv? && l.ep.state == RecvWaiting)
  {
    var h' := Observe(h, l, Step(l, e).link, e);
    match e
    case DoSend(ptr, cur) =>
      if l.ep.state == RecvWaiting {
        assert h'.sent[..|h'.got|] == h'.sent;
      } else if l.ep.state == Idle {
        assert h'.sent[..|h.got|] == h.sent[..|h.got|];
      }
    case DoRecv(ptr, cur) =>
      if l.ep.state == SendWaiting {
        assert h.sent[..|h.got| + 1] == h.sent[..|h.got|] + [h.sent[|h.got|]];
      }
    case Store(ptr, msg) =>
  }

  lemma StepSound(l: Link, e: Event)
    requires Sound(l) && Allowed(l, e)
    ensures Sound(Step(l, e).link)
  {
  }

  /** Every event of the run is allowed when its turn comes. */
  ghost predicate AllowedRun(l: Link, events: seq<Event>)
    requires Sound(l)
    decreases events
  {
    events == [] || (Allowed(l, events[0]) && (StepSound(l, events[0]); AllowedRun(Step(l, events[0]).link, events[1..])))
  }

  ghost function RunLink(l: Link, events: seq<Event>): Link
    requires Sound(l) && AllowedRun(l, events)
    decreases events
  {
    if events == [] then l else (StepSound(l, events[0]); RunLink(Step(l, events[0]).link, events[1..]))
  }

  ghost function RunHistory(l: Link, h: History, events: seq<Event>): History
    requires Channel(l, h) && AllowedRun(l, events)
    decreases events
  {
    if events == [] then h
    else
      StepKeepsChannel(l, h, events[0]);
      RunHistory(Step(l, events[0]).link, Observe(h, l, Step(l, events[0]).link, events[0]), events[1..])
  }

  /** Over any run on an endpoint that is not revoked, message number `i` received is message
      number `i` sent: nothing is lost, duplicated or reordered. */
  lemma {:induction false} ExactlyOnceFifo(l: Link, h: History, events: seq<Event>)
    requires Channel(l, h) && AllowedRun(l, events)
    ensures Channel(RunLink(l, events), RunHistory(l, h, events))
    decreases events
  {
    if events != [] {
      StepKeepsChannel(l, h, events[0]);
      ExactlyOnceFifo(Step(l, events[0]).link, Observe(h, l, Step(l, events[0]).link, events[0]), events[1..]);
    }
  }

  /** A fresh endpoint starts the channel empty. */
  lemma FreshChannel(owner: nat, mem: map<nat, Msg>)
    requires 0 !in mem
    ensures Channel(Link(FreshEndpoint(owner), mem), History([], [], [], 0))
  {
  }

  // ---- All endpoints together ------------------------------------------------------------

  /** The endpoint pool over the message buffers of all tasks. */
  datatype Net = Net(eps: seq<Endpoint>, mem: map<nat, Msg>)

  /** A send, receive or store while endpoint `e` is meant, or the revocation of `e`. */
  datatype NetEvent = Talk(e: nat, ev: Event) | Withdraw(e: nat)

  function LinkOf(n: Net, e: nat): Link
    requires e < |n.eps|
  {
    Link(n.eps[e], n.mem)
  }

  /** The buffer an event on `l` writes, if any, and what it writes there. */
  datatype Write = Nothing | Written(ptr: nat, msg: Msg)

  function WriteOf(l: Link, ev: Event): Write
    requires Sound(l) && Allowed(l, ev)
  {
    match ev
    case DoSend(ptr, _) => if l.ep.state == RecvWaiting && l.ep.pending != 0 then Written(l.ep.pending, l.mem[ptr]) else Nothing
    case DoRecv(ptr, _) => if l.ep.state == SendWaiting && l.ep.pending != 0 then Written(ptr, l.mem[l.ep.pending]) else Nothing
    case Store(ptr, msg) => Written(ptr, msg)
  }

  /** A write leaves alone the messages that wait at other endpoints. */
  ghost predicate NoClash(n: Net, e: nat, x: Write) {
    x.Written? ==> forall k | 0 <= k < |n.eps| && k != e && n.eps[k].state == SendWaiting :: n.eps[k].pending != x.ptr
  }

  ghost predicate NetAllowed(n: Net, live: set<nat>, q: NetEvent) {
    && q.e < |n.eps|
    && (q.Talk? ==> q.e in live && Sound(LinkOf(n, q.e)) && Allowed(LinkOf(n, q.e), q.ev)
                    && NoClash(n, q.e, WriteOf(LinkOf(n, q.e), q.ev)))
  }

  function NetStep(n: Net, q: NetEvent): Net
    requires q.e < |n.eps| && (q.Talk? ==> Sound(LinkOf(n, q.e)) && Allowed(LinkOf(n, q.e), q.ev))
  {
    match q
    case Talk(e, ev) => var r := Step(LinkOf(n, e), ev); Net(n.eps[e := r.link.ep], r.link.mem)
    case Withdraw(e) => n.(eps := n.eps[e := Revoked(n.eps[e])])
  }

  /** The endpoints that were not revoked. */
  function NextLive(live: set<nat>, q: NetEvent): set<nat> { if q.Withdraw? then live - {q.e} else live }

  /** Every endpoint that was not revoked is a channel with its own history. */
  ghost predicate Channels(n: Net, live: set<nat>, hs: seq<History>) {
    |hs| == |n.eps| && forall e | 0 <= e < |n.eps| && e in live :: Channel(LinkOf(n, e), hs[e])
  }

  /** What the observer of all endpoints records. */
  ghost function NetObserve(n: Net, live: set<nat>, hs: seq<History>, q: NetEvent): (r: seq<History>)
    requires Channels(n, live, hs) && NetAllowed(n, live, q)
    ensures |r| == |hs|
  {
    match q
    case Talk(e, ev) => hs[e := Observe(hs[e], LinkOf(n, e), Step(LinkOf(n, e), ev).link, ev)]
    case Withdraw(_) => hs
  }

  /** For the other endpoints an event is at most a store. */
  lemma WriteIsStore(l: Link, ev: Event)
    requires Sound(l) && Allowed(l, ev)
    ensures Step(l, ev).link.mem == match WriteOf(l, ev) case Nothing => l.mem case Written(ptr, msg) => l.mem[ptr := msg]
    ensures WriteOf(l, ev).Written? ==> WriteOf(l, ev).ptr in l.mem
  {
  }

  lemma OtherKeepsChannel(l: Link, h: History, x: Write)
    requires Channel(l, h) && (x.Written? ==> x.ptr in l.mem && (l.ep.state == SendWaiting ==> l.ep.pending != x.ptr))
    ensures Channel(Link(l.ep, match x case Nothing => l.mem case Written(ptr, msg) => l.mem[ptr := msg]), h)
  {
    if x.Written? {
      StepKeepsChannel(l, h, Store(x.ptr, x.msg));
    }
  }

  /** Every event keeps every channel of an endpoint that is not revoked. */
  lemma NetStepKeepsChannels(n: Net, live: set<nat>, hs: seq<History>, q: NetEvent)
    requires Channels(n, live, hs) && NetAllowed(n, live, q)
    ensures Channels(NetStep(n, q), NextLive(live, q), NetObserve(n, live, hs, q))
  {
    hide Channel, Sound, Step, WriteOf, Allowed, Observe;
    var n', live', hs' := NetStep(n, q), NextLive(live, q), NetObserve(n, live, hs, q);
    forall k | 0 <= k < |n'.eps| && k in live' ensures Channel(LinkOf(n', k), hs'[k]) {
      if q.Talk? {
        var l := LinkOf(n, q.e);
        if k == q.e {
          StepKeepsChannel(l, hs[k], q.ev);
        } else {
          WriteIsStore(l, q.ev);
          OtherKeepsChannel(LinkOf(n, k), hs[k], WriteOf(l, q.ev));
        }
      }
    }
  }

  ghost predicate NetAllowedRun(n: Net, live: set<nat>, events: seq<NetEvent>)
    decreases events
  {
    events == []
    || (NetAllowed(n, live, events[0]) && NetAllowedRun(NetStep(n, events[0]), NextLive(live, events[0]), events[1..]))
  }

  ghost function NetRun(n: Net, live: set<nat>, events: seq<NetEvent>): Net
    requires NetAllowedRun(n, live, events)
    decreases events
  {
    if events == [] then n else NetRun(NetStep(n, events[0]), NextLive(live, events[0]), events[1..])
  }

  function LiveAfter(live: set<nat>, events: seq<NetEvent>): set<nat> {
    if events == [] then live else LiveAfter(NextLive(live, events[0]), events[1..])
  }

  ghost function NetHistories(n: Net, live: set<nat>, hs: seq<History>, events: seq<NetEvent>): seq<History>
    requires Channels(n, live, hs) && NetAllowedRun(n, live, events)
    decreases events
  {
    if events == [] then hs
    else
      NetStepKeepsChannels(n, live, hs, events[0]);
      NetHistories(NetStep(n, events[0]), NextLive(live, events[0]), NetObserve(n, live, hs, events[0]), events[1..])
  }

  /** Over any run on all endpoints at once, with deliveries at one endpoint as stores for the others and
      revocations in between, each endpoint that is not revoked delivers its messages exactly once and
      in order. */
  lemma {:induction false} EveryChannelIsFifo(n: Net, live: set<nat>, hs: seq<History>, events: seq<NetEvent>)
    requires Channels(n, live, hs) && NetAllowedRun(n, live, events)
    ensures Channels(NetRun(n, live, events), LiveAfter(live, events), NetHistories(n, live, hs, events))
    decreases events
  {
    hide Channels, NetStep, NextLive, NetObserve, Allowed, Sound, WriteOf, NoClash;
    if events != [] {
      NetStepKeepsChannels(n, live, hs, events[0]);
      EveryChannelIsFifo(NetStep(n, events[0]), NextLive(live, events[0]), NetObserve(n, live, hs, events[0]), events[1..]);
    }
  }
}
