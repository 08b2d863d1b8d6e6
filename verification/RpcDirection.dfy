/** One direction of the RPC protocol: c makes calls, h runs their handlers.
    fwd carries requests and cancels, bwd the replies; lc and lh are the histories. */
module RpcDirection {
  import opened Rpc

  datatype System = System(c: Peer, h: Peer, fwd: seq<Frame>, bwd: seq<Frame>, lc: seq<Event>, lh: seq<Event>)

  datatype Action =
    | DoCall(name: string, stream: bool, req: Payload, postFails: bool)
    | DoAbort(id: RpcId)
    | DoDeliver
    | DoSend(run: nat, msg: Payload)
    | DoReturn(run: nat, reply: Reply)
    | DoDispose
    | DoHandle(name: string, stream: bool)

  /** A stream handler resolves with nothing, a call handler with a value. */
  predicate Enabled(p: Peer, incoming: seq<Frame>, act: Action) {
    match act
    case DoDeliver => incoming != []
    case DoSend(run, _) => run in p.runs && p.runs[run].stream
    case DoReturn(run, reply) =>
      run in p.runs && p.runs[run].active && if p.runs[run].stream then !reply.Value? else !reply.Done?
    case _ => true
  }

  function Apply(p: Peer, incoming: seq<Frame>, act: Action): Step
    requires Enabled(p, incoming, act)
  {
    match act
    case DoCall(name, stream, req, postFails) => Call(p, name, stream, req, postFails)
    case DoAbort(id) => Abort(p, id)
    case DoDeliver => Dispatch(p, incoming[0])
    case DoSend(run, msg) => Send(p, run, msg)
    case DoReturn(run, reply) => Return(p, run, reply)
    case DoDispose => Dispose(p)
    case DoHandle(name, stream) => Handle(p, name, stream)
  }

  function Consumed(incoming: seq<Frame>, act: Action): seq<Frame>
    requires act.DoDeliver? ==> incoming != []
  {
    if act.DoDeliver? then incoming[1..] else incoming
  }

  /** The peer c acts. */
  function CallerActs(s: System, act: Action): System
    requires Enabled(s.c, s.bwd, act)
  {
    var step := Apply(s.c, s.bwd, act);
    System(step.peer, s.h, s.fwd + step.posts, Consumed(s.bwd, act), s.lc + step.events, s.lh)
  }

  /** The same system seen from the other side. */
  function Swap(s: System): System {
    System(s.h, s.c, s.bwd, s.fwd, s.lh, s.lc)
  }

  /** The peer h acts. */
  function HandlerActs(s: System, act: Action): System
    requires Enabled(s.h, s.fwd, act)
  {
    Swap(CallerActs(Swap(s), act))
  }

  // ------------------------------------------------------ what is in a channel

  predicate IsRequest(f: Frame) { f.Req? || f.Cancel? }

  predicate IsTerminal(f: Frame) { f.Res? || f.End? || f.Failure? }

  /** Requests for id still queued. */
  function Reqs(q: seq<Frame>, id: RpcId): nat {
    if q == [] then 0 else (if q[0].Req? && q[0].id == id then 1 else 0) + Reqs(q[1..], id)
  }

  /** Terminal frames for id still queued. */
  function Terms(q: seq<Frame>, id: RpcId): nat {
    if q == [] then 0 else (if IsTerminal(q[0]) && q[0].id == id then 1 else 0) + Terms(q[1..], id)
  }

  /** The stream messages for id queued ahead of its terminal frame. */
  function Early(q: seq<Frame>, id: RpcId): seq<Payload> {
    if q == [] || (IsTerminal(q[0]) && q[0].id == id) then []
    else (if q[0].Msg? && q[0].id == id then [q[0].msg] else []) + Early(q[1..], id)
  }

  lemma {:induction false} QueueAppend(q: seq<Frame>, f: Frame, id: RpcId)
    ensures Reqs(q + [f], id) == Reqs(q, id) + (if f.Req? && f.id == id then 1 else 0)
    ensures Terms(q + [f], id) == Terms(q, id) + (if IsTerminal(f) && f.id == id then 1 else 0)
    ensures Early(q + [f], id)
            == Early(q, id) + (if Terms(q, id) == 0 && f.Msg? && f.id == id then [f.msg] else [])
  {
    if q == [] {
      assert q + [f] == [f];
    } else {
      assert (q + [f])[1..] == q[1..] + [f];
      QueueAppend(q[1..], f, id);
    }
  }

  lemma {:induction false} QueueMember(q: seq<Frame>, f: Frame)
    requires f in q
    ensures f.Req? ==> Reqs(q, f.id) > 0
    ensures IsTerminal(f) ==> Terms(q, f.id) > 0
  {
    if q[0] != f { QueueMember(q[1..], f); }
  }

  lemma Assoc<T>(a: seq<T>, b: seq<T>, c: seq<T>)
    ensures a + (b + c) == a + b + c
    ensures a + [] == a && [] + a == a
  {
  }

  // --------------------------------------------------------- what has happened

  /** The life of an id as its caller sees it. Broken would mean: settled twice,
      settled the wrong way for its kind, or a message outside the stream's life. */
  datatype Life = Unborn | Live(stream: bool) | Over | Broken

  function NextLife(l: Life, e: Event, id: RpcId): Life {
    if e.id != id then l
    else
      match e
      case Called(_, _, stream, _) => if l.Unborn? then Live(stream) else Broken
      case Delivered(_, _) => if l == Live(true) then l else Broken
      case Settled(_, o) =>
        if l.Live? && (o.Resolved? ==> !l.stream) && (o.Ended? ==> l.stream) then Over else Broken
      case _ => l
  }

  function LifeOf(log: seq<Event>, id: RpcId): Life {
    if log == [] then Unborn else NextLife(LifeOf(log[..|log| - 1], id), log[|log| - 1], id)
  }

  /** The life of a request on the handler's side. */
  datatype Phase = Idle | Running(stream: bool) | Finished | Bad

  function NextPhase(p: Phase, e: Event, id: RpcId): Phase {
    if e.id != id then p
    else
      match e
      case Started(_, _, stream, _) => if p.Idle? then Running(stream) else Bad
      case Refused(_, _) => if p.Idle? then Finished else Bad
      case Returned(_, reply) =>
        if p.Running? && (if p.stream then !reply.Value? else !reply.Done?) then Finished else Bad
      case _ => p
  }

  function PhaseOf(log: seq<Event>, id: RpcId): Phase {
    if log == [] then Idle else NextPhase(PhaseOf(log[..|log| - 1], id), log[|log| - 1], id)
  }

  /** Messages passed to the caller's onMsg. */
  function Heard(log: seq<Event>, id: RpcId): seq<Payload> {
    if log == [] then []
    else
      var e := log[|log| - 1];
      Heard(log[..|log| - 1], id) + (if e.Delivered? && e.id == id then [e.msg] else [])
  }

  /** Messages the handler sent before its promise settled. */
  function Spoken(log: seq<Event>, id: RpcId): seq<Payload> {
    if log == [] then []
    else
      var e, before := log[|log| - 1], log[..|log| - 1];
      Spoken(before, id) + (if e.Sent? && e.id == id && PhaseOf(before, id).Running? then [e.msg] else [])
  }

  lemma LogAppend(log: seq<Event>, e: Event, id: RpcId)
    ensures LifeOf(log + [e], id) == NextLife(LifeOf(log, id), e, id)
    ensures PhaseOf(log + [e], id) == NextPhase(PhaseOf(log, id), e, id)
    ensures Heard(log + [e], id) == Heard(log, id) + (if e.Delivered? && e.id == id then [e.msg] else [])
    ensures Spoken(log + [e], id)
            == Spoken(log, id) + (if e.Sent? && e.id == id && PhaseOf(log, id).Running? then [e.msg] else [])
  {
    assert (log + [e])[..|log|] == log;
  }

  // ----------------------------------------------------------------- invariant

  ghost predicate NoRepeats(s: seq<RpcId>) {
    forall i, j :: 0 <= i < j < |s| ==> s[i] != s[j]
  }

  /** The pending maps are exactly the live ids. */
  ghost predicate Lives(s: System) {
    && NoRepeats(s.c.calls) && NoRepeats(s.c.streams)
    && (forall id: RpcId :: LifeOf(s.lc, id)
                     == if id in s.c.calls then Live(false)
                        else if id in s.c.streams then Live(true)
                        else if 1 <= id < s.c.nextId then Over else Unborn)
    && (forall id :: id in s.c.calls ==> 1 <= id < s.c.nextId && id !in s.c.streams)
    && (forall id :: id in s.c.streams ==> 1 <= id < s.c.nextId)
    && s.c.nextId >= 1
  }

  /** In how many of the three places a request is: queued, being handled, answered. */
  function Place(s: System, id: RpcId): nat {
    Reqs(s.fwd, id) + (if PhaseOf(s.lh, id).Running? then 1 else 0) + Terms(s.bwd, id)
  }

  ghost predicate PlacesOf(s: System, id: RpcId) {
    && Place(s, id) <= 1
    && !PhaseOf(s.lh, id).Bad?
    && (Reqs(s.fwd, id) > 0 ==> PhaseOf(s.lh, id).Idle?)
    && (Terms(s.bwd, id) > 0 ==> PhaseOf(s.lh, id).Finished?)
    && (Pending(s.c, id) && !s.c.disposed && !s.h.disposed ==> Place(s, id) == 1)
    && (Pending(s.c, id) && s.c.disposed ==> PhaseOf(s.lh, id).Idle? && Place(s, id) == 0)
    && (!(1 <= id < s.c.nextId) ==> PhaseOf(s.lh, id).Idle? && Place(s, id) == 0)
  }

  ghost predicate Places(s: System) {
    forall id: RpcId :: PlacesOf(s, id)
  }

  /** Each frame is of the kind its id's caller waits for, and a cancelled id has
      no caller waiting. */
  ghost predicate Kinds(s: System) {
    && (forall f :: f in s.fwd ==> IsRequest(f) && 1 <= f.id < s.c.nextId)
    && (forall f :: f in s.bwd ==> !IsRequest(f) && 1 <= f.id < s.c.nextId && !PhaseOf(s.lh, f.id).Idle?)
    && (forall f :: f in s.fwd && f.Req? ==> if f.stream then f.id !in s.c.calls else f.id !in s.c.streams)
    && (forall f :: f in s.fwd && f.Cancel? ==> !Pending(s.c, f.id))
    && (forall f :: f in s.bwd ==> (f.Res? ==> f.id !in s.c.streams) && (f.End? ==> f.id !in s.c.calls))
    && (forall id: RpcId :: PhaseOf(s.lh, id).Running? ==>
          if PhaseOf(s.lh, id).stream then id !in s.c.calls else id !in s.c.streams)
  }

  /** The handler's runs agree with its history. */
  ghost predicate RunTable(s: System) {
    && (forall r :: r in s.h.runs ==>
          && r < s.h.nextRun
          && PhaseOf(s.lh, s.h.runs[r].id) == (if s.h.runs[r].active then Running(s.h.runs[r].stream) else Finished))
    && (forall r, q :: r in s.h.runs && q in s.h.runs && s.h.runs[r].id == s.h.runs[q].id ==> r == q)
  }

  predicate ActiveRun(p: Peer, r: nat, id: RpcId) {
    r in p.runs && p.runs[r].id == id && p.runs[r].active
  }

  ghost predicate RunWitness(s: System) {
    forall id: RpcId :: PhaseOf(s.lh, id).Running? ==> exists r :: ActiveRun(s.h, r, id)
  }

  /** A live run is the one a cancel reaches, and an aborted one has no caller waiting. */
  ghost predicate RunSignals(s: System) {
    && (forall id :: id in s.h.inbound ==> s.h.inbound[id] in s.h.runs && s.h.runs[s.h.inbound[id]].id == id)
    && (forall r :: r in s.h.aborted ==> r < s.h.nextRun)
    && (!s.h.disposed ==> forall r :: r in s.h.runs && s.h.runs[r].active ==>
          if r in s.h.aborted then !Pending(s.c, s.h.runs[r].id)
          else s.h.runs[r].id in s.h.inbound && s.h.inbound[s.h.runs[r].id] == r)
  }

  ghost predicate Runs(s: System) {
    RunTable(s) && RunWitness(s) && RunSignals(s)
  }

  /** The outcomes that the other peer decides. */
  predicate FromPeer(o: Outcome) {
    o.Rejected? ==> o.reason.Remote?
  }

  ghost predicate Answered(log: seq<Event>, id: RpcId) {
    exists o :: Settled(id, o) in log && FromPeer(o)
  }

  lemma AnsweredAppend(log: seq<Event>, e: Event, id: RpcId)
    ensures Answered(log + [e], id) <==> Answered(log, id) || (e.Settled? && e.id == id && FromPeer(e.outcome))
  {
    assert forall o :: Settled(id, o) in log + [e] <==> Settled(id, o) in log || Settled(id, o) == e;
  }

  /** What has been heard, with what is queued ahead of the end, is what was sent. */
  ghost predicate StreamOf(s: System, id: RpcId) {
    && Heard(s.lc, id) <= Spoken(s.lh, id)
    && (id in s.c.streams ==> Heard(s.lc, id) + Early(s.bwd, id) <= Spoken(s.lh, id))
    && (id in s.c.streams && (!s.h.disposed || Terms(s.bwd, id) > 0) ==>
          Heard(s.lc, id) + Early(s.bwd, id) == Spoken(s.lh, id))
    && (Answered(s.lc, id) ==> Heard(s.lc, id) == Spoken(s.lh, id) && PhaseOf(s.lh, id).Finished?)
    && (id in s.c.calls ==> Spoken(s.lh, id) == [])
    && (!(1 <= id < s.c.nextId) ==> Early(s.bwd, id) == [] && Heard(s.lc, id) == [] && Spoken(s.lh, id) == [])
  }

  ghost predicate Streams(s: System) {
    forall id: RpcId :: StreamOf(s, id)
  }

  /** Every frame and every settlement has its cause in the other side's history. */
  ghost predicate Causes(s: System) {
    && (forall f :: f in s.fwd && f.Req? ==> Called(f.id, f.name, f.stream, f.req) in s.lc)
    && (forall e :: e in s.lh && e.Started? ==> Called(e.id, e.name, e.stream, e.req) in s.lc)
    && (forall f :: f in s.bwd && f.Res? ==> Returned(f.id, Value(f.res)) in s.lh)
    && (forall f :: f in s.bwd && f.End? ==> Returned(f.id, Done) in s.lh)
    && (forall f :: f in s.bwd && f.Failure? ==>
                      Returned(f.id, Error(f.error)) in s.lh || Refused(f.id, f.error) in s.lh)
    && (forall e :: e in s.lc && e.Settled? && e.outcome.Resolved? ==> Returned(e.id, Value(e.outcome.value)) in s.lh)
    && (forall e :: e in s.lc && e.Settled? && e.outcome.Ended? ==> Returned(e.id, Done) in s.lh)
    && (forall e :: e in s.lc && e.Settled? && e.outcome.Rejected? && e.outcome.reason.Remote? ==>
          Returned(e.id, Error(e.outcome.reason.error)) in s.lh || Refused(e.id, e.outcome.reason.error) in s.lh)
  }

  ghost predicate Inv(s: System) {
    Lives(s) && Places(s) && Kinds(s) && Runs(s) && Streams(s) && Causes(s)
  }
}
