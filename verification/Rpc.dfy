/** One end of the postMessage RPC (src/core/bus/rpc.ts).

    Peer is the state of a PostMessageRpc as a value, together with the handler
    runs its closures belong to. Each operation is a function from a Peer to a
    Step: the new state, the frames it posts and what callers and handlers see
    happen. The class does the same in place. */
module Rpc {

  type RpcId = nat

  /** Requests, results and messages are structured clones; a string stands for one. */
  type Payload = string

  datatype Frame =
    | Req(id: RpcId, name: string, stream: bool, req: Payload)
    | Cancel(id: RpcId)
    | Res(id: RpcId, res: Payload)
    | Msg(id: RpcId, msg: Payload)
    | End(id: RpcId)
    | Failure(id: RpcId, error: Payload)

  datatype Reason = Aborted | Disposed | PostFailed | Remote(error: Payload)

  datatype Outcome = Resolved(value: Payload) | Ended | Rejected(reason: Reason)

  /** What a handler's promise comes to. */
  datatype Reply = Value(value: Payload) | Done | Error(error: Payload)

  /** Seen by callers: Called, Delivered, Settled. Seen by handlers: Started, Refused
      (no handler registered), Sent, Returned. */
  datatype Event =
    | Called(id: RpcId, name: string, stream: bool, req: Payload)
    | Delivered(id: RpcId, msg: Payload)
    | Settled(id: RpcId, outcome: Outcome)
    | Started(id: RpcId, name: string, stream: bool, req: Payload)
    | Refused(id: RpcId, error: Payload)
    | Sent(id: RpcId, msg: Payload)
    | Returned(id: RpcId, reply: Reply)

  /** A handler run; its number also stands for its AbortController. */
  datatype Run = Run(id: RpcId, stream: bool, active: bool)

  datatype Peer = Peer(
    nextId: RpcId,
    calls: seq<RpcId>,          // keys of the pending maps, in insertion order
    streams: seq<RpcId>,
    inbound: map<RpcId, nat>,
    aborted: set<nat>,
    runs: map<nat, Run>,
    nextRun: nat,
    callHandlers: set<string>,
    streamHandlers: set<string>,
    disposed: bool)

  const FRESH := Peer(1, [], [], map[], {}, map[], 0, {}, {}, false)

  datatype Step = Step(peer: Peer, posts: seq<Frame>, events: seq<Event>)

  // --------------------------------------------------------------- operations

  function Without(s: seq<RpcId>, id: RpcId): (r: seq<RpcId>)
    ensures forall x :: x in r <==> x in s && x != id
    ensures id !in s ==> r == s
  {
    if s == [] then [] else if s[0] == id then Without(s[1..], id) else [s[0]] + Without(s[1..], id)
  }

  predicate Pending(p: Peer, id: RpcId) {
    id in p.calls || id in p.streams
  }

  function Forget(p: Peer, id: RpcId): Peer {
    p.(calls := Without(p.calls, id), streams := Without(p.streams, id))
  }

  function Post(p: Peer, f: Frame): seq<Frame> {
    if p.disposed then [] else [f]
  }

  /** Start a call or stream whose signal has not fired; postFails when the endpoint
      cannot clone the request. */
  function Call(p: Peer, name: string, stream: bool, req: Payload, postFails: bool): Step {
    var id := p.nextId;
    var next := p.(nextId := id + 1);
    var waiting := if stream then next.(streams := p.streams + [id]) else next.(calls := p.calls + [id]);
    var called := Called(id, name, stream, req);
    if !p.disposed && postFails then Step(next, [], [called, Settled(id, Rejected(PostFailed))])
    else Step(waiting, Post(p, Req(id, name, stream, req)), [called])
  }

  /** The caller's signal fires. */
  function Abort(p: Peer, id: RpcId): Step {
    if !Pending(p, id) then Step(p, [], [])
    else Step(Forget(p, id), Post(p, Cancel(id)), [Settled(id, Rejected(Aborted))])
  }

  function NoHandler(name: string, stream: bool): Payload {
    (if stream then "No stream handler for \"" else "No handler for \"") + name + "\""
  }

  function OnRequest(p: Peer, f: Frame): Step
    requires f.Req?
  {
    var run := p.nextRun;
    if f.name !in (if f.stream then p.streamHandlers else p.callHandlers) then
      var error := NoHandler(f.name, f.stream);
      Step(p.(nextRun := run + 1, inbound := p.inbound - {f.id}), Post(p, Failure(f.id, error)), [Refused(f.id, error)])
    else
      Step(p.(nextRun := run + 1, inbound := p.inbound[f.id := run], runs := p.runs[run := Run(f.id, f.stream, true)]),
           [], [Started(f.id, f.name, f.stream, f.req)])
  }

  function OnCancel(p: Peer, id: RpcId): Step {
    if id !in p.inbound then Step(p, [], [])
    else Step(p.(inbound := p.inbound - {id}, aborted := p.aborted + {p.inbound[id]}), [], [])
  }

  function Settle(p: Peer, id: RpcId, outcome: Outcome): Step {
    Step(Forget(p, id), [], [Settled(id, outcome)])
  }

  /** A frame arrives. */
  function Dispatch(p: Peer, f: Frame): Step {
    if p.disposed then Step(p, [], [])
    else
      match f
      case Req(_, _, _, _) => OnRequest(p, f)
      case Cancel(id) => OnCancel(p, id)
      case Res(id, res) => if id in p.calls then Settle(p, id, Resolved(res)) else Step(p, [], [])
      case Msg(id, msg) => if id in p.streams then Step(p, [], [Delivered(id, msg)]) else Step(p, [], [])
      case End(id) => if id in p.streams then Settle(p, id, Ended) else Step(p, [], [])
      case Failure(id, error) => if Pending(p, id) then Settle(p, id, Rejected(Remote(error))) else Step(p, [], [])
  }

  /** A streaming handler calls its send, possibly after it has returned. */
  function Send(p: Peer, run: nat, msg: Payload): Step
    requires run in p.runs
  {
    var id := p.runs[run].id;
    Step(p, if run in p.aborted then [] else Post(p, Msg(id, msg)), [Sent(id, msg)])
  }

  function Terminal(id: RpcId, reply: Reply): Frame {
    match reply
    case Value(v) => Res(id, v)
    case Done => End(id)
    case Error(e) => Failure(id, e)
  }

  /** A handler's promise settles. */
  function Return(p: Peer, run: nat, reply: Reply): Step
    requires run in p.runs
  {
    var id := p.runs[run].id;
    Step(p.(inbound := p.inbound - {id}, runs := p.runs[run := p.runs[run].(active := false)]),
         if run in p.aborted then [] else Post(p, Terminal(id, reply)),
         [Returned(id, reply)])
  }

  function RejectAll(ids: seq<RpcId>): seq<Event> {
    seq(|ids|, i requires 0 <= i < |ids| => Settled(ids[i], Rejected(Disposed)))
  }

  function Dispose(p: Peer): Step {
    if p.disposed then Step(p, [], [])
    else Step(p.(disposed := true, calls := [], streams := [], inbound := map[],
                 aborted := p.aborted + p.inbound.Values, callHandlers := {}, streamHandlers := {}),
              [], RejectAll(p.calls) + RejectAll(p.streams))
  }

  function Handle(p: Peer, name: string, stream: bool): Step {
    Step(if stream then p.(streamHandlers := p.streamHandlers + {name})
         else p.(callHandlers := p.callHandlers + {name}), [], [])
  }

  // ---------------------------------------------------------------- the class

  class PostMessageRpc {
    var nextId: RpcId
    var calls: seq<RpcId>
    var streams: seq<RpcId>
    var inbound: map<RpcId, nat>
    var aborted: set<nat>
    var runs: map<nat, Run>
    var nextRun: nat
    var callHandlers: set<string>
    var streamHandlers: set<string>
    var disposed: bool
    var outbox: seq<Frame>     // everything given to endpoint.postMessage
    var log: seq<Event>        // everything callers and handlers have seen

    function Abs(): Peer
      reads this
    {
      Peer(nextId, calls, streams, inbound, aborted, runs, nextRun, callHandlers, streamHandlers, disposed)
    }

    /** The object has made exactly this step. */
    twostate predicate Made(step: Step)
      reads this
    {
      Abs() == step.peer && outbox == old(outbox) + step.posts && log == old(log) + step.events
    }

    constructor ()
      ensures Abs() == FRESH && outbox == [] && log == []
    {
      nextId, calls, streams, inbound, aborted, runs := 1, [], [], map[], {}, map[];
      nextRun, callHandlers, streamHandlers, disposed, outbox, log := 0, {}, {}, false, [], [];
    }

    method PostFrame(f: Frame)
      modifies this`outbox
      ensures outbox == old(outbox) + Post(Abs(), f)
    {
      if disposed { return; }
      outbox := outbox + [f];
    }

    /** call and stream: None when the signal has already fired. */
    method Invoke(name: string, stream: bool, req: Payload, signalAborted: bool, postFails: bool)
      returns (id: RpcId, started: bool)
      modifies this
      ensures started == !signalAborted
      ensures signalAborted ==> Made(Step(old(Abs()), [], []))
      ensures !signalAborted ==> id == old(nextId) && Made(Call(old(Abs()), name, stream, req, postFails))
    {
      if signalAborted { return 0, false; }
      id, started := nextId, true;
      nextId := nextId + 1;
      var pending := if stream then streams else calls;
      if stream { streams := pending + [id]; } else { calls := pending + [id]; }
      if postFails && !disposed {
        if stream { streams := pending; } else { calls := pending; }
        log := log + [Called(id, name, stream, req), Settled(id, Rejected(PostFailed))];
      } else {
        PostFrame(Req(id, name, stream, req));
        log := log + [Called(id, name, stream, req)];
      }
    }

    /** finish, then resolve or reject. */
    method SettlePending(id: RpcId, outcome: Outcome)
      modifies this`calls, this`streams, this`log
      ensures Made(Settle(old(Abs()), id, outcome))
    {
      calls, streams := Without(calls, id), Without(streams, id);
      log := log + [Settled(id, outcome)];
    }

    method OnAbort(id: RpcId)
      modifies this
      ensures Made(Abort(old(Abs()), id))
    {
      if id !in calls && id !in streams { return; }
      PostFrame(Cancel(id));
      SettlePending(id, Rejected(Aborted));
    }

    method HandleRequest(f: Frame)
      requires f.Req?
      modifies this
      ensures Made(OnRequest(old(Abs()), f))
    {
      hide NoHandler;
      var controller := nextRun;
      nextRun := nextRun + 1;
      inbound := inbound[f.id := controller];
      var handlers := if f.stream then streamHandlers else callHandlers;
      assert Abs() == old(Abs()).(nextRun := controller + 1, inbound := old(inbound)[f.id := controller]);
      if f.name !in handlers {
        var error := NoHandler(f.name, f.stream);
        inbound := inbound - {f.id};
        PostFrame(Failure(f.id, error));
        log := log + [Refused(f.id, error)];
        return;
      }
      runs := runs[controller := Run(f.id, f.stream, true)];
      log := log + [Started(f.id, f.name, f.stream, f.req)];
    }

    method HandleCancel(id: RpcId)
      modifies this
      ensures Made(OnCancel(old(Abs()), id))
    {
      if id !in inbound { return; }
      var controller := inbound[id];
      inbound := inbound - {id};
      aborted := aborted + {controller};
    }

    method OnMessage(f: Frame)
      modifies this
      ensures Made(Dispatch(old(Abs()), f))
    {
      if disposed { return; }
      match f
      case Req(_, _, _, _) => HandleRequest(f);
      case Cancel(id) => HandleCancel(id);
      case Res(id, res) => if id in calls { SettlePending(id, Resolved(res)); }
      case Msg(id, msg) => if id in streams { log := log + [Delivered(id, msg)]; }
      case End(id) => if id in streams { SettlePending(id, Ended); }
      case Failure(id, error) => if id in calls || id in streams { SettlePending(id, Rejected(Remote(error))); }
    }

    method HandlerSends(run: nat, msg: Payload)
      requires run in runs
      modifies this
      ensures Made(Send(old(Abs()), run, msg))
    {
      if run !in aborted { PostFrame(Msg(runs[run].id, msg)); }
      log := log + [Sent(runs[run].id, msg)];
    }

    method HandlerReturns(run: nat, reply: Reply)
      requires run in runs
      modifies this
      ensures Made(Return(old(Abs()), run, reply))
    {
      var id := runs[run].id;
      if run !in aborted { PostFrame(Terminal(id, reply)); }
      inbound := inbound - {id};
      runs := runs[run := runs[run].(active := false)];
      log := log + [Returned(id, reply)];
    }

    method RejectPending(ids: seq<RpcId>)
      modifies this`log
      ensures log == old(log) + RejectAll(ids)
    {
      for i := 0 to |ids|
        invariant log == old(log) + RejectAll(ids[..i])
      {
        log := log + [Settled(ids[i], Rejected(Disposed))];
        assert RejectAll(ids[..i + 1]) == RejectAll(ids[..i]) + [Settled(ids[i], Rejected(Disposed))];
      }
      assert ids[..|ids|] == ids;
    }

    method AbortControllers(controllers: set<nat>)
      modifies this`aborted
      ensures aborted == old(aborted) + controllers
    {
      var rest := controllers;
      while rest != {}
        invariant rest <= controllers && aborted + rest == old(aborted) + controllers
      {
        var controller :| controller in rest;
        aborted := aborted + {controller};
        rest := rest - {controller};
      }
    }

    method RejectEverything()
      modifies this`log, this`calls, this`streams
      ensures calls == [] && streams == []
      ensures log == old(log) + (RejectAll(old(calls)) + RejectAll(old(streams)))
    {
      hide RejectAll;
      RejectPending(calls);
      RejectPending(streams);
      calls, streams := [], [];
    }

    method Close()
      modifies this
      ensures Made(Dispose(old(Abs())))
    {
      hide RejectAll;
      if disposed { return; }
      disposed := true;
      RejectEverything();
      AbortControllers(inbound.Values);
      inbound, callHandlers, streamHandlers := map[], {}, {};
    }

    method Register(name: string, stream: bool)
      modifies this
      ensures Made(Handle(old(Abs()), name, stream))
    {
      if stream { streamHandlers := streamHandlers + {name}; } else { callHandlers := callHandlers + {name}; }
    }
  }
}
