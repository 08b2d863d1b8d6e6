/** Two connected peers, each caller and handler at once, over every run. */
module RpcProtocol {
  import opened Rpc
  import opened RpcDirection
  import opened RpcCallerSteps
  import opened RpcHandlerSteps

  // ------------------------------------------------------------------ executions

  /** One move of the peer c (left) or of the peer h. */
  datatype Move = Move(left: bool, act: Action)

  /** A move that is not possible leaves the system as it is. */
  function Do(s: System, m: Move): System {
    if m.left then if Enabled(s.c, s.bwd, m.act) then CallerActs(s, m.act) else s
    else if Enabled(s.h, s.fwd, m.act) then HandlerActs(s, m.act) else s
  }

  const START := System(FRESH, FRESH, [], [], [], [])

  /** The state a run of moves leads to. */
  function After(moves: seq<Move>): System {
    if moves == [] then START else Do(After(moves[..|moves| - 1]), moves[|moves| - 1])
  }

  function Mirror(moves: seq<Move>): (r: seq<Move>)
    ensures |r| == |moves|
  {
    if moves == [] then []
    else Mirror(moves[..|moves| - 1]) + [Move(!moves[|moves| - 1].left, moves[|moves| - 1].act)]
  }

  /** The two peers play the same part. */
  lemma {:induction false} MirrorIsSwap(moves: seq<Move>)
    ensures After(Mirror(moves)) == Swap(After(moves))
  {
    hide CallerActs;
    if moves != [] {
      var front := moves[..|moves| - 1];
      MirrorIsSwap(front);
      assert Mirror(moves)[..|moves| - 1] == Mirror(front);
    }
  }

  // ------------------------------------------------------------- one direction

  function Requests(q: seq<Frame>): seq<Frame> {
    if q == [] then [] else (if IsRequest(q[0]) then [q[0]] else []) + Requests(q[1..])
  }

  function Replies(q: seq<Frame>): seq<Frame> {
    if q == [] then [] else (if IsRequest(q[0]) then [] else [q[0]]) + Replies(q[1..])
  }

  predicate ByCaller(e: Event) { e.Called? || e.Delivered? || e.Settled? }

  /** The events of one role, the other role's dropped. */
  function Part(log: seq<Event>, caller: bool): seq<Event> {
    if log == [] then []
    else Part(log[..|log| - 1], caller)
         + (if ByCaller(log[|log| - 1]) == caller then [log[|log| - 1]] else [])
  }

  /** What the peer is as a caller only, and as a handler only. */
  function AsCaller(p: Peer): Peer {
    p.(inbound := map[], aborted := {}, runs := map[], nextRun := 0, callHandlers := {}, streamHandlers := {})
  }

  function AsHandler(p: Peer): Peer {
    p.(nextId := 1, calls := [], streams := [])
  }

  /** The direction in which c calls and h serves. */
  function View(s: System): System {
    System(AsCaller(s.c), AsHandler(s.h), Requests(s.fwd), Replies(s.bwd), Part(s.lc, true), Part(s.lh, false))
  }

  lemma {:induction false} QueueParts(q: seq<Frame>, posts: seq<Frame>)
    ensures Requests(q + posts) == Requests(q) + Requests(posts)
    ensures Replies(q + posts) == Replies(q) + Replies(posts)
  {
    if q == [] {
      assert q + posts == posts;
    } else {
      assert (q + posts)[1..] == q[1..] + posts;
      QueueParts(q[1..], posts);
      Assoc(if IsRequest(q[0]) then [q[0]] else [], Requests(q[1..]), Requests(posts));
      Assoc(if IsRequest(q[0]) then [] else [q[0]], Replies(q[1..]), Replies(posts));
    }
  }

  lemma {:induction false} LogParts(log: seq<Event>, events: seq<Event>, caller: bool)
    ensures Part(log + events, caller) == Part(log, caller) + Part(events, caller)
    decreases |events|
  {
    if events == [] {
      assert log + events == log;
    } else {
      var front, last := events[..|events| - 1], events[|events| - 1];
      assert log + events == log + front + [last];
      assert (log + front + [last])[..|log + front|] == log + front;
      LogParts(log, front, caller);
      Assoc(Part(log, caller), Part(front, caller), if ByCaller(last) == caller then [last] else []);
    }
  }

  /** Events that are all of one role. */
  lemma {:induction false} PartAll(events: seq<Event>, role: bool)
    requires forall i :: 0 <= i < |events| ==> ByCaller(events[i]) == role
    ensures Part(events, role) == events && Part(events, !role) == []
  {
    if events != [] {
      PartAll(events[..|events| - 1], role);
    }
  }

  /** Is this a move of p as a caller? */
  predicate CallerMove(incoming: seq<Frame>, act: Action)
    requires act.DoDeliver? ==> incoming != []
  {
    act.DoCall? || act.DoAbort? || act.DoDispose? || (act.DoDeliver? && !IsRequest(incoming[0]))
  }

  /** A disposal is seen by both roles: by callers as rejections. */
  predicate HandlerMove(incoming: seq<Frame>, act: Action)
    requires act.DoDeliver? ==> incoming != []
  {
    act.DoSend? || act.DoReturn? || act.DoHandle? || act.DoDispose? || (act.DoDeliver? && IsRequest(incoming[0]))
  }

  lemma StepShape(p: Peer, incoming: seq<Frame>, act: Action)
    requires Enabled(p, incoming, act)
    ensures var step := Apply(p, incoming, act);
            && |step.posts| <= 1
            && (forall i :: 0 <= i < |step.posts| ==> IsRequest(step.posts[i]) == CallerMove(incoming, act))
            && (forall i :: 0 <= i < |step.events| ==> ByCaller(step.events[i]) == CallerMove(incoming, act))
  {
    hide NoHandler;
    match act
    case DoDeliver =>
      hide Call, Abort, Dispose, Handle, Send, Return;
    case DoDispose =>
      hide Call, Abort, Dispatch, Handle, Send, Return;
    case _ =>
  }

  /** Which way the frames a step posts are going, and who sees its events. */
  lemma StepParts(p: Peer, incoming: seq<Frame>, act: Action)
    requires Enabled(p, incoming, act)
    ensures var step := Apply(p, incoming, act);
            var caller := CallerMove(incoming, act);
            && Part(step.events, caller) == step.events && Part(step.events, !caller) == []
            && Requests(step.posts) == (if caller then step.posts else [])
            && Replies(step.posts) == (if caller then [] else step.posts)
  {
    StepShape(p, incoming, act);
    hide Apply, CallerMove;
    var step := Apply(p, incoming, act);
    PartAll(step.events, CallerMove(incoming, act));
    if step.posts != [] { assert step.posts == [step.posts[0]]; }
  }

  lemma CallerMask(p: Peer, incoming: seq<Frame>, act: Action, masked: seq<Frame>)
    requires Enabled(p, incoming, act)
    requires act.DoDeliver? && !IsRequest(incoming[0]) ==> masked != [] && masked[0] == incoming[0]
    ensures var step := Apply(p, incoming, act);
            if CallerMove(incoming, act) then
              Enabled(AsCaller(p), masked, act) && CallerMove(masked, act)
              && Apply(AsCaller(p), masked, act) == Step(AsCaller(step.peer), step.posts, step.events)
            else AsCaller(step.peer) == AsCaller(p)
  {
    hide NoHandler, RejectAll, Without;
    match act
    case DoDeliver => hide Call, Abort, Dispose, Handle, Send, Return;
    case DoDispose =>
      hide Call, Abort, Dispatch, Handle, Send, Return;
      assert p.disposed || AsCaller(Dispose(p).peer) == Dispose(AsCaller(p)).peer;
    case DoCall(_, _, _, _) => hide Abort, Dispatch, Dispose, Handle, Send, Return;
    case DoAbort(_) => hide Call, Dispatch, Dispose, Handle, Send, Return;
    case _ => hide Call, Abort, Dispatch, Dispose;
  }

  lemma HandlerMask(p: Peer, incoming: seq<Frame>, act: Action, masked: seq<Frame>)
    requires Enabled(p, incoming, act)
    requires act.DoDeliver? && IsRequest(incoming[0]) ==> masked != [] && masked[0] == incoming[0]
    ensures var step := Apply(p, incoming, act);
            if HandlerMove(incoming, act) then
              Enabled(AsHandler(p), masked, act) && HandlerMove(masked, act)
              && Apply(AsHandler(p), masked, act)
                 == Step(AsHandler(step.peer), step.posts, if act.DoDispose? then [] else step.events)
            else AsHandler(step.peer) == AsHandler(p)
  {
    hide NoHandler;
    assert RejectAll([]) + RejectAll([]) == [];
    match act
    case DoDeliver => hide Call, Abort, Dispose, Handle, Send, Return;
    case DoDispose => hide Call, Abort, Dispatch, Handle, Send, Return;
    case DoSend(_, _) => hide Call, Abort, Dispatch, Dispose, Handle, Return;
    case DoReturn(_, _) => hide Call, Abort, Dispatch, Dispose, Handle, Send;
    case _ => hide Dispatch, Dispose, Send, Return;
  }

  /** In the direction where c calls, c's move is a move of the caller or nothing. */
  lemma CallerView(s: System, act: Action)
    requires Enabled(s.c, s.bwd, act)
    ensures CallerMove(s.bwd, act) ==> Enabled(View(s).c, View(s).bwd, act) && CallerMove(View(s).bwd, act)
    ensures View(CallerActs(s, act)) == if CallerMove(s.bwd, act) then CallerActs(View(s), act) else View(s)
  {
    var step := Apply(s.c, s.bwd, act);
    StepParts(s.c, s.bwd, act);
    QueueParts(s.fwd, step.posts);
    LogParts(s.lc, step.events, true);
    RepliesHead(s.bwd);
    hide Requests, Replies;
    CallerMask(s.c, s.bwd, act, Replies(s.bwd));
    hide Apply, HandlerMove, CallerMove, Part, AsCaller, AsHandler, IsRequest;
    Assoc(Requests(s.fwd), [], []);
    Assoc(Part(s.lc, true), [], []);
  }

  lemma RepliesHead(q: seq<Frame>)
    ensures q != [] && IsRequest(q[0]) ==> Replies(q[1..]) == Replies(q)
    ensures q != [] && !IsRequest(q[0]) ==>
              Replies(q) != [] && Replies(q)[0] == q[0] && Replies(q)[1..] == Replies(q[1..])
  {
  }

  /** Which of a step's events and frames the handler's view keeps. */
  lemma HandlerEvents(incoming: seq<Frame>, step: Step, act: Action, p: Peer)
    requires Enabled(p, incoming, act) && step == Apply(p, incoming, act)
    ensures HandlerMove(incoming, act) ==>
              && Part(step.events, false) == (if act.DoDispose? then [] else step.events)
              && Replies(step.posts) == step.posts
    ensures !HandlerMove(incoming, act) ==> Part(step.events, false) == [] && Replies(step.posts) == []
  {
    hide Part, Call, Abort, Dispatch, Handle, Send, Return, RejectAll;
    StepParts(p, incoming, act);
    assert act.DoDispose? ==> step.posts == [];
  }

  /** In the direction where c calls, h's move is a move of the handler or nothing. */
  lemma HandlerView(s: System, act: Action)
    requires Enabled(s.h, s.fwd, act)
    ensures HandlerMove(s.fwd, act) ==> Enabled(View(s).h, View(s).fwd, act) && HandlerMove(View(s).fwd, act)
    ensures View(HandlerActs(s, act)) == if HandlerMove(s.fwd, act) then HandlerActs(View(s), act) else View(s)
  {
    var step := Apply(s.h, s.fwd, act);
    QueueParts(s.bwd, step.posts);
    LogParts(s.lh, step.events, false);
    HandlerMask(s.h, s.fwd, act, Requests(s.fwd));
    HandlerEvents(s.fwd, step, act, s.h);
    hide Apply, HandlerMove, CallerMove, Part, AsCaller, AsHandler;
    Assoc(Replies(s.bwd), [], []);
    Assoc(Part(s.lh, false), [], []);
  }

  // ------------------------------------------------------------ every state

  lemma CallerKeeps(v: System, act: Action)
    requires Inv(v) && Enabled(v.c, v.bwd, act) && CallerMove(v.bwd, act)
    ensures Inv(CallerActs(v, act))
  {
    hide Inv, CallerActs;
    match act
    case DoCall(name, stream, req, postFails) => CallKeeps(v, name, stream, req, postFails);
    case DoAbort(id) => AbortKeeps(v, id);
    case DoDeliver => ReplyKeeps(v);
    case DoDispose => DisposeKeeps(v);
  }

  lemma HandlerKeeps(v: System, act: Action)
    requires Inv(v) && Enabled(v.h, v.fwd, act) && HandlerMove(v.fwd, act) && v.h.calls == [] && v.h.streams == []
    ensures Inv(HandlerActs(v, act))
  {
    match act
    case DoSend(run, msg) =>
      hide Inv, HandlerActs;
      SendKeeps(v, run, msg);
    case DoReturn(run, reply) =>
      hide Inv, HandlerActs;
      ReturnKeeps(v, run, reply);
    case DoDeliver =>
      hide Inv, HandlerActs;
      RequestKeeps(v);
    case DoDispose =>
      hide Inv, HandlerActs;
      CloseKeeps(v);
    case DoHandle(name, stream) => RegisterKeeps(v, name, stream);
  }

  /** Both directions are well, whatever the peers have done so far. */
  ghost predicate Well(s: System) {
    Inv(View(s)) && Inv(View(Swap(s)))
  }

  lemma MoveKeeps(s: System, m: Move)
    requires Well(s)
    ensures Well(Do(s, m))
  {
    hide Inv, CallerActs, View, CallerMove, HandlerMove;
    if m.left {
      if Enabled(s.c, s.bwd, m.act) {
        CallerView(s, m.act);
        if CallerMove(s.bwd, m.act) { CallerKeeps(View(s), m.act); }
        OtherWay(Swap(s), m.act);
        assert Swap(CallerActs(s, m.act)) == HandlerActs(Swap(s), m.act);
      }
    } else if Enabled(s.h, s.fwd, m.act) {
      OtherWay(s, m.act);
      var w := Swap(s);
      CallerView(w, m.act);
      if CallerMove(w.bwd, m.act) { CallerKeeps(View(w), m.act); }
      assert Swap(HandlerActs(s, m.act)) == CallerActs(w, m.act);
    }
  }

  lemma OtherWay(s: System, act: Action)
    requires Inv(View(s)) && Enabled(s.h, s.fwd, act)
    ensures Inv(View(HandlerActs(s, act)))
  {
    hide Inv;
    HandlerView(s, act);
    if HandlerMove(s.fwd, act) { HandlerKeeps(View(s), act); }
  }

  lemma {:induction false} AlwaysWell(moves: seq<Move>)
    ensures Well(After(moves))
  {
    if moves == [] {
      assert View(START) == START && Swap(START) == START;
    } else {
      hide Well, Do;
      AlwaysWell(moves[..|moves| - 1]);
      MoveKeeps(After(moves[..|moves| - 1]), moves[|moves| - 1]);
    }
  }

  // -------------------------------------------------------- what that comes to

  lemma {:induction false} RequestQueue(q: seq<Frame>, id: RpcId)
    ensures Reqs(Requests(q), id) == Reqs(q, id)
  {
    if q != [] {
      RequestQueue(q[1..], id);
      assert if IsRequest(q[0]) then Requests(q)[1..] == Requests(q[1..]) else Requests(q) == Requests(q[1..]);
    }
  }

  lemma {:induction false} ReplyQueue(q: seq<Frame>, id: RpcId)
    ensures Terms(Replies(q), id) == Terms(q, id)
  {
    if q != [] {
      ReplyQueue(q[1..], id);
      assert if IsRequest(q[0]) then Replies(q) == Replies(q[1..]) else Replies(q)[1..] == Replies(q[1..]);
    }
  }

  lemma {:induction false} PartMembers(log: seq<Event>, caller: bool)
    ensures forall e :: e in Part(log, caller) <==> e in log && ByCaller(e) == caller
  {
    if log != [] {
      PartMembers(log[..|log| - 1], caller);
      assert log == log[..|log| - 1] + [log[|log| - 1]];
    }
  }

  lemma {:induction false} CallerLog(log: seq<Event>, id: RpcId)
    ensures LifeOf(Part(log, true), id) == LifeOf(log, id) && Heard(Part(log, true), id) == Heard(log, id)
  {
    if log != [] {
      var front, last := log[..|log| - 1], log[|log| - 1];
      CallerLog(front, id);
      LogAppend(Part(front, true), last, id);
      Assoc(Part(front, true), [], []);
    }
  }

  lemma {:induction false} HandlerLog(log: seq<Event>, id: RpcId)
    ensures PhaseOf(Part(log, false), id) == PhaseOf(log, id) && Spoken(Part(log, false), id) == Spoken(log, id)
  {
    if log != [] {
      var front, last := log[..|log| - 1], log[|log| - 1];
      HandlerLog(front, id);
      LogAppend(Part(front, false), last, id);
      Assoc(Part(front, false), [], []);
    }
  }

  /** h is running the request of this id and may still answer it. */
  ghost predicate BeingHandled(p: Peer, id: RpcId) {
    exists r :: ActiveRun(p, r, id) && r !in p.aborted
  }

  /** While nobody is disposed, the request of a pending id is in exactly one of
      three places: still queued, with a handler, or answered and the answer queued. */
  lemma OnePlace(moves: seq<Move>, id: RpcId)
    requires var s := After(moves); Pending(s.c, id) && !s.c.disposed && !s.h.disposed
    ensures var s := After(moves);
            Reqs(s.fwd, id) + (if BeingHandled(s.h, id) then 1 else 0) + Terms(s.bwd, id) == 1
  {
    AlwaysWell(moves);
    var s := After(moves);
    var v := View(s);
    hide After;
    RequestQueue(s.fwd, id);
    ReplyQueue(s.bwd, id);
    assert PlacesOf(v, id);
    if PhaseOf(v.lh, id).Running? {
      var r :| ActiveRun(v.h, r, id);
      assert ActiveRun(s.h, r, id) && r !in s.h.aborted;
    } else {
      assert forall r :: ActiveRun(s.h, r, id) ==> PhaseOf(v.lh, v.h.runs[r].id).Running?;
    }
  }

  /** Once the channels are drained and the handlers have finished, nobody waits. */
  lemma DrainedMeansSettled(moves: seq<Move>)
    requires var s := After(moves);
             && s.fwd == [] && s.bwd == [] && !s.c.disposed && !s.h.disposed
             && forall r :: r in s.h.runs ==> !s.h.runs[r].active
    ensures After(moves).c.calls == [] && After(moves).c.streams == []
  {
    var s := After(moves);
    hide After;
    if s.c.calls != [] {
      OnePlace(moves, s.c.calls[0]);
    }
    if s.c.streams != [] {
      OnePlace(moves, s.c.streams[0]);
    }
  }

  /** After a settlement the caller of that id sees nothing more of it. */
  ghost predicate SettledLast(log: seq<Event>) {
    forall i, j :: 0 <= i < j < |log| && log[i].Settled? && log[j].id == log[i].id ==>
                     !log[j].Settled? && !log[j].Delivered?
  }

  lemma {:induction false} LifeIsQuiet(log: seq<Event>, i: nat, j: nat)
    requires i < j < |log| && log[i].Settled? && log[j].id == log[i].id
    requires !LifeOf(log, log[i].id).Broken?
    ensures !log[j].Settled? && !log[j].Delivered?
    ensures LifeOf(log, log[i].id).Over?
  {
    var id, front := log[i].id, log[..|log| - 1];
    if j == |log| - 1 {
      LifeStaysOver(front, i);
    } else {
      LifeIsQuiet(front, i, j);
    }
  }

  lemma {:induction false} LifeStaysOver(log: seq<Event>, i: nat)
    requires i < |log| && log[i].Settled? && !LifeOf(log, log[i].id).Broken?
    ensures LifeOf(log, log[i].id).Over?
  {
    if i < |log| - 1 { LifeStaysOver(log[..|log| - 1], i); }
  }

  lemma {:induction false} OverIsSettled(log: seq<Event>, id: RpcId)
    ensures LifeOf(log, id).Over? ==> exists o :: Settled(id, o) in log
    ensures LifeOf(log, id).Live? || LifeOf(log, id).Unborn? ==> forall o :: Settled(id, o) !in log
  {
    if log != [] {
      var front, last := log[..|log| - 1], log[|log| - 1];
      OverIsSettled(front, id);
      assert forall e :: e in log <==> e in front || e == last;
      if LifeOf(front, id).Over? {
        var o :| Settled(id, o) in front;
        assert Settled(id, o) in log;
      } else if last.Settled? {
        assert Settled(last.id, last.outcome) in log;
      }
    }
  }

  /** In every run each promise settles at most once and nothing reaches its caller
      after that. */
  lemma SettlesOnce(moves: seq<Move>)
    ensures SettledLast(After(moves).lc)
  {
    AlwaysWell(moves);
    var s := After(moves);
    assert Lives(View(s));
    hide After, View;
    forall i, j | 0 <= i < j < |s.lc| && s.lc[i].Settled? && s.lc[j].id == s.lc[i].id
      ensures !s.lc[j].Settled? && !s.lc[j].Delivered?
    {
      LifeKnown(s, s.lc[i].id);
      LifeIsQuiet(s.lc, i, j);
    }
  }

  lemma LifeKnown(s: System, id: RpcId)
    requires Lives(View(s))
    ensures LifeOf(s.lc, id) == if id in s.c.calls then Live(false)
                                else if id in s.c.streams then Live(true)
                                else if 1 <= id < s.c.nextId then Over else Unborn
  {
    CallerLog(s.lc, id);
    hide LifeOf, Heard, Part;
  }

  /** Every id ever handed out is pending or settled, never both and never neither. */
  lemma PendingOrSettled(moves: seq<Move>, id: RpcId)
    requires 1 <= id < After(moves).c.nextId
    ensures Pending(After(moves).c, id) <==> forall o :: Settled(id, o) !in After(moves).lc
  {
    AlwaysWell(moves);
    var s := After(moves);
    assert Lives(View(s));
    hide After, View, Well;
    LifeKnown(s, id);
    OverIsSettled(s.lc, id);
  }

  lemma {:induction false} ReturnedWasStarted(log: seq<Event>, id: RpcId)
    requires !PhaseOf(log, id).Bad?
    ensures PhaseOf(log, id).Running? || (exists r :: Returned(id, r) in log) ==>
              exists name, stream, req :: Started(id, name, stream, req) in log
    ensures PhaseOf(log, id).Finished? || PhaseOf(log, id).Running? <== exists r :: Returned(id, r) in log
  {
    if log != [] {
      var front, last := log[..|log| - 1], log[|log| - 1];
      assert forall e :: e in log <==> e in front || e == last;
      ReturnedWasStarted(front, id);
      if last.Started? && last.id == id { assert Started(id, last.name, last.stream, last.req) in log; }
      if PhaseOf(front, id).Running? || exists r :: Returned(id, r) in front {
        var name, stream, req :| Started(id, name, stream, req) in front;
        assert Started(id, name, stream, req) in log;
      }
    }
  }

  /** A call resolves with the value its own handler returned for its own request. */
  lemma ResultsAreAnswers(moves: seq<Move>, id: RpcId, value: Payload)
    requires Settled(id, Resolved(value)) in After(moves).lc
    ensures var s := After(moves);
            Returned(id, Value(value)) in s.lh
            && exists name, stream, req ::
                 Called(id, name, stream, req) in s.lc && Started(id, name, stream, req) in s.lh
  {
    AlwaysWell(moves);
    var s := After(moves);
    hide After, Lives, Kinds, Runs, Streams;
    assert Causes(View(s)) && PlacesOf(View(s), id);
    ResultHasCause(s, id, value);
  }

  lemma ResultHasCause(s: System, id: RpcId, value: Payload)
    requires Causes(View(s)) && !PhaseOf(View(s).lh, id).Bad? && Settled(id, Resolved(value)) in s.lc
    ensures Returned(id, Value(value)) in s.lh
    ensures exists name, stream, req ::
              Called(id, name, stream, req) in s.lc && Started(id, name, stream, req) in s.lh
  {
    hide Part, PhaseOf, Causes;
    var v := View(s);
    PartMembers(s.lc, true);
    PartMembers(s.lh, false);
    HandlerLog(s.lh, id);
    assert Settled(id, Resolved(value)) in v.lc;
    AnswerHasCause(v, id, value);
    ReturnedWasStarted(s.lh, id);
    var name, stream, req :| Started(id, name, stream, req) in s.lh;
    StartHasCause(v, Started(id, name, stream, req));
  }

  lemma AnswerHasCause(v: System, id: RpcId, value: Payload)
    requires Causes(v) && Settled(id, Resolved(value)) in v.lc
    ensures Returned(id, Value(value)) in v.lh
  {
  }

  lemma StartHasCause(v: System, e: Event)
    requires Causes(v) && e in v.lh && e.Started?
    ensures Called(e.id, e.name, e.stream, e.req) in v.lc
  {
  }

  /** The messages a stream's caller has been given are a prefix, in order, of those
      its handler sent before returning, and all of them once the handler's end or
      error has settled the stream. */
  lemma StreamsInOrder(moves: seq<Move>, id: RpcId)
    ensures var s := After(moves);
            && Heard(s.lc, id) <= Spoken(s.lh, id)
            && (forall o :: Settled(id, o) in s.lc && FromPeer(o) ==> Heard(s.lc, id) == Spoken(s.lh, id))
            && (Settled(id, Ended) in s.lc ==> Returned(id, Done) in s.lh)
            && (forall e :: Settled(id, Rejected(Remote(e))) in s.lc ==>
                              Returned(id, Error(e)) in s.lh || Refused(id, e) in s.lh)
  {
    AlwaysWell(moves);
    var s := After(moves);
    hide After, Lives, Places, Kinds, Runs;
    var v := View(s);
    assert StreamOf(v, id) && Causes(v);
    EndsAreAnswers(s, id);
    PartMembers(s.lc, true);
    CallerLog(s.lc, id);
    HandlerLog(s.lh, id);
    hide Well, Part, Heard, Spoken, PhaseOf, Causes;
    forall o | Settled(id, o) in s.lc && FromPeer(o) ensures Heard(s.lc, id) == Spoken(s.lh, id) {
      assert Settled(id, o) in v.lc;
    }
  }

  lemma EndsAreAnswers(s: System, id: RpcId)
    requires Causes(View(s))
    ensures Settled(id, Ended) in s.lc ==> Returned(id, Done) in s.lh
    ensures forall e :: Settled(id, Rejected(Remote(e))) in s.lc ==>
                          Returned(id, Error(e)) in s.lh || Refused(id, e) in s.lh
  {
    hide Part;
    var v := View(s);
    PartMembers(s.lc, true);
    PartMembers(s.lh, false);
    if Settled(id, Ended) in s.lc { assert Settled(id, Ended) in v.lc; }
    forall e | Settled(id, Rejected(Remote(e))) in s.lc
      ensures Returned(id, Error(e)) in s.lh || Refused(id, e) in s.lh
    {
      assert Settled(id, Rejected(Remote(e))) in v.lc;
      assert Returned(id, Error(e)) in v.lh || Refused(id, e) in v.lh;
    }
  }

  // ------------------------------------------------------------------- disposal

  // One step of a disposed peer; RpcDisposal follows them over whole runs.

  /** A disposed peer posts nothing in a step and stays disposed. */
  lemma DisposedIsSilent(p: Peer, incoming: seq<Frame>, act: Action)
    requires p.disposed && Enabled(p, incoming, act)
    ensures Apply(p, incoming, act).posts == [] && Apply(p, incoming, act).peer.disposed
  {
  }

  /** Disposal rejects just what was pending, one rejection for each entry of the
      pending lists, and posts nothing. */
  lemma DisposeRejects(p: Peer)
    requires !p.disposed
    ensures var step := Dispose(p);
            && step.posts == [] && step.peer.disposed && (forall id :: !Pending(step.peer, id))
            && (forall e :: e in step.events ==> e.Settled? && e.outcome == Rejected(Disposed) && Pending(p, e.id))
            && (forall id :: Pending(p, id) ==> Settled(id, Rejected(Disposed)) in step.events)
            && |step.events| == |p.calls| + |p.streams|
  {
    var events := RejectAll(p.calls) + RejectAll(p.streams);
    forall id | Pending(p, id) ensures Settled(id, Rejected(Disposed)) in events {
      if id in p.calls {
        var i :| 0 <= i < |p.calls| && p.calls[i] == id;
        assert events[i] == Settled(id, Rejected(Disposed));
      } else {
        var i :| 0 <= i < |p.streams| && p.streams[i] == id;
        assert events[|p.calls| + i] == Settled(id, Rejected(Disposed));
      }
    }
  }

  /** A call made on a disposed peer is accepted, pending and not posted. */
  lemma CallOnDisposed(p: Peer, name: string, stream: bool, req: Payload, postFails: bool)
    requires p.disposed
    ensures var step := Call(p, name, stream, req, postFails);
            Pending(step.peer, p.nextId) && step.peer.disposed && step.posts == []
            && forall o :: Settled(p.nextId, o) !in step.events
  {
  }
}
