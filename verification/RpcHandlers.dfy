/** Which requests are served, what the histories record, and when a handler is told
    to stop: in terms of the moves of a run. */
module RpcHandlers {
  import opened Rpc
  import opened RpcDirection
  import opened RpcProtocol
  import opened RpcDisposal

  // --------------------------------------------------------------- registration

  /** h has registered a handler of this name and kind. */
  ghost predicate Registered(moves: seq<Move>, name: string, stream: bool) {
    exists k :: 0 <= k < |moves| && moves[k] == Move(false, DoHandle(name, stream))
  }

  predicate Serves(p: Peer, name: string, stream: bool) {
    name in if stream then p.streamHandlers else p.callHandlers
  }

  lemma RegisteredMore(moves: seq<Move>, name: string, stream: bool)
    requires moves != []
    ensures Registered(moves, name, stream)
            <==> Registered(moves[..|moves| - 1], name, stream)
                 || moves[|moves| - 1] == Move(false, DoHandle(name, stream))
  {
    var front := moves[..|moves| - 1];
    if Registered(front, name, stream) {
      var k :| 0 <= k < |front| && front[k] == Move(false, DoHandle(name, stream));
      assert moves[k] == front[k];
    }
    if k :| 0 <= k < |moves| && moves[k] == Move(false, DoHandle(name, stream)) {
      assert k < |front| ==> front[k] == moves[k];
    }
  }

  lemma ServesStep(s: System, m: Move, name: string, stream: bool)
    requires !Do(s, m).h.disposed
    ensures !s.h.disposed
    ensures Serves(Do(s, m).h, name, stream)
            <==> Serves(s.h, name, stream) || m == Move(false, DoHandle(name, stream))
  {
    if !m.left && Enabled(s.h, s.fwd, m.act) { PeerServes(s.h, s.fwd, m.act, name, stream); }
    hide Apply, Serves;
  }

  lemma PeerServes(p: Peer, incoming: seq<Frame>, act: Action, name: string, stream: bool)
    requires Enabled(p, incoming, act)
    ensures var q := Apply(p, incoming, act).peer;
            !q.disposed ==>
              !p.disposed && (Serves(q, name, stream) <==> Serves(p, name, stream) || act == DoHandle(name, stream))
  {
    hide NoHandler, RejectAll, Without;
  }

  /** A peer that is not disposed serves exactly what it has registered. */
  lemma {:induction false} ServesRegistered(moves: seq<Move>, name: string, stream: bool)
    requires !After(moves).h.disposed
    ensures Serves(After(moves).h, name, stream) <==> Registered(moves, name, stream)
  {
    hide Do, Serves;
    if moves == [] {
      NothingServed(name, stream);
    } else {
      var front, last := moves[..|moves| - 1], moves[|moves| - 1];
      ServesStep(After(front), last, name, stream);
      ServesRegistered(front, name, stream);
      RegisteredMore(moves, name, stream);
    }
  }

  lemma NothingServed(name: string, stream: bool)
    ensures !Serves(After([]).h, name, stream)
  {
  }

  /** A request that arrives is started, as it was made, exactly when a handler of its
      name and kind has been registered; otherwise it is refused by an error reply. */
  lemma RequestServed(moves: seq<Move>, id: RpcId, name: string, stream: bool, req: Payload)
    requires var s := After(moves); !s.h.disposed && s.fwd != [] && s.fwd[0] == Req(id, name, stream, req)
    ensures var s, t := After(moves), After(moves + [Move(false, DoDeliver)]);
            if Registered(moves, name, stream) then
              t.lh == s.lh + [Started(id, name, stream, req)] && t.bwd == s.bwd
            else
              var error := (if stream then "No stream handler for \"" else "No handler for \"") + name + "\"";
              t.lh == s.lh + [Refused(id, error)] && t.bwd == s.bwd + [Failure(id, error)]
  {
    ServesRegistered(moves, name, stream);
    OneMove(moves, Move(false, DoDeliver));
    hide After, Registered;
    var s := After(moves);
    assert s.bwd + [] == s.bwd;
    if !Serves(s.h, name, stream) {
      var error := NoHandler(name, stream);
      assert Do(s, Move(false, DoDeliver)).lh == s.lh + [Refused(id, error)];
    }
  }

  lemma OneMove(moves: seq<Move>, m: Move)
    ensures After(moves + [m]) == Do(After(moves), m)
  {
    hide Do;
    assert (moves + [m])[..|moves|] == moves;
  }

  // ------------------------------------------------------------------ histories

  /** The k-th move is what e records. Of settlements these are the ones a caller
      causes itself; all others come from a reply. */
  ghost predicate HappensAt(moves: seq<Move>, k: nat, e: Event) {
    && k < |moves|
    && var s, m := After(moves[..k]), moves[k];
       match e
       case Called(id, name, stream, req) =>
         m.left && m.act.DoCall? && id == s.c.nextId && m.act.name == name && m.act.stream == stream && m.act.req == req
       case Delivered(id, msg) => m == Move(true, DoDeliver) && s.bwd != [] && s.bwd[0] == Msg(id, msg)
       case Settled(id, Resolved(value)) => m == Move(true, DoDeliver) && s.bwd != [] && s.bwd[0] == Res(id, value)
       case Settled(id, Ended) => m == Move(true, DoDeliver) && s.bwd != [] && s.bwd[0] == End(id)
       case Settled(id, Rejected(Remote(error))) =>
         m == Move(true, DoDeliver) && s.bwd != [] && s.bwd[0] == Failure(id, error)
       case Settled(id, Rejected(Aborted)) => m == Move(true, DoAbort(id))
       case Settled(id, Rejected(Disposed)) => m == Move(true, DoDispose)
       case Settled(id, Rejected(PostFailed)) => m.left && m.act.DoCall? && m.act.postFails && id == s.c.nextId
       case Started(id, name, stream, req) =>
         m == Move(false, DoDeliver) && s.fwd != [] && s.fwd[0] == Req(id, name, stream, req)
         && Registered(moves[..k], name, stream)
       case Refused(id, error) =>
         m == Move(false, DoDeliver) && s.fwd != [] && s.fwd[0].Req? && s.fwd[0].id == id
         && !Registered(moves[..k], s.fwd[0].name, s.fwd[0].stream)
       case Sent(id, msg) =>
         !m.left && m.act.DoSend? && m.act.msg == msg && m.act.run in s.h.runs && s.h.runs[m.act.run].id == id
       case Returned(id, reply) =>
         !m.left && m.act.DoReturn? && m.act.reply == reply && m.act.run in s.h.runs && s.h.runs[m.act.run].id == id
  }

  lemma CallerEvent(moves: seq<Move>, e: Event)
    requires moves != [] && moves[|moves| - 1].left && ByCaller(e)
    requires var s, m := After(moves[..|moves| - 1]), moves[|moves| - 1];
             Enabled(s.c, s.bwd, m.act) && e in Apply(s.c, s.bwd, m.act).events
    ensures HappensAt(moves, |moves| - 1, e)
  {
    hide After, NoHandler, Without, Registered;
  }

  lemma HandlerEvent(moves: seq<Move>, e: Event)
    requires moves != [] && !moves[|moves| - 1].left && !ByCaller(e)
    requires var s, m := After(moves[..|moves| - 1]), moves[|moves| - 1];
             Enabled(s.h, s.fwd, m.act) && e in Apply(s.h, s.fwd, m.act).events
    ensures HappensAt(moves, |moves| - 1, e)
  {
    var front := moves[..|moves| - 1];
    var s, m := After(front), moves[|moves| - 1];
    if m.act.DoDeliver? && s.fwd[0].Req? && !s.h.disposed {
      ServesRegistered(front, s.fwd[0].name, s.fwd[0].stream);
    }
    hide After, NoHandler, Without, Registered;
  }

  /** What a move adds to the histories. */
  lemma NewEvents(s: System, m: Move)
    ensures m.left ==> Do(s, m).lh == s.lh && Do(s, m).lc
                       == s.lc + (if Enabled(s.c, s.bwd, m.act) then Apply(s.c, s.bwd, m.act).events else [])
    ensures !m.left ==> Do(s, m).lc == s.lc && Do(s, m).lh
                        == s.lh + (if Enabled(s.h, s.fwd, m.act) then Apply(s.h, s.fwd, m.act).events else [])
  {
    hide Apply;
    assert s.lc + [] == s.lc && s.lh + [] == s.lh;
  }

  lemma HappenedBefore(moves: seq<Move>, k: nat, e: Event)
    requires moves != [] && HappensAt(moves[..|moves| - 1], k, e)
    ensures HappensAt(moves, k, e)
  {
    hide After, Registered;
    var front := moves[..|moves| - 1];
    assert moves[..k] == front[..k] && moves[k] == front[k];
  }

  /** Whatever the histories of a run record is just what some move of it did: calls as
      they were made, requests started only under a registered handler, messages and
      replies as the handlers gave them, settlements as their replies came. */
  lemma {:induction false} HistoryIsTrue(moves: seq<Move>, e: Event) returns (k: nat)
    requires if ByCaller(e) then e in After(moves).lc else e in After(moves).lh
    ensures HappensAt(moves, k, e)
    decreases |moves|
  {
    hide HappensAt, Do, Apply;
    var n := |moves| - 1;
    if moves == [] { Quiet(e); }
    var front, last := moves[..n], moves[n];
    var s := After(front);
    NewEvents(s, last);
    if e in if ByCaller(e) then s.lc else s.lh {
      k := HistoryIsTrue(front, e);
      HappenedBefore(moves, k, e);
    } else {
      k := n;
      if last.left { CallerEvent(moves, e); } else { HandlerEvent(moves, e); }
    }
  }

  lemma Quiet(e: Event)
    ensures e !in After([]).lc && e !in After([]).lh
  {
  }

  /** A call that resolves does so with what h's handler, registered for it, returned
      in reply to c's own request. */
  lemma ResolvedBy(moves: seq<Move>, id: RpcId, value: Payload) returns (call: nat, start: nat, reply: nat)
    requires Settled(id, Resolved(value)) in After(moves).lc
    ensures call < |moves| && moves[call].left && moves[call].act.DoCall? && After(moves[..call]).c.nextId == id
    ensures var act := moves[call].act;
            HappensAt(moves, start, Started(id, act.name, act.stream, act.req))
            && Registered(moves[..start], act.name, act.stream)
    ensures HappensAt(moves, reply, Returned(id, Value(value)))
  {
    hide After;
    ResultsAreAnswers(moves, id, value);
    var s := After(moves);
    var name, stream, req :| Called(id, name, stream, req) in s.lc && Started(id, name, stream, req) in s.lh;
    call := HistoryIsTrue(moves, Called(id, name, stream, req));
    start := HistoryIsTrue(moves, Started(id, name, stream, req));
    reply := HistoryIsTrue(moves, Returned(id, Value(value)));
  }

  // --------------------------------------------------------------------- cancels

  /** Requests are posted under new ids, and a cancel only after its request. */
  ghost predicate InTurn(s: System) {
    && (forall f :: f in s.fwd && IsRequest(f) ==> f.id < s.c.nextId)
    && (forall id: RpcId :: Pending(s.c, id) ==> id < s.c.nextId)
    && (forall i, j :: 0 <= i < j < |s.fwd| && s.fwd[i].Cancel? && s.fwd[j].Req? ==> s.fwd[i].id != s.fwd[j].id)
  }

  lemma {:induction false} AlwaysInTurn(moves: seq<Move>)
    ensures InTurn(After(moves))
  {
    hide Do, InTurn;
    if moves == [] {
      StartInTurn();
    } else {
      AlwaysInTurn(moves[..|moves| - 1]);
      TurnKept(After(moves[..|moves| - 1]), moves[|moves| - 1]);
    }
  }

  lemma StartInTurn()
    ensures InTurn(After([]))
  {
  }

  /** What a step of the caller adds to its channel. */
  lemma PostsInTurn(p: Peer, incoming: seq<Frame>, act: Action)
    requires Enabled(p, incoming, act) && forall id: RpcId :: Pending(p, id) ==> id < p.nextId
    ensures var step := Apply(p, incoming, act);
            && |step.posts| <= 1 && p.nextId <= step.peer.nextId
            && (forall id: RpcId :: Pending(step.peer, id) ==> id < step.peer.nextId)
            && (forall f :: f in step.posts && IsRequest(f) ==> f.id < step.peer.nextId)
            && (forall f :: f in step.posts && f.Req? ==> f.id == p.nextId)
  {
    hide NoHandler, RejectAll, Pending, Without;
    forall id: RpcId | Pending(Apply(p, incoming, act).peer, id) ensures id < Apply(p, incoming, act).peer.nextId {
      PendingStep(p, incoming, act, id);
    }
    assert act.DoAbort? && Pending(p, act.id) ==> act.id < p.nextId;
  }

  lemma PendingStep(p: Peer, incoming: seq<Frame>, act: Action, id: RpcId)
    requires Enabled(p, incoming, act)
    ensures var q := Apply(p, incoming, act).peer;
            Pending(q, id) ==> Pending(p, id) || (id == p.nextId && q.nextId == p.nextId + 1)
    ensures p.nextId <= Apply(p, incoming, act).peer.nextId
  {
    hide NoHandler, RejectAll;
  }

  lemma TurnKept(s: System, m: Move)
    requires InTurn(s)
    ensures InTurn(Do(s, m))
  {
    if m.left {
      if Enabled(s.c, s.bwd, m.act) {
        PostsInTurn(s.c, s.bwd, m.act);
        hide Apply;
        var t, posts := Do(s, m), Apply(s.c, s.bwd, m.act).posts;
        assert t.fwd == s.fwd + posts;
        assert forall f :: f in t.fwd ==> f in s.fwd || f in posts;
        assert forall j :: 0 <= j < |s.fwd| ==> t.fwd[j] == s.fwd[j] && s.fwd[j] in s.fwd;
        assert forall j :: |s.fwd| <= j < |t.fwd| ==> t.fwd[j] in posts;
      }
    } else if Enabled(s.h, s.fwd, m.act) {
      hide Apply;
      var t := Do(s, m);
      assert t.fwd == s.fwd || t.fwd == s.fwd[1..];
    }
  }

  predicate RunsAborted(p: Peer, id: RpcId) {
    forall r :: r in p.runs && ActiveRun(p, r, id) ==> r in p.aborted
  }

  /** The cancel of id is on its way, or the handler has been told; nothing can start
      it afterwards. */
  ghost predicate Told(s: System, id: RpcId) {
    && id < s.c.nextId
    && (|| s.h.disposed || Cancel(id) in s.fwd
        || (RunsAborted(s.h, id) && forall f :: f in s.fwd && f.Req? ==> f.id != id))
  }

  lemma ToldByCaller(s: System, act: Action, id: RpcId)
    requires InTurn(s) && Told(s, id) && Enabled(s.c, s.bwd, act)
    ensures Told(CallerActs(s, act), id)
  {
    PostsInTurn(s.c, s.bwd, act);
    hide Apply, RunsAborted;
    var posts := Apply(s.c, s.bwd, act).posts;
    assert forall f :: f in s.fwd + posts <==> f in s.fwd || f in posts;
  }

  /** The controller that a cancel finds is that of the active run. */
  lemma CancelAborts(p: Peer, id: RpcId)
    requires forall r :: r in p.runs && p.runs[r].active ==>
               r in p.aborted || (p.runs[r].id in p.inbound && p.inbound[p.runs[r].id] == r)
    ensures RunsAborted(OnCancel(p, id).peer, id)
  {
  }

  lemma ToldByDelivery(s: System, id: RpcId)
    requires InTurn(s) && Told(s, id) && !s.h.disposed && s.fwd != []
    requires forall r :: r in s.h.runs && s.h.runs[r].active ==>
               r in s.h.aborted || (s.h.runs[r].id in s.h.inbound && s.h.inbound[s.h.runs[r].id] == r)
    requires forall r :: r in s.h.runs ==> r < s.h.nextRun
    ensures Told(HandlerActs(s, DoDeliver), id)
  {
    hide NoHandler;
    var f, t := s.fwd[0], HandlerActs(s, DoDeliver);
    assert t.fwd == s.fwd[1..] && s.fwd == [f] + t.fwd;
    if f == Cancel(id) {
      CancelAborts(s.h, id);
      assert forall j :: 0 <= j < |t.fwd| ==> t.fwd[j] == s.fwd[j + 1];
    } else if Cancel(id) in s.fwd {
      assert Cancel(id) in t.fwd;
    } else {
      assert f.Req? ==> f.id != id;
    }
  }

  /** Any other step of the handling peer starts no run and forgets no abort. */
  lemma OtherStep(p: Peer, incoming: seq<Frame>, act: Action, id: RpcId)
    requires Enabled(p, incoming, act) && !act.DoDeliver? && RunsAborted(p, id)
    ensures RunsAborted(Apply(p, incoming, act).peer, id)
  {
  }

  lemma DisposedForGood(p: Peer, incoming: seq<Frame>, act: Action)
    requires Enabled(p, incoming, act) && p.disposed
    ensures Apply(p, incoming, act).peer.disposed
  {
    hide NoHandler, RejectAll;
  }

  lemma ToldStays(s: System, m: Move, id: RpcId)
    requires InTurn(s) && Well(s) && Told(s, id)
    ensures Told(Do(s, m), id)
  {
    if m.left {
      hide Well;
      if Enabled(s.c, s.bwd, m.act) { ToldByCaller(s, m.act, id); }
    } else if Enabled(s.h, s.fwd, m.act) {
      if s.h.disposed {
        hide Well;
        DisposedForGood(s.h, s.fwd, m.act);
      } else if m.act.DoDeliver? {
        RunsFollowed(s);
        hide Well;
        ToldByDelivery(s, id);
      } else {
        hide Well;
        if RunsAborted(s.h, id) { OtherStep(s.h, s.fwd, m.act, id); }
        hide Apply, RunsAborted;
      }
    }
  }

  lemma RunsFollowed(s: System)
    requires Well(s) && !s.h.disposed
    ensures forall r :: r in s.h.runs && s.h.runs[r].active ==>
              r in s.h.aborted || (s.h.runs[r].id in s.h.inbound && s.h.inbound[s.h.runs[r].id] == r)
    ensures forall r :: r in s.h.runs ==> r < s.h.nextRun
  {
    hide Lives, Places, Kinds, Streams, Causes, PhaseOf;
    assert Runs(View(s));
  }

  lemma {:induction false} ToldLater(moves: seq<Move>, more: seq<Move>, id: RpcId)
    requires Told(After(moves), id)
    ensures Told(After(moves + more), id)
    decreases |more|
  {
    hide After, Do, Told, Well, InTurn;
    if more == [] {
      NoMoveMore(moves);
    } else {
      var front := more[..|more| - 1];
      ToldLater(moves, front, id);
      OneMoveMore(moves, more);
      AlwaysWell(moves + front);
      AlwaysInTurn(moves + front);
      ToldStays(After(moves + front), more[|more| - 1], id);
    }
  }

  /** When a caller's signal has fired and its channel is drained, the handler of its
      request has been told: whatever it still does posts nothing. */
  lemma AbortReaches(moves: seq<Move>, more: seq<Move>, id: RpcId)
    requires Pending(After(moves).c, id) && !After(moves).c.disposed
    requires var t := After(moves + [Move(true, DoAbort(id))] + more); t.fwd == [] && !t.h.disposed
    ensures var t := After(moves + [Move(true, DoAbort(id))] + more);
            forall act: Action ::
              (act.DoSend? || act.DoReturn?) && Enabled(t.h, t.fwd, act) && ActiveRun(t.h, act.run, id) ==>
                Apply(t.h, t.fwd, act).posts == []
  {
    OneMove(moves, Move(true, DoAbort(id)));
    AlwaysInTurn(moves);
    hide After;
    var s := After(moves);
    assert Cancel(id) in Do(s, Move(true, DoAbort(id))).fwd;
    ToldLater(moves + [Move(true, DoAbort(id))], more, id);
  }

  // ------------------------------------------------------------------- disposal

  predicate AllAborted(p: Peer) {
    forall r :: r in p.runs && p.runs[r].active ==> r in p.aborted
  }

  lemma DisposeAborts(p: Peer)
    requires !p.disposed
    requires forall r :: r in p.runs && p.runs[r].active ==>
               r in p.aborted || (p.runs[r].id in p.inbound && p.inbound[p.runs[r].id] == r)
    ensures AllAborted(Dispose(p).peer)
  {
    hide RejectAll;
  }

  lemma StaysAborted(p: Peer, incoming: seq<Frame>, act: Action)
    requires Enabled(p, incoming, act) && p.disposed && AllAborted(p)
    ensures AllAborted(Apply(p, incoming, act).peer)
  {
    hide NoHandler, RejectAll;
  }

  lemma DisposalStep(p: Peer, incoming: seq<Frame>, act: Action)
    requires Enabled(p, incoming, act) && !p.disposed && Apply(p, incoming, act).peer.disposed
    ensures act.DoDispose?
  {
    hide NoHandler, RejectAll;
  }

  /** In every run, once a peer is disposed all its handlers have been told to stop. */
  lemma {:induction false} DisposalReaches(moves: seq<Move>)
    requires After(moves).h.disposed
    ensures AllAborted(After(moves).h)
  {
    hide AllAborted, Apply, Dispose;
    if moves != [] {
      var front, last := moves[..|moves| - 1], moves[|moves| - 1];
      var s := After(front);
      if s.h.disposed { DisposalReaches(front); }
      AlwaysWell(front);
      hide Well, After;
      if !last.left && Enabled(s.h, s.fwd, last.act) {
        if s.h.disposed {
          StaysAborted(s.h, s.fwd, last.act);
        } else {
          RunsFollowed(s);
          DisposalStep(s.h, s.fwd, last.act);
          DisposeAborts(s.h);
          DisposeIs(s.h, s.fwd);
        }
      }
    }
  }

  lemma DisposeIs(p: Peer, incoming: seq<Frame>)
    ensures Apply(p, incoming, DoDispose) == Dispose(p)
  {
  }

  /** Disposal forgets what was registered: only later registrations are there. */
  lemma {:induction false} DisposedServes(moves: seq<Move>, more: seq<Move>, name: string, stream: bool)
    requires !After(moves).h.disposed
    ensures Serves(After(moves + [Move(false, DoDispose)] + more).h, name, stream) <==> Registered(more, name, stream)
    decreases |more|
  {
    hide Do, Serves, Registered, After;
    var start := moves + [Move(false, DoDispose)];
    if more == [] {
      NoMoveMore(start);
      OneMove(moves, Move(false, DoDispose));
      NothingRegistered(name, stream);
      DisposedServesNothing(After(moves), name, stream);
    } else {
      var front := more[..|more| - 1];
      DisposedServes(moves, front, name, stream);
      OneMoveMore(start, more);
      DisposedFrom(moves, front);
      RegisteredMore(more, name, stream);
      LaterServes(After(start + front), more[|more| - 1], name, stream);
    }
  }

  lemma NothingRegistered(name: string, stream: bool)
    ensures !Registered([], name, stream)
  {
  }

  lemma DisposedServesNothing(s: System, name: string, stream: bool)
    requires !s.h.disposed
    ensures !Serves(Do(s, Move(false, DoDispose)).h, name, stream)
  {
    hide RejectAll;
  }

  lemma {:induction false} DisposedFrom(moves: seq<Move>, more: seq<Move>)
    ensures After(moves + [Move(false, DoDispose)] + more).h.disposed
    decreases |more|
  {
    hide After, Apply;
    var start := moves + [Move(false, DoDispose)];
    if more == [] {
      NoMoveMore(start);
      OneMove(moves, Move(false, DoDispose));
      DisposeDisposes(After(moves));
    } else {
      DisposedFrom(moves, more[..|more| - 1]);
      OneMoveMore(start, more);
      var s, m := After(start + more[..|more| - 1]), more[|more| - 1];
      if !m.left && Enabled(s.h, s.fwd, m.act) { DisposedForGood(s.h, s.fwd, m.act); }
    }
  }

  lemma DisposeDisposes(s: System)
    ensures Do(s, Move(false, DoDispose)).h.disposed
  {
    hide RejectAll;
  }

  lemma LaterServes(s: System, m: Move, name: string, stream: bool)
    requires s.h.disposed
    ensures Serves(Do(s, m).h, name, stream) <==> Serves(s.h, name, stream) || m == Move(false, DoHandle(name, stream))
  {
    if !m.left && Enabled(s.h, s.fwd, m.act) { DisposedPeerServes(s.h, s.fwd, m.act, name, stream); }
    hide Apply, Serves;
  }

  lemma DisposedPeerServes(p: Peer, incoming: seq<Frame>, act: Action, name: string, stream: bool)
    requires Enabled(p, incoming, act) && p.disposed
    ensures Serves(Apply(p, incoming, act).peer, name, stream)
            <==> Serves(p, name, stream) || act == DoHandle(name, stream)
  {
    hide NoHandler, RejectAll, Without;
  }
}
