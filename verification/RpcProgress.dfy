/** A pending promise can always still be settled, without its caller giving up. */
module RpcProgress {
  import opened Rpc
  import opened RpcDirection
  import opened RpcProtocol
  import opened RpcDisposal
  import opened RpcHandlers

  lemma DeliveryStaysOpen(p: Peer, f: Frame)
    requires !p.disposed
    ensures !Dispatch(p, f).peer.disposed
  {
    hide NoHandler;
  }

  /** h takes all that is queued for it; c stays as it is. */
  lemma {:induction false} DrainForward(moves: seq<Move>) returns (more: seq<Move>)
    requires !After(moves).h.disposed
    ensures var s, t := After(moves), After(moves + more);
            t.fwd == [] && t.c == s.c && !t.h.disposed
    ensures forall k :: 0 <= k < |more| ==> more[k] == Move(false, DoDeliver)
    decreases |After(moves).fwd|
  {
    var s := After(moves);
    if s.fwd == [] {
      more := [];
      NoMoveMore(moves);
    } else {
      var first := Move(false, DoDeliver);
      OneMove(moves, first);
      DeliveryStaysOpen(s.h, s.fwd[0]);
      hide After, Dispatch;
      var rest := DrainForward(moves + [first]);
      more := [first] + rest;
      assert moves + more == moves + [first] + rest;
    }
  }

  /** A reply or request delivered to c makes it post no request. */
  lemma RepliesOnly(p: Peer, f: Frame, q: seq<Frame>, id: RpcId)
    ensures Reqs(q + Dispatch(p, f).posts, id) == Reqs(q, id)
  {
    hide NoHandler, Reqs;
    var posts := Dispatch(p, f).posts;
    assert |posts| <= 1;
    if posts == [] {
      assert q + posts == q;
    } else {
      assert posts == [posts[0]] && !posts[0].Req?;
      QueueAppend(q, posts[0], id);
    }
  }

  /** c takes all that is queued for it; h stays as it is, and no request is posted. */
  lemma {:induction false} DrainBack(moves: seq<Move>, id: RpcId) returns (more: seq<Move>)
    requires !After(moves).c.disposed
    ensures var s, t := After(moves), After(moves + more);
            t.bwd == [] && t.h == s.h && !t.c.disposed && Reqs(t.fwd, id) == Reqs(s.fwd, id)
    ensures forall k :: 0 <= k < |more| ==> more[k] == Move(true, DoDeliver)
    decreases |After(moves).bwd|
  {
    var s := After(moves);
    if s.bwd == [] {
      more := [];
      NoMoveMore(moves);
    } else {
      var first := Move(true, DoDeliver);
      OneMove(moves, first);
      DeliveryStaysOpen(s.c, s.bwd[0]);
      RepliesOnly(s.c, s.bwd[0], s.fwd, id);
      hide After, Dispatch, Reqs;
      var rest := DrainBack(moves + [first], id);
      more := [first] + rest;
      assert moves + more == moves + [first] + rest;
    }
  }

  predicate IsDelivery(m: Move) { m.act.DoDeliver? || (!m.left && m.act.DoReturn?) }

  /** The handler of id may fail at any time; then its answer is queued. */
  lemma HandlerMayFail(moves: seq<Move>, id: RpcId, error: Payload) returns (m: Move)
    requires BeingHandled(After(moves).h, id) && !After(moves).h.disposed
    ensures IsDelivery(m)
    ensures var s, t := After(moves), After(moves + [m]);
            t.c == s.c && t.fwd == s.fwd && !t.h.disposed && Terms(t.bwd, id) == Terms(s.bwd, id) + 1
  {
    var s := After(moves);
    var r :| ActiveRun(s.h, r, id) && r !in s.h.aborted;
    m := Move(false, DoReturn(r, Error(error)));
    OneMove(moves, m);
    hide After, Terms;
    QueueAppend(s.bwd, Failure(id, error), id);
  }

  /** Wherever a run stands, while neither peer is disposed: deliveries and at most one
      return settle any pending promise. Nothing is ever stuck for good. */
  lemma AlwaysAnswerable(moves: seq<Move>, id: RpcId) returns (more: seq<Move>)
    requires var s := After(moves); Pending(s.c, id) && !s.c.disposed && !s.h.disposed
    ensures !Pending(After(moves + more).c, id)
    ensures forall k :: 0 <= k < |more| ==> IsDelivery(more[k])
  {
    hide After, BeingHandled, Reqs, Terms;
    var more1 := DrainForward(moves);
    var at1 := moves + more1;
    OnePlace(at1, id);
    EmptyQueue(id);
    var more2: seq<Move> := [];
    NoMoveMore(at1);
    if BeingHandled(After(at1).h, id) {
      var m := HandlerMayFail(at1, id, "");
      more2 := [m];
    }
    var at2 := at1 + more2;
    OnePlace(at2, id);
    var more3 := DrainBack(at2, id);
    var at3 := at2 + more3;
    more := more1 + more2 + more3;
    assert moves + more == at3;
    if Pending(After(at3).c, id) { OnePlace(at3, id); }
  }

  lemma EmptyQueue(id: RpcId)
    ensures Reqs([], id) == 0 && Terms([], id) == 0
  {
  }

  /** h registers a handler, c calls it and h takes the request. */
  function Opening(name: string, stream: bool, req: Payload): seq<Move> {
    [Move(false, DoHandle(name, stream)), Move(true, DoCall(name, stream, req, false)), Move(false, DoDeliver)]
  }

  /** One run is under way at h for call or stream 1 of c. */
  predicate UnderWay(s: System, stream: bool) {
    && s.h.runs == map[0 := Run(1, stream, true)] && s.h.aborted == {} && !s.h.disposed && !s.c.disposed
    && (1 in if stream then s.c.streams else s.c.calls)
  }

  lemma Registers(name: string, stream: bool)
    ensures var s := Do(START, Move(false, DoHandle(name, stream)));
            && s == START.(h := s.h) && Serves(s.h, name, stream) && !s.h.disposed
            && s.h.runs == map[] && s.h.aborted == {} && s.h.nextRun == 0
  {
  }

  lemma Calls(s: System, name: string, stream: bool, req: Payload)
    requires s == START.(h := s.h)
    ensures var t := Do(s, Move(true, DoCall(name, stream, req, false)));
            && t.h == s.h && t.fwd == [Req(1, name, stream, req)] && t.bwd == []
            && t.lc == [Called(1, name, stream, req)]
            && !t.c.disposed && 1 in if stream then t.c.streams else t.c.calls
  {
  }

  lemma Takes(s: System, name: string, stream: bool, req: Payload)
    requires s.fwd == [Req(1, name, stream, req)] && s.bwd == [] && Serves(s.h, name, stream) && !s.h.disposed
    requires s.h.runs == map[] && s.h.aborted == {} && s.h.nextRun == 0
    ensures var t := Do(s, Move(false, DoDeliver));
            && t.c == s.c && t.lc == s.lc && t.fwd == [] && t.bwd == [] && !t.h.disposed
            && t.h.runs == map[0 := Run(1, stream, true)] && t.h.aborted == {}
  {
    hide NoHandler;
  }

  lemma Opened(name: string, stream: bool, req: Payload)
    ensures var s := After(Opening(name, stream, req));
            UnderWay(s, stream) && s.fwd == [] && s.bwd == [] && s.lc == [Called(1, name, stream, req)]
  {
    var handle, call := Move(false, DoHandle(name, stream)), Move(true, DoCall(name, stream, req, false));
    assert After([]) == START;
    hide After, Do, Serves;
    OneMove([], handle);
    OneMove([handle], call);
    OneMove([handle, call], Move(false, DoDeliver));
    assert [] + [handle] == [handle] && [handle] + [call] == [handle, call];
    assert [handle, call] + [Move(false, DoDeliver)] == Opening(name, stream, req);
    Registers(name, stream);
    Calls(After([handle]), name, stream, req);
    Takes(After([handle, call]), name, stream, req);
  }

  lemma Sends(s: System, msg: Payload)
    requires UnderWay(s, true)
    ensures var t := Do(s, Move(false, DoSend(0, msg)));
            UnderWay(t, true) && t.c == s.c && t.lc == s.lc && t.bwd == s.bwd + [Msg(1, msg)]
  {
  }

  lemma Returns(s: System, stream: bool, reply: Reply)
    requires UnderWay(s, stream) && if stream then !reply.Value? else !reply.Done?
    ensures var t := Do(s, Move(false, DoReturn(0, reply)));
            t.c == s.c && t.lc == s.lc && t.bwd == s.bwd + [Terminal(1, reply)]
  {
  }

  lemma Hears(s: System, msg: Payload)
    requires s.bwd != [] && s.bwd[0] == Msg(1, msg) && 1 in s.c.streams && !s.c.disposed
    ensures var t := Do(s, Move(true, DoDeliver));
            t.c == s.c && t.bwd == s.bwd[1..] && t.lc == s.lc + [Delivered(1, msg)]
  {
  }

  lemma Settles(s: System, stream: bool, value: Payload)
    requires s.bwd == [if stream then End(1) else Res(1, value)] && !s.c.disposed
    requires 1 in if stream then s.c.streams else s.c.calls
    ensures Do(s, Move(true, DoDeliver)).lc == s.lc + [Settled(1, if stream then Ended else Resolved(value))]
  {
  }

  /** A call resolves with the value its handler returns. */
  lemma CallResolves(name: string, req: Payload, value: Payload)
    ensures var end := [Move(false, DoReturn(0, Value(value))), Move(true, DoDeliver)];
            After(Opening(name, false, req) + end).lc == [Called(1, name, false, req), Settled(1, Resolved(value))]
  {
    var moves, back := Opening(name, false, req), Move(false, DoReturn(0, Value(value)));
    var deliver := Move(true, DoDeliver);
    Opened(name, false, req);
    hide After, Opening, Do;
    OneMove(moves, back);
    Returns(After(moves), false, Value(value));
    OneMove(moves + [back], deliver);
    Settles(After(moves + [back]), false, value);
    assert moves + [back] + [deliver] == moves + [back, deliver];
  }

  /** A stream hears what its handler sends, and ends when it does. */
  lemma StreamEnds(name: string, req: Payload, msg: Payload)
    ensures var end := [Move(false, DoSend(0, msg)), Move(false, DoReturn(0, Done)), Move(true, DoDeliver),
                        Move(true, DoDeliver)];
            After(Opening(name, true, req) + end).lc
            == [Called(1, name, true, req), Delivered(1, msg), Settled(1, Ended)]
  {
    var moves, send, back := Opening(name, true, req), Move(false, DoSend(0, msg)), Move(false, DoReturn(0, Done));
    var deliver := Move(true, DoDeliver);
    Opened(name, true, req);
    hide After, Opening, Do;
    OneMove(moves, send);
    Sends(After(moves), msg);
    OneMove(moves + [send], back);
    Returns(After(moves + [send]), true, Done);
    OneMove(moves + [send] + [back], deliver);
    Hears(After(moves + [send] + [back]), msg);
    OneMove(moves + [send] + [back] + [deliver], deliver);
    Settles(After(moves + [send] + [back] + [deliver]), true, "");
    assert moves + [send] + [back] + [deliver] + [deliver] == moves + [send, back, deliver, deliver];
  }
}
