/** What disposal of a peer means for the rest of a run. */
module RpcDisposal {
  import opened Rpc
  import opened RpcDirection
  import opened RpcProtocol

  lemma LastMove(moves: seq<Move>)
    requires moves != []
    ensures After(moves) == Do(After(moves[..|moves| - 1]), moves[|moves| - 1])
  {
    hide Do;
  }

  /** A run that goes on by one move. */
  lemma OneMoveMore(moves: seq<Move>, more: seq<Move>)
    requires more != []
    ensures After(moves + more) == Do(After(moves + more[..|more| - 1]), more[|more| - 1])
  {
    hide Do, After;
    var all := moves + more;
    LastMove(all);
    assert all[..|all| - 1] == moves + more[..|more| - 1];
  }

  lemma NoMoveMore(moves: seq<Move>)
    ensures After(moves + []) == After(moves)
  {
    assert moves + [] == moves;
  }

  // -------------------------------------------------------------------- silence

  lemma DisposedMove(s: System, m: Move) returns (d: nat)
    requires s.c.disposed
    ensures d <= |s.fwd| && Do(s, m).fwd == s.fwd[d..] && Do(s, m).c.disposed
  {
    d := 0;
    if m.left {
      if Enabled(s.c, s.bwd, m.act) {
        DisposedIsSilent(s.c, s.bwd, m.act);
        hide Apply;
        assert s.fwd + [] == s.fwd;
      }
    } else if Enabled(s.h, s.fwd, m.act) && m.act.DoDeliver? {
      d := 1;
    }
  }

  /** Once a peer is disposed no later move of either peer adds a frame to its
      channel: what is still there is the end of what was there at the disposal. */
  lemma {:induction false} DisposedNeverPosts(moves: seq<Move>, more: seq<Move>) returns (d: nat)
    requires After(moves).c.disposed
    ensures var s, t := After(moves), After(moves + more);
            d <= |s.fwd| && t.fwd == s.fwd[d..] && t.c.disposed
    decreases |more|
  {
    hide After, Do;
    if more == [] {
      NoMoveMore(moves);
      d := 0;
    } else {
      OneMoveMore(moves, more);
      var before := DisposedNeverPosts(moves, more[..|more| - 1]);
      var last := DisposedMove(After(moves + more[..|more| - 1]), more[|more| - 1]);
      d := before + last;
    }
  }

  // ------------------------------------------------------------------ settlements

  /** How often the promise of id has settled. */
  function Settlements(log: seq<Event>, id: RpcId): nat {
    if log == [] then 0
    else
      var e := log[|log| - 1];
      Settlements(log[..|log| - 1], id) + (if e.Settled? && e.id == id then 1 else 0)
  }

  lemma {:induction false} SettledIsOver(log: seq<Event>, id: RpcId)
    ensures !LifeOf(log, id).Broken? ==> Settlements(log, id) == if LifeOf(log, id).Over? then 1 else 0
  {
    if log != [] { SettledIsOver(log[..|log| - 1], id); }
  }

  lemma {:induction false} TwoSettlements(log: seq<Event>, id: RpcId, o: Outcome, p: Outcome)
    requires Settled(id, o) in log && Settled(id, p) in log && Settlements(log, id) == 1
    ensures o == p
  {
    var front, last := log[..|log| - 1], log[|log| - 1];
    assert forall e :: e in log <==> e in front || e == last;
    if last.Settled? && last.id == id {
      if Settled(id, o) in front { SettledCounts(front, id, o); }
      if Settled(id, p) in front { SettledCounts(front, id, p); }
    } else {
      TwoSettlements(front, id, o, p);
    }
  }

  lemma {:induction false} SettledCounts(log: seq<Event>, id: RpcId, o: Outcome)
    requires Settled(id, o) in log
    ensures Settlements(log, id) > 0
  {
    var front, last := log[..|log| - 1], log[|log| - 1];
    if last != Settled(id, o) { SettledCounts(front, id, o); }
  }

  lemma {:induction false} HistoryGrows(moves: seq<Move>, more: seq<Move>)
    ensures After(moves).lc <= After(moves + more).lc
    decreases |more|
  {
    hide After, Apply;
    if more == [] {
      NoMoveMore(moves);
    } else {
      HistoryGrows(moves, more[..|more| - 1]);
      OneMoveMore(moves, more);
    }
  }

  /** An id pending when its peer is disposed has, from then on and for the rest of
      every run, settled exactly once, by the rejection of the disposal. */
  lemma DisposalSettles(moves: seq<Move>, more: seq<Move>, id: RpcId)
    requires !After(moves).c.disposed && Pending(After(moves).c, id)
    ensures var log := After(moves + [Move(true, DoDispose)] + more).lc;
            && Settled(id, Rejected(Disposed)) in log && Settlements(log, id) == 1
            && forall o :: Settled(id, o) in log ==> o == Rejected(Disposed)
  {
    var s, closed := After(moves), moves + [Move(true, DoDispose)];
    OneMoveMore(moves, [Move(true, DoDispose)]);
    assert [Move(true, DoDispose)][..0] == [];
    NoMoveMore(moves);
    DisposeRejects(s.c);
    hide After;
    var event := Settled(id, Rejected(Disposed));
    assert event in After(closed).lc;
    HistoryGrows(closed, more);
    var log := After(closed + more).lc;
    assert event in log;
    OnlyOnce(closed + more, id, Rejected(Disposed));
    hide Settlements;
    forall o | Settled(id, o) in log ensures o == Rejected(Disposed) { TwoSettlements(log, id, o, Rejected(Disposed)); }
  }

  lemma OnlyOnce(moves: seq<Move>, id: RpcId, o: Outcome)
    requires Settled(id, o) in After(moves).lc
    ensures Settlements(After(moves).lc, id) == 1
  {
    AlwaysWell(moves);
    var s := After(moves);
    assert Lives(View(s));
    hide After, View, Well;
    LifeKnown(s, id);
    SettledIsOver(s.lc, id);
    SettledCounts(s.lc, id, o);
  }

  // ------------------------------------------------------- calls after the disposal

  lemma StillPending(s: System, m: Move, id: RpcId)
    requires s.c.disposed && id < s.c.nextId
    ensures var t := Do(s, m);
            && t.c.disposed && id < t.c.nextId
            && (Pending(t.c, id) <==> Pending(s.c, id) && m != Move(true, DoAbort(id)))
  {
    hide NoHandler;
  }

  lemma {:induction false} PendingUntilAborted(moves: seq<Move>, more: seq<Move>, id: RpcId)
    requires var s := After(moves); s.c.disposed && id < s.c.nextId && Pending(s.c, id)
    ensures var t := After(moves + more);
            && t.c.disposed && id < t.c.nextId
            && (Pending(t.c, id) <==> Move(true, DoAbort(id)) !in more)
    decreases |more|
  {
    hide After, Do, Pending;
    if more == [] {
      NoMoveMore(moves);
    } else {
      var front, last := more[..|more| - 1], more[|more| - 1];
      assert more == front + [last];
      PendingUntilAborted(moves, front, id);
      OneMoveMore(moves, more);
      StillPending(After(moves + front), last, id);
    }
  }

  /** A call made on a disposed peer is never posted, and for the rest of every run it
      is pending until, and only until, its own signal fires. */
  lemma DisposedCallWaits(moves: seq<Move>, more: seq<Move>, name: string, stream: bool, req: Payload, postFails: bool)
    requires After(moves).c.disposed
    ensures var s := After(moves);
            var t := After(moves + [Move(true, DoCall(name, stream, req, postFails))] + more);
            && (Pending(t.c, s.c.nextId) <==> Move(true, DoAbort(s.c.nextId)) !in more)
            && exists d :: 0 <= d <= |s.fwd| && t.fwd == s.fwd[d..]
  {
    hide After, Pending, Do;
    CalledPending(moves, name, stream, req, postFails);
    var s, call := After(moves), [Move(true, DoCall(name, stream, req, postFails))];
    PendingUntilAborted(moves + call, more, s.c.nextId);
    assert moves + (call + more) == moves + call + more;
    var d := DisposedNeverPosts(moves, call + more);
  }

  lemma CalledPending(moves: seq<Move>, name: string, stream: bool, req: Payload, postFails: bool)
    requires After(moves).c.disposed
    ensures var s, t := After(moves), After(moves + [Move(true, DoCall(name, stream, req, postFails))]);
            t.c.disposed && s.c.nextId < t.c.nextId && Pending(t.c, s.c.nextId)
  {
    var call := [Move(true, DoCall(name, stream, req, postFails))];
    OneMoveMore(moves, call);
    assert call[..0] == [];
    NoMoveMore(moves);
    CallOnDisposed(After(moves).c, name, stream, req, postFails);
  }

  // ------------------------------------------- when the handling peer is disposed

  /** The caller gave up on id, or could not post its request. */
  predicate GaveUp(log: seq<Event>, id: RpcId) {
    Settled(id, Rejected(Aborted)) in log || Settled(id, Rejected(PostFailed)) in log
  }

  /** After h's disposal: an answered id still pending has its answer queued. */
  predicate AnswerQueued(s: System, id: RpcId) {
    id < s.c.nextId && (Pending(s.c, id) ==> Terms(s.bwd, id) == 1)
  }

  /** One that was not answered has none queued, and is pending unless its caller
      gave up. */
  predicate Unanswered(s: System, id: RpcId) {
    && Terms(s.bwd, id) == 0
    && (1 <= id < s.c.nextId ==> (Pending(s.c, id) <==> !GaveUp(s.lc, id)))
    && (id >= s.c.nextId ==> !Pending(s.c, id) && !GaveUp(s.lc, id))
  }

  predicate Stranded(s: System, id: RpcId, answered: bool) {
    s.h.disposed && !s.c.disposed && if answered then AnswerQueued(s, id) else Unanswered(s, id)
  }

  lemma TermsHead(q: seq<Frame>, id: RpcId)
    requires q != []
    ensures Terms(q, id) == (if IsTerminal(q[0]) && q[0].id == id then 1 else 0) + Terms(q[1..], id)
  {
  }

  lemma HandlerStranded(s: System, act: Action, id: RpcId, answered: bool)
    requires Stranded(s, id, answered) && Enabled(s.h, s.fwd, act)
    ensures Stranded(HandlerActs(s, act), id, answered)
  {
    DisposedIsSilent(s.h, s.fwd, act);
    hide Apply, Terms, GaveUp;
    assert s.bwd + [] == s.bwd;
  }

  /** The reply at the head of the channel settles its id if that is pending. */
  lemma ReplyFits(s: System)
    requires Well(s) && s.bwd != [] && IsTerminal(s.bwd[0])
    ensures var f := s.bwd[0];
            (f.Res? ==> f.id !in s.c.streams) && (f.End? ==> f.id !in s.c.calls)
  {
    var v := View(s);
    assert Kinds(v) && v.bwd[0] == s.bwd[0];
    assert v.bwd[0] in v.bwd;
  }

  /** The event is not one of a caller giving up. */
  predicate NoGivingUp(e: Event) {
    e.Settled? ==> e.outcome != Rejected(Aborted) && e.outcome != Rejected(PostFailed)
  }

  lemma DeliveredPending(p: Peer, f: Frame, id: RpcId)
    requires !p.disposed
    ensures var step := Dispatch(p, f);
            && !step.peer.disposed && step.peer.nextId == p.nextId
            && (f.id != id || !IsTerminal(f) ==> (Pending(step.peer, id) <==> Pending(p, id)))
            && (f.id == id && IsTerminal(f) && (f.Res? ==> id !in p.streams) && (f.End? ==> id !in p.calls) ==>
                  !Pending(step.peer, id))
            && forall i :: 0 <= i < |step.events| ==> NoGivingUp(step.events[i])
  {
    hide NoHandler;
  }

  lemma SameGivingUp(log: seq<Event>, events: seq<Event>, id: RpcId)
    requires forall i :: 0 <= i < |events| ==> NoGivingUp(events[i])
    ensures GaveUp(log + events, id) == GaveUp(log, id)
  {
    forall o | o == Rejected(Aborted) || o == Rejected(PostFailed)
      ensures Settled(id, o) in log + events <==> Settled(id, o) in log
    {
      assert Settled(id, o) !in events;
    }
  }

  lemma DeliverStranded(s: System, id: RpcId, answered: bool)
    requires Well(s) && Stranded(s, id, answered) && s.bwd != []
    ensures Stranded(CallerActs(s, DoDeliver), id, answered)
  {
    hide Terms, NoHandler, Dispatch, GaveUp, Well, Pending;
    TermsHead(s.bwd, id);
    if IsTerminal(s.bwd[0]) { ReplyFits(s); }
    DeliveredPending(s.c, s.bwd[0], id);
    SameGivingUp(s.lc, Dispatch(s.c, s.bwd[0]).events, id);
  }

  /** What a peer that is not disposed does of its own accord to the promises. */
  lemma ActedPending(p: Peer, incoming: seq<Frame>, act: Action, id: RpcId)
    requires !p.disposed && Enabled(p, incoming, act) && !act.DoDeliver? && !act.DoDispose? && !Pending(p, p.nextId)
    ensures var step := Apply(p, incoming, act);
            && !step.peer.disposed && step.peer.nextId == p.nextId + (if act.DoCall? then 1 else 0)
            && if act.DoCall? && id == p.nextId then Pending(step.peer, id) == !GaveUp(step.events, id)
               else if Pending(p, id) then Pending(step.peer, id) == !GaveUp(step.events, id)
               else Pending(step.peer, id) == false && !GaveUp(step.events, id)
  {
    hide NoHandler, Dispatch, Dispose;
    var events := Apply(p, incoming, act).events;
    assert |events| > 0 ==> events[0] in events;
    assert |events| > 1 ==> events[1] in events;
  }

  lemma GivingUpAppend(log: seq<Event>, events: seq<Event>, id: RpcId)
    ensures GaveUp(log + events, id) == (GaveUp(log, id) || GaveUp(events, id))
  {
  }

  lemma CallerStranded(s: System, act: Action, id: RpcId, answered: bool)
    requires Stranded(s, id, answered) && Enabled(s.c, s.bwd, act) && !act.DoDeliver? && !act.DoDispose?
    requires id >= 1 && !Pending(s.c, s.c.nextId)
    ensures Stranded(CallerActs(s, act), id, answered)
  {
    hide Terms, Apply, GaveUp, Pending;
    ActedPending(s.c, s.bwd, act, id);
    GivingUpAppend(s.lc, Apply(s.c, s.bwd, act).events, id);
  }

  lemma UnbornIds(s: System, id: RpcId)
    requires Well(s) && (id >= s.c.nextId || id == 0)
    ensures !Pending(s.c, id) && forall o :: Settled(id, o) !in s.lc
  {
    assert Lives(View(s));
    hide Well;
    LifeKnown(s, id);
    OverIsSettled(s.lc, id);
  }

  lemma MoveStranded(s: System, m: Move, id: RpcId, answered: bool)
    requires Well(s) && Stranded(s, id, answered) && id >= 1 && !Do(s, m).c.disposed
    ensures Stranded(Do(s, m), id, answered)
  {
    UnbornIds(s, s.c.nextId);
    hide Well, Stranded, CallerActs, HandlerActs;
    if m.left {
      if Enabled(s.c, s.bwd, m.act) {
        if m.act.DoDeliver? {
          DeliverStranded(s, id, answered);
        } else {
          DisposingDisposes(s, m.act);
          StrandedParts(s, id, answered);
          CallerStranded(s, m.act, id, answered);
        }
      }
    } else if Enabled(s.h, s.fwd, m.act) {
      HandlerStranded(s, m.act, id, answered);
    }
  }

  lemma DisposingDisposes(s: System, act: Action)
    requires Enabled(s.c, s.bwd, act)
    ensures act.DoDispose? ==> CallerActs(s, act).c.disposed
  {
  }

  lemma StrandedParts(s: System, id: RpcId, answered: bool)
    requires Stranded(s, id, answered)
    ensures s.h.disposed && !s.c.disposed
  {
  }

  lemma {:induction false} StrandedLater(moves: seq<Move>, more: seq<Move>, id: RpcId, answered: bool)
    requires Stranded(After(moves), id, answered) && id >= 1 && !After(moves + more).c.disposed
    ensures Stranded(After(moves + more), id, answered)
    decreases |more|
  {
    hide After, Do, Stranded, Well;
    if more == [] {
      NoMoveMore(moves);
    } else {
      var front, last := more[..|more| - 1], more[|more| - 1];
      OneMoveMore(moves, more);
      var s := After(moves + front);
      if s.c.disposed { var d := DisposedMove(s, last); }
      StrandedLater(moves, front, id, answered);
      AlwaysWell(moves + front);
      MoveStranded(s, last, id, answered);
    }
  }

  /** Only disposal rejects by disposal. */
  lemma {:induction false} DisposedOutcome(moves: seq<Move>, id: RpcId)
    ensures Settled(id, Rejected(Disposed)) in After(moves).lc ==> After(moves).c.disposed
  {
    if moves != [] {
      hide After, Do;
      var front, last := moves[..|moves| - 1], moves[|moves| - 1];
      DisposedOutcome(front, id);
      LastMove(moves);
      var s := After(front);
      if s.c.disposed { var d := DisposedMove(s, last); }
      NewDisposedOutcome(s, last, id);
    } else {
      assert After([]) == START;
    }
  }

  lemma NewDisposedOutcome(s: System, m: Move, id: RpcId)
    ensures Settled(id, Rejected(Disposed)) in Do(s, m).lc ==>
              Settled(id, Rejected(Disposed)) in s.lc || Do(s, m).c.disposed
  {
    hide NoHandler, RejectAll;
    if m.left && Enabled(s.c, s.bwd, m.act) && !m.act.DoDispose? {
      hide Dispose;
      var events := Apply(s.c, s.bwd, m.act).events;
      assert Settled(id, Rejected(Disposed)) !in events;
    }
  }

  lemma {:induction false} AnsweredIsFinished(log: seq<Event>, id: RpcId)
    requires !PhaseOf(log, id).Bad?
    ensures (exists r :: Returned(id, r) in log) || (exists e :: Refused(id, e) in log) ==> PhaseOf(log, id).Finished?
  {
    if log != [] {
      var front, last := log[..|log| - 1], log[|log| - 1];
      assert forall e :: e in log <==> e in front || e == last;
      AnsweredIsFinished(front, id);
    }
  }

  /** A settlement that is the caller's own doing in no way was caused by an answer. */
  lemma SettledHasCause(v: System, id: RpcId, o: Outcome)
    requires Causes(v) && Settled(id, o) in v.lc
    requires o != Rejected(Aborted) && o != Rejected(PostFailed) && o != Rejected(Disposed)
    ensures (exists r :: Returned(id, r) in v.lh) || (exists e :: Refused(id, e) in v.lh)
  {
    var settled := Settled(id, o);
    match o
    case Resolved(value) => assert Returned(id, Value(value)) in v.lh;
    case Ended => assert Returned(id, Done) in v.lh;
    case Rejected(reason) => assert Returned(id, Error(reason.error)) in v.lh || Refused(id, reason.error) in v.lh;
  }

  /** Whoever settled without giving up, while nobody was disposed, had an answer. */
  lemma SettledWasAnswered(moves: seq<Move>, id: RpcId, o: Outcome)
    requires var s := After(moves); !s.c.disposed && Settled(id, o) in s.lc && !GaveUp(s.lc, id)
    ensures PhaseOf(After(moves).lh, id).Finished?
  {
    AlwaysWell(moves);
    DisposedOutcome(moves, id);
    var s := After(moves);
    hide After, PhaseOf, Part, Kinds, Places, Lives, Runs, Streams;
    var v := View(s);
    PartMembers(s.lc, true);
    assert Settled(id, o) in v.lc;
    SettledHasCause(v, id, o);
    HandlerLog(s.lh, id);
    NotBad(v, id);
    hide Causes;
    AnsweredIsFinished(v.lh, id);
  }

  lemma NotBad(v: System, id: RpcId)
    requires Inv(v)
    ensures !PhaseOf(v.lh, id).Bad?
  {
    assert PlacesOf(v, id);
  }

  lemma DisposalStrands(moves: seq<Move>, id: RpcId)
    requires var s := After(moves); !s.c.disposed && !s.h.disposed && id >= 1
    ensures Stranded(After(moves + [Move(false, DoDispose)]), id, PhaseOf(After(moves).lh, id).Finished?)
  {
    var s, last := After(moves), [Move(false, DoDispose)];
    OneMoveMore(moves, last);
    assert last[..0] == [];
    NoMoveMore(moves);
    hide After;
    var t := HandlerActs(s, DoDispose);
    assert s.bwd + [] == s.bwd;
    assert t.c == s.c && t.bwd == s.bwd && t.lc == s.lc && t.h.disposed;
    hide HandlerActs;
    if PhaseOf(s.lh, id).Finished? {
      AnswerIsQueued(moves, id);
    } else {
      UnansweredPending(moves, id);
    }
  }

  lemma AnswerIsQueued(moves: seq<Move>, id: RpcId)
    requires var s := After(moves); !s.c.disposed && !s.h.disposed && PhaseOf(s.lh, id).Finished?
    ensures AnswerQueued(After(moves), id)
  {
    AlwaysWell(moves);
    var s := After(moves);
    hide After;
    RequestQueue(s.fwd, id);
    ReplyQueue(s.bwd, id);
    HandlerLog(s.lh, id);
    assert PlacesOf(View(s), id);
  }

  lemma UnansweredPending(moves: seq<Move>, id: RpcId)
    requires var s := After(moves); !s.c.disposed && id >= 1 && !PhaseOf(s.lh, id).Finished?
    ensures Unanswered(After(moves), id)
  {
    AlwaysWell(moves);
    var s := After(moves);
    hide After;
    NoTerminal(s, id);
    hide PhaseOf, View, Well, GaveUp;
    if id < s.c.nextId {
      PendingOrSettled(moves, id);
      if !Pending(s.c, id) && !GaveUp(s.lc, id) {
        var o :| Settled(id, o) in s.lc;
        SettledWasAnswered(moves, id, o);
      }
    } else {
      UnbornIds(s, id);
    }
  }

  lemma NoTerminal(s: System, id: RpcId)
    requires Well(s) && !PhaseOf(s.lh, id).Finished?
    ensures Terms(s.bwd, id) == 0
  {
    hide Lives, Kinds, Runs, Streams, Causes;
    ReplyQueue(s.bwd, id);
    HandlerLog(s.lh, id);
    assert PlacesOf(View(s), id);
  }

  /** Which ids wait for ever when the peer that serves them is disposed: once its
      channel is drained, exactly those it had not answered by then and whose callers
      have not given up. */
  lemma WaitingForDisposed(moves: seq<Move>, more: seq<Move>, id: RpcId)
    requires !After(moves).h.disposed
    requires var s := After(moves + [Move(false, DoDispose)] + more);
             s.bwd == [] && !s.c.disposed && 1 <= id < s.c.nextId
    ensures var s := After(moves + [Move(false, DoDispose)] + more);
            Pending(s.c, id) <==> !PhaseOf(After(moves).lh, id).Finished? && !GaveUp(s.lc, id)
  {
    var s := After(moves + [Move(false, DoDispose)] + more);
    NotYetDisposed(moves, [Move(false, DoDispose)] + more);
    assert moves + ([Move(false, DoDispose)] + more) == moves + [Move(false, DoDispose)] + more;
    DisposalStrands(moves, id);
    hide After, Stranded, GaveUp;
    var answered := PhaseOf(After(moves).lh, id).Finished?;
    StrandedLater(moves + [Move(false, DoDispose)], more, id, answered);
    Drained(s, id, answered);
  }

  lemma Drained(s: System, id: RpcId, answered: bool)
    requires Stranded(s, id, answered) && s.bwd == [] && 1 <= id < s.c.nextId
    ensures Pending(s.c, id) <==> !answered && !GaveUp(s.lc, id)
  {
  }

  lemma {:induction false} NotYetDisposed(moves: seq<Move>, more: seq<Move>)
    requires !After(moves + more).c.disposed
    ensures !After(moves).c.disposed
    decreases |more|
  {
    hide After, Do;
    if more == [] {
      NoMoveMore(moves);
    } else {
      var front, last := more[..|more| - 1], more[|more| - 1];
      OneMoveMore(moves, more);
      if After(moves + front).c.disposed { var d := DisposedMove(After(moves + front), last); }
      NotYetDisposed(moves, front);
    }
  }
}
