/** The steps of the calling peer keep the invariant of its direction. */
module RpcCallerSteps {
  import opened Rpc
  import opened RpcDirection

  lemma NoRepeatsAppend(s: seq<RpcId>, id: RpcId)
    requires NoRepeats(s) && id !in s
    ensures NoRepeats(s + [id])
  {
    assert forall i :: 0 <= i < |s| ==> s[i] in s;
  }

  lemma {:induction false} NoRepeatsWithout(s: seq<RpcId>, id: RpcId)
    requires NoRepeats(s)
    ensures NoRepeats(Without(s, id))
  {
    if s != [] {
      NoRepeatsWithout(s[1..], id);
      var rest := Without(s[1..], id);
      assert s[0] !in s[1..] && s[0] !in rest;
      assert forall i :: 0 <= i < |rest| ==> rest[i] in rest;
    }
  }

  // ---------------------------------------------------------------------- call

  /** What a call does to the lives of the ids. */
  lemma CallLife(s: System, t: System, name: string, stream: bool, req: Payload, postFails: bool, id: RpcId)
    requires t == CallerActs(s, DoCall(name, stream, req, postFails)) && LifeOf(s.lc, s.c.nextId).Unborn?
    ensures LifeOf(t.lc, id)
            == if id != s.c.nextId then LifeOf(s.lc, id) else if !s.c.disposed && postFails then Over else Live(stream)
  {
    hide LifeOf, PhaseOf, Heard, Spoken;
    var id0 := s.c.nextId;
    var e, x := Called(id0, name, stream, req), Settled(id0, Rejected(PostFailed));
    assert t.lc == if !s.c.disposed && postFails then s.lc + [e] + [x] else s.lc + [e];
    LogAppend(s.lc, e, id);
    LogAppend(s.lc + [e], x, id);
  }

  lemma CallLives(s: System, t: System, name: string, stream: bool, req: Payload, postFails: bool)
    requires Lives(s) && t == CallerActs(s, DoCall(name, stream, req, postFails))
    ensures Lives(t)
  {
    hide LifeOf;
    NoRepeatsAppend(s.c.calls, s.c.nextId);
    NoRepeatsAppend(s.c.streams, s.c.nextId);
    forall id: RpcId
      ensures LifeOf(t.lc, id)
              == if id != s.c.nextId then LifeOf(s.lc, id)
                 else if !s.c.disposed && postFails then Over else Live(stream)
    {
      CallLife(s, t, name, stream, req, postFails, id);
    }
  }

  lemma CallPlaces(s: System, t: System, name: string, stream: bool, req: Payload, postFails: bool)
    requires Places(s) && t == CallerActs(s, DoCall(name, stream, req, postFails)) && s.c.nextId >= 1
    ensures Places(t)
  {
    var f := Req(s.c.nextId, name, stream, req);
    assert PlacesOf(s, s.c.nextId);
    assert s.fwd + [] == s.fwd;
    forall id: RpcId ensures PlacesOf(t, id) {
      QueueAppend(s.fwd, f, id);
      assert PlacesOf(s, id);
    }
  }

  lemma CallStream(s: System, t: System, name: string, stream: bool, req: Payload, postFails: bool, id: RpcId)
    requires StreamOf(s, id) && t == CallerActs(s, DoCall(name, stream, req, postFails)) && s.c.nextId >= 1
    ensures StreamOf(t, id)
  {
    hide Heard, Spoken, Early, PhaseOf, LifeOf, Terms;
    var e, x := Called(s.c.nextId, name, stream, req), Settled(s.c.nextId, Rejected(PostFailed));
    assert t.lc == s.lc + [e] || t.lc == s.lc + [e] + [x];
    LogAppend(s.lc, e, id);
    LogAppend(s.lc + [e], x, id);
    assert Heard(t.lc, id) == Heard(s.lc, id);
    AnsweredAppend(s.lc, e, id);
    AnsweredAppend(s.lc + [e], x, id);
    hide Answered;
  }

  lemma CallStreams(s: System, t: System, name: string, stream: bool, req: Payload, postFails: bool)
    requires Streams(s) && t == CallerActs(s, DoCall(name, stream, req, postFails)) && s.c.nextId >= 1
    ensures Streams(t)
  {
    hide CallerActs;
    forall id: RpcId ensures StreamOf(t, id) {
      assert StreamOf(s, id);
      CallStream(s, t, name, stream, req, postFails, id);
    }
  }

  lemma CallKinds(s: System, t: System, name: string, stream: bool, req: Payload, postFails: bool)
    requires Lives(s) && PlacesOf(s, s.c.nextId) && Kinds(s)
    requires t == CallerActs(s, DoCall(name, stream, req, postFails))
    ensures Kinds(t)
  {
    hide Reqs, Terms, PhaseOf, LifeOf;
    var id0 := s.c.nextId;
    assert forall id :: id != id0 ==>
                          (id in t.c.calls <==> id in s.c.calls) && (id in t.c.streams <==> id in s.c.streams);
    assert forall f :: f in t.fwd ==> f in s.fwd || f == Req(id0, name, stream, req);
  }

  lemma CallRuns(s: System, t: System, name: string, stream: bool, req: Payload, postFails: bool)
    requires PlacesOf(s, s.c.nextId) && Runs(s) && s.c.nextId >= 1
    requires t == CallerActs(s, DoCall(name, stream, req, postFails))
    ensures Runs(t)
  {
    hide Reqs, Terms, PhaseOf;
    assert forall id :: id != s.c.nextId ==> (Pending(t.c, id) <==> Pending(s.c, id));
  }

  lemma CallCauses(s: System, t: System, name: string, stream: bool, req: Payload, postFails: bool)
    requires Causes(s) && t == CallerActs(s, DoCall(name, stream, req, postFails))
    ensures Causes(t)
  {
    var id0 := s.c.nextId;
    var called, failed := Called(id0, name, stream, req), Settled(id0, Rejected(PostFailed));
    assert forall e :: e in s.lc ==> e in t.lc;
    assert forall e :: e in t.lc ==> e in s.lc || e == called || e == failed;
    assert called in t.lc;
    assert forall f :: f in t.fwd ==> f in s.fwd || f == Req(id0, name, stream, req);
  }

  lemma CallKeeps(s: System, name: string, stream: bool, req: Payload, postFails: bool)
    requires Inv(s)
    ensures Inv(CallerActs(s, DoCall(name, stream, req, postFails)))
  {
    hide Lives, Places, Kinds, Runs, Streams, Causes;
    var t := CallerActs(s, DoCall(name, stream, req, postFails));
    InvFacts(s);
    CallLives(s, t, name, stream, req, postFails);
    CallPlaces(s, t, name, stream, req, postFails);
    CallKinds(s, t, name, stream, req, postFails);
    CallRuns(s, t, name, stream, req, postFails);
    CallStreams(s, t, name, stream, req, postFails);
    CallCauses(s, t, name, stream, req, postFails);
  }

  lemma InvFacts(s: System)
    requires Inv(s)
    ensures s.c.nextId >= 1 && PlacesOf(s, s.c.nextId)
  {
  }

  // ------------------------------------------- abort, delivery of a reply, dispose

  /** t is s with fewer ids pending, after the caller has seen more events. */
  ghost predicate Shrinks(s: System, t: System) {
    && t.h == s.h && t.lh == s.lh && t.c.nextId == s.c.nextId
    && (forall id :: id in t.c.calls ==> id in s.c.calls)
    && (forall id :: id in t.c.streams ==> id in s.c.streams)
    && (t.c.disposed && !s.c.disposed ==> forall id :: !Pending(t.c, id))
    && (s.c.disposed ==> t.c.disposed)
    && (forall e :: e in s.lc ==> e in t.lc)
    && (forall e :: e in t.lc ==> e in s.lc || e.Delivered? || e.Settled?)
  }

  lemma ShrinkKinds(s: System, t: System)
    requires Kinds(s) && Runs(s) && Shrinks(s, t)
    requires forall f :: f in t.fwd ==> f in s.fwd || (f.Cancel? && 1 <= f.id < s.c.nextId && !Pending(t.c, f.id))
    requires forall f :: f in t.bwd ==> f in s.bwd
    ensures Kinds(t) && Runs(t)
  {
    hide Reqs, Terms, PhaseOf;
  }

  lemma ShrinkCauses(s: System, t: System)
    requires Causes(s) && Shrinks(s, t)
    requires forall f :: f in t.fwd ==> f in s.fwd || f.Cancel?
    requires forall f :: f in t.bwd ==> f in s.bwd
    requires forall e :: e in t.lc && e !in s.lc && e.Settled? ==>
               match e.outcome
               case Resolved(v) => Res(e.id, v) in s.bwd
               case Ended => End(e.id) in s.bwd
               case Rejected(reason) => reason.Remote? ==> Failure(e.id, reason.error) in s.bwd
    ensures Causes(t)
  {
  }

  lemma ShrinkPlaces(s: System, t: System)
    requires Places(s) && Shrinks(s, t)
    requires forall id: RpcId :: Reqs(t.fwd, id) == Reqs(s.fwd, id)
    requires forall id: RpcId ::
               || Terms(t.bwd, id) == Terms(s.bwd, id)
               || (Terms(t.bwd, id) + 1 == Terms(s.bwd, id) && (!Pending(t.c, id) || s.c.disposed))
    ensures Places(t)
  {
    hide Reqs, Terms, PhaseOf;
    forall id: RpcId ensures PlacesOf(t, id) { assert PlacesOf(s, id); }
  }

  lemma RejectAllLast(log: seq<Event>, front: seq<RpcId>, last: RpcId)
    ensures log + RejectAll(front + [last]) == log + RejectAll(front) + [Settled(last, Rejected(Disposed))]
  {
  }

  lemma {:induction false} RejectAllHistory(log: seq<Event>, ids: seq<RpcId>, id: RpcId)
    requires NoRepeats(ids)
    requires id in ids ==> LifeOf(log, id).Live?
    ensures LifeOf(log + RejectAll(ids), id) == if id in ids then Over else LifeOf(log, id)
    ensures Heard(log + RejectAll(ids), id) == Heard(log, id)
    decreases |ids|
  {
    if ids == [] {
      assert log + RejectAll(ids) == log;
    } else {
      var front, last := ids[..|ids| - 1], ids[|ids| - 1];
      assert ids == front + [last] && last !in front && NoRepeats(front);
      RejectAllLast(log, front, last);
      hide RejectAll, NoRepeats, LifeOf, Heard, PhaseOf, Spoken;
      RejectAllHistory(log, front, id);
      LogAppend(log + RejectAll(front), Settled(last, Rejected(Disposed)), id);
    }
  }

  lemma DisposeLives(s: System, t: System)
    requires Lives(s) && !s.c.disposed && t == CallerActs(s, DoDispose)
    ensures Lives(t)
    ensures forall id: RpcId :: Heard(t.lc, id) == Heard(s.lc, id)
  {
    var mid := s.lc + RejectAll(s.c.calls);
    assert t.lc == mid + RejectAll(s.c.streams);
    forall id: RpcId
      ensures LifeOf(t.lc, id) == if Pending(s.c, id) then Over else LifeOf(s.lc, id)
      ensures Heard(t.lc, id) == Heard(s.lc, id)
    {
      RejectAllHistory(s.lc, s.c.calls, id);
      RejectAllHistory(mid, s.c.streams, id);
    }
  }

  /** Fewer streams pending, nothing heard or queued since. */
  lemma ShrinkStreams(s: System, t: System)
    requires Streams(s) && Shrinks(s, t) && t.bwd == s.bwd
    requires forall id: RpcId :: Heard(t.lc, id) == Heard(s.lc, id)
    requires forall e :: e in t.lc && e !in s.lc && e.Settled? ==> !FromPeer(e.outcome)
    ensures Streams(t)
  {
    hide Heard, Spoken, Early, PhaseOf, Terms;
    forall id: RpcId ensures StreamOf(t, id) {
      assert StreamOf(s, id);
      if Answered(t.lc, id) {
        var o :| Settled(id, o) in t.lc && FromPeer(o);
        assert Settled(id, o) in s.lc;
      }
    }
  }

  lemma DisposeShrinks(s: System, t: System)
    requires t == CallerActs(s, DoDispose)
    ensures s.c.disposed ==> t == s
    ensures Shrinks(s, t) && t.fwd == s.fwd && t.bwd == s.bwd
    ensures forall e :: e in t.lc && e !in s.lc ==> e.Settled? && e.outcome == Rejected(Disposed)
  {
    assert s.fwd + [] == s.fwd && s.lc + [] == s.lc;
  }

  lemma DisposeKeeps(s: System)
    requires Inv(s)
    ensures Inv(CallerActs(s, DoDispose))
  {
    hide Lives, Places, Kinds, Runs, Streams, Causes, LifeOf, Shrinks, Heard, CallerActs;
    var t := CallerActs(s, DoDispose);
    DisposeShrinks(s, t);
    if !s.c.disposed {
      DisposeLives(s, t);
      ShrinkKinds(s, t);
      ShrinkCauses(s, t);
      ShrinkPlaces(s, t);
      ShrinkStreams(s, t);
    }
  }

  lemma SettleLives(s: System, t: System, id0: RpcId, outcome: Outcome)
    requires Lives(s) && t.c == Forget(s.c, id0) && t.lc == s.lc + [Settled(id0, outcome)] && Pending(s.c, id0)
    requires (outcome.Resolved? ==> id0 in s.c.calls) && (outcome.Ended? ==> id0 in s.c.streams)
    ensures Lives(t)
    ensures forall id: RpcId :: Heard(t.lc, id) == Heard(s.lc, id)
  {
    NoRepeatsWithout(s.c.calls, id0);
    NoRepeatsWithout(s.c.streams, id0);
    var e := Settled(id0, outcome);
    forall id: RpcId
      ensures LifeOf(t.lc, id) == NextLife(LifeOf(s.lc, id), e, id)
      ensures Heard(t.lc, id) == Heard(s.lc, id)
    {
      LogAppend(s.lc, e, id);
    }
  }

  lemma AbortKeeps(s: System, id0: RpcId)
    requires Inv(s)
    ensures Inv(CallerActs(s, DoAbort(id0)))
  {
    var t := CallerActs(s, DoAbort(id0));
    assert s.fwd + [] == s.fwd && s.lc + [] == s.lc;
    if Pending(s.c, id0) {
      SettleLives(s, t, id0, Rejected(Aborted));
      assert Shrinks(s, t);
      ShrinkKinds(s, t);
      ShrinkCauses(s, t);
      forall id: RpcId ensures Reqs(t.fwd, id) == Reqs(s.fwd, id) { QueueAppend(s.fwd, Cancel(id0), id); }
      ShrinkPlaces(s, t);
      ShrinkStreams(s, t);
    }
  }

  /** The reply at the head of the queue arrives. */
  lemma ReplyKeeps(s: System)
    requires Inv(s) && s.bwd != []
    ensures Inv(CallerActs(s, DoDeliver))
  {
    var t := CallerActs(s, DoDeliver);
    var f := s.bwd[0];
    assert f in s.bwd;
    assert s.fwd + [] == s.fwd && s.lc + [] == s.lc;
    assert s.bwd == [f] + t.bwd;
    ReplyLives(s, t);
    ReplyShrinks(s, t);
    hide Lives, Places, Kinds, Runs, Causes, CallerActs;
    ShrinkKinds(s, t);
    ShrinkCauses(s, t);
    ShrinkPlaces(s, t);
    forall id: RpcId ensures StreamOf(t, id) { ReplyStream(s, t, id); }
  }

  lemma ReplyShrinks(s: System, t: System)
    requires Kinds(s) && s.bwd != [] && t == CallerActs(s, DoDeliver)
    ensures Shrinks(s, t) && t.fwd == s.fwd && t.bwd == s.bwd[1..]
    ensures forall e :: e in t.lc && e !in s.lc && e.Settled? ==>
              match e.outcome
              case Resolved(v) => Res(e.id, v) in s.bwd
              case Ended => End(e.id) in s.bwd
              case Rejected(reason) => reason.Remote? ==> Failure(e.id, reason.error) in s.bwd
    ensures forall id: RpcId ::
              || Terms(t.bwd, id) == Terms(s.bwd, id)
              || (Terms(t.bwd, id) + 1 == Terms(s.bwd, id) && (!Pending(t.c, id) || s.c.disposed))
  {
    hide PhaseOf;
    assert s.fwd + [] == s.fwd && s.lc + [] == s.lc;
    assert s.bwd[0] in s.bwd;
  }

  lemma ReplyLives(s: System, t: System)
    requires Lives(s) && Kinds(s) && s.bwd != [] && t == CallerActs(s, DoDeliver)
    ensures Lives(t)
    ensures forall id: RpcId :: Heard(t.lc, id) == Heard(s.lc, id)
              + (if s.bwd[0].Msg? && s.bwd[0].id == id && id in s.c.streams && !s.c.disposed
                 then [s.bwd[0].msg] else [])
  {
    hide OnRequest, OnCancel, PhaseOf, LifeOf, Heard;
    var f := s.bwd[0];
    assert f in s.bwd;
    assert s.lc + [] == s.lc;
    if t.lc != s.lc {
      var e := t.lc[|s.lc|];
      assert t.lc == s.lc + [e];
      NoRepeatsWithout(s.c.calls, f.id);
      NoRepeatsWithout(s.c.streams, f.id);
      forall id: RpcId
        ensures LifeOf(t.lc, id) == NextLife(LifeOf(s.lc, id), e, id)
        ensures Heard(t.lc, id) == Heard(s.lc, id) + (if e.Delivered? && e.id == id then [e.msg] else [])
      {
        LogAppend(s.lc, e, id);
      }
    }
  }

  lemma ReplyStream(s: System, t: System, id: RpcId)
    requires Streams(s) && Places(s) && Kinds(s) && s.bwd != [] && t == CallerActs(s, DoDeliver)
    requires Heard(t.lc, id) == Heard(s.lc, id)
             + (if s.bwd[0].Msg? && s.bwd[0].id == id && id in s.c.streams && !s.c.disposed then [s.bwd[0].msg] else [])
    ensures StreamOf(t, id)
  {
    hide Heard, Spoken, PhaseOf, Reqs, OnRequest, OnCancel;
    var f := s.bwd[0];
    assert f in s.bwd;
    assert StreamOf(s, id) && PlacesOf(s, id);
    QueueMember(s.bwd, f);
    assert id in t.c.streams ==> id in s.c.streams && !(IsTerminal(f) && f.id == id);
    var msgs := if f.Msg? && f.id == id && id in s.c.streams && !s.c.disposed then [f.msg] else [];
    if id in s.c.streams {
      assert !(IsTerminal(f) && f.id == id) ==> Early(s.bwd, id) == msgs + Early(t.bwd, id);
      Assoc(Heard(s.lc, id), msgs, Early(t.bwd, id));
    }
    if t.lc != s.lc { AnsweredAppend(s.lc, t.lc[|s.lc|], id); }
    hide Answered;
    if IsTerminal(f) && f.id == id && id in s.c.streams {
      assert Early(s.bwd, id) == [] && Heard(s.lc, id) + [] == Heard(s.lc, id);
    }
  }
}
