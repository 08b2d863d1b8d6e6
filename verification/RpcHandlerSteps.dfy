/** The steps of the handling peer keep the invariant of the direction. */
module RpcHandlerSteps {
  import opened Rpc
  import opened RpcDirection

  /** The caller's side is untouched. */
  ghost predicate SameCaller(s: System, t: System) {
    t.c == s.c && t.lc == s.lc
  }

  // ------------------------------------------------------------------- requests

  lemma QueueHead(q: seq<Frame>, id: RpcId)
    requires q != []
    ensures Reqs(q, id) == (if q[0].Req? && q[0].id == id then 1 else 0) + Reqs(q[1..], id)
    ensures Terms(q, id) == (if IsTerminal(q[0]) && q[0].id == id then 1 else 0) + Terms(q[1..], id)
  {
  }

  lemma RequestPlace(s: System, t: System, id: RpcId)
    requires PlacesOf(s, id) && s.fwd != [] && IsRequest(s.fwd[0]) && t == HandlerActs(s, DoDeliver)
    ensures PlacesOf(t, id)
  {
    hide Reqs, Terms, PhaseOf, LifeOf, Early, Spoken, Heard, NoHandler;
    assert s.bwd + [] == s.bwd && s.lh + [] == s.lh;
    var step := Dispatch(s.h, s.fwd[0]);
    QueueHead(s.fwd, id);
    if step.events != [] { LogAppend(s.lh, step.events[0], id); }
    if step.posts != [] { QueueAppend(s.bwd, step.posts[0], id); }
  }

  lemma RequestPlaces(s: System, t: System)
    requires Places(s) && Kinds(s) && s.fwd != [] && t == HandlerActs(s, DoDeliver)
    ensures Places(t)
  {
    assert s.fwd[0] in s.fwd;
    hide PlacesOf, HandlerActs;
    forall id: RpcId ensures PlacesOf(t, id) { RequestPlace(s, t, id); }
  }

  /** Nothing a stream's order depends on has changed. */
  lemma StreamKept(s: System, t: System, id: RpcId)
    requires StreamOf(s, id) && SameCaller(s, t) && t.h.disposed == s.h.disposed
    requires Spoken(t.lh, id) == Spoken(s.lh, id) && Early(t.bwd, id) == Early(s.bwd, id)
    requires PhaseOf(s.lh, id).Finished? ==> PhaseOf(t.lh, id).Finished?
    requires s.h.disposed ==> Terms(t.bwd, id) == Terms(s.bwd, id)
    ensures StreamOf(t, id)
  {
    hide PhaseOf, Heard, Spoken, Early, Terms;
  }

  lemma RequestStream(s: System, t: System, id: RpcId)
    requires StreamOf(s, id) && PlacesOf(s, id) && Kinds(s) && s.fwd != [] && t == HandlerActs(s, DoDeliver)
    ensures StreamOf(t, id)
  {
    hide NoHandler, StreamOf, Heard, Spoken, Early, PhaseOf, LifeOf, Terms, Reqs;
    var f := s.fwd[0];
    assert f in s.fwd;
    assert s.bwd + [] == s.bwd && s.lh + [] == s.lh;
    QueueMember(s.fwd, f);
    var step := Dispatch(s.h, f);
    if step.events != [] { LogAppend(s.lh, step.events[0], id); }
    if step.posts != [] { QueueAppend(s.bwd, step.posts[0], id); }
    Assoc(Spoken(s.lh, id), [], []);
    Assoc(Early(s.bwd, id), [], []);
    StreamKept(s, t, id);
  }

  lemma RequestStreams(s: System, t: System)
    requires Streams(s) && Places(s) && Kinds(s) && s.fwd != [] && t == HandlerActs(s, DoDeliver)
    ensures Streams(t)
  {
    hide HandlerActs, Kinds;
    forall id: RpcId ensures StreamOf(t, id) {
      assert StreamOf(s, id) && PlacesOf(s, id);
      RequestStream(s, t, id);
    }
  }

  lemma RequestKinds(s: System, t: System)
    requires Places(s) && Kinds(s) && s.fwd != [] && t == HandlerActs(s, DoDeliver)
    ensures Kinds(t)
  {
    hide Terms, NoHandler, PhaseOf, Spoken, Heard, LifeOf, Reqs, Early, Settle;
    var f := s.fwd[0];
    assert f in s.fwd;
    assert s.bwd + [] == s.bwd && s.lh + [] == s.lh;
    QueueMember(s.fwd, f);
    var step := Dispatch(s.h, f);
    forall id: RpcId
      ensures PhaseOf(t.lh, id)
              == if step.events == [] then PhaseOf(s.lh, id) else NextPhase(PhaseOf(s.lh, id), step.events[0], id)
      ensures PlacesOf(s, id)
    {
      if step.events != [] { LogAppend(s.lh, step.events[0], id); }
    }
    assert forall g :: g in t.fwd ==> g in s.fwd;
    assert forall g :: g in t.bwd ==> g in s.bwd || (step.posts != [] && g == step.posts[0]);
  }

  lemma RequestCauses(s: System, t: System)
    requires Kinds(s) && Causes(s) && s.fwd != [] && t == HandlerActs(s, DoDeliver)
    ensures Causes(t)
  {
    hide NoHandler;
    var f := s.fwd[0];
    assert f in s.fwd;
    var step := Dispatch(s.h, f);
    assert forall g :: g in t.fwd ==> g in s.fwd;
    assert forall g :: g in t.bwd ==> g in s.bwd || (step.posts != [] && g == step.posts[0]);
    assert forall e :: e in s.lh ==> e in t.lh;
    assert forall e :: e in t.lh ==> e in s.lh || (step.events != [] && e == step.events[0]);
    assert step.events != [] ==> step.events[0] in t.lh;
  }

  /** The request at the head of the queue starts a run. */
  predicate Starts(s: System) {
    && s.fwd != [] && s.fwd[0].Req? && !s.h.disposed
    && s.fwd[0].name in (if s.fwd[0].stream then s.h.streamHandlers else s.h.callHandlers)
  }

  lemma StartPhaseOf(s: System, t: System, id: RpcId)
    requires s.fwd != [] && s.fwd[0].Req? && t == HandlerActs(s, DoDeliver) && PhaseOf(s.lh, s.fwd[0].id).Idle?
    ensures PhaseOf(t.lh, id)
            == if id != s.fwd[0].id || s.h.disposed then PhaseOf(s.lh, id)
               else if Starts(s) then Running(s.fwd[0].stream) else Finished
  {
    hide PhaseOf, LifeOf, Heard, Spoken, NoHandler;
    assert s.lh + [] == s.lh;
    var step := Dispatch(s.h, s.fwd[0]);
    if step.events != [] { LogAppend(s.lh, step.events[0], id); }
  }

  lemma StartPhase(s: System, t: System)
    requires Places(s) && s.fwd != [] && s.fwd[0].Req? && t == HandlerActs(s, DoDeliver)
    ensures PhaseOf(s.lh, s.fwd[0].id).Idle?
    ensures forall id: RpcId :: PhaseOf(t.lh, id)
                         == if id != s.fwd[0].id || s.h.disposed then PhaseOf(s.lh, id)
                            else if Starts(s) then Running(s.fwd[0].stream) else Finished
  {
    hide HandlerActs, PhaseOf, Starts;
    QueueMember(s.fwd, s.fwd[0]);
    assert PlacesOf(s, s.fwd[0].id);
    hide Places, PlacesOf;
    forall id: RpcId
      ensures PhaseOf(t.lh, id)
              == if id != s.fwd[0].id || s.h.disposed then PhaseOf(s.lh, id)
                 else if Starts(s) then Running(s.fwd[0].stream) else Finished
    {
      StartPhaseOf(s, t, id);
    }
  }

  lemma StartTable(s: System, t: System)
    requires RunTable(s) && Starts(s) && t == HandlerActs(s, DoDeliver)
    requires PhaseOf(s.lh, s.fwd[0].id).Idle?
    requires forall id: RpcId :: PhaseOf(t.lh, id)
                                 == if id == s.fwd[0].id then Running(s.fwd[0].stream) else PhaseOf(s.lh, id)
    ensures RunTable(t) && ActiveRun(t.h, s.h.nextRun, s.fwd[0].id)
    ensures forall r :: r in s.h.runs ==> s.h.runs[r].id != s.fwd[0].id
    ensures s.h.nextRun !in s.h.runs
    ensures t.h.runs == s.h.runs[s.h.nextRun := Run(s.fwd[0].id, s.fwd[0].stream, true)]
    ensures t.h.inbound == s.h.inbound[s.fwd[0].id := s.h.nextRun]
    ensures t.h.aborted == s.h.aborted && t.h.nextRun == s.h.nextRun + 1
  {
    hide PhaseOf, NoHandler;
  }

  lemma StartSignals(s: System, t: System)
    requires RunSignals(s) && Starts(s) && t == HandlerActs(s, DoDeliver)
    requires s.h.nextRun !in s.h.runs && forall r :: r in s.h.runs ==> s.h.runs[r].id != s.fwd[0].id
    ensures RunSignals(t)
  {
    hide NoHandler;
    assert t.c == s.c;
    assert forall r :: r in t.h.runs ==> r in s.h.runs || r == s.h.nextRun;
    assert forall r :: r in s.h.runs ==> t.h.runs[r] == s.h.runs[r];
  }

  lemma RefuseRuns(s: System, t: System)
    requires RunTable(s) && RunSignals(s) && s.fwd != [] && s.fwd[0].Req? && !Starts(s)
    requires t == HandlerActs(s, DoDeliver)
    requires forall r :: r in s.h.runs ==> s.h.runs[r].id != s.fwd[0].id
    requires forall id: RpcId :: id != s.fwd[0].id ==> PhaseOf(t.lh, id) == PhaseOf(s.lh, id)
    ensures RunTable(t) && RunSignals(t)
  {
    hide PhaseOf, NoHandler;
  }

  lemma StartRuns(s: System, t: System)
    requires Places(s) && Runs(s) && s.fwd != [] && s.fwd[0].Req? && t == HandlerActs(s, DoDeliver)
    ensures Runs(t)
  {
    StartPhase(s, t);
    hide Terms, Reqs, PhaseOf, Places;
    if Starts(s) {
      StartTable(s, t);
      StartSignals(s, t);
    } else {
      assert forall r :: r in s.h.runs ==> s.h.runs[r].id != s.fwd[0].id;
      RefuseRuns(s, t);
    }
    KeptRuns(s, t);
    hide HandlerActs, RunTable, RunSignals;
    WitnessKept(s, t);
  }

  lemma KeptRuns(s: System, t: System)
    requires RunTable(s) && s.fwd != [] && s.fwd[0].Req? && t == HandlerActs(s, DoDeliver)
    ensures forall r :: r in s.h.runs ==> r in t.h.runs && t.h.runs[r] == s.h.runs[r]
    ensures Starts(s) ==> ActiveRun(t.h, s.h.nextRun, s.fwd[0].id)
  {
    hide PhaseOf, NoHandler;
  }

  lemma WitnessKept(s: System, t: System)
    requires RunWitness(s) && (forall r :: r in s.h.runs ==> r in t.h.runs && t.h.runs[r] == s.h.runs[r])
    requires forall id: RpcId :: PhaseOf(t.lh, id).Running? ==>
               PhaseOf(s.lh, id).Running? || exists r :: ActiveRun(t.h, r, id)
    ensures RunWitness(t)
  {
    hide PhaseOf;
    forall id: RpcId | PhaseOf(t.lh, id).Running? ensures exists r :: ActiveRun(t.h, r, id) {
      if PhaseOf(s.lh, id).Running? {
        var r :| ActiveRun(s.h, r, id);
        assert ActiveRun(t.h, r, id);
      }
    }
  }

  lemma CancelRuns(s: System, t: System)
    requires Kinds(s) && Runs(s) && s.fwd != [] && s.fwd[0].Cancel? && t == HandlerActs(s, DoDeliver)
    ensures Runs(t)
  {
    hide PhaseOf;
    assert s.fwd[0] in s.fwd;
    assert s.lh + [] == s.lh;
    WitnessKept(s, t);
  }

  lemma RequestKeeps(s: System)
    requires Inv(s) && s.fwd != []
    ensures Inv(HandlerActs(s, DoDeliver))
  {
    var t := HandlerActs(s, DoDeliver);
    assert s.fwd[0] in s.fwd && IsRequest(s.fwd[0]);
    assert s.lc == t.lc && s.c == t.c;
    assert Lives(t);
    hide Lives, Places, Kinds, Runs, Streams, Causes;
    RequestPlaces(s, t);
    RequestStreams(s, t);
    RequestKinds(s, t);
    RequestCauses(s, t);
    if s.fwd[0].Req? { StartRuns(s, t); } else { CancelRuns(s, t); }
  }

  // ------------------------------------------------------- send, return, dispose

  lemma SendKeeps(s: System, run: nat, msg: Payload)
    requires Inv(s) && Enabled(s.h, s.fwd, DoSend(run, msg))
    ensures Inv(HandlerActs(s, DoSend(run, msg)))
  {
    var t := HandlerActs(s, DoSend(run, msg));
    assert Lives(t);
    forall id: RpcId ensures PhaseOf(t.lh, id) == PhaseOf(s.lh, id) {
      LogAppend(s.lh, Sent(s.h.runs[run].id, msg), id);
    }
    hide Lives, Places, Kinds, RunTable, RunWitness, RunSignals, Streams, Causes, PhaseOf;
    SendPlaces(s, t, run, msg);
    SendStreams(s, t, run, msg);
    SendKinds(s, t, run, msg);
    SendRuns(s, t, run, msg);
    SendCauses(s, t, run, msg);
  }

  lemma SendPlaces(s: System, t: System, run: nat, msg: Payload)
    requires Places(s) && Enabled(s.h, s.fwd, DoSend(run, msg)) && t == HandlerActs(s, DoSend(run, msg))
    ensures Places(t)
  {
    var id0 := s.h.runs[run].id;
    assert s.bwd + [] == s.bwd;
    forall id: RpcId ensures PlacesOf(t, id) {
      assert PlacesOf(s, id);
      LogAppend(s.lh, Sent(id0, msg), id);
      QueueAppend(s.bwd, Msg(id0, msg), id);
    }
  }

  lemma SendStreams(s: System, t: System, run: nat, msg: Payload)
    requires Streams(s) && Places(s) && Kinds(s) && Runs(s)
    requires Enabled(s.h, s.fwd, DoSend(run, msg)) && t == HandlerActs(s, DoSend(run, msg))
    ensures Streams(t)
  {
    hide Reqs, Heard, Early, Spoken, PhaseOf, LifeOf, Terms;
    var id0 := s.h.runs[run].id;
    assert s.bwd + [] == s.bwd;
    forall id: RpcId ensures StreamOf(t, id) {
      assert StreamOf(s, id) && PlacesOf(s, id);
      LogAppend(s.lh, Sent(id0, msg), id);
      QueueAppend(s.bwd, Msg(id0, msg), id);
      Assoc(Heard(s.lc, id), Early(s.bwd, id), [msg]);
    }
  }

  lemma SendKinds(s: System, t: System, run: nat, msg: Payload)
    requires Places(s) && Kinds(s) && RunTable(s)
    requires forall id: RpcId :: PhaseOf(t.lh, id) == PhaseOf(s.lh, id)
    requires Enabled(s.h, s.fwd, DoSend(run, msg)) && t == HandlerActs(s, DoSend(run, msg))
    ensures Kinds(t)
  {
    var id0 := s.h.runs[run].id;
    assert PlacesOf(s, id0);
    hide PhaseOf, Reqs, Terms;
    assert forall f :: f in t.bwd ==> f in s.bwd || f == Msg(id0, msg);
  }

  lemma SendCauses(s: System, t: System, run: nat, msg: Payload)
    requires Causes(s) && Enabled(s.h, s.fwd, DoSend(run, msg)) && t == HandlerActs(s, DoSend(run, msg))
    ensures Causes(t)
  {
    assert forall e :: e in s.lh ==> e in t.lh;
    assert forall e :: e in t.lh ==> e in s.lh || e.Sent?;
    assert forall f :: f in t.bwd ==> f in s.bwd || f.Msg?;
  }

  lemma SendRuns(s: System, t: System, run: nat, msg: Payload)
    requires Runs(s) && Enabled(s.h, s.fwd, DoSend(run, msg)) && t == HandlerActs(s, DoSend(run, msg))
    requires forall id: RpcId :: PhaseOf(t.lh, id) == PhaseOf(s.lh, id)
    ensures Runs(t)
  {
    hide PhaseOf;
    WitnessKept(s, t);
  }

  lemma ReturnPlaces(s: System, t: System, run: nat, reply: Reply)
    requires Places(s) && Runs(s) && Enabled(s.h, s.fwd, DoReturn(run, reply))
    requires t == HandlerActs(s, DoReturn(run, reply))
    ensures Places(t)
  {
    var id0 := s.h.runs[run].id;
    assert s.bwd + [] == s.bwd;
    forall id: RpcId ensures PlacesOf(t, id) {
      assert PlacesOf(s, id);
      LogAppend(s.lh, Returned(id0, reply), id);
      QueueAppend(s.bwd, Terminal(id0, reply), id);
      hide PhaseOf, Reqs, Terms;
    }
  }

  lemma ReturnStream(s: System, t: System, run: nat, reply: Reply, id: RpcId)
    requires StreamOf(s, id) && PlacesOf(s, id) && Runs(s)
    requires Enabled(s.h, s.fwd, DoReturn(run, reply)) && t == HandlerActs(s, DoReturn(run, reply))
    ensures StreamOf(t, id)
  {
    hide Heard, Early, Spoken, PhaseOf, LifeOf, Terms, Reqs;
    var id0 := s.h.runs[run].id;
    assert s.bwd + [] == s.bwd;
    LogAppend(s.lh, Returned(id0, reply), id);
    QueueAppend(s.bwd, Terminal(id0, reply), id);
  }

  lemma ReturnStreams(s: System, t: System, run: nat, reply: Reply)
    requires Streams(s) && Places(s) && Runs(s)
    requires Enabled(s.h, s.fwd, DoReturn(run, reply)) && t == HandlerActs(s, DoReturn(run, reply))
    ensures Streams(t)
  {
    hide HandlerActs;
    forall id: RpcId ensures StreamOf(t, id) {
      assert StreamOf(s, id) && PlacesOf(s, id);
      ReturnStream(s, t, run, reply, id);
    }
  }

  lemma ReturnPhase(s: System, t: System, run: nat, reply: Reply)
    requires Enabled(s.h, s.fwd, DoReturn(run, reply)) && t == HandlerActs(s, DoReturn(run, reply))
    requires RunTable(s)
    ensures forall id: RpcId :: PhaseOf(t.lh, id) == if id == s.h.runs[run].id then Finished else PhaseOf(s.lh, id)
  {
    var e0 := Returned(s.h.runs[run].id, reply);
    forall id: RpcId ensures PhaseOf(t.lh, id) == NextPhase(PhaseOf(s.lh, id), e0, id) { LogAppend(s.lh, e0, id); }
  }

  lemma ReturnRuns(s: System, t: System, run: nat, reply: Reply)
    requires Runs(s) && Enabled(s.h, s.fwd, DoReturn(run, reply)) && t == HandlerActs(s, DoReturn(run, reply))
    ensures Runs(t)
  {
    ReturnPhase(s, t, run, reply);
    hide PhaseOf;
    ReturnSignals(s, t, run, reply);
    var id0 := s.h.runs[run].id;
    assert t.h.runs == s.h.runs[run := Run(id0, s.h.runs[run].stream, false)] && t.h.inbound == s.h.inbound - {id0};
    assert RunTable(t);
    ReturnWitness(s, t, run, reply);
  }

  lemma ReturnSignals(s: System, t: System, run: nat, reply: Reply)
    requires RunTable(s) && RunSignals(s)
    requires Enabled(s.h, s.fwd, DoReturn(run, reply)) && t == HandlerActs(s, DoReturn(run, reply))
    ensures RunSignals(t)
  {
    hide PhaseOf;
  }

  lemma ReturnWitness(s: System, t: System, run: nat, reply: Reply)
    requires RunWitness(s) && Enabled(s.h, s.fwd, DoReturn(run, reply)) && t == HandlerActs(s, DoReturn(run, reply))
    requires forall id: RpcId :: PhaseOf(t.lh, id).Running? ==> PhaseOf(s.lh, id).Running? && id != s.h.runs[run].id
    ensures RunWitness(t)
  {
    hide PhaseOf;
    forall id: RpcId | PhaseOf(t.lh, id).Running? ensures exists r :: ActiveRun(t.h, r, id) {
      var r :| ActiveRun(s.h, r, id);
      assert ActiveRun(t.h, r, id);
    }
  }

  lemma ReturnKinds(s: System, t: System, run: nat, reply: Reply)
    requires Places(s) && Kinds(s) && RunTable(s)
    requires Enabled(s.h, s.fwd, DoReturn(run, reply)) && t == HandlerActs(s, DoReturn(run, reply))
    requires forall id: RpcId :: PhaseOf(t.lh, id) == if id == s.h.runs[run].id then Finished else PhaseOf(s.lh, id)
    ensures Kinds(t)
  {
    var id0 := s.h.runs[run].id;
    assert PlacesOf(s, id0);
    hide PhaseOf, Reqs, Terms;
    assert forall f :: f in t.bwd ==> f in s.bwd || f == Terminal(id0, reply);
  }

  lemma ReturnCauses(s: System, t: System, run: nat, reply: Reply)
    requires Causes(s)
    requires Enabled(s.h, s.fwd, DoReturn(run, reply)) && t == HandlerActs(s, DoReturn(run, reply))
    ensures Causes(t)
  {
    var id0, e0 := s.h.runs[run].id, Returned(s.h.runs[run].id, reply);
    assert forall e :: e in s.lh ==> e in t.lh;
    assert forall e :: e in t.lh ==> e in s.lh || e == e0;
    assert e0 in t.lh;
    assert forall f :: f in t.bwd ==> f in s.bwd || f == Terminal(id0, reply);
  }

  lemma ReturnKeeps(s: System, run: nat, reply: Reply)
    requires Inv(s) && Enabled(s.h, s.fwd, DoReturn(run, reply))
    ensures Inv(HandlerActs(s, DoReturn(run, reply)))
  {
    var t := HandlerActs(s, DoReturn(run, reply));
    assert Lives(t);
    hide Lives, Places, Kinds, RunTable, RunWitness, RunSignals, Streams, Causes;
    ReturnPlaces(s, t, run, reply);
    ReturnStreams(s, t, run, reply);
    ReturnRuns(s, t, run, reply);
    ReturnPhase(s, t, run, reply);
    ReturnKinds(s, t, run, reply);
    ReturnCauses(s, t, run, reply);
  }

  lemma CloseOnly(s: System)
    requires s.h.calls == [] && s.h.streams == []
    ensures var t := HandlerActs(s, DoDispose);
            && t == s.(h := t.h)
            && (t == s || (t.h.disposed && t.h.inbound == map[]))
            && t.h.runs == s.h.runs && t.h.nextRun == s.h.nextRun
            && forall r :: r in t.h.aborted ==> r in s.h.aborted || r in s.h.inbound.Values
  {
    assert RejectAll([]) + RejectAll([]) == [];
    assert s.bwd + [] == s.bwd && s.lh + [] == s.lh;
  }

  /** The handling peer is disposed of; it has no calls of its own here. */
  lemma CloseKeeps(s: System)
    requires Inv(s) && s.h.calls == [] && s.h.streams == []
    ensures Inv(HandlerActs(s, DoDispose))
  {
    hide LifeOf, PhaseOf, Heard, Spoken, Early, Terms, Reqs, Answered, HandlerActs;
    var t := HandlerActs(s, DoDispose);
    CloseOnly(s);
    assert Lives(t) && Kinds(t) && Causes(t);
    CloseRuns(s, t);
    hide Lives, Kinds, Causes, Runs;
    forall id: RpcId ensures PlacesOf(t, id) && StreamOf(t, id) { assert PlacesOf(s, id) && StreamOf(s, id); }
  }

  lemma CloseRuns(s: System, t: System)
    requires Runs(s) && t == s.(h := t.h) && (t == s || (t.h.disposed && t.h.inbound == map[]))
    requires t.h.runs == s.h.runs && t.h.nextRun == s.h.nextRun
    requires forall r :: r in t.h.aborted ==> r in s.h.aborted || r in s.h.inbound.Values
    ensures Runs(t)
  {
    hide PhaseOf;
    WitnessKept(s, t);
  }

  lemma RegisterOnly(s: System, name: string, stream: bool)
    ensures var t := HandlerActs(s, DoHandle(name, stream));
            && t == s.(h := t.h)
            && t.h == s.h.(callHandlers := t.h.callHandlers, streamHandlers := t.h.streamHandlers)
  {
    assert s.bwd + [] == s.bwd && s.lh + [] == s.lh;
  }

  lemma RegisterKeeps(s: System, name: string, stream: bool)
    requires Inv(s)
    ensures Inv(HandlerActs(s, DoHandle(name, stream)))
  {
    hide LifeOf, PhaseOf, Heard, Spoken, Early, Terms, Reqs, Answered, HandlerActs;
    var t := HandlerActs(s, DoHandle(name, stream));
    RegisterOnly(s, name, stream);
    assert Lives(t) && Kinds(t) && Causes(t);
    RegisterRuns(s, t);
    hide Lives, Kinds, Causes, Runs;
    forall id: RpcId ensures PlacesOf(t, id) && StreamOf(t, id) { assert PlacesOf(s, id) && StreamOf(s, id); }
  }

  lemma RegisterRuns(s: System, t: System)
    requires Runs(s) && t == s.(h := t.h)
    requires t.h == s.h.(callHandlers := t.h.callHandlers, streamHandlers := t.h.streamHandlers)
    ensures Runs(t)
  {
    hide PhaseOf;
    WitnessKept(s, t);
  }
}
