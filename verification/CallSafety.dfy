/** Messages and answers keep the invariant of module CallProtocol too, and what follows for all runs. */
module CallSafety {
  import opened Wrappers
  import opened Json
  import opened CallProtocol
  import opened CallSteps
  import H = MessageHandler

  /** Forwarding a message that is legitimate now and on no cell yet. */
  lemma ForwardPreservesCells(s: State, s': State, topic: string, msg: Json)
    requires CellsInv(s) && Grows(s, s')
    requires s'.cells == Forward(s.cells, topic, msg) && Legitimate(s', topic, msg)
    requires !Legitimate(s, topic, msg)
    ensures CellsInv(s') && CellsMove(s, s')
    ensures forall c :: HandlersAt(s'.cells, c) == HandlersAt(s.cells, c)
  {
    forall c | c in s'.cells
      ensures CellInv(s', c)
    {
      assert CellInv(s, c);
      if s'.cells[c] == s.cells[c] {
        CellKept(s, s', c);
      } else {
        ForwardKeepsCell(s, s', c, topic, msg);
      }
    }
  }

  lemma CallIsNew(s: State, id: string)
    requires Inv(s) && id in s.calls && s.calls[id].status.Registered?
    ensures var topic, msg := s.calls[id].chan.topic, CallMessage(id, s.calls[id]);
            !Legitimate(s, topic, msg) && Legitimate(CallPublished(s, id), topic, msg) && Grows(s, CallPublished(s, id))
  {
    assert CallInv(s, id);
    var call := s.calls[id];
    var retval := if id in s.computed then s.computed[id].retval else Null;
    MessageParts(id, call, call.name, retval, s.owner[call.chan.topic]);
  }

  lemma PublishPreservesInv(s: State, id: string)
    requires Inv(s) && id in s.calls && s.calls[id].status.Registered?
    ensures Inv(CallPublished(s, id))
  {
    var s' := CallPublished(s, id);
    CallIsNew(s, id);
    ForwardPreservesCells(s, s', s.calls[id].chan.topic, CallMessage(id, s.calls[id]));
    StepKeeps(s, s', {id});
    PublishedCallInv(s, id);
  }

  lemma PublishedCallInv(s: State, id: string)
    requires Inv(s) && id in s.calls && s.calls[id].status.Registered?
    ensures CallInv(CallPublished(s, id), id)
  {
    assert CallInv(s, id);
  }

  /** The call that a provider serves: published on its topic, for its command, and not computed before. */
  lemma ServedCall(s: State, c: Chan)
    requires Inv(s) && Serving(s, c)
    ensures var work := s.cells[c].work;
            var id := IdOf(work.msg);
            && id in s.calls && id !in s.computed
            && work.msg == CallMessage(id, s.calls[id]) && work.tok.name == s.calls[id].name
            && s.calls[id].chan.topic == c.topic && c.topic in s.owner && s.owner[c.topic] == c.client
            && Command(c.topic, work.tok.name) in s.providers
               && s.providers[Command(c.topic, work.tok.name)] == work.tok
            && ArgsOf(work.msg) == s.calls[id].args
            && !s.calls[id].status.Registered?
  {
    var work := s.cells[c].work;
    var id := IdOf(work.msg);
    assert CellInv(s, c) && work.tok in s.cells[c].Live();
    assert Legitimate(s, c.topic, work.msg);
    DispatchOnTopic(s, c, work.tok, work.msg);
    ServedIsNotComputed(s, c, id);
  }

  lemma ServedIsNotComputed(s: State, c: Chan, id: string)
    requires Serving(s, c) && WorkInv(s.cells[c]) && Known(s, c, s.cells[c].work.tok)
    requires id in s.calls && s.cells[c].work.msg == CallMessage(id, s.calls[id])
    requires s.calls[id].chan.topic == c.topic && s.cells[c].work.tok.name == s.calls[id].name
    requires id in s.computed ==> ComputedInv(s, id)
    ensures id !in s.computed
  {
  }

  /** The provider's answer is a new message, and now legitimate. */
  lemma AnswerIsNew(s: State, c: Chan, retval: Json)
    requires Inv(s) && Serving(s, c)
    ensures var msg := AnswerMessage(s.cells[c].work, retval, c.client);
            && !Legitimate(Ended(s, c), c.topic, msg)
            && Legitimate(Answered(s, c, retval), c.topic, msg)
            && Grows(Ended(s, c), Answered(s, c, retval))
  {
    ServedCall(s, c);
    var work := s.cells[c].work;
    var id := IdOf(work.msg);
    MessageParts(id, s.calls[id], work.tok.name, retval, c.client);
    assert Grows(Ended(s, c), Answered(s, c, retval));
  }

  lemma NowComputed(s: State, c: Chan, retval: Json)
    requires Inv(s) && Serving(s, c)
    ensures IdOf(s.cells[c].work.msg) in Answered(s, c, retval).computed
    ensures ComputedInv(Answered(s, c, retval), IdOf(s.cells[c].work.msg))
  {
    ServedCall(s, c);
    assert CellInv(s, c);
    var s' := Answered(s, c, retval);
    var cell := s'.cells[c];
    assert s.cells[c].trace <= cell.trace;
    assert cell.trace[..cell.taken][cell.taken - 1] == s.cells[c].work.msg;
  }

  lemma EndPreservesInv(s: State, c: Chan)
    requires Inv(s) && c in s.cells && s.cells[c].work.Executing?
    ensures Inv(Ended(s, c))
  {
    assert CellInv(s, c);
    ThreadStepPreservesInv(s, Ended(s, c), c,
                           s.cells[c].(work := H.Dispatching(s.cells[c].work.msg, s.cells[c].work.todo)));
  }

  lemma AnswerPreservesInv(s: State, c: Chan, retval: Json)
    requires Inv(s) && Serving(s, c)
    ensures Inv(Answered(s, c, retval))
  {
    var s1 := Ended(s, c);
    var s' := Answered(s, c, retval);
    EndPreservesInv(s, c);
    AnswerIsNew(s, c, retval);
    ForwardPreservesCells(s1, s', c.topic, AnswerMessage(s.cells[c].work, retval, c.client));
    StepKeeps(s1, s', {});
    NowComputed(s, c, retval);
    assert s'.calls.Keys == s1.calls.Keys;
  }

  lemma TakePreservesInv(s: State, c: Chan)
    requires Inv(s) && c in s.cells && s.cells[c].work.Idle? && s.cells[c].taken < |s.cells[c].trace|
    ensures Inv(s.(cells := s.cells[c := CellTaken(s.cells[c])]))
  {
    ThreadStepPreservesInv(s, s.(cells := s.cells[c := CellTaken(s.cells[c])]), c, CellTaken(s.cells[c]));
  }

  lemma SnapshotPreservesInv(s: State, c: Chan)
    requires Inv(s) && c in s.cells && s.cells[c].work.Popped?
    ensures Inv(s.(cells := SetWork(s.cells, c, H.Dispatching(s.cells[c].work.msg, s.cells[c].handlers))))
  {
    assert CellInv(s, c);
    var work := H.Dispatching(s.cells[c].work.msg, s.cells[c].handlers);
    ThreadStepPreservesInv(s, s.(cells := SetWork(s.cells, c, work)), c, s.cells[c].(work := work));
  }

  lemma FinishPreservesInv(s: State, c: Chan)
    requires Inv(s) && c in s.cells && s.cells[c].work.Dispatching?
    ensures Inv(s.(cells := SetWork(s.cells, c, H.Idle)))
  {
    assert CellInv(s, c);
    ThreadStepPreservesInv(s, s.(cells := SetWork(s.cells, c, H.Idle)), c, s.cells[c].(work := H.Idle));
  }

  lemma StepPreservesInv(s: State, step: Step)
    requires Inv(s) && Enabled(s, step)
    ensures Inv(Apply(s, step))
  {
    match step
    case Provide(c, name, uid) => ProvidePreservesInv(s, c, name, H.Token(uid, name, "", H.Call));
    case Register(id, c, name, args, uid, parent) =>
      RegisterPreservesInv(s, id, Call(c, name, args, H.Token(uid, name, id, H.Result), parent, Registered));
    case Publish(id) => PublishPreservesInv(s, id);
    case Return(id) => ReturnPreservesInv(s, id);
    case Timeout(id) => TimeoutPreservesInv(s, id);
    case Take(c) => TakePreservesInv(s, c);
    case Snapshot(c) => SnapshotPreservesInv(s, c);
    case Start(c, tok) =>
      if ResultDue(s, c, tok) {
        FulfilPreservesInv(s, c, tok);
      } else {
        StartPreservesInv(s, c, tok);
      }
    case Answer(c, retval) => AnswerPreservesInv(s, c, retval);
    case End(c) => EndPreservesInv(s, c);
    case Finish(c) => FinishPreservesInv(s, c);
  }

  // ---- Runs ----

  lemma {:induction false} RunPreservesInv(s: State, steps: seq<Step>)
    requires Inv(s) && Run(s, steps).Some?
    ensures Inv(Run(s, steps).value)
    decreases |steps|
  {
    if steps != [] {
      StepPreservesInv(s, steps[0]);
      RunPreservesInv(Apply(s, steps[0]), steps[1..]);
    }
  }

  /** The result handler of a call that was made at `c` and is in flight or timed out. */
  predicate HandlerOfCall(calls: map<string, Call>, c: Chan, tok: H.Token) {
    && tok.id in calls && calls[tok.id].token == tok && calls[tok.id].chan == c
    && (calls[tok.id].InFlight() || calls[tok.id].status.TimedOut?)
  }

  lemma HandlersAreOfCalls(s: State, c: Chan, tok: H.Token)
    requires Inv(s) && tok.kind.Result?
    ensures tok in HandlersAt(s.cells, c) <==> HandlerOfCall(s.calls, c, tok)
  {
    if tok in HandlersAt(s.cells, c) {
      assert CellInv(s, c) && tok in s.cells[c].Live();
      assert CallInv(s, tok.id);
    }
    if HandlerOfCall(s.calls, c, tok) {
      assert CallInv(s, tok.id);
    }
  }

  /**
   * In every interleaving: a call that is fulfilled or has returned has the value its provider
   * computed for that call's arguments; no promise is set twice or after the return; and the
   * registered result handlers are exactly those of the calls in flight or timed out.
   */
  lemma CallsGetTheirOwnResults(s0: State, steps: seq<Step>, id: string)
    requires Init(s0) && Run(s0, steps).Some? && id in Run(s0, steps).value.calls
    ensures var s := Run(s0, steps).value;
            var call := s.calls[id];
            && (call.status.Fulfilled? || call.status.Returned? ==> AnsweredByProvider(s, id, call.status.retval))
            && !call.status.Broken?
            && (call.token in HandlersAt(s.cells, call.chan) <==> call.InFlight() || call.status.TimedOut?)
            && forall c, tok: H.Token :: tok.kind.Result? ==>
               (tok in HandlersAt(s.cells, c) <==> HandlerOfCall(s.calls, c, tok))
  {
    InitInv(s0);
    RunPreservesInv(s0, steps);
    var s := Run(s0, steps).value;
    assert CallInv(s, id);
    assert id in s.computed ==> ComputedInv(s, id);
    forall c, tok: H.Token | tok.kind.Result?
      ensures tok in HandlersAt(s.cells, c) <==> HandlerOfCall(s.calls, c, tok)
    {
      HandlersAreOfCalls(s, c, tok);
    }
  }

  /**
   * In every interleaving what a provider's handler serves is a published call of its command
   * that is not computed yet, with the call's own arguments.
   */
  lemma ServedOnce(s0: State, steps: seq<Step>, c: Chan, retval: Json)
    requires Init(s0) && Run(s0, steps).Some? && Serving(Run(s0, steps).value, c)
    ensures var s := Run(s0, steps).value;
            var id := IdOf(s.cells[c].work.msg);
            && id in s.calls && id !in s.computed && !s.calls[id].status.Registered?
            && Answered(s, c, retval).computed == s.computed[id := Computation(s.calls[id].args, retval)]
  {
    InitInv(s0);
    RunPreservesInv(s0, steps);
    ServedCall(Run(s0, steps).value, c);
  }

  // ---- What travels on command topics ----

  predicate IsCallOf(msg: Json, id: string, call: Call) {
    && At(msg, "name") == Some(Str(call.name)) && At(msg, "type") == Some(Str("call"))
    && At(msg, "data").Some?
    && var data := At(msg, "data").value;
       && At(data, "id") == Some(Str(id)) && At(data, "args") == Some(call.args)
       && At(data, "origin") == Some(Str(call.chan.client))
  }

  predicate IsResultOf(msg: Json, id: string, name: string, retval: Json, origin: string) {
    && At(msg, "name") == Some(Str(name)) && At(msg, "type") == Some(Str("result"))
    && At(msg, "data").Some?
    && var data := At(msg, "data").value;
       && At(data, "id") == Some(Str(id)) && At(data, "retval") == Some(retval)
       && At(data, "origin") == Some(Str(origin))
  }

  /**
   * In every interleaving each message on a command topic is a call made there, with its id, name,
   * arguments and caller, or the result that was computed for one, with its id, name and value
   * and the module that the topic names.
   */
  lemma MessagesOnTopics(s0: State, steps: seq<Step>, c: Chan, i: nat)
    requires Init(s0) && Run(s0, steps).Some? && c in Run(s0, steps).value.cells
    requires i < |Run(s0, steps).value.cells[c].trace|
    ensures var s := Run(s0, steps).value;
            var msg := s.cells[c].trace[i];
            exists id :: id in s.calls && s.calls[id].chan.topic == c.topic
              && (|| IsCallOf(msg, id, s.calls[id])
                  || (id in s.computed && c.topic in s.owner
                      && IsResultOf(msg, id, s.calls[id].name, s.computed[id].retval, s.owner[c.topic])))
  {
    InitInv(s0);
    RunPreservesInv(s0, steps);
    var s := Run(s0, steps).value;
    assert CellInv(s, c);
    assert Legitimate(s, c.topic, s.cells[c].trace[i]);
    var id := IdOf(s.cells[c].trace[i]);
    assert id in s.calls;
  }
}
