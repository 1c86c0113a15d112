/** The steps of handler threads, of offers and of callers keep the invariant of module CallProtocol. */
module CallSteps {
  import opened Wrappers
  import opened Json
  import opened CallProtocol
  import H = MessageHandler

  /** The distribution test on call and result messages: name, then type, then call id. */
  lemma DispatchOnTopic(s: State, c: Chan, tok: H.Token, msg: Json)
    requires Legitimate(s, c.topic, msg) && Known(s, c, tok)
    ensures var id := IdOf(msg);
            && !H.Dispatch(tok, msg).Throw?
            && (H.Dispatch(tok, msg).Invoke? ==> At(msg, "data") == Some(H.Dispatch(tok, msg).arg))
            && (tok.kind.Call? ==>
                  (H.Dispatch(tok, msg).Invoke? <==>
                     msg == CallMessage(id, s.calls[id]) && tok.name == s.calls[id].name))
            && (tok.kind.Result? ==>
                  (H.Dispatch(tok, msg).Invoke? <==>
                     id in s.computed && msg == ResultOf(s, id) && tok.id == id && tok.name == s.calls[id].name))
  {
  }

  lemma StartMoves(s: State, c: Chan, tok: H.Token)
    requires CellsInv(s) && c in s.cells && s.cells[c].work.Dispatching? && tok in s.cells[c].work.todo
    ensures ThreadMoves(s.cells[c], s.cells[c].(work := StartedWork(s.cells[c].work, tok)))
  {
    assert CellInv(s, c) && tok in s.cells[c].Live();
    DispatchOnTopic(s, c, tok, s.cells[c].work.msg);
  }

  /** The thread of a cell starts a handler that fulfils no promise. */
  lemma StartPreservesInv(s: State, c: Chan, tok: H.Token)
    requires Inv(s) && c in s.cells && s.cells[c].work.Dispatching? && tok in s.cells[c].work.todo
    requires Started(s, c, tok).calls == s.calls
    ensures Inv(Started(s, c, tok))
  {
    StartMoves(s, c, tok);
    ThreadStepPreservesInv(s, Started(s, c, tok), c, s.cells[c].(work := StartedWork(s.cells[c].work, tok)));
  }

  lemma ResultDueIsOwn(s: State, c: Chan, tok: H.Token)
    requires CellsInv(s) && ResultDue(s, c, tok)
    ensures tok.id in s.calls && tok.id in s.computed && s.calls[tok.id].chan == c && s.calls[tok.id].token == tok
    ensures c.topic in s.owner && s.cells[c].work.msg == ResultOf(s, tok.id)
  {
    assert CellInv(s, c) && tok in s.cells[c].Live();
    DispatchOnTopic(s, c, tok, s.cells[c].work.msg);
  }

  /** A result handler only runs for a computed call of its own that waits, or has timed out. */
  lemma ResultOnlyOnce(s: State, c: Chan, tok: H.Token)
    requires Inv(s) && ResultDue(s, c, tok)
    ensures tok.id in s.calls && (s.calls[tok.id].status.Waiting? || s.calls[tok.id].status.TimedOut?)
  {
    ResultDueIsOwn(s, c, tok);
    assert CallInv(s, tok.id);
    PublishedWhenComputed(s, tok.id);
  }

  lemma PublishedWhenComputed(s: State, id: string)
    requires CellsInv(s) && id in s.computed && ComputedInv(s, id)
    ensures id in s.calls && !s.calls[id].status.Registered?
  {
    var call := s.calls[id];
    var c := Chan(s.owner[call.chan.topic], call.chan.topic);
    var cell := s.cells[c];
    var msg := CallMessage(id, call);
    assert CellInv(s, c);
    var i :| 0 <= i < cell.taken && cell.trace[i] == msg;
    assert Legitimate(s, c.topic, cell.trace[i]);
    MessageParts(id, call, call.name, s.computed[id].retval, s.owner[call.chan.topic]);
  }

  /** The data that a result handler is called with. */
  lemma ResultData(s: State, c: Chan, tok: H.Token)
    requires CellsInv(s) && ResultDue(s, c, tok)
    ensures var data := H.Dispatch(tok, s.cells[c].work.msg).arg;
            && tok.id in s.computed
            && At(data, "id") == Some(Str(tok.id))
            && At(data, "retval") == Some(s.computed[tok.id].retval)
  {
    ResultDueIsOwn(s, c, tok);
    var msg := s.cells[c].work.msg;
    assert Some(H.Dispatch(tok, msg).arg) == At(msg, "data");
  }

  /** A result handler that runs fulfils the promise of its waiting call with the computed value. */
  lemma PromiseValue(s: State, c: Chan, tok: H.Token)
    requires Inv(s) && ResultDue(s, c, tok)
    ensures tok.id in s.calls && tok.id in s.computed
    ensures Started(s, c, tok).calls ==
            if s.calls[tok.id].status.Waiting?
            then SetStatus(s.calls, tok.id, Fulfilled(s.computed[tok.id].retval)) else s.calls
  {
    var data := H.Dispatch(tok, s.cells[c].work.msg).arg;
    ResultOnlyOnce(s, c, tok);
    ResultData(s, c, tok);
    assert Started(s, c, tok).calls == HandleResult(s.calls, tok, data);
    if s.calls[tok.id].status.TimedOut? {
      assert s.calls[tok.id].(status := TimedOut) == s.calls[tok.id];
    }
  }

  lemma FulfilledCallInv(s: State, s': State, c: Chan, tok: H.Token)
    requires Inv(s) && ResultDue(s, c, tok)
    requires tok.id in s.calls && tok.id in s.computed
    requires s' == s.(cells := SetWork(s.cells, c, StartedWork(s.cells[c].work, tok)),
                      calls := SetStatus(s.calls, tok.id, Fulfilled(s.computed[tok.id].retval)))
    ensures CallInv(s', tok.id)
  {
    ResultDueIsOwn(s, c, tok);
    ResultOnlyOnce(s, c, tok);
    assert CellInv(s, c) && CallInv(s, tok.id);
    var cell := s.cells[c];
    assert cell.trace[..cell.taken][cell.taken - 1] == ResultOf(s, tok.id);
  }

  lemma FulfilMovesCells(s: State, s': State, c: Chan, tok: H.Token)
    requires CellsInv(s) && ResultDue(s, c, tok)
    requires tok.id in s.calls && tok.id in s.computed
    requires s' == s.(cells := SetWork(s.cells, c, StartedWork(s.cells[c].work, tok)),
                      calls := SetStatus(s.calls, tok.id, Fulfilled(s.computed[tok.id].retval)))
    ensures CellsInv(s') && CellsMove(s, s') && CallsStay(s, s', {tok.id})
  {
    StartMoves(s, c, tok);
    StatusGrows(s, s', tok.id, Fulfilled(s.computed[tok.id].retval));
    ThreadStepKeepsCells(s, s', c, s.cells[c].(work := StartedWork(s.cells[c].work, tok)));
  }

  lemma FulfilWaitingPreservesInv(s: State, s': State, c: Chan, tok: H.Token)
    requires Inv(s) && ResultDue(s, c, tok)
    requires tok.id in s.calls && tok.id in s.computed
    requires s' == s.(cells := SetWork(s.cells, c, StartedWork(s.cells[c].work, tok)),
                      calls := SetStatus(s.calls, tok.id, Fulfilled(s.computed[tok.id].retval)))
    ensures Inv(s')
  {
    FulfilMovesCells(s, s', c, tok);
    FulfilledCallInv(s, s', c, tok);
    OneCallStepKeeps(s, s', tok.id);
  }

  lemma FulfilPreservesInv(s: State, c: Chan, tok: H.Token)
    requires Inv(s) && ResultDue(s, c, tok)
    ensures Inv(Started(s, c, tok))
  {
    PromiseValue(s, c, tok);
    if s.calls[tok.id].status.Waiting? {
      FulfilWaitingPreservesInv(s, Started(s, c, tok), c, tok);
    } else {
      StartPreservesInv(s, c, tok);
    }
  }

  /** A new handler on a cell, known in the new state. */
  lemma AddHandlerIsQuiet(s: State, s': State, c: Chan, tok: H.Token)
    requires c in s.cells && CellInv(s, c) && Known(s', c, tok)
    ensures QuietChange(s', c, s.cells[c], AddHandler(s.cells[c], tok))
  {
    AddHandlerKeepsThread(s.cells[c], tok);
  }

  lemma AddHandlerKeepsThread(cell: Cell, tok: H.Token)
    requires WorkInv(cell) && (cell.handlers != {} ==> cell.subscribed)
    ensures var cell' := AddHandler(cell, tok);
            && cell'.trace == cell.trace && WorkInv(cell')
            && Advances(cell, cell') && StartsOnlyTodo(cell, cell')
            && cell'.subscribed && cell'.Live() == cell.Live() + {tok}
  {
    if cell.handlers == {} {
      assert cell.handlers + {tok} == {tok};
    }
  }

  lemma AddedHandlerKeepsCells(s: State, s': State, c: Chan, tok: H.Token)
    requires CellsInv(s) && Grows(s, s') && c in s.cells
    requires s'.cells == s.cells[c := AddHandler(s.cells[c], tok)] && Known(s', c, tok)
    ensures CellsInv(s') && CellsMove(s, s')
  {
    assert CellInv(s, c);
    AddHandlerIsQuiet(s, s', c, tok);
    OneQuietChange(s, s', c, AddHandler(s.cells[c], tok));
  }

  lemma ProvidePreservesInv(s: State, c: Chan, name: string, tok: H.Token)
    requires Inv(s) && c in s.cells && c.topic in s.owner && s.owner[c.topic] == c.client
    requires Command(c.topic, name) !in s.providers && tok.kind.Call? && tok.name == name
    ensures Inv(Provided(s, c, name, tok))
  {
    var s' := Provided(s, c, name, tok);
    AddedHandlerKeepsCells(s, s', c, tok);
    TokensAreResults(s);
    OtherHandlerChanges(s, s', tok);
    StepKeeps(s, s', {});
  }

  lemma TokensAreResults(s: State)
    requires Inv(s)
    ensures forall id :: id in s.calls ==> s.calls[id].token.kind.Result? && s.calls[id].token.id == id
  {
    forall id | id in s.calls
      ensures s.calls[id].token.kind.Result? && s.calls[id].token.id == id
    {
      assert CallInv(s, id);
    }
  }

  lemma RegisterPreservesInv(s: State, id: string, call: Call)
    requires Inv(s) && id !in s.calls && call.chan in s.cells && call.chan.topic in s.owner
    requires call.status.Registered? && call.token.kind.Result? && call.token.id == id && call.token.name == call.name
    ensures Inv(CallMade(s, id, call))
  {
    var s' := CallMade(s, id, call);
    AddedHandlerKeepsCells(s, s', call.chan, call.token);
    TokensAreResults(s);
    OtherHandlerChanges(s, s', call.token);
    StepKeeps(s, s', {});
    assert CallInv(s', id);
  }

  lemma RemoveHandlerIsQuiet(s: State, s': State, c: Chan, tok: H.Token)
    requires c in s.cells && CellInv(s, c)
    ensures QuietChange(s', c, s.cells[c], RemoveHandler(s.cells[c], tok))
  {
  }

  lemma RemovedHandlerKeepsCells(s: State, s': State, c: Chan, tok: H.Token)
    requires CellsInv(s) && Grows(s, s') && c in s.cells
    requires s'.cells == s.cells[c := RemoveHandler(s.cells[c], tok)]
    ensures CellsInv(s') && CellsMove(s, s')
  {
    assert CellInv(s, c);
    RemoveHandlerIsQuiet(s, s', c, tok);
    OneQuietChange(s, s', c, RemoveHandler(s.cells[c], tok));
  }

  lemma ReturnedCallsStay(s: State, id: string)
    requires Inv(s) && id in s.calls && s.calls[id].status.Fulfilled?
    ensures CallsStay(s, CallReturned(s, id), {id})
  {
    TokensAreResults(s);
  }

  lemma ReturnedCallInv(s: State, id: string)
    requires Inv(s) && id in s.calls && s.calls[id].status.Fulfilled?
    ensures CallInv(CallReturned(s, id), id)
  {
    assert CallInv(s, id);
    assert Consumed(s.cells[s.calls[id].chan], ResultOf(s, id), s.calls[id].token);
  }

  lemma ReturnMovesCells(s: State, id: string)
    requires CellsInv(s) && id in s.calls && s.calls[id].status.Fulfilled? && s.calls[id].chan in s.cells
    ensures CellsInv(CallReturned(s, id)) && CellsMove(s, CallReturned(s, id))
  {
    var s' := CallReturned(s, id);
    StatusGrows(s, s', id, Returned(s.calls[id].status.retval));
    RemovedHandlerKeepsCells(s, s', s.calls[id].chan, s.calls[id].token);
  }

  lemma ReturnPreservesInv(s: State, id: string)
    requires Inv(s) && id in s.calls && s.calls[id].status.Fulfilled?
    ensures Inv(CallReturned(s, id))
  {
    ReturnedCallInv(s, id);
    ReturnMovesCells(s, id);
    ReturnedCallsStay(s, id);
    OneCallStepKeeps(s, CallReturned(s, id), id);
  }

  lemma TimeoutPreservesInv(s: State, id: string)
    requires Inv(s) && id in s.calls && s.calls[id].status.Waiting?
    ensures Inv(s.(calls := SetStatus(s.calls, id, TimedOut)))
  {
    var s' := s.(calls := SetStatus(s.calls, id, TimedOut));
    QuietStepKeepsCells(s, s');
    StepKeeps(s, s', {id});
    assert CallInv(s, id);
  }
}
