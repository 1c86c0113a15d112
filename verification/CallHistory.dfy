/** A command's handler is started at most once for a call, whether or not it answers. */
module CallHistory {
  import opened Wrappers
  import opened Json
  import opened CallProtocol
  import opened CallSteps
  import opened CallSafety
  import H = MessageHandler

  lemma StartMovesCells(s: State, c: Chan, tok: H.Token)
    requires Inv(s) && Enabled(s, Start(c, tok))
    ensures CellsMove(s, Started(s, c, tok))
  {
    var s', cell := Started(s, c, tok), s.cells[c].(work := StartedWork(s.cells[c].work, tok));
    if ResultDue(s, c, tok) {
      PromiseValue(s, c, tok);
    }
    if s'.calls == s.calls {
      StartMoves(s, c, tok);
      ThreadStepKeepsCells(s, s', c, cell);
    } else {
      FulfilMovesCells(s, s', c, tok);
    }
  }

  lemma AnswerMovesCells(s: State, c: Chan, retval: Json)
    requires Inv(s) && Serving(s, c)
    ensures CellsMove(s, Answered(s, c, retval))
  {
    var s1, s' := Ended(s, c), Answered(s, c, retval);
    EndPreservesInv(s, c);
    AnswerIsNew(s, c, retval);
    ForwardPreservesCells(s1, s', c.topic, AnswerMessage(s.cells[c].work, retval, c.client));
    forall d | d in s.cells
      ensures Advances(s.cells[d], s'.cells[d]) && StartsOnlyTodo(s.cells[d], s'.cells[d])
    {
      assert s'.cells[d].work == s1.cells[d].work && s'.cells[d].taken == s1.cells[d].taken;
    }
  }

  lemma CallStepMovesCells(s: State, step: Step)
    requires Inv(s) && Enabled(s, step)
    requires step.Provide? || step.Register? || step.Publish? || step.Return? || step.Timeout?
    ensures CellsMove(s, Apply(s, step))
  {
    var s' := Apply(s, step);
    match step
    case Provide(c, name, uid) => AddedHandlerKeepsCells(s, s', c, H.Token(uid, name, "", H.Call));
    case Register(id, c, name, args, uid, parent) => AddedHandlerKeepsCells(s, s', c, H.Token(uid, name, id, H.Result));
    case Publish(id) =>
      CallIsNew(s, id);
      ForwardPreservesCells(s, s', s.calls[id].chan.topic, CallMessage(id, s.calls[id]));
    case Return(id) =>
      assert CallInv(s, id);
      ReturnMovesCells(s, id);
    case Timeout(id) => QuietStepKeepsCells(s, s');
  }

  lemma TakeMovesCells(s: State, c: Chan)
    requires Inv(s) && Enabled(s, Take(c))
    ensures CellsMove(s, Apply(s, Take(c)))
  {
    assert CellInv(s, c);
    ThreadStepKeepsCells(s, Apply(s, Take(c)), c, CellTaken(s.cells[c]));
  }

  /** The thread of a cell goes on with the message that it has. */
  lemma WorkMovesCells(s: State, c: Chan, work: H.Work)
    requires Inv(s) && c in s.cells && !s.cells[c].work.Idle?
    requires || work.Idle?
             || (s.cells[c].work.Popped? && work == H.Dispatching(s.cells[c].work.msg, s.cells[c].handlers))
             || (s.cells[c].work.Executing? && work == H.Dispatching(s.cells[c].work.msg, s.cells[c].work.todo))
    ensures CellsMove(s, s.(cells := SetWork(s.cells, c, work)))
  {
    assert CellInv(s, c);
    ThreadStepKeepsCells(s, s.(cells := SetWork(s.cells, c, work)), c, s.cells[c].(work := work));
  }

  /** In every step threads only go on, messages are added at the end, and calls and providers stay. */
  lemma StepMovesCells(s: State, step: Step)
    requires Inv(s) && Enabled(s, step)
    ensures CellsMove(s, Apply(s, step))
  {
    match step
    case Start(c, tok) => StartMovesCells(s, c, tok);
    case Answer(c, retval) => AnswerMovesCells(s, c, retval);
    case Take(c) => TakeMovesCells(s, c);
    case Snapshot(c) => WorkMovesCells(s, c, H.Dispatching(s.cells[c].work.msg, s.cells[c].handlers));
    case End(c) => WorkMovesCells(s, c, H.Dispatching(s.cells[c].work.msg, s.cells[c].work.todo));
    case Finish(c) => WorkMovesCells(s, c, H.Idle);
    case _ => CallStepMovesCells(s, step);
  }

  lemma GrowsTransitive(a: State, b: State, c: State)
    requires Grows(a, b) && Grows(b, c)
    ensures Grows(a, c)
  {
  }

  /** What a thread is done with stays done with, over every run. */
  lemma {:induction false} RunKeepsConsumed(s: State, steps: seq<Step>, c: Chan, msg: Json, tok: H.Token)
    requires Inv(s) && Run(s, steps).Some?
    requires c in s.cells && Consumed(s.cells[c], msg, tok)
    ensures var s' := Run(s, steps).value;
            Grows(s, s') && c in s'.cells && Consumed(s'.cells[c], msg, tok)
    decreases |steps|
  {
    if steps != [] {
      var s1 := Apply(s, steps[0]);
      StepPreservesInv(s, steps[0]);
      StepMovesCells(s, steps[0]);
      assert CellInv(s, c) && CellInv(s1, c);
      ConsumedKept(s.cells[c], s1.cells[c], msg, tok);
      RunKeepsConsumed(s1, steps[1..], c, msg, tok);
      GrowsTransitive(s, s1, Run(s, steps).value);
    }
  }

  /** The step calls the handler of a command with a call. */
  predicate StartsService(s: State, c: Chan, tok: H.Token) {
    && c in s.cells && s.cells[c].work.Dispatching? && tok in s.cells[c].work.todo
    && tok.kind.Call? && H.Dispatch(tok, s.cells[c].work.msg).Invoke?
  }

  /** The call, the provider and the place are determined by the id. */
  lemma ServiceStarted(s: State, c: Chan, tok: H.Token)
    requires Inv(s) && StartsService(s, c, tok)
    ensures var msg := s.cells[c].work.msg;
            var id := IdOf(msg);
            && id in s.calls && msg == CallMessage(id, s.calls[id])
            && c.topic == s.calls[id].chan.topic && c.topic in s.owner && c.client == s.owner[c.topic]
            && Command(c.topic, s.calls[id].name) in s.providers
            && tok == s.providers[Command(c.topic, s.calls[id].name)]
  {
    assert CellInv(s, c) && tok in s.cells[c].Live();
    DispatchOnTopic(s, c, tok, s.cells[c].work.msg);
  }

  lemma StartConsumes(s: State, c: Chan, tok: H.Token)
    requires Inv(s) && StartsService(s, c, tok)
    ensures Consumed(Started(s, c, tok).cells[c], s.cells[c].work.msg, tok)
  {
    var cell := s.cells[c];
    assert CellInv(s, c);
    assert cell.trace[..cell.taken][cell.taken - 1] == cell.work.msg;
  }

  /**
   * In every interleaving two starts of command handlers, on whatever channels, are for different
   * calls: also a service that ended without an answer is never repeated.
   */
  lemma ServedAtMostOnce(s0: State, before: seq<Step>, s1: State, c: Chan, tok: H.Token,
                         after: seq<Step>, s2: State, c': Chan, tok': H.Token)
    requires Init(s0) && Run(s0, before) == Some(s1) && StartsService(s1, c, tok)
    requires Run(Apply(s1, Start(c, tok)), after) == Some(s2) && StartsService(s2, c', tok')
    ensures IdOf(s1.cells[c].work.msg) != IdOf(s2.cells[c'].work.msg)
  {
    var msg := s1.cells[c].work.msg;
    InitInv(s0);
    RunPreservesInv(s0, before);
    ServiceStarted(s1, c, tok);
    StartConsumes(s1, c, tok);
    StepPreservesInv(s1, Start(c, tok));
    StepMovesCells(s1, Start(c, tok));
    RunKeepsConsumed(Started(s1, c, tok), after, c, msg, tok);
    GrowsTransitive(s1, Started(s1, c, tok), s2);
    RunPreservesInv(Started(s1, c, tok), after);
    ServiceStarted(s2, c', tok');
  }
}
