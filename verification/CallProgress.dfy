/**
 * Progress of command calls: if every called command has its provider, handlers answer, and
 * nested calls follow an order on the command topics, then no state with a call in flight is
 * stuck, and without new calls every call in flight comes back.
 */
module CallProgress {
  import opened Wrappers
  import opened Json
  import opened Sums
  import opened CallProtocol
  import opened CallSafety
  import opened CallSteps
  import H = MessageHandler

  type Rank = map<string, nat>

  function RankOf(rank: Rank, topic: string): nat {
    if topic in rank then rank[topic] else 0
  }

  /** Calls go to provided commands, nested ones down the order, and validation drops no call. */
  predicate Orderly(s: State, rank: Rank, step: Step) {
    match step
    case Register(_, c, name, _, _, parent) =>
      && Command(c.topic, name) in s.providers
      && (parent.Some? ==> RankOf(rank, c.topic) < RankOf(rank, parent.value.topic))
    case End(c) => c in s.cells && s.cells[c].work.Executing? ==> s.cells[c].work.tok.kind.Result?
    case _ => true
  }

  // ---- What keeps calls going ----

  /** The cell's thread has yet to start `tok` for `msg`. */
  predicate Pending(cell: Cell, msg: Json, tok: H.Token) {
    && tok in cell.handlers
    && cell.taken <= |cell.trace|
    && (msg in cell.trace[cell.taken..]
        || (!cell.work.Idle? && cell.work.msg == msg && (cell.work.Popped? || tok in cell.work.Todo())))
  }

  predicate Running(cell: Cell, msg: Json, tok: H.Token) {
    cell.work.Executing? && cell.work.msg == msg && cell.work.tok == tok
  }

  predicate ProviderInv(s: State, cmd: Command)
    requires cmd in s.providers
  {
    && cmd.topic in s.owner
    && Chan(s.owner[cmd.topic], cmd.topic) in s.cells
    && s.providers[cmd] in s.cells[Chan(s.owner[cmd.topic], cmd.topic)].handlers
    && s.providers[cmd].kind.Call? && s.providers[cmd].name == cmd.name
  }

  /** A waiting call is still to be served by its provider, or its result still to be handed over. */
  predicate WaitingInv(s: State, id: string)
    requires id in s.calls && Command(s.calls[id].chan.topic, s.calls[id].name) in s.providers
    requires ProviderInv(s, Command(s.calls[id].chan.topic, s.calls[id].name)) && s.calls[id].chan in s.cells
  {
    var call := s.calls[id];
    var tok := s.providers[Command(call.chan.topic, call.name)];
    var server := s.cells[Chan(s.owner[call.chan.topic], call.chan.topic)];
    if id in s.computed then Pending(s.cells[call.chan], ResultOf(s, id), call.token)
    else Pending(server, CallMessage(id, call), tok) || Running(server, CallMessage(id, call), tok)
  }

  /** A nested call is lower in the order than the call being served, whose thread it blocks. */
  predicate ParentInv(s: State, rank: Rank, call: Call) {
    call.parent.Some? && call.InFlight() ==>
      Serving(s, call.parent.value) && RankOf(rank, call.chan.topic) < RankOf(rank, call.parent.value.topic)
  }

  predicate ProgressInv(s: State, rank: Rank, id: string)
    requires id in s.calls
  {
    var call := s.calls[id];
    var cmd := Command(call.chan.topic, call.name);
    && cmd in s.providers && ProviderInv(s, cmd) && call.chan in s.cells
    && (call.status.Waiting? ==> WaitingInv(s, id))
    && ParentInv(s, rank, call)
  }

  predicate LiveInv(s: State, rank: Rank) {
    && Inv(s)
    && (forall cmd {:trigger ProviderInv(s, cmd)} :: cmd in s.providers ==> ProviderInv(s, cmd))
    && (forall id {:trigger ProgressInv(s, rank, id)} :: id in s.calls ==> ProgressInv(s, rank, id))
  }

  // ---- No state is stuck ----

  /** Steps that finish what is under way: no new provider, no new call, no time-out. */
  predicate Advancing(step: Step) {
    !step.Provide? && !step.Register? && !step.Timeout?
  }

  predicate HasWork(cell: Cell) {
    !cell.work.Idle? || cell.taken < |cell.trace|
  }

  /** A cell with work has a step, if need be in a call that its handler waits for. */
  lemma ThreadMovesOn(s: State, rank: Rank, c: Chan) returns (step: Step)
    requires LiveInv(s, rank) && c in s.cells && HasWork(s.cells[c])
    ensures Enabled(s, step) && Orderly(s, rank, step) && Advancing(step)
    decreases RankOf(rank, c.topic), 0
  {
    assert CellInv(s, c);
    var cell := s.cells[c];
    match cell.work
    case Idle => step := Take(c);
    case Popped(_) => step := Snapshot(c);
    case Dispatching(_, todo) =>
      if todo == {} {
        step := Finish(c);
      } else {
        var tok :| tok in todo;
        step := Start(c, tok);
      }
    case Executing(_, _, tok) =>
      if Blocked(s.calls, c) {
        var id :| id in s.calls && s.calls[id].parent == Some(c) && s.calls[id].InFlight();
        assert ProgressInv(s, rank, id);
        step := CallMovesOn(s, rank, id);
      } else if tok.kind.Call? {
        step := Answer(c, Null);
      } else {
        assert tok in cell.Live();
        step := End(c);
      }
    case Failed(_, _) => assert false;
  }

  /** A call in flight always has a step that brings it, or a call it depends on, further. */
  lemma CallMovesOn(s: State, rank: Rank, id: string) returns (step: Step)
    requires LiveInv(s, rank) && id in s.calls && s.calls[id].InFlight()
    ensures Enabled(s, step) && Orderly(s, rank, step) && Advancing(step)
    decreases RankOf(rank, s.calls[id].chan.topic), 1
  {
    var call := s.calls[id];
    assert ProgressInv(s, rank, id);
    if call.status.Registered? {
      step := Publish(id);
    } else if call.status.Fulfilled? {
      step := Return(id);
    } else if id in s.computed {
      step := ThreadMovesOn(s, rank, call.chan);
    } else {
      step := ThreadMovesOn(s, rank, Chan(s.owner[call.chan.topic], call.chan.topic));
    }
  }

  // ---- Every orderly step keeps calls going ----

  lemma InitLive(s: State, rank: Rank)
    requires Init(s)
    ensures LiveInv(s, rank)
  {
    InitInv(s);
  }

  /** How a step changes a cell: messages are added at the end, and the thread goes one step on. */
  predicate Moves(cell: Cell, cell': Cell) {
    && cell.trace <= cell'.trace
    && (
       || (cell'.taken == cell.taken && cell'.work == cell.work)
       || (cell.work.Idle? && cell.taken < |cell.trace| && cell'.taken == cell.taken + 1
           && cell'.work == H.Popped(cell.trace[cell.taken]))
       || (cell.work.Popped? && cell'.taken == cell.taken
           && cell'.work == H.Dispatching(cell.work.msg, cell.handlers))
       || (cell.work.Dispatching? && cell.work.todo == {} && cell'.taken == cell.taken && cell'.work == H.Idle)
       || (cell.work.Dispatching? && cell'.taken == cell.taken
           && exists tok :: tok in cell.work.todo && cell'.work == StartedWork(cell.work, tok))
       || (cell.work.Executing? && cell'.taken == cell.taken
           && cell'.work == H.Dispatching(cell.work.msg, cell.work.todo)))
  }

  /** What is pending stays so while the thread moves on, unless it starts just this handler. */
  lemma PendingKept(cell: Cell, cell': Cell, msg: Json, tok: H.Token)
    requires Pending(cell, msg, tok) && tok in cell'.handlers
    requires WorkInv(cell) && WorkInv(cell') && Moves(cell, cell')
    requires cell.work.Dispatching? && cell.work.msg == msg && tok in cell.work.todo ==> tok in cell'.work.Todo()
    ensures Pending(cell', msg, tok)
  {
    if msg in cell.trace[cell.taken..] {
      var i :| cell.taken <= i < |cell.trace| && cell.trace[i] == msg;
      assert cell'.trace[i] == msg;
      if i >= cell'.taken {
        assert cell'.trace[cell'.taken..][i - cell'.taken] == msg;
      }
    }
  }

  /** The cells move on; providers, the tokens of calls and the calls named keep their place. */
  predicate CellsGoOn(s: State, s': State) {
    && Grows(s, s')
    && s'.cells.Keys == s.cells.Keys
    && (forall c :: c in s.cells ==> Moves(s.cells[c], s'.cells[c]))
    && (forall c, tok :: c in s.cells && tok in s.cells[c].handlers && tok.kind.Call? ==> tok in s'.cells[c].handlers)
  }

  lemma ProviderKept(s: State, s': State, cmd: Command)
    requires CellsGoOn(s, s') && cmd in s.providers && ProviderInv(s, cmd)
    ensures ProviderInv(s', cmd)
  {
  }

  /** The thread does not take up `tok` for `msg`, other than to serve the call, and does not leave it. */
  predicate StaysDue(cell: Cell, cell': Cell, msg: Json, tok: H.Token) {
    && (cell.work.Dispatching? && cell.work.msg == msg && tok in cell.work.todo ==>
          tok in cell'.work.Todo() || (tok.kind.Call? && Running(cell', msg, tok)))
    && (tok.kind.Call? && Running(cell, msg, tok) ==> Running(cell', msg, tok))
  }

  /** Where a waiting call is pending: its provider's cell, or its own once it is computed. */
  predicate WaitingStaysDue(s: State, s': State, id: string)
    requires id in s.calls && Command(s.calls[id].chan.topic, s.calls[id].name) in s.providers
    requires ProviderInv(s, Command(s.calls[id].chan.topic, s.calls[id].name)) && s.calls[id].chan in s.cells
    requires s'.cells.Keys == s.cells.Keys
  {
    var call := s.calls[id];
    var tok := s.providers[Command(call.chan.topic, call.name)];
    var c := Chan(s.owner[call.chan.topic], call.chan.topic);
    if id in s.computed then StaysDue(s.cells[call.chan], s'.cells[call.chan], ResultOf(s, id), call.token)
    else StaysDue(s.cells[c], s'.cells[c], CallMessage(id, call), tok)
  }

  lemma DueStaysPending(cell: Cell, cell': Cell, msg: Json, tok: H.Token)
    requires Pending(cell, msg, tok) || (tok.kind.Call? && Running(cell, msg, tok))
    requires tok in cell'.handlers
    requires WorkInv(cell) && WorkInv(cell') && Moves(cell, cell') && StaysDue(cell, cell', msg, tok)
    ensures Pending(cell', msg, tok) || (tok.kind.Call? && Running(cell', msg, tok))
  {
    if Pending(cell, msg, tok) && !(tok.kind.Call? && Running(cell', msg, tok)) {
      PendingKept(cell, cell', msg, tok);
    }
  }

  /** A waiting call that the step does not touch is still pending. */
  lemma WaitingKept(s: State, s': State, rank: Rank, id: string)
    requires Inv(s) && Inv(s') && CellsGoOn(s, s')
    requires id in s.calls && ProgressInv(s, rank, id) && WaitingStaysDue(s, s', id)
    requires s.calls[id].status.Waiting? && s'.calls[id].status.Waiting?
    requires id in s'.computed ==> id in s.computed
    ensures ProviderInv(s', Command(s.calls[id].chan.topic, s.calls[id].name)) && WaitingInv(s', id)
  {
    var call := s.calls[id];
    var cmd := Command(call.chan.topic, call.name);
    ProviderKept(s, s', cmd);
    assert CallInv(s', id);
    var computed := id in s.computed;
    var c := if computed then call.chan else Chan(s.owner[call.chan.topic], call.chan.topic);
    var msg := if computed then ResultOf(s, id) else CallMessage(id, call);
    assert CellInv(s, c) && CellInv(s', c);
    DueStaysPending(s.cells[c], s'.cells[c], msg, if computed then call.token else s.providers[cmd]);
  }

  /** A call whose status, computation and parent the step does not touch. */
  lemma ProgressKept(s: State, s': State, rank: Rank, id: string)
    requires Inv(s) && Inv(s') && CellsGoOn(s, s')
    requires id in s.calls && ProgressInv(s, rank, id)
    requires s'.calls[id].status == s.calls[id].status || s'.calls[id].status.TimedOut?
    requires s.calls[id].status.Waiting? ==> WaitingStaysDue(s, s', id) && (id in s'.computed ==> id in s.computed)
    requires ParentInv(s', rank, s'.calls[id])
    ensures ProgressInv(s', rank, id)
  {
    ProviderKept(s, s', Command(s.calls[id].chan.topic, s.calls[id].name));
    if s'.calls[id].status.Waiting? {
      WaitingKept(s, s', rank, id);
    }
  }

  /** The threads that serve a call which blocks on another go on serving it. */
  ghost predicate ServersStay(s: State, s': State) {
    forall c :: Serving(s, c) && Blocked(s.calls, c) ==> Serving(s', c)
  }

  lemma ParentKept(s: State, s': State, rank: Rank, id: string)
    requires id in s.calls && ParentInv(s, rank, s.calls[id]) && ServersStay(s, s') && Grows(s, s')
    requires s'.calls[id].InFlight() ==> s.calls[id].InFlight()
    ensures ParentInv(s', rank, s'.calls[id])
  {
    if s'.calls[id].parent.Some? && s'.calls[id].InFlight() {
      assert Blocked(s.calls, s.calls[id].parent.value);
    }
  }

  /** A step that keeps all calls but `changed` due, and adds no computation of another. */
  predicate OthersStayDue(s: State, s': State, rank: Rank, changed: set<string>)
    requires Grows(s, s') && s'.cells.Keys == s.cells.Keys
  {
    forall id {:trigger ProgressInv(s, rank, id)} :: id in s.calls && id !in changed && ProgressInv(s, rank, id) ==>
      && (s'.calls[id].status == s.calls[id].status || s'.calls[id].status.TimedOut?)
      && (id in s'.computed ==> id in s.computed)
      && (s.calls[id].status.Waiting? ==> WaitingStaysDue(s, s', id))
  }

  /** What remains to show of a step: the calls it changes, new calls and new providers. */
  lemma StepKeepsProgress(s: State, s': State, rank: Rank, changed: set<string>)
    requires LiveInv(s, rank) && Inv(s') && CellsGoOn(s, s') && ServersStay(s, s')
    requires OthersStayDue(s, s', rank, changed)
    ensures forall cmd {:trigger ProviderInv(s', cmd)} :: cmd in s.providers ==> ProviderInv(s', cmd)
    ensures forall id {:trigger ProgressInv(s', rank, id)} :: id in s.calls && id !in changed ==>
            ProgressInv(s', rank, id)
  {
    forall cmd | cmd in s.providers
      ensures ProviderInv(s', cmd)
    {
      assert ProviderInv(s, cmd);
      ProviderKept(s, s', cmd);
    }
    forall id | id in s.calls && id !in changed
      ensures ProgressInv(s', rank, id)
    {
      assert ProgressInv(s, rank, id);
      ParentKept(s, s', rank, id);
      ProgressKept(s, s', rank, id);
    }
  }

  // ---- Step by step ----

  /** Steps that leave every thread where it is. */
  predicate ThreadsRest(s: State, s': State) {
    && Grows(s, s') && s'.cells.Keys == s.cells.Keys
    && (forall c :: c in s.cells ==>
          && s'.cells[c].taken == s.cells[c].taken && s'.cells[c].work == s.cells[c].work
          && s.cells[c].trace <= s'.cells[c].trace
          && (forall tok :: tok in s.cells[c].handlers && tok.kind.Call? ==> tok in s'.cells[c].handlers))
  }

  lemma RestingKeepsProgress(s: State, s': State, rank: Rank, changed: set<string>)
    requires LiveInv(s, rank) && Inv(s') && ThreadsRest(s, s') && s'.computed == s.computed
    requires forall id :: id in s.calls && id !in changed ==>
               s'.calls[id].status == s.calls[id].status || s'.calls[id].status.TimedOut?
    ensures forall cmd {:trigger ProviderInv(s', cmd)} :: cmd in s.providers ==> ProviderInv(s', cmd)
    ensures forall id {:trigger ProgressInv(s', rank, id)} :: id in s.calls && id !in changed ==>
            ProgressInv(s', rank, id)
  {
    assert CellsGoOn(s, s') && ServersStay(s, s');
    StepKeepsProgress(s, s', rank, changed);
  }

  lemma ProvideKeepsLive(s: State, rank: Rank, c: Chan, name: string, tok: H.Token)
    requires LiveInv(s, rank) && c in s.cells && Inv(Provided(s, c, name, tok))
    requires c.topic in s.owner && s.owner[c.topic] == c.client
    requires Command(c.topic, name) !in s.providers && tok.kind.Call? && tok.name == name
    ensures LiveInv(Provided(s, c, name, tok), rank)
  {
    RestingKeepsProgress(s, Provided(s, c, name, tok), rank, {});
  }

  lemma CallMadeRests(s: State, id: string, call: Call)
    requires id !in s.calls && call.chan in s.cells
    ensures ThreadsRest(s, CallMade(s, id, call))
  {
  }

  lemma RegisterKeepsLive(s: State, rank: Rank, id: string, call: Call)
    requires LiveInv(s, rank) && id !in s.calls && call.chan in s.cells && Inv(CallMade(s, id, call))
    requires call.status.Registered? && Command(call.chan.topic, call.name) in s.providers
    requires ParentInv(s, rank, call)
    ensures LiveInv(CallMade(s, id, call), rank)
  {
    var s' := CallMade(s, id, call);
    CallMadeRests(s, id, call);
    RestingKeepsProgress(s, s', rank, {});
    assert ProviderInv(s', Command(call.chan.topic, call.name));
  }

  lemma PublishKeepsLive(s: State, rank: Rank, id: string)
    requires LiveInv(s, rank) && id in s.calls && s.calls[id].status.Registered? && Inv(CallPublished(s, id))
    ensures LiveInv(CallPublished(s, id), rank)
  {
    var s' := CallPublished(s, id);
    var call := s.calls[id];
    var msg := CallMessage(id, call);
    assert ProgressInv(s, rank, id);
    RestingKeepsProgress(s, s', rank, {id});
    if id in s.computed {
      assert ComputedInv(s, id);
      PublishedWhenComputed(s, id);
    }
    var c := Chan(s.owner[call.chan.topic], call.chan.topic);
    assert CellInv(s, c);
    ForwardedIsPending(s.cells[c], s'.cells[c], msg, s.providers[Command(call.chan.topic, call.name)]);
    assert ProviderInv(s', Command(call.chan.topic, call.name));
  }

  lemma ForwardedIsPending(cell: Cell, cell': Cell, msg: Json, tok: H.Token)
    requires tok in cell'.handlers && cell'.taken <= |cell.trace| && cell'.trace == cell.trace + [msg]
    ensures Pending(cell', msg, tok)
  {
    assert cell'.trace[cell'.taken..][|cell.trace| - cell'.taken] == msg;
  }

  lemma ReturnKeepsLive(s: State, rank: Rank, id: string)
    requires LiveInv(s, rank) && id in s.calls && s.calls[id].status.Fulfilled? && Inv(CallReturned(s, id))
    ensures LiveInv(CallReturned(s, id), rank)
  {
    var s' := CallReturned(s, id);
    assert ProgressInv(s, rank, id) && CallInv(s, id);
    RestingKeepsProgress(s, s', rank, {id});
    assert ProviderInv(s', Command(s.calls[id].chan.topic, s.calls[id].name));
  }

  lemma TimeoutKeepsLive(s: State, s': State, rank: Rank, id: string)
    requires LiveInv(s, rank) && id in s.calls && s.calls[id].status.Waiting? && Inv(s')
    requires s' == s.(calls := SetStatus(s.calls, id, TimedOut))
    ensures LiveInv(s', rank)
  {
    RestingKeepsProgress(s, s', rank, {});
  }

  /** The thread of one cell goes on, not out of a handler. */
  lemma ThreadKeepsProgress(s: State, s': State, rank: Rank, c: Chan, changed: set<string>)
    requires LiveInv(s, rank) && Inv(s') && c in s.cells && c in s'.cells && Grows(s, s') && s'.computed == s.computed
    requires s'.cells == s.cells[c := s.cells[c].(taken := s'.cells[c].taken, work := s'.cells[c].work)]
    requires Moves(s.cells[c], s'.cells[c]) && !s.cells[c].work.Executing?
    requires OthersStayDue(s, s', rank, changed)
    ensures forall cmd {:trigger ProviderInv(s', cmd)} :: cmd in s.providers ==> ProviderInv(s', cmd)
    ensures forall id {:trigger ProgressInv(s', rank, id)} :: id in s.calls && id !in changed ==>
            ProgressInv(s', rank, id)
  {
    assert CellsGoOn(s, s') && ServersStay(s, s');
    StepKeepsProgress(s, s', rank, changed);
  }

  /** Take, Snapshot and Finish: no handler is started or left. */
  lemma QuietThreadKeepsLive(s: State, s': State, rank: Rank, c: Chan)
    requires LiveInv(s, rank) && Inv(s') && c in s.cells && c in s'.cells
    requires s' == s.(cells := s.cells[c := s.cells[c].(taken := s'.cells[c].taken, work := s'.cells[c].work)])
    requires Moves(s.cells[c], s'.cells[c])
    requires s.cells[c].work.Idle? || s.cells[c].work.Popped?
             || (s.cells[c].work.Dispatching? && s.cells[c].work.todo == {})
    ensures LiveInv(s', rank)
  {
    ThreadKeepsProgress(s, s', rank, c, {});
  }

  /** Starting `tok` serves a pending call, hands over a due result, or leaves all that is pending. */
  lemma StartStaysDue(s: State, s': State, rank: Rank, c: Chan, tok: H.Token, id: string)
    requires LiveInv(s, rank) && Enabled(s, Start(c, tok)) && s'.cells == Started(s, c, tok).cells
    requires id in s.calls && ProgressInv(s, rank, id)
    requires ResultDue(s, c, tok) ==> tok.id != id
    ensures WaitingStaysDue(s, s', id)
  {
    assert CellInv(s, c) && tok in s.cells[c].Live();
    DispatchOnTopic(s, c, tok, s.cells[c].work.msg);
    assert CallInv(s, id);
  }

  lemma StartKeepsLive(s: State, rank: Rank, c: Chan, tok: H.Token)
    requires LiveInv(s, rank) && Enabled(s, Start(c, tok)) && Inv(Started(s, c, tok))
    ensures LiveInv(Started(s, c, tok), rank)
  {
    var s' := Started(s, c, tok);
    var changed := if ResultDue(s, c, tok) then {tok.id} else {};
    if ResultDue(s, c, tok) {
      PromiseValue(s, c, tok);
      ResultOnlyOnce(s, c, tok);
    } else {
      NothingDueNothingChanges(s, c, tok);
    }
    forall id | id in s.calls && id !in changed && ProgressInv(s, rank, id)
      ensures WaitingStaysDue(s, s', id)
    {
      StartStaysDue(s, s', rank, c, tok, id);
    }
    ThreadKeepsProgress(s, s', rank, c, changed);
    if ResultDue(s, c, tok) {
      FulfilledProgress(s, s', rank, c, tok);
    }
  }

  lemma NothingDueNothingChanges(s: State, c: Chan, tok: H.Token)
    requires Inv(s) && Enabled(s, Start(c, tok)) && !ResultDue(s, c, tok)
    ensures Started(s, c, tok).calls == s.calls
  {
  }

  /** A fulfilled call no longer waits. */
  lemma FulfilledProgress(s: State, s': State, rank: Rank, c: Chan, tok: H.Token)
    requires LiveInv(s, rank) && ResultDue(s, c, tok) && s' == Started(s, c, tok) && tok.id in s.calls
    requires Inv(s')
    ensures tok.id in s'.calls && ProgressInv(s', rank, tok.id)
  {
    var id := tok.id;
    PromiseValue(s, c, tok);
    ResultOnlyOnce(s, c, tok);
    assert ProgressInv(s, rank, id);
    assert ProviderInv(s', Command(s.calls[id].chan.topic, s.calls[id].name));
  }

  /** The answered call now waits for its result, which is on its way. */
  lemma AnsweredProgress(s: State, rank: Rank, c: Chan, retval: Json)
    requires LiveInv(s, rank) && Serving(s, c) && !Blocked(s.calls, c) && Inv(Answered(s, c, retval))
    ensures IdOf(s.cells[c].work.msg) in Answered(s, c, retval).calls
    ensures ProgressInv(Answered(s, c, retval), rank, IdOf(s.cells[c].work.msg))
  {
    var s' := Answered(s, c, retval);
    var id := IdOf(s.cells[c].work.msg);
    ServedCall(s, c);
    assert ProgressInv(s, rank, id) && CallInv(s, id);
    var call := s.calls[id];
    var d := call.chan;
    assert CellInv(s, d);
    assert ProviderInv(s', Command(call.chan.topic, call.name));
    if call.status.Waiting? {
      ForwardedIsPending(Ended(s, c).cells[d], s'.cells[d], ResultOf(s', id), call.token);
    }
    if call.parent.Some? && call.InFlight() {
      assert call.parent.value != c;
    }
  }

  lemma AnswerStaysDue(s: State, s': State, rank: Rank, c: Chan, id: string)
    requires LiveInv(s, rank) && Serving(s, c) && s'.cells.Keys == s.cells.Keys
    requires forall d :: d in s.cells && d != c ==> s'.cells[d].work == s.cells[d].work
    requires s'.cells[c].work == H.Dispatching(s.cells[c].work.msg, s.cells[c].work.todo)
    requires id in s.calls && ProgressInv(s, rank, id) && id != IdOf(s.cells[c].work.msg)
    ensures WaitingStaysDue(s, s', id)
  {
    assert CallInv(s, id);
    MessageParts(id, s.calls[id], "", Null, "");
  }

  lemma AnswerMovesCells(s: State, c: Chan, retval: Json)
    requires Serving(s, c) && !Blocked(s.calls, c) && Grows(s, Answered(s, c, retval))
    ensures CellsGoOn(s, Answered(s, c, retval)) && ServersStay(s, Answered(s, c, retval))
  {
  }

  lemma AnswerGrows(s: State, c: Chan, retval: Json)
    requires Inv(s) && Serving(s, c)
    ensures Grows(s, Answered(s, c, retval))
  {
    ServedCall(s, c);
  }

  lemma AnswerOthersStayDue(s: State, s': State, rank: Rank, c: Chan, retval: Json)
    requires LiveInv(s, rank) && Serving(s, c) && s' == Answered(s, c, retval) && CellsGoOn(s, s')
    ensures OthersStayDue(s, s', rank, {IdOf(s.cells[c].work.msg)})
  {
    forall id | id in s.calls && id != IdOf(s.cells[c].work.msg) && ProgressInv(s, rank, id)
      ensures WaitingStaysDue(s, s', id)
    {
      AnswerStaysDue(s, s', rank, c, id);
    }
  }

  lemma AnswerKeepsLive(s: State, rank: Rank, c: Chan, retval: Json)
    requires LiveInv(s, rank) && Serving(s, c) && !Blocked(s.calls, c) && Inv(Answered(s, c, retval))
    ensures LiveInv(Answered(s, c, retval), rank)
  {
    var s' := Answered(s, c, retval);
    var id := IdOf(s.cells[c].work.msg);
    AnswerGrows(s, c, retval);
    AnswerMovesCells(s, c, retval);
    AnswerOthersStayDue(s, s', rank, c, retval);
    StepKeepsProgress(s, s', rank, {id});
    AnsweredProgress(s, rank, c, retval);
  }

  /** The end of a result handler serves no call. */
  lemma EndResultStaysDue(s: State, rank: Rank, c: Chan)
    requires LiveInv(s, rank) && c in s.cells && s.cells[c].work.Executing? && s.cells[c].work.tok.kind.Result?
    ensures OthersStayDue(s, Ended(s, c), rank, {})
  {
  }

  lemma EndResultGoesOn(s: State, c: Chan)
    requires c in s.cells && s.cells[c].work.Executing? && s.cells[c].work.tok.kind.Result?
    ensures CellsGoOn(s, Ended(s, c)) && ServersStay(s, Ended(s, c))
  {
  }

  lemma EndResultKeepsLive(s: State, rank: Rank, c: Chan)
    requires LiveInv(s, rank) && c in s.cells && s.cells[c].work.Executing? && s.cells[c].work.tok.kind.Result?
    requires Inv(Ended(s, c))
    ensures LiveInv(Ended(s, c), rank)
  {
    EndResultStaysDue(s, rank, c);
    EndResultGoesOn(s, c);
    StepKeepsProgress(s, Ended(s, c), rank, {});
  }

  lemma StepKeepsLive(s: State, rank: Rank, step: Step)
    requires LiveInv(s, rank) && Enabled(s, step) && Orderly(s, rank, step)
    ensures LiveInv(Apply(s, step), rank)
  {
    StepPreservesInv(s, step);
    match step
    case Provide(c, name, uid) => ProvideKeepsLive(s, rank, c, name, H.Token(uid, name, "", H.Call));
    case Register(id, c, name, args, uid, parent) =>
      RegisterKeepsLive(s, rank, id, Call(c, name, args, H.Token(uid, name, id, H.Result), parent, Registered));
    case Publish(id) => PublishKeepsLive(s, rank, id);
    case Return(id) => ReturnKeepsLive(s, rank, id);
    case Timeout(id) => TimeoutKeepsLive(s, Apply(s, step), rank, id);
    case Take(c) => QuietThreadKeepsLive(s, Apply(s, step), rank, c);
    case Snapshot(c) => QuietThreadKeepsLive(s, Apply(s, step), rank, c);
    case Start(c, tok) => StartKeepsLive(s, rank, c, tok);
    case Answer(c, retval) => AnswerKeepsLive(s, rank, c, retval);
    case End(c) => EndResultKeepsLive(s, rank, c);
    case Finish(c) => QuietThreadKeepsLive(s, Apply(s, step), rank, c);
  }

  // ---- The measure ----

  /** Lexicographic: messages still to be published, to be taken, snapshots to take, handlers to run, calls to end. */
  datatype Measure = Measure(unanswered: nat, untaken: nat, popped: nat, busy: nat, inFlight: nat)

  predicate Below(m: Measure, n: Measure) {
    || m.unanswered < n.unanswered
    || (m.unanswered == n.unanswered
        && (|| m.untaken < n.untaken
            || (m.untaken == n.untaken
                && (|| m.popped < n.popped
                    || (m.popped == n.popped && (m.busy < n.busy || (m.busy == n.busy && m.inFlight < n.inFlight)))))))
  }

  function Unpublished(s: State): map<string, nat> {
    map id | id in s.calls :: (if s.calls[id].status.Registered? then 1 else 0) + (if id in s.computed then 0 else 1)
  }

  function Untaken(cells: map<Chan, Cell>): map<Chan, nat> {
    map c | c in cells :: if cells[c].taken <= |cells[c].trace| then |cells[c].trace| - cells[c].taken else 0
  }

  function AtPopped(cells: map<Chan, Cell>): map<Chan, nat> {
    map c | c in cells :: if cells[c].work.Popped? then 1 else 0
  }

  function Effort(work: H.Work): nat {
    match work
    case Idle => 0
    case Popped(_) => 0
    case Dispatching(_, todo) => 2 * |todo| + 1
    case Executing(_, todo, _) => 2 * |todo| + 2
    case Failed(_, todo) => 2 * |todo|
  }

  function Efforts(cells: map<Chan, Cell>): map<Chan, nat> {
    map c | c in cells :: Effort(cells[c].work)
  }

  function Open(calls: map<string, Call>): map<string, nat> {
    map id | id in calls :: if calls[id].InFlight() then 1 else 0
  }

  ghost function MeasureOf(s: State): Measure {
    Measure(Sum(Unpublished(s)), Sum(Untaken(s.cells)), Sum(AtPopped(s.cells)), Sum(Efforts(s.cells)),
            Sum(Open(s.calls)))
  }

  lemma PublishDecreases(s: State, id: string)
    requires id in s.calls && s.calls[id].status.Registered?
    ensures Below(MeasureOf(CallPublished(s, id)), MeasureOf(s))
  {
    SumUpdate(Unpublished(s), Unpublished(CallPublished(s, id)), id);
  }

  lemma AnswerDecreases(s: State, c: Chan, retval: Json)
    requires Inv(s) && Serving(s, c)
    ensures Below(MeasureOf(Answered(s, c, retval)), MeasureOf(s))
  {
    ServedCall(s, c);
    SumUpdate(Unpublished(s), Unpublished(Answered(s, c, retval)), IdOf(s.cells[c].work.msg));
  }

  lemma TakeDecreases(s: State, c: Chan)
    requires c in s.cells && s.cells[c].taken < |s.cells[c].trace|
    ensures Below(MeasureOf(s.(cells := s.cells[c := CellTaken(s.cells[c])])), MeasureOf(s))
  {
    var s' := s.(cells := s.cells[c := CellTaken(s.cells[c])]);
    assert Unpublished(s') == Unpublished(s);
    SumUpdate(Untaken(s.cells), Untaken(s'.cells), c);
  }

  lemma WorkTotals(cells: map<Chan, Cell>, cells': map<Chan, Cell>, c: Chan, work: H.Work)
    requires c in cells && cells' == SetWork(cells, c, work) && !work.Popped?
    ensures Untaken(cells') == Untaken(cells)
    ensures cells[c].work.Popped? ==> Sum(AtPopped(cells')) < Sum(AtPopped(cells))
    ensures !cells[c].work.Popped? ==> AtPopped(cells') == AtPopped(cells)
    ensures Effort(work) < Effort(cells[c].work) ==> Sum(Efforts(cells')) < Sum(Efforts(cells))
  {
    UntakenStays(cells, cells', c, work);
    PoppedFalls(cells, cells', c, work);
    EffortFalls(cells, cells', c, work);
  }

  lemma UntakenStays(cells: map<Chan, Cell>, cells': map<Chan, Cell>, c: Chan, work: H.Work)
    requires c in cells && cells' == SetWork(cells, c, work)
    ensures Untaken(cells') == Untaken(cells)
  {
  }

  lemma PoppedFalls(cells: map<Chan, Cell>, cells': map<Chan, Cell>, c: Chan, work: H.Work)
    requires c in cells && cells' == SetWork(cells, c, work) && !work.Popped?
    ensures cells[c].work.Popped? ==> Sum(AtPopped(cells')) < Sum(AtPopped(cells))
    ensures !cells[c].work.Popped? ==> AtPopped(cells') == AtPopped(cells)
  {
    SumUpdate(AtPopped(cells), AtPopped(cells'), c);
  }

  lemma EffortFalls(cells: map<Chan, Cell>, cells': map<Chan, Cell>, c: Chan, work: H.Work)
    requires c in cells && cells' == SetWork(cells, c, work)
    ensures Effort(work) < Effort(cells[c].work) ==> Sum(Efforts(cells')) < Sum(Efforts(cells))
  {
    SumUpdate(Efforts(cells), Efforts(cells'), c);
  }

  /** A thread that has taken its snapshot does one thing less. */
  lemma WorkDecreases(s: State, s': State, c: Chan, work: H.Work)
    requires c in s.cells && s'.cells == SetWork(s.cells, c, work) && !work.Popped?
    requires s.cells[c].work.Popped? || Effort(work) < Effort(s.cells[c].work)
    requires Unpublished(s') == Unpublished(s)
    ensures Below(MeasureOf(s'), MeasureOf(s))
  {
    WorkTotals(s.cells, s'.cells, c, work);
  }

  lemma StartDecreases(s: State, c: Chan, tok: H.Token)
    requires Inv(s) && Enabled(s, Start(c, tok))
    ensures Below(MeasureOf(Started(s, c, tok)), MeasureOf(s))
  {
    var work := s.cells[c].work;
    StartMoves(s, c, tok);
    assert |work.todo - {tok}| == |work.todo| - 1;
    StartPublishesNothing(s, c, tok);
    WorkDecreases(s, Started(s, c, tok), c, StartedWork(work, tok));
  }

  lemma StartPublishesNothing(s: State, c: Chan, tok: H.Token)
    requires Inv(s) && Enabled(s, Start(c, tok))
    ensures Unpublished(Started(s, c, tok)) == Unpublished(s)
  {
    if ResultDue(s, c, tok) {
      PromiseValue(s, c, tok);
      ResultOnlyOnce(s, c, tok);
    } else {
      NothingDueNothingChanges(s, c, tok);
    }
  }

  /** Ending a call changes nothing but the number of calls in flight. */
  lemma CallEnds(s: State, s': State, id: string)
    requires id in s.calls && s.calls[id].InFlight() && !s.calls[id].status.Registered? && s'.computed == s.computed
    requires id in s'.calls && s'.calls == s.calls[id := s'.calls[id]]
    requires !s'.calls[id].InFlight()
    requires SameThreads(s.cells, s'.cells)
    ensures Below(MeasureOf(s'), MeasureOf(s))
  {
    assert Unpublished(s') == Unpublished(s);
    SameThreadTotals(s.cells, s'.cells);
    SumUpdate(Open(s.calls), Open(s'.calls), id);
  }

  predicate SameThreads(cells: map<Chan, Cell>, cells': map<Chan, Cell>) {
    && cells'.Keys == cells.Keys
    && forall c :: c in cells ==>
         cells'[c].trace == cells[c].trace && cells'[c].taken == cells[c].taken && cells'[c].work == cells[c].work
  }

  lemma SameThreadTotals(cells: map<Chan, Cell>, cells': map<Chan, Cell>)
    requires SameThreads(cells, cells')
    ensures Untaken(cells') == Untaken(cells) && AtPopped(cells') == AtPopped(cells)
            && Efforts(cells') == Efforts(cells)
  {
  }

  /** The measure falls in every step that makes no new call. */
  lemma StepDecreases(s: State, step: Step)
    requires Inv(s) && Enabled(s, step) && !step.Provide? && !step.Register?
    ensures Below(MeasureOf(Apply(s, step)), MeasureOf(s))
  {
    match step
    case Publish(id) => PublishDecreases(s, id);
    case Return(id) => CallEnds(s, Apply(s, step), id);
    case Timeout(id) => CallEnds(s, Apply(s, step), id);
    case Take(c) => TakeDecreases(s, c);
    case Snapshot(c) => WorkDecreases(s, Apply(s, step), c, H.Dispatching(s.cells[c].work.msg, s.cells[c].handlers));
    case Start(c, tok) => StartDecreases(s, c, tok);
    case Answer(c, retval) => AnswerDecreases(s, c, retval);
    case End(c) => WorkDecreases(s, Apply(s, step), c, H.Dispatching(s.cells[c].work.msg, s.cells[c].work.todo));
    case Finish(c) => WorkDecreases(s, Apply(s, step), c, H.Idle);
  }

  // ---- Every call comes back ----

  /** A call in flight stays so or returns. */
  predicate ReturnsOrGoesOn(s: State, s': State) {
    forall id :: id in s.calls && (s.calls[id].InFlight() || s.calls[id].status.Returned?) ==>
      id in s'.calls && (s'.calls[id].InFlight() || s'.calls[id].status.Returned?)
  }

  lemma AdvancingReturnsOrGoesOn(s: State, step: Step)
    requires Inv(s) && Enabled(s, step) && Advancing(step)
    ensures ReturnsOrGoesOn(s, Apply(s, step))
  {
    if step.Start? {
      if ResultDue(s, step.chan, step.tok) {
        PromiseValue(s, step.chan, step.tok);
      } else {
        NothingDueNothingChanges(s, step.chan, step.tok);
      }
    }
  }

  /** One step towards the return of a call in flight. */
  lemma NextStep(s: State, rank: Rank, id: string) returns (step: Step)
    requires LiveInv(s, rank) && id in s.calls && s.calls[id].InFlight()
    ensures Enabled(s, step) && Advancing(step) && LiveInv(Apply(s, step), rank)
    ensures Below(MeasureOf(Apply(s, step)), MeasureOf(s))
    ensures ReturnsOrGoesOn(s, Apply(s, step))
  {
    step := CallMovesOn(s, rank, id);
    StepKeepsLive(s, rank, step);
    StepDecreases(s, step);
    AdvancingReturnsOrGoesOn(s, step);
  }

  predicate AllAdvancing(steps: seq<Step>) {
    forall step :: step in steps ==> Advancing(step)
  }

  lemma RunPrepend(s: State, step: Step, rest: seq<Step>)
    requires Enabled(s, step) && Run(Apply(s, step), rest).Some?
    ensures Run(s, [step] + rest) == Run(Apply(s, step), rest)
    ensures Advancing(step) && AllAdvancing(rest) ==> AllAdvancing([step] + rest)
  {
    assert ([step] + rest)[1..] == rest;
  }

  lemma GoesOnTransitive(s: State, s1: State, s2: State)
    requires ReturnsOrGoesOn(s, s1) && ReturnsOrGoesOn(s1, s2)
    ensures ReturnsOrGoesOn(s, s2)
  {
  }

  /** From every live state, advancing steps lead on until every call in flight has returned. */
  lemma EveryCallComesBack(s: State, rank: Rank, m: Measure) returns (steps: seq<Step>, s': State)
    requires LiveInv(s, rank) && m == MeasureOf(s)
    ensures Run(s, steps) == Some(s') && LiveInv(s', rank) && AllAdvancing(steps)
    ensures forall id :: id in s'.calls ==> !s'.calls[id].InFlight()
    ensures ReturnsOrGoesOn(s, s')
    decreases m.unanswered, m.untaken, m.popped, m.busy, m.inFlight
  {
    if id :| id in s.calls && s.calls[id].InFlight() {
      var step := NextStep(s, rank, id);
      var s1 := Apply(s, step);
      var rest;
      rest, s' := EveryCallComesBack(s1, rank, MeasureOf(s1));
      steps := [step] + rest;
      RunPrepend(s, step, rest);
      GoesOnTransitive(s, s1, s');
    } else {
      steps, s' := [], s;
    }
  }

  /** Runs of orderly steps from the start are live. */
  predicate OrderlyRun(s: State, rank: Rank, steps: seq<Step>)
    decreases |steps|
  {
    steps == [] ||
    (Enabled(s, steps[0]) && Orderly(s, rank, steps[0]) && OrderlyRun(Apply(s, steps[0]), rank, steps[1..]))
  }

  lemma {:induction false} OrderlyRunIsLive(s: State, rank: Rank, steps: seq<Step>)
    requires LiveInv(s, rank) && OrderlyRun(s, rank, steps)
    ensures Run(s, steps).Some? && LiveInv(Run(s, steps).value, rank)
    decreases |steps|
  {
    if steps != [] {
      StepKeepsLive(s, rank, steps[0]);
      OrderlyRunIsLive(Apply(s, steps[0]), rank, steps[1..]);
    }
  }

  /**
   * Progress over every orderly run: with a call in flight some advancing step is enabled, and
   * every step that makes no new call lowers the measure.
   */
  lemma NeverStuck(s0: State, rank: Rank, steps: seq<Step>, id: string) returns (next: Step)
    requires Init(s0) && OrderlyRun(s0, rank, steps)
    requires Run(s0, steps).Some? && id in Run(s0, steps).value.calls && Run(s0, steps).value.calls[id].InFlight()
    ensures var s := Run(s0, steps).value;
            && Enabled(s, next) && Orderly(s, rank, next) && Advancing(next)
            && Below(MeasureOf(Apply(s, next)), MeasureOf(s))
  {
    InitLive(s0, rank);
    OrderlyRunIsLive(s0, rank, steps);
    var s := Run(s0, steps).value;
    next := CallMovesOn(s, rank, id);
    StepDecreases(s, next);
  }
}
