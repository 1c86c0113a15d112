/**
 * Command calls between modules: `Everest::call_cmd` and `provide_cmd` over the command topics,
 * on which calls and results travel together. Each client has a cell for each command topic: all
 * messages the broker forwarded to it, how many its handler thread took, and that thread. The
 * stages in between are in module CallSystem, which refines this protocol.
 */
module CallProtocol {
  import opened Wrappers
  import opened Json
  import H = MessageHandler

  /** The end of a command topic at one client. */
  datatype Chan = Chan(client: string, topic: string)

  datatype Cell = Cell(trace: seq<Json>, taken: nat, work: H.Work, handlers: set<H.Token>, subscribed: bool)
  {
    function Live(): set<H.Token> {
      handlers + work.Todo() + (if work.Executing? then {work.tok} else {})
    }
  }

  /**
   * A call has registered its result handler, waits for the result, has its promise fulfilled,
   * has returned, or has timed out. `Broken` is a promise set a second time, or after the return.
   */
  datatype Status =
    | Registered
    | Waiting
    | Fulfilled(retval: Json)
    | Returned(retval: Json)
    | TimedOut
    | Broken

  /** `parent` is the cell whose handler thread made the call and is blocked by it. */
  datatype Call = Call(chan: Chan, name: string, args: Json, token: H.Token, parent: Option<Chan>, status: Status)
  {
    predicate InFlight() {
      status.Registered? || status.Waiting? || status.Fulfilled?
    }
  }

  datatype Command = Command(topic: string, name: string)

  /** What a provider's handler returned for the arguments it got. */
  datatype Computation = Computation(args: Json, retval: Json)

  /**
   * `owner` is the module that a command topic names; `providers` are the registered commands with
   * their handlers. Calls and computations are kept by call id.
   */
  datatype State = State(
    owner: map<string, string>,
    cells: map<Chan, Cell>,
    providers: map<Command, H.Token>,
    calls: map<string, Call>,
    computed: map<string, Computation>)

  // ---- Messages ----

  function CallMessage(id: string, call: Call): Json {
    Object(map["name" := Str(call.name), "type" := Str("call"),
               "data" := Object(map["id" := Str(id), "args" := call.args, "origin" := Str(call.chan.client)])])
  }

  function ResultMessage(id: string, name: string, retval: Json, origin: string): Json {
    Object(map["name" := Str(name), "type" := Str("result"),
               "data" := Object(map["id" := Str(id), "retval" := retval, "origin" := Str(origin)])])
  }

  /** Calls and results differ in their type, and each carries its call id. */
  lemma MessageParts(id: string, call: Call, name: string, retval: Json, origin: string)
    ensures At(CallMessage(id, call), "type") == Some(Str("call"))
    ensures At(ResultMessage(id, name, retval, origin), "type") == Some(Str("result"))
    ensures IdOf(CallMessage(id, call)) == id && IdOf(ResultMessage(id, name, retval, origin)) == id
    ensures CallMessage(id, call) != ResultMessage(id, name, retval, origin)
  {
    assert |"call"| != |"result"|;
  }

  function Member(j: Option<Json>, key: string): Option<Json> {
    if j.Some? then At(j.value, key) else None
  }

  /** The call id in a message. */
  function IdOf(msg: Json): string {
    var id := Member(At(msg, "data"), "id");
    if id.Some? && id.value.Str? then id.value.s else ""
  }

  // ---- Steps ----

  datatype Step =
    | Provide(chan: Chan, name: string, uid: nat)
    | Register(id: string, chan: Chan, name: string, args: Json, uid: nat, parent: Option<Chan>)
    | Publish(id: string)
    | Return(id: string)
    | Timeout(id: string)
    | Take(chan: Chan)
    | Snapshot(chan: Chan)
    | Start(chan: Chan, tok: H.Token)
    | Answer(chan: Chan, retval: Json)
    | End(chan: Chan)
    | Finish(chan: Chan)

  /** The handler thread of `chan` waits for a call it made. */
  predicate Blocked(calls: map<string, Call>, chan: Chan) {
    exists id :: id in calls && calls[id].parent == Some(chan) && calls[id].InFlight()
  }

  predicate Enabled(s: State, step: Step) {
    match step
    case Provide(c, name, _) =>
      c in s.cells && c.topic in s.owner && s.owner[c.topic] == c.client && Command(c.topic, name) !in s.providers
    case Register(id, c, _, _, _, parent) =>
      && id !in s.calls && c in s.cells && c.topic in s.owner
      && (parent.Some? ==>
            && parent.value in s.cells && parent.value.client == c.client
            && s.cells[parent.value].work.Executing? && s.cells[parent.value].work.tok.kind.Call?
            && !Blocked(s.calls, parent.value))
    case Publish(id) => id in s.calls && s.calls[id].status.Registered?
    case Return(id) => id in s.calls && s.calls[id].status.Fulfilled?
    case Timeout(id) => id in s.calls && s.calls[id].status.Waiting?
    case Take(c) => c in s.cells && s.cells[c].work.Idle? && s.cells[c].taken < |s.cells[c].trace|
    case Snapshot(c) => c in s.cells && s.cells[c].work.Popped?
    case Start(c, tok) => c in s.cells && s.cells[c].work.Dispatching? && tok in s.cells[c].work.todo
    case Answer(c, _) =>
      c in s.cells && s.cells[c].work.Executing? && s.cells[c].work.tok.kind.Call? && !Blocked(s.calls, c)
    case End(c) => c in s.cells && s.cells[c].work.Executing? && !Blocked(s.calls, c)
    case Finish(c) => c in s.cells && s.cells[c].work.Dispatching? && s.cells[c].work.todo == {}
  }

  /** A handler more: the first one subscribes. */
  function AddHandler(cell: Cell, tok: H.Token): Cell {
    var handlers := cell.handlers + {tok};
    cell.(handlers := handlers, subscribed := cell.subscribed || |handlers| == 1)
  }

  /** A handler less: the last one unsubscribes. */
  function RemoveHandler(cell: Cell, tok: H.Token): Cell {
    var handlers := cell.handlers - {tok};
    cell.(handlers := handlers, subscribed := cell.subscribed && handlers != {})
  }

  /** The broker forwards to every subscribed client, the publisher included. */
  function Forward(cells: map<Chan, Cell>, topic: string, msg: Json): map<Chan, Cell> {
    map c | c in cells :: if c.topic == topic && cells[c].subscribed then cells[c].(trace := cells[c].trace + [msg])
                          else cells[c]
  }

  function SetWork(cells: map<Chan, Cell>, c: Chan, work: H.Work): map<Chan, Cell>
    requires c in cells
  {
    cells[c := cells[c].(work := work)]
  }

  function StartedWork(work: H.Work, tok: H.Token): H.Work
    requires work.Dispatching?
  {
    match H.Dispatch(tok, work.msg)
    case Throw => H.Failed(work.msg, work.todo)
    case Skip => H.Dispatching(work.msg, work.todo - {tok})
    case Invoke(_) => H.Executing(work.msg, work.todo - {tok}, tok)
  }

  function SetStatus(calls: map<string, Call>, id: string, status: Status): map<string, Call>
    requires id in calls
  {
    calls[id := calls[id].(status := status)]
  }

  /** `set_value` on the promise of a call; a late result of a timed-out call is not modelled. */
  function SetPromise(status: Status, retval: Json): Status {
    match status
    case Registered => Fulfilled(retval)
    case Waiting => Fulfilled(retval)
    case TimedOut => TimedOut
    case _ => Broken
  }

  /** The result handler of `call_cmd`, called with the data of a result message. */
  function HandleResult(calls: map<string, Call>, tok: H.Token, data: Json): map<string, Call> {
    if tok.kind.Result? && tok.id in calls && At(data, "id") == Some(Str(tok.id)) then
      var retval := At(data, "retval");
      SetStatus(calls, tok.id, SetPromise(calls[tok.id].status, if retval.Some? then retval.value else Null))
    else calls
  }

  function ArgsOf(msg: Json): Json {
    var args := Member(At(msg, "data"), "args");
    if args.Some? then args.value else Null
  }

  /** `provide_cmd` for a command that has no handler yet. */
  function Provided(s: State, c: Chan, name: string, tok: H.Token): State
    requires c in s.cells
  {
    s.(cells := s.cells[c := AddHandler(s.cells[c], tok)],
       providers := s.providers[Command(c.topic, name) := tok])
  }

  /** `call_cmd` up to the registration of its result handler. */
  function CallMade(s: State, id: string, call: Call): State
    requires call.chan in s.cells
  {
    s.(cells := s.cells[call.chan := AddHandler(s.cells[call.chan], call.token)], calls := s.calls[id := call])
  }

  function CallPublished(s: State, id: string): State
    requires id in s.calls
  {
    s.(cells := Forward(s.cells, s.calls[id].chan.topic, CallMessage(id, s.calls[id])),
       calls := SetStatus(s.calls, id, Waiting))
  }

  /** `call_cmd` with its future ready: unregister and return. */
  function CallReturned(s: State, id: string): State
    requires id in s.calls && s.calls[id].status.Fulfilled?
  {
    var c := s.calls[id].chan;
    s.(cells := if c in s.cells then s.cells[c := RemoveHandler(s.cells[c], s.calls[id].token)] else s.cells,
       calls := SetStatus(s.calls, id, Returned(s.calls[id].status.retval)))
  }

  function CellTaken(cell: Cell): Cell
    requires cell.taken < |cell.trace|
  {
    cell.(taken := cell.taken + 1, work := H.Popped(cell.trace[cell.taken]))
  }

  function Started(s: State, c: Chan, tok: H.Token): State
    requires c in s.cells && s.cells[c].work.Dispatching?
  {
    var work := s.cells[c].work;
    var outcome := H.Dispatch(tok, work.msg);
    s.(cells := SetWork(s.cells, c, StartedWork(work, tok)),
       calls := if outcome.Invoke? then HandleResult(s.calls, tok, outcome.arg) else s.calls)
  }

  function Ended(s: State, c: Chan): State
    requires c in s.cells && s.cells[c].work.Executing?
  {
    s.(cells := SetWork(s.cells, c, H.Dispatching(s.cells[c].work.msg, s.cells[c].work.todo)))
  }

  /** What the command wrapper of `provide_cmd` publishes. */
  function AnswerMessage(work: H.Work, retval: Json, origin: string): Json
    requires work.Executing?
  {
    ResultMessage(IdOf(work.msg), work.tok.name, retval, origin)
  }

  function Answered(s: State, c: Chan, retval: Json): State
    requires c in s.cells && s.cells[c].work.Executing?
  {
    var work := s.cells[c].work;
    Ended(s, c).(cells := Forward(Ended(s, c).cells, c.topic, AnswerMessage(work, retval, c.client)),
                 computed := s.computed[IdOf(work.msg) := Computation(ArgsOf(work.msg), retval)])
  }

  function Apply(s: State, step: Step): State
    requires Enabled(s, step)
  {
    match step
    case Provide(c, name, uid) => Provided(s, c, name, H.Token(uid, name, "", H.Call))
    case Register(id, c, name, args, uid, parent) =>
      CallMade(s, id, Call(c, name, args, H.Token(uid, name, id, H.Result), parent, Registered))
    case Publish(id) => CallPublished(s, id)
    case Return(id) => CallReturned(s, id)
    case Timeout(id) => s.(calls := SetStatus(s.calls, id, TimedOut))
    case Take(c) => s.(cells := s.cells[c := CellTaken(s.cells[c])])
    case Snapshot(c) => s.(cells := SetWork(s.cells, c, H.Dispatching(s.cells[c].work.msg, s.cells[c].handlers)))
    case Start(c, tok) => Started(s, c, tok)
    case Answer(c, retval) => Answered(s, c, retval)
    case End(c) => Ended(s, c)
    case Finish(c) => s.(cells := SetWork(s.cells, c, H.Idle))
  }

  // ---- Invariant ----

  predicate NoDuplicates(trace: seq<Json>) {
    forall i, j :: 0 <= i < j < |trace| ==> trace[i] != trace[j]
  }

  /** The result message of a computed call. */
  function ResultOf(s: State, id: string): Json
    requires id in s.calls && id in s.computed && s.calls[id].chan.topic in s.owner
  {
    ResultMessage(id, s.calls[id].name, s.computed[id].retval, s.owner[s.calls[id].chan.topic])
  }

  /** Messages on a command topic are published calls on that topic and results of computed ones. */
  predicate Legitimate(s: State, topic: string, msg: Json) {
    var id := IdOf(msg);
    && id in s.calls && s.calls[id].chan.topic == topic && topic in s.owner
    && (|| (msg == CallMessage(id, s.calls[id]) && !s.calls[id].status.Registered?)
        || (id in s.computed && msg == ResultOf(s, id)))
  }

  /** Handlers on command topics are the one provider of a command, and those of calls made there. */
  predicate Known(s: State, c: Chan, tok: H.Token) {
    || (tok.kind.Call? && c.topic in s.owner && s.owner[c.topic] == c.client
        && Command(c.topic, tok.name) in s.providers && s.providers[Command(c.topic, tok.name)] == tok)
    || (tok.kind.Result? && tok.id in s.calls && s.calls[tok.id].token == tok && s.calls[tok.id].chan == c)
  }

  predicate WorkInv(cell: Cell) {
    && cell.taken <= |cell.trace|
    && (!cell.work.Idle? ==> 0 < cell.taken && cell.work.msg == cell.trace[cell.taken - 1])
    && !cell.work.Failed?
    && (cell.work.Executing? ==> cell.work.tok !in cell.work.todo && H.Dispatch(cell.work.tok, cell.work.msg).Invoke?)
  }

  predicate CellInv(s: State, c: Chan)
    requires c in s.cells
  {
    var cell := s.cells[c];
    && WorkInv(cell)
    && NoDuplicates(cell.trace)
    && (cell.handlers != {} ==> cell.subscribed)
    && (forall tok :: tok in cell.Live() ==> Known(s, c, tok))
    && (forall i :: 0 <= i < |cell.trace| ==> Legitimate(s, c.topic, cell.trace[i]))
  }

  /** The cell's thread took `msg` and is past starting `tok` for it. */
  predicate Consumed(cell: Cell, msg: Json, tok: H.Token) {
    && cell.taken <= |cell.trace| && msg in cell.trace[..cell.taken]
    && (!cell.work.Idle? && cell.work.msg == msg ==> !cell.work.Popped? && tok !in cell.work.Todo())
  }

  predicate CallInv(s: State, id: string)
    requires id in s.calls
  {
    var call := s.calls[id];
    && call.chan in s.cells && call.chan.topic in s.owner
    && call.token.kind.Result? && call.token.id == id && call.token.name == call.name
    && !call.status.Broken?
    && (call.token in s.cells[call.chan].handlers <==> !call.status.Returned?)
    && (call.status.Fulfilled? || call.status.Returned? ==>
          && id in s.computed && s.computed[id].retval == call.status.retval
          && Consumed(s.cells[call.chan], ResultOf(s, id), call.token))
  }

  /** A computed call was handled by the provider of its command, with its own arguments, and is done with. */
  predicate ComputedInv(s: State, id: string)
    requires id in s.computed
  {
    && id in s.calls
    && s.computed[id].args == s.calls[id].args
    && var call := s.calls[id];
       var cmd := Command(call.chan.topic, call.name);
       && call.chan.topic in s.owner && cmd in s.providers
       && var c := Chan(s.owner[call.chan.topic], call.chan.topic);
          && c in s.cells
          && Consumed(s.cells[c], CallMessage(id, call), s.providers[cmd])
          && (s.cells[c].work.Executing? && s.cells[c].work.tok == s.providers[cmd] ==>
                s.cells[c].work.msg != CallMessage(id, call))
  }

  predicate CellsInv(s: State) {
    forall c {:trigger CellInv(s, c)} :: c in s.cells ==> CellInv(s, c)
  }

  predicate Inv(s: State) {
    && CellsInv(s)
    && (forall id {:trigger CallInv(s, id)} :: id in s.calls ==> CallInv(s, id))
    && (forall id {:trigger ComputedInv(s, id)} :: id in s.computed ==> ComputedInv(s, id))
  }

  /** A start: no calls yet, idle cells without handlers for every command topic. */
  predicate Init(s: State) {
    && s.calls == map[] && s.computed == map[] && s.providers == map[]
    && (forall c :: c in s.cells ==> s.cells[c] == Cell([], 0, H.Idle, {}, false))
  }

  lemma InitInv(s: State)
    requires Init(s)
    ensures Inv(s)
  {
  }

  // ---- What every step keeps ----

  /** Owners stay; providers, calls and computations are only added; a published call stays published. */
  predicate Grows(s: State, s': State) {
    && s'.owner == s.owner
    && (forall cmd :: cmd in s.providers ==> cmd in s'.providers && s'.providers[cmd] == s.providers[cmd])
    && (forall id :: id in s.calls ==>
          && id in s'.calls && s'.calls[id] == s.calls[id].(status := s'.calls[id].status)
          && (!s.calls[id].status.Registered? ==> !s'.calls[id].status.Registered?))
    && (forall id :: id in s.computed ==> id in s'.computed && s'.computed[id] == s.computed[id])
  }

  lemma KnownKept(s: State, s': State, c: Chan, tok: H.Token)
    requires Grows(s, s') && Known(s, c, tok)
    ensures Known(s', c, tok)
  {
  }

  lemma LegitimateKept(s: State, s': State, topic: string, msg: Json)
    requires Grows(s, s') && Legitimate(s, topic, msg)
    ensures Legitimate(s', topic, msg)
  {
  }

  /** A cell whose messages stay, and whose handlers and thread only hold known handlers. */
  lemma CellKept(s: State, s': State, c: Chan)
    requires c in s.cells && CellInv(s, c) && Grows(s, s')
    requires c in s'.cells && s'.cells[c].trace == s.cells[c].trace
    requires WorkInv(s'.cells[c])
    requires s'.cells[c].handlers != {} ==> s'.cells[c].subscribed
    requires forall tok :: tok in s'.cells[c].Live() && tok !in s.cells[c].Live() ==> Known(s', c, tok)
    ensures CellInv(s', c)
  {
    forall tok | tok in s'.cells[c].Live()
      ensures Known(s', c, tok)
    {
      if tok in s.cells[c].Live() {
        KnownKept(s, s', c, tok);
      }
    }
    forall i | 0 <= i < |s'.cells[c].trace|
      ensures Legitimate(s', c.topic, s'.cells[c].trace[i])
    {
      LegitimateKept(s, s', c.topic, s.cells[c].trace[i]);
    }
  }

  /** A legitimate message that is not there yet may be forwarded. */
  lemma ForwardKeepsCell(s: State, s': State, c: Chan, topic: string, msg: Json)
    requires c in s.cells && CellInv(s, c) && Grows(s, s')
    requires c in s'.cells && s'.cells[c] == s.cells[c].(trace := s.cells[c].trace + [msg])
    requires c.topic == topic && msg !in s.cells[c].trace && Legitimate(s', topic, msg)
    ensures CellInv(s', c)
  {
    var trace, trace' := s.cells[c].trace, s'.cells[c].trace;
    forall tok | tok in s'.cells[c].Live()
      ensures Known(s', c, tok)
    {
      KnownKept(s, s', c, tok);
    }
    forall i | 0 <= i < |trace'|
      ensures Legitimate(s', topic, trace'[i])
    {
      if i < |trace| {
        LegitimateKept(s, s', topic, trace[i]);
      }
    }
  }

  /** The thread of a cell goes on, messages are added at the end, handlers come and go. */
  predicate Advances(cell: Cell, cell': Cell) {
    && cell.trace <= cell'.trace
    && (
       || (cell'.taken == cell.taken && cell'.work == cell.work)
       || (cell'.taken == cell.taken && !cell'.work.Popped? && !cell'.work.Idle? && !cell.work.Idle?
           && cell'.work.msg == cell.work.msg && (!cell.work.Popped? ==> cell'.work.Todo() <= cell.work.Todo()))
       || (cell'.taken == cell.taken && cell'.work.Idle?)
       || (cell'.taken == cell.taken + 1 && cell.taken < |cell.trace|
           && cell'.work == H.Popped(cell.trace[cell.taken])))
  }

  lemma ConsumedKept(cell: Cell, cell': Cell, msg: Json, tok: H.Token)
    requires Consumed(cell, msg, tok) && NoDuplicates(cell.trace) && Advances(cell, cell') && WorkInv(cell')
    ensures Consumed(cell', msg, tok)
  {
    assert cell.trace[..cell.taken] <= cell'.trace[..cell'.taken];
    var i :| 0 <= i < cell.taken && cell.trace[i] == msg;
    assert cell'.trace[..cell'.taken][i] == msg;
  }

  lemma CallKept(s: State, s': State, id: string)
    requires id in s.calls && CallInv(s, id) && Grows(s, s')
    requires s.calls[id].chan in s'.cells && s'.calls[id].status == s.calls[id].status
    requires CellInv(s, s.calls[id].chan) && CellInv(s', s.calls[id].chan)
    requires Advances(s.cells[s.calls[id].chan], s'.cells[s.calls[id].chan])
    requires s.calls[id].token in s'.cells[s.calls[id].chan].handlers <==>
             s.calls[id].token in s.cells[s.calls[id].chan].handlers
    ensures CallInv(s', id)
  {
    var c := s.calls[id].chan;
    if s.calls[id].status.Fulfilled? || s.calls[id].status.Returned? {
      ConsumedKept(s.cells[c], s'.cells[c], ResultOf(s, id), s.calls[id].token);
    }
  }

  /** The provider's thread does not take up a computed call again. */
  lemma ComputedKept(s: State, s': State, id: string)
    requires id in s.computed && ComputedInv(s, id) && Grows(s, s')
    requires var c := Chan(s.owner[s.calls[id].chan.topic], s.calls[id].chan.topic);
             && c in s'.cells && CellInv(s, c) && CellInv(s', c) && Advances(s.cells[c], s'.cells[c])
             && (s'.cells[c].work.Executing? && s'.cells[c].work != s.cells[c].work ==>
                   s.cells[c].work.Dispatching? && s'.cells[c].work.tok in s.cells[c].work.todo)
    ensures ComputedInv(s', id)
  {
    var call := s.calls[id];
    var c := Chan(s.owner[call.chan.topic], call.chan.topic);
    ConsumedKept(s.cells[c], s'.cells[c], CallMessage(id, call), s.providers[Command(call.chan.topic, call.name)]);
  }

  // ---- Every step keeps the invariant ----

  /** A cell takes up no handler that its thread did not still have to do. */
  predicate StartsOnlyTodo(cell: Cell, cell': Cell) {
    cell'.work.Executing? && cell'.work != cell.work ==>
      cell.work.Dispatching? && cell'.work.tok in cell.work.todo
  }

  /** All that a step does to the cells. */
  predicate CellsMove(s: State, s': State) {
    && Grows(s, s')
    && s'.cells.Keys == s.cells.Keys
    && (forall c :: c in s.cells ==> Advances(s.cells[c], s'.cells[c]) && StartsOnlyTodo(s.cells[c], s'.cells[c]))
  }

  lemma OtherCallKept(s: State, s': State, id: string)
    requires CellsInv(s) && CellsMove(s, s') && CellsInv(s')
    requires id in s.calls && CallInv(s, id) && s'.calls[id].status == s.calls[id].status
    requires s.calls[id].token in s'.cells[s.calls[id].chan].handlers <==>
             s.calls[id].token in s.cells[s.calls[id].chan].handlers
    ensures CallInv(s', id)
  {
    var c := s.calls[id].chan;
    assert CellInv(s, c) && CellInv(s', c);
    CallKept(s, s', id);
  }

  lemma ComputationKept(s: State, s': State, id: string)
    requires CellsInv(s) && CellsMove(s, s') && CellsInv(s')
    requires id in s.computed && ComputedInv(s, id)
    ensures ComputedInv(s', id)
  {
    var c := Chan(s.owner[s.calls[id].chan.topic], s.calls[id].chan.topic);
    assert CellInv(s, c) && CellInv(s', c);
    ComputedKept(s, s', id);
  }

  function HandlersAt(cells: map<Chan, Cell>, c: Chan): set<H.Token> {
    if c in cells then cells[c].handlers else {}
  }

  /** The calls other than `changed` and their handlers stay as they are. */
  predicate CallsStay(s: State, s': State, changed: set<string>) {
    forall id :: id in s.calls && id !in changed ==>
      && id in s'.calls && s'.calls[id].status == s.calls[id].status
      && (s.calls[id].token in HandlersAt(s'.cells, s.calls[id].chan) <==>
            s.calls[id].token in HandlersAt(s.cells, s.calls[id].chan))
  }

  /** A handler that belongs to no call comes or goes. */
  lemma OtherHandlerChanges(s: State, s': State, tok: H.Token)
    requires s.cells.Keys == s'.cells.Keys
    requires forall id :: id in s.calls ==> id in s'.calls && s'.calls[id].status == s.calls[id].status
    requires forall id :: id in s.calls ==> s.calls[id].token != tok
    requires forall c :: c in s.cells ==> s'.cells[c].handlers - {tok} == s.cells[c].handlers - {tok}
    ensures CallsStay(s, s', {})
  {
    forall id | id in s.calls
      ensures s.calls[id].token in HandlersAt(s'.cells, s.calls[id].chan) <==>
              s.calls[id].token in HandlersAt(s.cells, s.calls[id].chan)
    {
      var c := s.calls[id].chan;
      if c in s.cells {
        assert s.calls[id].token in s'.cells[c].handlers - {tok} <==> s.calls[id].token in s.cells[c].handlers - {tok};
      }
    }
  }

  /** What remains to show of a step: the calls it changes, and new calls and computations. */
  lemma StepKeeps(s: State, s': State, changed: set<string>)
    requires Inv(s) && CellsMove(s, s') && CellsInv(s') && CallsStay(s, s', changed)
    ensures forall id {:trigger CallInv(s', id)} :: id in s.calls && id !in changed ==> CallInv(s', id)
    ensures forall id {:trigger ComputedInv(s', id)} :: id in s.computed ==> ComputedInv(s', id)
  {
    forall id | id in s.calls && id !in changed
      ensures CallInv(s', id)
    {
      assert CallInv(s, id);
      OtherCallKept(s, s', id);
    }
    forall id | id in s.computed
      ensures ComputedInv(s', id)
    {
      ComputationKept(s, s', id);
    }
  }

  /** A step that changes one call. */
  lemma OneCallStepKeeps(s: State, s': State, id: string)
    requires Inv(s) && CellsMove(s, s') && CellsInv(s') && CallsStay(s, s', {id})
    requires s'.calls.Keys == s.calls.Keys && s'.computed.Keys == s.computed.Keys
    requires id in s'.calls && CallInv(s', id)
    ensures Inv(s')
  {
    StepKeeps(s, s', {id});
  }

  lemma StatusGrows(s: State, s': State, id: string, status: Status)
    requires id in s.calls && !status.Registered?
    requires s'.owner == s.owner && s'.providers == s.providers && s'.computed == s.computed
    requires s'.calls == SetStatus(s.calls, id, status)
    ensures Grows(s, s')
  {
  }

  /** A change of a cell that adds no message. */
  predicate QuietChange(s': State, c: Chan, cell: Cell, cell': Cell) {
    && cell'.trace == cell.trace
    && WorkInv(cell')
    && Advances(cell, cell') && StartsOnlyTodo(cell, cell')
    && (cell'.handlers != {} ==> cell'.subscribed)
    && (forall tok :: tok in cell'.Live() && tok !in cell.Live() ==> Known(s', c, tok))
  }

  lemma QuietStepKeepsCells(s: State, s': State)
    requires CellsInv(s) && Grows(s, s') && s'.cells.Keys == s.cells.Keys
    requires forall c :: c in s.cells ==>
               s'.cells[c] == s.cells[c] || QuietChange(s', c, s.cells[c], s'.cells[c])
    ensures CellsInv(s') && CellsMove(s, s')
  {
    forall c | c in s'.cells
      ensures CellInv(s', c)
    {
      assert CellInv(s, c);
      CellKept(s, s', c);
    }
  }

  lemma OneQuietChange(s: State, s': State, c: Chan, cell: Cell)
    requires CellsInv(s) && Grows(s, s') && c in s.cells && s'.cells == s.cells[c := cell]
    requires QuietChange(s', c, s.cells[c], cell)
    ensures CellsInv(s') && CellsMove(s, s')
  {
    QuietStepKeepsCells(s, s');
  }

  /** The thread of `c` moves on, its messages and handlers stay. */
  predicate ThreadMoves(cell: Cell, cell': Cell) {
    && cell' == cell.(taken := cell'.taken, work := cell'.work)
    && Advances(cell, cell') && StartsOnlyTodo(cell, cell')
    && WorkInv(cell') && cell'.Live() <= cell.Live()
  }

  lemma ThreadStepKeepsCells(s: State, s': State, c: Chan, cell: Cell)
    requires CellsInv(s) && c in s.cells && Grows(s, s') && s'.cells == s.cells[c := cell]
    requires ThreadMoves(s.cells[c], cell)
    ensures CellsInv(s') && CellsMove(s, s')
    ensures forall d :: HandlersAt(s'.cells, d) == HandlersAt(s.cells, d)
  {
    assert CellInv(s, c);
    OneQuietChange(s, s', c, cell);
  }

  lemma ThreadStepPreservesInv(s: State, s': State, c: Chan, cell: Cell)
    requires Inv(s) && c in s.cells && s' == s.(cells := s.cells[c := cell])
    requires ThreadMoves(s.cells[c], cell)
    ensures Inv(s')
  {
    ThreadStepKeepsCells(s, s', c, cell);
    StepKeeps(s, s', {});
  }

  // ---- Runs, and what is proved of them in modules CallSteps and CallSafety ----

  /** The handler `tok` on `c` is about to be called with a result for its call. */
  predicate ResultDue(s: State, c: Chan, tok: H.Token) {
    && c in s.cells && s.cells[c].work.Dispatching? && tok in s.cells[c].work.todo
    && tok.kind.Result? && H.Dispatch(tok, s.cells[c].work.msg).Invoke?
  }

  /** The thread of `c` runs the handler of a command. */
  predicate Serving(s: State, c: Chan) {
    c in s.cells && s.cells[c].work.Executing? && s.cells[c].work.tok.kind.Call?
  }

  function Run(s: State, steps: seq<Step>): Option<State>
    decreases |steps|
  {
    if steps == [] then Some(s)
    else if !Enabled(s, steps[0]) then None
    else Run(Apply(s, steps[0]), steps[1..])
  }

  /** `call` was answered with `retval` by the one provider of its command, for its own arguments. */
  predicate AnsweredByProvider(s: State, id: string, retval: Json)
    requires id in s.calls
  {
    var call := s.calls[id];
    && id in s.computed && s.computed[id] == Computation(call.args, retval)
    && Command(call.chan.topic, call.name) in s.providers
    && call.chan.topic in s.owner
  }
}
