/**
 * One topic entry: `MessageHandler`, its queue, its set of handlers and its thread. A step is
 * what the code does under one lock, or one turn of the loop that distributes a message.
 */
module MessageHandler {
  import opened Wrappers
  import opened Json

  datatype HandlerType =
    Call | Result | SubscribeVar | SubscribeError | ClearErrorRequest | ExternalMQTT | Unknown

  /** A registered handler; `uid` is the identity of the shared pointer. */
  datatype Token = Token(uid: nat, name: string, id: string, kind: HandlerType)

  /** What the distribution loop does for one handler and one message. */
  datatype Outcome = Invoke(arg: Json) | Skip | Throw

  function InvokeWith(data: Option<Json>): Outcome {
    if data.None? then Throw else Invoke(data.value)
  }

  /** The test on message type, name and id that decides whether a handler is called. */
  function Dispatch(tok: Token, data: Json): Outcome {
    match tok.kind
    case Call =>
      if At(data, "name").None? then Throw
      else if At(data, "name") != Some(Str(tok.name)) then Skip
      else if At(data, "type").None? then Throw
      else if At(data, "type") != Some(Str("call")) then Skip
      else InvokeWith(At(data, "data"))
    case Result =>
      if At(data, "name").None? then Throw
      else if At(data, "name") != Some(Str(tok.name)) then Skip
      else if At(data, "type").None? then Throw
      else if At(data, "type") != Some(Str("result")) then Skip
      else if At(data, "data").None? || At(At(data, "data").value, "id").None? then Throw
      else if At(At(data, "data").value, "id") != Some(Str(tok.id)) then Skip
      else InvokeWith(At(data, "data"))
    case SubscribeVar =>
      if At(data, "name").None? then Throw
      else if At(data, "name") != Some(Str(tok.name)) then Skip
      else InvokeWith(At(data, "data"))
    case _ => Invoke(data)
  }

  /** The handler thread: between messages, holding one, distributing it, or inside a handler. */
  datatype Work =
    | Idle
    | Popped(msg: Json)
    | Dispatching(msg: Json, todo: set<Token>)
    | Executing(msg: Json, todo: set<Token>, tok: Token)
    | Failed(msg: Json, todo: set<Token>)
  {
    function Todo(): set<Token> {
      if Dispatching? || Executing? || Failed? then todo else {}
    }
  }

  /** Handler `tok` was called with the message at position `pos` of those routed to the entry. */
  datatype Delivery = Delivery(tok: Token, pos: nat, arg: Json)

  /**
   * `handlers`, `queue`, `running` and `work` are the state of the object and of its thread.
   * The rest is history: the messages routed here, the handlers ever added, the snapshot taken
   * for each message, and the handler calls in order.
   */
  datatype Entry = Entry(
    handlers: set<Token>,
    queue: seq<Json>,
    running: bool,
    work: Work,
    routed: seq<Json>,
    seen: set<Token>,
    snapshots: seq<set<Token>>,
    log: seq<Delivery>)
  {
    /** The number of messages taken from the queue. */
    function Taken(): int {
      |routed| - |queue|
    }
  }

  const NEW_ENTRY := Entry({}, [], true, Idle, [], {}, [], [])

  datatype Step =
    | Add(msg: Json)
    | AddHandler(tok: Token)
    | RemoveHandler(tok: Token)
    | Stop
    | Pop
    | Snapshot
    | Start(tok: Token)
    | End
    | Finish

  /** When a step can happen; removing needs the token to be present, as the code erases what it found. */
  predicate Enabled(e: Entry, step: Step) {
    match step
    case Add(_) => true
    case AddHandler(_) => true
    case RemoveHandler(tok) => tok in e.handlers
    case Stop => true
    case Pop => e.running && e.work.Idle? && e.queue != []
    case Snapshot => e.work.Popped?
    case Start(tok) => e.work.Dispatching? && tok in e.work.todo && |e.snapshots| > 0
    case End => e.work.Executing?
    case Finish => e.work.Dispatching? && e.work.todo == {}
  }

  function StartHandler(e: Entry, tok: Token): Entry
    requires e.work.Dispatching? && tok in e.work.todo && |e.snapshots| > 0
  {
    var Dispatching(msg, todo) := e.work;
    match Dispatch(tok, msg)
    case Throw => e.(work := Failed(msg, todo))
    case Skip => e.(work := Dispatching(msg, todo - {tok}))
    case Invoke(arg) =>
      e.(work := Executing(msg, todo - {tok}, tok), log := e.log + [Delivery(tok, |e.snapshots| - 1, arg)])
  }

  function Apply(e: Entry, step: Step): Entry
    requires Enabled(e, step)
  {
    match step
    case Add(msg) => e.(queue := e.queue + [msg], routed := e.routed + [msg])
    case AddHandler(tok) => e.(handlers := e.handlers + {tok}, seen := e.seen + {tok})
    case RemoveHandler(tok) => e.(handlers := e.handlers - {tok})
    case Stop => e.(running := false)
    case Pop => e.(queue := e.queue[1..], work := Popped(e.queue[0]))
    case Snapshot =>
      e.(work := Dispatching(e.work.msg, e.handlers), snapshots := e.snapshots + [e.handlers])
    case Start(tok) => StartHandler(e, tok)
    case End => e.(work := Dispatching(e.work.msg, e.work.todo))
    case Finish => e.(work := Idle)
  }

  // ---- Invariant ----

  /** Routed messages are the taken ones followed by the queue; the current message is the last taken. */
  predicate QueueInv(e: Entry) {
    && 0 <= e.Taken()
    && e.routed[e.Taken()..] == e.queue
    && (!e.work.Idle? ==> e.Taken() > 0 && e.work.msg == e.routed[e.Taken() - 1])
    && |e.snapshots| == (if e.work.Popped? then e.Taken() - 1 else e.Taken())
  }

  predicate SnapshotInv(e: Entry) {
    && e.handlers <= e.seen
    && (forall i :: 0 <= i < |e.snapshots| ==> e.snapshots[i] <= e.seen)
    && (e.work.Todo() != {} || e.work.Executing? ==> |e.snapshots| > 0)
    && (|e.snapshots| > 0 ==> e.work.Todo() <= e.snapshots[|e.snapshots| - 1])
    && (e.work.Executing? ==>
          e.work.tok in e.snapshots[|e.snapshots| - 1] && e.work.tok !in e.work.todo
          && Dispatch(e.work.tok, e.work.msg).Invoke?)
  }

  /** The handler calls due so far: snapshot members that pass the test, except those still to come. */
  predicate Due(e: Entry, tok: Token, pos: nat)
    requires |e.snapshots| <= |e.routed|
  {
    && pos < |e.snapshots|
    && tok in e.snapshots[pos]
    && Dispatch(tok, e.routed[pos]).Invoke?
    && (pos == |e.snapshots| - 1 ==> tok !in e.work.Todo())
  }

  predicate Delivered(log: seq<Delivery>, tok: Token, pos: nat) {
    exists i :: 0 <= i < |log| && log[i].tok == tok && log[i].pos == pos
  }

  /** Calls are logged in message order, and no handler gets a message twice. */
  predicate Ordered(log: seq<Delivery>) {
    forall i, j :: 0 <= i < j < |log| ==>
      log[i].pos <= log[j].pos && (log[i].pos == log[j].pos ==> log[i].tok != log[j].tok)
  }

  /** Every logged call was due, with the argument the test extracts. */
  predicate LogSound(e: Entry)
    requires |e.snapshots| <= |e.routed|
  {
    forall i :: 0 <= i < |e.log| ==>
      && Due(e, e.log[i].tok, e.log[i].pos)
      && Dispatch(e.log[i].tok, e.routed[e.log[i].pos]) == Invoke(e.log[i].arg)
  }

  ghost predicate LogComplete(e: Entry)
    requires |e.snapshots| <= |e.routed|
  {
    forall tok, pos: nat :: Due(e, tok, pos) ==> Delivered(e.log, tok, pos)
  }

  ghost predicate LogInv(e: Entry)
    requires |e.snapshots| <= |e.routed|
  {
    Ordered(e.log) && LogSound(e) && LogComplete(e)
  }

  ghost predicate Inv(e: Entry) {
    QueueInv(e) && SnapshotInv(e) && LogInv(e)
  }

  lemma InitInv()
    ensures Inv(NEW_ENTRY)
  {
  }

  lemma DeliveredGrows(log: seq<Delivery>, d: Delivery, tok: Token, pos: nat)
    ensures Delivered(log + [d], tok, pos) <==> Delivered(log, tok, pos) || (d.tok == tok && d.pos == pos)
  {
    var log' := log + [d];
    assert log'[|log|] == d;
    if Delivered(log, tok, pos) {
      var i :| 0 <= i < |log| && log[i].tok == tok && log[i].pos == pos;
      assert log'[i] == log[i];
    }
  }

  /** Starting a handler makes exactly one more call due, if the test passes. */
  lemma StartDue(e: Entry, tok: Token, t: Token, pos: nat)
    requires Inv(e) && Enabled(e, Start(tok))
    ensures var e' := Apply(e, Start(tok));
            Due(e', t, pos) <==>
            || Due(e, t, pos)
            || (e'.work.Executing? && t == tok && pos == |e.snapshots| - 1)
  {
    assert e.work.msg == e.routed[|e.snapshots| - 1];
  }

  lemma StartComplete(e: Entry, tok: Token, t: Token, pos: nat)
    requires Inv(e) && Enabled(e, Start(tok)) && Due(Apply(e, Start(tok)), t, pos)
    ensures Delivered(Apply(e, Start(tok)).log, t, pos)
  {
    var e' := Apply(e, Start(tok));
    StartDue(e, tok, t, pos);
    if e'.work.Executing? {
      DeliveredGrows(e.log, e'.log[|e.log|], t, pos);
    }
  }

  lemma StartSound(e: Entry, tok: Token)
    requires Inv(e) && Enabled(e, Start(tok))
    ensures Ordered(Apply(e, Start(tok)).log) && LogSound(Apply(e, Start(tok)))
  {
    var e' := Apply(e, Start(tok));
    forall i | 0 <= i < |e'.log|
      ensures Due(e', e'.log[i].tok, e'.log[i].pos)
      ensures Dispatch(e'.log[i].tok, e'.routed[e'.log[i].pos]) == Invoke(e'.log[i].arg)
      ensures i < |e.log| ==> e'.log[i].tok != tok || e'.log[i].pos != |e.snapshots| - 1
    {
      if i < |e.log| {
        assert e'.log[i] == e.log[i];
        assert Due(e, e.log[i].tok, e.log[i].pos);
      }
      StartDue(e, tok, e'.log[i].tok, e'.log[i].pos);
    }
  }

  lemma StartPreservesLog(e: Entry, tok: Token)
    requires Inv(e) && Enabled(e, Start(tok))
    ensures LogInv(Apply(e, Start(tok)))
  {
    StartSound(e, tok);
    forall t, pos: nat | Due(Apply(e, Start(tok)), t, pos)
      ensures Delivered(Apply(e, Start(tok)).log, t, pos)
    {
      StartComplete(e, tok, t, pos);
    }
  }

  /** No other step changes which calls are due. */
  lemma OtherStepDue(e: Entry, step: Step, tok: Token, pos: nat)
    requires Inv(e) && Enabled(e, step) && !step.Start?
    requires QueueInv(Apply(e, step))
    ensures Due(Apply(e, step), tok, pos) <==> Due(e, tok, pos)
  {
    if pos < |e.snapshots| {
      assert Apply(e, step).snapshots[pos] == e.snapshots[pos];
      assert Apply(e, step).routed[pos] == e.routed[pos];
    }
  }

  lemma OtherStepPreservesLog(e: Entry, step: Step)
    requires Inv(e) && Enabled(e, step) && !step.Start?
    requires QueueInv(Apply(e, step))
    ensures LogInv(Apply(e, step))
  {
    var e' := Apply(e, step);
    assert e'.log == e.log && e.routed <= e'.routed;
    forall tok, pos: nat
      ensures Due(e', tok, pos) <==> Due(e, tok, pos)
    {
      OtherStepDue(e, step, tok, pos);
    }
    forall i | 0 <= i < |e'.log|
      ensures Due(e', e'.log[i].tok, e'.log[i].pos)
      ensures Dispatch(e'.log[i].tok, e'.routed[e'.log[i].pos]) == Invoke(e'.log[i].arg)
    {
      assert Due(e, e.log[i].tok, e.log[i].pos);
    }
  }

  lemma PopPreservesQueue(e: Entry)
    requires QueueInv(e) && Enabled(e, Pop)
    ensures QueueInv(Apply(e, Pop))
  {
    assert e.routed[e.Taken()..][0] == e.routed[e.Taken()];
  }

  lemma AddPreservesQueue(e: Entry, msg: Json)
    requires QueueInv(e)
    ensures QueueInv(Apply(e, Add(msg)))
  {
  }

  lemma StepPreservesQueue(e: Entry, step: Step)
    requires QueueInv(e) && Enabled(e, step)
    ensures QueueInv(Apply(e, step))
  {
    match step
    case Add(msg) => AddPreservesQueue(e, msg);
    case Pop => PopPreservesQueue(e);
    case _ =>
  }

  lemma StepPreservesSnapshots(e: Entry, step: Step)
    requires Inv(e) && Enabled(e, step)
    ensures SnapshotInv(Apply(e, step))
  {
  }

  lemma StepPreservesInv(e: Entry, step: Step)
    requires Inv(e) && Enabled(e, step)
    ensures Inv(Apply(e, step))
  {
    StepPreservesQueue(e, step);
    StepPreservesSnapshots(e, step);
    if step.Start? {
      StartPreservesLog(e, step.tok);
    } else {
      OtherStepPreservesLog(e, step);
    }
  }

  // ---- Runs ----

  /** The entry after a run, or None if some step of it is not enabled. */
  function Run(e: Entry, steps: seq<Step>): Option<Entry>
    decreases |steps|
  {
    if steps == [] then Some(e)
    else if !Enabled(e, steps[0]) then None
    else Run(Apply(e, steps[0]), steps[1..])
  }

  lemma {:induction false} RunPreservesInv(e: Entry, steps: seq<Step>)
    requires Inv(e) && Run(e, steps).Some?
    ensures Inv(Run(e, steps).value)
    decreases |steps|
  {
    if steps != [] {
      StepPreservesInv(e, steps[0]);
      RunPreservesInv(Apply(e, steps[0]), steps[1..]);
    }
  }

  lemma {:induction false} RunSnoc(e: Entry, steps: seq<Step>, step: Step)
    requires Run(e, steps).Some? && Enabled(Run(e, steps).value, step)
    ensures Run(e, steps + [step]) == Some(Apply(Run(e, steps).value, step))
    decreases |steps|
  {
    if steps == [] {
      assert Run(Apply(e, step), []) == Some(Apply(e, step));
    } else {
      assert (steps + [step])[1..] == steps[1..] + [step];
      RunSnoc(Apply(e, steps[0]), steps[1..], step);
    }
  }

  lemma {:induction false} RunConcat(e: Entry, a: seq<Step>, b: seq<Step>)
    requires Run(e, a).Some?
    ensures Run(e, a + b) == Run(Run(e, a).value, b)
    decreases |a|
  {
    if a == [] {
      assert a + b == b;
    } else {
      assert (a + b)[1..] == a[1..] + b;
      RunConcat(Apply(e, a[0]), a[1..], b);
    }
  }

  /** The positions of the messages a handler was called with, in the order of the calls. */
  function PositionsOf(log: seq<Delivery>, tok: Token): (ps: seq<nat>)
    ensures forall k :: 0 <= k < |ps| ==> Delivered(log, tok, ps[k])
  {
    if log == [] then []
    else
      var n := |log| - 1;
      var init := PositionsOf(log[..n], tok);
      assert forall p: nat :: Delivered(log[..n], tok, p) ==> Delivered(log, tok, p);
      if log[n].tok == tok then assert log[n].tok == tok && log[n].pos == log[n].pos; init + [log[n].pos]
      else init
  }

  lemma {:induction false} PositionsComplete(log: seq<Delivery>, tok: Token, pos: nat)
    requires Delivered(log, tok, pos)
    ensures pos in PositionsOf(log, tok)
  {
    var n := |log| - 1;
    if log[n].tok == tok && log[n].pos == pos {
      assert (PositionsOf(log[..n], tok) + [pos])[|PositionsOf(log[..n], tok)|] == pos;
    } else {
      var i :| 0 <= i < |log| && log[i].tok == tok && log[i].pos == pos;
      assert log[..n][i] == log[i];
      PositionsComplete(log[..n], tok, pos);
    }
  }

  lemma {:induction false} PositionsIncrease(log: seq<Delivery>, tok: Token)
    requires Ordered(log)
    ensures forall i, j :: 0 <= i < j < |PositionsOf(log, tok)| ==> PositionsOf(log, tok)[i] < PositionsOf(log, tok)[j]
  {
    if log != [] {
      var n := |log| - 1;
      PositionsIncrease(log[..n], tok);
      var init := PositionsOf(log[..n], tok);
      if log[n].tok == tok {
        forall k | 0 <= k < |init|
          ensures init[k] < log[n].pos
        {
          var i :| 0 <= i < n && log[..n][i].tok == tok && log[..n][i].pos == init[k];
          assert log[i].pos < log[n].pos;
        }
      }
    }
  }

  /** The log of one handler: increasing positions, and exactly the calls that were due. */
  ghost predicate GetsWhatIsDue(e: Entry, tok: Token) {
    var ps := PositionsOf(e.log, tok);
    && (forall i, j :: 0 <= i < j < |ps| ==> ps[i] < ps[j])
    && |e.snapshots| <= |e.routed|
    && (forall pos: nat :: pos in ps <==> Due(e, tok, pos))
  }

  lemma InvGetsWhatIsDue(e: Entry, tok: Token)
    requires Inv(e)
    ensures GetsWhatIsDue(e, tok)
  {
    PositionsIncrease(e.log, tok);
    forall pos: nat
      ensures pos in PositionsOf(e.log, tok) <==> Due(e, tok, pos)
    {
      if Due(e, tok, pos) {
        PositionsComplete(e.log, tok, pos);
      }
      if pos in PositionsOf(e.log, tok) {
        assert Delivered(e.log, tok, pos);
      }
    }
  }

  /**
   * Over every run from a new entry: what is routed is taken or still queued, in order; and each
   * handler is called in arrival order, at most once for a message, and, once a message is done,
   * exactly for the messages whose snapshot held it and whose test it passes.
   */
  lemma DeliveryInOrderExactlyOnce(steps: seq<Step>, tok: Token)
    requires Run(NEW_ENTRY, steps).Some?
    ensures var e := Run(NEW_ENTRY, steps).value;
            && 0 <= e.Taken() && e.routed == e.routed[..e.Taken()] + e.queue
            && GetsWhatIsDue(e, tok)
  {
    InitInv();
    RunPreservesInv(NEW_ENTRY, steps);
    InvGetsWhatIsDue(Run(NEW_ENTRY, steps).value, tok);
  }

  // ---- Whom a message is for ----

  /** Handlers of commands, results and variables look at the members of a message. */
  predicate LooksInside(tok: Token) {
    tok.kind.Call? || tok.kind.Result? || tok.kind.SubscribeVar?
  }

  predicate CarriesId(msg: Json, id: string) {
    At(msg, "data").Some? && At(At(msg, "data").value, "id") == Some(Str(id))
  }

  /**
   * A variable's message is for its handlers by name, a call also by type, a result by type and
   * id; every message is for the handlers of the other kinds.
   */
  predicate IsFor(msg: Json, tok: Token) {
    && (LooksInside(tok) ==> At(msg, "name") == Some(Str(tok.name)))
    && (tok.kind.Call? ==> At(msg, "type") == Some(Str("call")))
    && (tok.kind.Result? ==> At(msg, "type") == Some(Str("result")) && CarriesId(msg, tok.id))
  }

  /** The part of a message that a handler is called with, if it is there. */
  function PartFor(msg: Json, tok: Token): Option<Json> {
    if LooksInside(tok) then At(msg, "data") else Some(msg)
  }

  /** The test calls exactly the handlers that the message is for, with their part of it. */
  lemma InvokedIff(tok: Token, msg: Json, arg: Json)
    ensures Dispatch(tok, msg) == Invoke(arg) <==> IsFor(msg, tok) && PartFor(msg, tok) == Some(arg)
    ensures Dispatch(tok, msg).Invoke? <==> IsFor(msg, tok) && PartFor(msg, tok).Some?
  {
  }

  /** It throws exactly if a member is missing that it looks at, and stops looking at the first that differs. */
  lemma ThrowsIff(tok: Token, msg: Json)
    ensures Dispatch(tok, msg).Throw? <==>
            && LooksInside(tok)
            && (|| At(msg, "name").None?
                || (&& At(msg, "name") == Some(Str(tok.name))
                    && (|| (!tok.kind.SubscribeVar? && At(msg, "type").None?)
                        || (&& (tok.kind.Call? ==> At(msg, "type") == Some(Str("call")))
                            && (tok.kind.Result? ==> At(msg, "type") == Some(Str("result")))
                            && (|| At(msg, "data").None?
                                || (tok.kind.Result? && At(At(msg, "data").value, "id").None?))))))
  {
    assert |"call"| != |"result"|;
  }

  /** A logged call was of a handler that the message is for, with its part of the message. */
  predicate CalledWithOwn(e: Entry, d: Delivery) {
    && d.pos < |e.routed| && d.pos < |e.snapshots| && d.tok in e.snapshots[d.pos]
    && IsFor(e.routed[d.pos], d.tok) && PartFor(e.routed[d.pos], d.tok) == Some(d.arg)
  }

  /** The thread is done with a handler of the snapshot at `pos`, to which that message is of use. */
  predicate Deserves(e: Entry, tok: Token, pos: nat) {
    && pos < |e.snapshots| && pos < |e.routed| && tok in e.snapshots[pos]
    && IsFor(e.routed[pos], tok) && PartFor(e.routed[pos], tok).Some?
    && (pos == |e.snapshots| - 1 ==> tok !in e.work.Todo())
  }

  ghost predicate OwnMessages(e: Entry) {
    && (forall i :: 0 <= i < |e.log| ==> CalledWithOwn(e, e.log[i]))
    && (forall tok, pos: nat :: Deserves(e, tok, pos) ==> Delivered(e.log, tok, pos))
  }

  lemma InvGivesOwn(e: Entry)
    requires Inv(e)
    ensures OwnMessages(e)
  {
    forall i | 0 <= i < |e.log|
      ensures CalledWithOwn(e, e.log[i])
    {
      assert Due(e, e.log[i].tok, e.log[i].pos);
      InvokedIff(e.log[i].tok, e.routed[e.log[i].pos], e.log[i].arg);
    }
    forall tok, pos: nat | Deserves(e, tok, pos)
      ensures Delivered(e.log, tok, pos)
    {
      InvokedIff(tok, e.routed[pos], PartFor(e.routed[pos], tok).value);
      assert Due(e, tok, pos);
    }
  }

  /**
   * Over every run: a variable's handler is called for messages with its own name only and gets
   * their data; command and result handlers likewise by type and id; the other kinds get whole
   * messages. And once a message is done, each handler in its snapshot that it is for has been
   * called with it.
   */
  lemma HandlersGetTheirOwn(steps: seq<Step>)
    requires Run(NEW_ENTRY, steps).Some?
    ensures OwnMessages(Run(NEW_ENTRY, steps).value)
  {
    InitInv();
    RunPreservesInv(NEW_ENTRY, steps);
    InvGivesOwn(Run(NEW_ENTRY, steps).value);
  }

  // ---- After unregistering ----

  /** From `e` to `e'` the history only grew, and `tok` got into no new snapshot. */
  predicate GrowsWithout(e: Entry, e': Entry, tok: Token) {
    && tok !in e'.handlers
    && e.routed <= e'.routed
    && e.snapshots <= e'.snapshots
    && (forall i :: |e.snapshots| <= i < |e'.snapshots| ==> tok !in e'.snapshots[i])
    && e.log <= e'.log
    && (forall i :: |e.log| <= i < |e'.log| ==> e'.log[i].pos >= |e.snapshots| - 1)
  }

  lemma GrowsTransitive(e: Entry, e1: Entry, e2: Entry, tok: Token)
    requires GrowsWithout(e, e1, tok) && GrowsWithout(e1, e2, tok)
    ensures GrowsWithout(e, e2, tok)
  {
  }

  lemma StepGrowsWithout(e: Entry, step: Step, tok: Token)
    requires Inv(e) && tok !in e.handlers && Enabled(e, step) && step != AddHandler(tok)
    ensures GrowsWithout(e, Apply(e, step), tok)
  {
  }

  lemma {:induction false} RemovedStaysOut(e: Entry, steps: seq<Step>, tok: Token)
    requires Inv(e) && tok !in e.handlers
    requires AddHandler(tok) !in steps
    requires Run(e, steps).Some?
    ensures GrowsWithout(e, Run(e, steps).value, tok)
    decreases |steps|
  {
    if steps != [] {
      StepPreservesInv(e, steps[0]);
      var e1 := Apply(e, steps[0]);
      assert steps[0] in steps;
      StepGrowsWithout(e, steps[0], tok);
      RemovedStaysOut(e1, steps[1..], tok);
      GrowsTransitive(e, e1, Run(e, steps).value, tok);
    }
  }

  /**
   * Once a handler is removed, and unless it is added again, every run delivers at most one more
   * message to it: the one whose snapshot was already taken.
   */
  lemma AtMostOneAfterRemoval(e: Entry, steps: seq<Step>, tok: Token)
    requires Inv(e) && tok !in e.handlers
    requires AddHandler(tok) !in steps
    requires Run(e, steps).Some?
    ensures var e' := Run(e, steps).value;
            && e.log <= e'.log
            && (forall i :: |e.log| <= i < |e'.log| && e'.log[i].tok == tok ==>
                  e'.log[i].pos == |e.snapshots| - 1 && tok in e.work.Todo())
            && (forall i, j :: |e.log| <= i <= j < |e'.log| && e'.log[i].tok == e'.log[j].tok == tok ==> i == j)
  {
    RemovedStaysOut(e, steps, tok);
    RunPreservesInv(e, steps);
    var e' := Run(e, steps).value;
    forall i | |e.log| <= i < |e'.log| && e'.log[i].tok == tok
      ensures e'.log[i].pos == |e.snapshots| - 1 && tok in e.work.Todo()
    {
      var pos := e'.log[i].pos;
      assert Due(e', tok, pos);
      assert pos == |e.snapshots| - 1;
      NewCallsWereNotDue(e, e', i);
    }
  }

  lemma NewCallsWereNotDue(e: Entry, e': Entry, i: nat)
    requires Inv(e) && Inv(e') && e.log <= e'.log && |e.log| <= i < |e'.log|
    ensures !Due(e, e'.log[i].tok, e'.log[i].pos)
  {
    forall k | 0 <= k < |e.log|
      ensures e.log[k].tok != e'.log[i].tok || e.log[k].pos != e'.log[i].pos
    {
      assert e.log[k] == e'.log[k];
    }
  }
}
