/**
 * Runs of the whole call path. Through the refinement of module CallSystem every run is one of the
 * protocol, so what holds there of all runs holds here; and messages on their way always move on.
 */
module CallRuns {
  import opened Wrappers
  import opened Sums
  import opened Strings
  import opened TopicMatch
  import opened CallSystem
  import H = MessageHandler
  import C = MqttClient
  import P = CallProtocol
  import M = MissingHandler
  import S = CallSafety
  import W = CallHistory
  import G = CallProgress

  /** The topic of an implementation's commands, as `mqtt_prefix` and `call_cmd` build it. */
  function CommandTopic(prefix: string, id: string, impl: string): string {
    prefix + Join([id, impl, "cmd"], '/')
  }

  /** Its parts behind the prefix are the module, the implementation and a fixed word. */
  lemma CommandTopicParts(prefix: string, id: string, impl: string)
    ensures CommandTopic(prefix, id, impl) == prefix + (id + "/" + (impl + "/" + "cmd"))
  {
    assert [impl, "cmd"][1..] == ["cmd"];
    assert Join([impl, "cmd"], '/') == impl + "/" + "cmd";
    assert [id, impl, "cmd"][1..] == [impl, "cmd"];
    assert Join([id, impl, "cmd"], '/') == id + "/" + Join([impl, "cmd"], '/');
  }

  /** A command topic belongs to one module and one of its implementations, as ids have no slash. */
  lemma CommandTopicHasOneOwner(prefix: string, id: string, impl: string, id': string, impl': string)
    requires '/' !in id && '/' !in impl && '/' !in id' && '/' !in impl'
    requires CommandTopic(prefix, id, impl) == CommandTopic(prefix, id', impl')
    ensures id == id' && impl == impl'
  {
    var a, b := [id, impl, "cmd"], [id', impl', "cmd"];
    SamePrefix(prefix, Join(a, '/'), Join(b, '/'));
    assert '/' !in "cmd";
    SplitJoin(a, '/');
    SplitJoin(b, '/');
    assert a[0] == b[0] && a[1] == b[1];
  }

  lemma SamePrefix(prefix: string, a: string, b: string)
    requires prefix + a == prefix + b
    ensures a == b
  {
    assert (prefix + a)[|prefix|..] == a && (prefix + b)[|prefix|..] == b;
  }

  /** A start: connected clients without handlers, nothing under way. */
  predicate Init(s: System) {
    && s.providers == map[] && s.calls == map[] && s.computed == map[]
    && (forall t :: t in s.owner ==> IsCommand(s.prefix, s.owner, t))
    && (forall p :: p in s.clients ==> s.clients[p] == C.Apply(C.NewClient(s.prefix), C.Connect))
    && (forall c :: c in s.net ==> c.client in s.clients && c.topic in s.owner && s.net[c] == [])
  }

  lemma InitRefines(s: System)
    requires Init(s)
    ensures SystemInv(s) && P.Init(Abstract(s))
  {
    C.InitInv(s.prefix);
    C.StepPreservesInv(C.NewClient(s.prefix), C.Connect);
  }

  function Run(s: System, steps: seq<Step>): Option<System>
    decreases |steps|
  {
    if steps == [] then Some(s)
    else if !Enabled(s, steps[0]) then None
    else Run(Apply(s, steps[0]), steps[1..])
  }

  /** The protocol steps among the steps of a run. */
  function ProtocolSteps(steps: seq<Step>): seq<P.Step> {
    if steps == [] then []
    else (if Protocol(steps[0]).Some? then [Protocol(steps[0]).value] else []) + ProtocolSteps(steps[1..])
  }

  ghost predicate Good(s: System) {
    SystemInv(s) && P.Inv(Abstract(s))
  }

  lemma StepStaysGood(s: System, step: Step)
    requires Good(s) && Enabled(s, step)
    ensures Good(Apply(s, step)) && Refines(s, Apply(s, step), Protocol(step))
  {
    StepRefines(s, step);
    StepKeepsSystemInv(s, step);
    if Protocol(step).Some? {
      S.StepPreservesInv(Abstract(s), Protocol(step).value);
    }
  }

  /** A protocol step, or none, before a run of the protocol. */
  lemma RunAfter(a: P.State, step: Option<P.Step>, a': P.State, rest: seq<P.Step>)
    requires step.None? ==> a' == a
    requires step.Some? ==> P.Enabled(a, step.value) && a' == P.Apply(a, step.value)
    ensures P.Run(a, (if step.Some? then [step.value] else []) + rest) == P.Run(a', rest)
  {
    if step.Some? {
      assert ([step.value] + rest)[1..] == rest;
    } else {
      assert [] + rest == rest;
    }
  }

  /** Every run of the system is, between the messages' moves, a run of the protocol. */
  lemma {:induction false} RunRefines(s: System, steps: seq<Step>)
    requires Good(s) && Run(s, steps).Some?
    ensures Good(Run(s, steps).value)
    ensures P.Run(Abstract(s), ProtocolSteps(steps)) == Some(Abstract(Run(s, steps).value))
    decreases |steps|
  {
    if steps != [] {
      var s1 := Apply(s, steps[0]);
      StepStaysGood(s, steps[0]);
      RunRefines(s1, steps[1..]);
      RunAfter(Abstract(s), Protocol(steps[0]), Abstract(s1), ProtocolSteps(steps[1..]));
    }
  }

  lemma RunFromInit(s0: System, steps: seq<Step>, s: System)
    requires Init(s0) && Run(s0, steps) == Some(s)
    ensures Good(s) && P.Init(Abstract(s0)) && P.Run(Abstract(s0), ProtocolSteps(steps)) == Some(Abstract(s))
  {
    InitRefines(s0);
    P.InitInv(Abstract(s0));
    RunRefines(s0, steps);
  }

  /** The result handlers of a cell are those of its client's entry; other topics have none. */
  lemma HandlersAtClient(s: System, p: string, t: string, tok: H.Token)
    requires SystemInv(s) && p in s.clients && tok.kind.Result?
    ensures tok in P.HandlersAt(Abstract(s).cells, P.Chan(p, t)) <==> tok in C.HandlersOf(s.clients[p].topics, t)
  {
    var c := P.Chan(p, t);
    if c in s.net {
      CellOf(s, c);
    } else {
      assert ClientOk(s.prefix, s.owner, s.clients[p]);
      assert p in s.clients && t in s.clients[p].topics && t in s.owner ==> P.Chan(p, t) in s.net;
    }
  }

  /** At every client, the registered result handlers are those of its calls in flight or timed out. */
  ghost predicate HandlersAreOfCalls(s: System) {
    forall p, t, tok: H.Token :: p in s.clients && tok.kind.Result? ==>
      (tok in C.HandlersOf(s.clients[p].topics, t) <==> S.HandlerOfCall(s.calls, P.Chan(p, t), tok))
  }

  lemma GoodHandlers(s: System)
    requires Good(s)
    ensures HandlersAreOfCalls(s)
  {
    forall p, t, tok: H.Token | p in s.clients && tok.kind.Result?
      ensures tok in C.HandlersOf(s.clients[p].topics, t) <==> S.HandlerOfCall(s.calls, P.Chan(p, t), tok)
    {
      HandlersAtClient(s, p, t, tok);
      S.HandlersAreOfCalls(Abstract(s), P.Chan(p, t), tok);
    }
  }

  lemma CallerIsClient(s: System, id: string)
    requires Good(s) && id in s.calls
    ensures s.calls[id].chan.client in s.clients && s.calls[id].token.kind.Result?
  {
    assert P.CallInv(Abstract(s), id);
  }

  /**
   * In every interleaving of callers, providers, routing workers, handler threads and deliveries:
   * a call that is fulfilled or has returned has what its command's provider computed for that
   * call's arguments, no promise is set twice, and the result handlers registered at the
   * clients are exactly those of calls in flight or timed out.
   */
  lemma ResultsAreTheCallsOwn(s0: System, steps: seq<Step>, id: string)
    requires Init(s0) && Run(s0, steps).Some? && id in Run(s0, steps).value.calls
    ensures var s := Run(s0, steps).value;
            var call := s.calls[id];
            && (call.status.Fulfilled? || call.status.Returned? ==>
                  P.AnsweredByProvider(Abstract(s), id, call.status.retval))
            && !call.status.Broken?
            && call.chan.client in s.clients
            && (call.token in C.HandlersOf(s.clients[call.chan.client].topics, call.chan.topic) <==>
                  call.InFlight() || call.status.TimedOut?)
            && HandlersAreOfCalls(s)
  {
    var s := Run(s0, steps).value;
    RunFromInit(s0, steps, s);
    S.CallsGetTheirOwnResults(Abstract(s0), ProtocolSteps(steps), id);
    GoodHandlers(s);
    CallerIsClient(s, id);
    HandlersAtClient(s, s.calls[id].chan.client, s.calls[id].chan.topic, s.calls[id].token);
  }

  lemma RunAfterStart(s1: System, c: P.Chan, tok: H.Token, after: seq<Step>, s2: System)
    requires Good(s1) && Enabled(s1, Start(c, tok)) && Run(Apply(s1, Start(c, tok)), after) == Some(s2)
    ensures P.Enabled(Abstract(s1), P.Start(c, tok))
    ensures P.Run(P.Apply(Abstract(s1), P.Start(c, tok)), ProtocolSteps(after)) == Some(Abstract(s2))
  {
    StepStaysGood(s1, Start(c, tok));
    RunRefines(Apply(s1, Start(c, tok)), after);
  }

  /**
   * In every interleaving two starts of command handlers, at whatever clients and topics, are
   * for different calls: a provider serves a call at most once, answered or not.
   */
  lemma ServedAtMostOnce(s0: System, before: seq<Step>, s1: System, c: P.Chan, tok: H.Token,
                         after: seq<Step>, s2: System, c': P.Chan, tok': H.Token)
    requires Init(s0) && Run(s0, before) == Some(s1)
    requires Enabled(s1, Start(c, tok)) && W.StartsService(Abstract(s1), c, tok)
    requires Run(Apply(s1, Start(c, tok)), after) == Some(s2) && W.StartsService(Abstract(s2), c', tok')
    ensures P.IdOf(Abstract(s1).cells[c].work.msg) != P.IdOf(Abstract(s2).cells[c'].work.msg)
  {
    RunFromInit(s0, before, s1);
    RunAfterStart(s1, c, tok, after, s2);
    W.ServedAtMostOnce(Abstract(s0), ProtocolSteps(before), Abstract(s1), c, tok,
                       ProtocolSteps(after), Abstract(s2), c', tok');
  }

  /** No client of the system ever aborts for a message without an entry. */
  lemma NoClientFaults(s0: System, steps: seq<Step>, p: string)
    requires Init(s0) && Run(s0, steps).Some? && p in Run(s0, steps).value.clients
    ensures Run(s0, steps).value.clients[p].fault.None?
  {
    var s := Run(s0, steps).value;
    RunFromInit(s0, steps, s);
    assert ClientOk(s.prefix, s.owner, s.clients[p]);
  }

  // ---- Messages on their way move on ----

  /** Moving a message from the broker to its entry. */
  predicate Moves(step: Step) {
    step.Deliver? || step.TakeMessage? || step.RouteMessage?
  }

  lemma AcceptsItself(topic: string)
    requires IsTopicName(topic)
    ensures AcceptsByBothSections(topic, topic)
  {
  }

  /** A message forwarded and not taken is in the entry's queue, or further back. */
  lemma UntakenIsSomewhere(prefix: string, owner: map<string, string>, cl: C.Client, ms: seq<C.Message>, topic: string)
    requires ClientOk(prefix, owner, cl) && ChannelOk(cl, topic, ms) && IsCommand(prefix, owner, topic)
    requires CellAt(cl, ms, topic).taken < |CellAt(cl, ms, topic).trace|
    ensures topic in cl.topics
    ensures cl.topics[topic].entry.queue != [] || cl.inbox.routing.Some? || cl.inbox.queue != [] || ms != []
  {
    if topic !in cl.topics {
      NoEntryNothingForwarded(prefix, owner, cl, ms, topic);
    } else {
      RoutedIsForwarded(prefix, owner, cl, topic);
    }
  }

  lemma DeliverEnabled(s: System, c: P.Chan)
    requires SystemInv(s) && c in s.net && s.net[c] != []
    ensures Enabled(s, Deliver(c))
  {
    CellOf(s, c);
    AcceptsItself(c.topic);
    assert s.net[c][0].topic == c.topic;
  }

  /** Whenever the protocol could take a message, the thread can, or the message moves towards it. */
  lemma MessageMovesOn(s: System, c: P.Chan) returns (step: Step)
    requires SystemInv(s) && P.Enabled(Abstract(s), P.Take(c))
    ensures Enabled(s, step) && (step == Pop(c) || Moves(step))
  {
    CellOf(s, c);
    var cl := s.clients[c.client];
    UntakenIsSomewhere(s.prefix, s.owner, cl, s.net[c], c.topic);
    if cl.topics[c.topic].entry.queue != [] {
      step := Pop(c);
    } else if cl.inbox.routing.Some? {
      step := RouteMessage(c.client);
    } else if cl.inbox.queue != [] {
      step := TakeMessage(c.client);
    } else {
      DeliverEnabled(s, c);
      step := Deliver(c);
    }
  }

  /** The other steps that finish what is under way are steps of the system as soon as of the protocol. */
  function SystemStep(step: P.Step): Step
    requires G.Advancing(step)
  {
    match step
    case Publish(id) => Publish(id)
    case Return(id) => Return(id)
    case Take(c) => Pop(c)
    case Snapshot(c) => Snapshot(c)
    case Start(c, tok) => Start(c, tok)
    case Answer(c, retval) => Answer(c, retval)
    case End(c) => End(c)
    case Finish(c) => Finish(c)
  }

  /** A thread that holds a message belongs to an entry, and started it if it distributes it. */
  lemma ThreadEntry(s: System, c: P.Chan)
    requires SystemInv(s) && c in s.net && !Abstract(s).cells[c].work.Idle?
    ensures c.client in s.clients && s.clients[c.client].fault.None? && c.topic in s.clients[c.client].topics
    ensures var e := s.clients[c.client].topics[c.topic].entry;
            && e.work == Abstract(s).cells[c].work
            && (e.work.Dispatching? && e.work.todo != {} ==> |e.snapshots| > 0)
  {
    CellOf(s, c);
    EntryInv(s.prefix, s.owner, s.clients[c.client], c.topic);
  }

  lemma ThreadCan(s: System, c: P.Chan, step: H.Step)
    requires SystemInv(s) && c in s.net && C.OwnStep(step) && !Abstract(s).cells[c].work.Idle?
    requires var work := Abstract(s).cells[c].work;
             match step
             case Snapshot => work.Popped?
             case Start(tok) => work.Dispatching? && tok in work.todo
             case End => work.Executing?
             case Finish => work.Dispatching? && work.todo == {}
             case _ => false
    ensures Can(s, c.client, C.Handle(c.topic, step)) && WorkAt(s, c) == Abstract(s).cells[c].work
  {
    ThreadEntry(s, c);
  }

  lemma ThreadStepLifts(s: System, step: P.Step)
    requires SystemInv(s) && P.Enabled(Abstract(s), step)
    requires step.Snapshot? || step.Start? || step.Answer? || step.End? || step.Finish?
    ensures Enabled(s, SystemStep(step))
  {
    match step
    case Snapshot(c) => ThreadCan(s, c, H.Snapshot);
    case Start(c, tok) => ThreadCan(s, c, H.Start(tok));
    case Answer(c, _) => ThreadCan(s, c, H.End);
    case End(c) => ThreadCan(s, c, H.End);
    case Finish(c) => ThreadCan(s, c, H.Finish);
  }

  /** The client of a call is there and works. */
  lemma CallerWorks(s: System, id: string)
    requires Good(s) && id in s.calls
    ensures var c := s.calls[id].chan;
            && c in s.net && c.client in s.clients && s.clients[c.client].fault.None?
            && (!s.calls[id].status.Returned? ==>
                  s.calls[id].token in C.HandlersOf(s.clients[c.client].topics, c.topic))
  {
    assert P.CallInv(Abstract(s), id);
    CellOf(s, s.calls[id].chan);
  }

  lemma CallStepLifts(s: System, step: P.Step)
    requires SystemInv(s) && P.Inv(Abstract(s)) && P.Enabled(Abstract(s), step)
    requires step.Publish? || step.Return?
    ensures Enabled(s, SystemStep(step))
  {
    CallerWorks(s, step.id);
  }

  lemma StepLifts(s: System, step: P.Step)
    requires SystemInv(s) && P.Inv(Abstract(s)) && P.Enabled(Abstract(s), step)
    requires G.Advancing(step) && !step.Take?
    ensures Enabled(s, SystemStep(step)) && Protocol(SystemStep(step)) == Some(step)
  {
    if step.Publish? || step.Return? {
      CallStepLifts(s, step);
    } else {
      ThreadStepLifts(s, step);
    }
  }

  // ---- The measure ----

  function ClientLoads(clients: map<string, C.Client>): map<string, nat> {
    map p | p in clients :: 2 * |clients[p].inbox.queue| + |C.Held(clients[p].inbox.routing)|
  }

  function NetLoads(net: map<P.Chan, seq<C.Message>>): map<P.Chan, nat> {
    map c | c in net :: 3 * |net[c]|
  }

  /** How far messages still have to go before they reach an entry. */
  ghost function Way(s: System): nat {
    Sum(NetLoads(s.net)) + Sum(ClientLoads(s.clients))
  }

  lemma ClientLoadChanges(clients: map<string, C.Client>, p: string, cl: C.Client)
    requires p in clients
    ensures Sum(ClientLoads(clients[p := cl])) ==
            Sum(ClientLoads(clients)) - ClientLoads(clients)[p] + 2 * |cl.inbox.queue| + |C.Held(cl.inbox.routing)|
  {
    var load := 2 * |cl.inbox.queue| + |C.Held(cl.inbox.routing)|;
    assert ClientLoads(clients[p := cl]) == ClientLoads(clients)[p := load];
    SumUpdate(ClientLoads(clients), ClientLoads(clients[p := cl]), p);
  }

  lemma NetLoadFalls(net: map<P.Chan, seq<C.Message>>, c: P.Chan)
    requires c in net && net[c] != []
    ensures Sum(NetLoads(net[c := net[c][1..]])) == Sum(NetLoads(net)) - 3
  {
    var net' := net[c := net[c][1..]];
    assert NetLoads(net') == NetLoads(net)[c := 3 * |net[c][1..]|];
    SumUpdate(NetLoads(net), NetLoads(net'), c);
  }

  lemma ReceiveLoad(clients: map<string, C.Client>, p: string, m: C.Message, cl: C.Client)
    requires p in clients && C.Enabled(clients[p], C.Receive(m)) && cl == C.Apply(clients[p], C.Receive(m))
    ensures Sum(ClientLoads(clients[p := cl])) == Sum(ClientLoads(clients)) + 2
  {
    ClientLoadChanges(clients, p, cl);
  }

  lemma DeliverShortensWay(s: System, c: P.Chan)
    requires c in s.net && s.net[c] != [] && Can(s, c.client, C.Receive(s.net[c][0]))
    ensures Way(Apply(s, Deliver(c))) < Way(s)
  {
    var cl := C.Apply(s.clients[c.client], C.Receive(s.net[c][0]));
    ReceiveLoad(s.clients, c.client, s.net[c][0], cl);
    NetLoadFalls(s.net, c);
    assert Apply(s, Deliver(c)).net == s.net[c := s.net[c][1..]];
    assert Apply(s, Deliver(c)).clients == s.clients[c.client := cl];
  }

  lemma WorkerLoad(cl: C.Client, step: C.Step)
    requires C.Inv(cl) && M.Safe(cl) && C.Enabled(cl, step) && (step.Take? || step.Route?)
    ensures var inbox, inbox' := cl.inbox, C.Apply(cl, step).inbox;
            2 * |inbox'.queue| + |C.Held(inbox'.routing)| < 2 * |inbox.queue| + |C.Held(inbox.routing)|
  {
    if step.Route? {
      M.SafeRouteFindsEntry(cl);
    }
  }

  lemma WorkerShortensWay(s: System, p: string, step: C.Step)
    requires SystemInv(s) && Can(s, p, step) && (step.Take? || step.Route?)
    ensures Way(OnClient(s, p, step)) < Way(s)
  {
    assert ClientOk(s.prefix, s.owner, s.clients[p]);
    WorkerLoad(s.clients[p], step);
    ClientLoadChanges(s.clients, p, C.Apply(s.clients[p], step));
  }

  lemma MoveShortensWay(s: System, step: Step)
    requires SystemInv(s) && Enabled(s, step) && Moves(step)
    ensures Way(Apply(s, step)) < Way(s)
  {
    match step
    case Deliver(c) => DeliverShortensWay(s, c);
    case TakeMessage(p) => WorkerShortensWay(s, p, C.Take);
    case RouteMessage(p) => WorkerShortensWay(s, p, C.Route);
    case _ =>
  }

  /** Lexicographic: the protocol's measure, then the way of the messages. */
  ghost predicate Below(s: System, t: System) {
    || G.Below(G.MeasureOf(Abstract(s)), G.MeasureOf(Abstract(t)))
    || (G.MeasureOf(Abstract(s)) == G.MeasureOf(Abstract(t)) && Way(s) < Way(t))
  }

  lemma ProtocolStepIsBelow(s: System, s': System, step: P.Step)
    requires P.Inv(Abstract(s)) && P.Enabled(Abstract(s), step) && Abstract(s') == P.Apply(Abstract(s), step)
    requires !step.Provide? && !step.Register?
    ensures Below(s', s)
  {
    G.StepDecreases(Abstract(s), step);
  }

  lemma MoveIsBelow(s: System, s': System)
    requires Abstract(s') == Abstract(s) && Way(s') < Way(s)
    ensures Below(s', s)
  {
  }

  /** What a step is in the protocol, if it is neither a move of a message nor foreign to calls. */
  lemma ProtocolOfStep(step: Step)
    ensures Protocol(step).None? <==> Moves(step) || step.Foreign?
    ensures Protocol(step).Some? ==>
              && (Protocol(step).value.Provide? <==> step.Provide?)
              && (Protocol(step).value.Register? <==> step.Register?)
              && (Protocol(step).value.Timeout? <==> step.Timeout?)
  {
  }

  /** Every step that offers no command, makes no call and is not foreign lowers the measure: such runs are finite. */
  lemma StepDecreases(s: System, step: Step)
    requires SystemInv(s) && P.Inv(Abstract(s)) && Enabled(s, step) && !step.Provide? && !step.Register?
    requires !step.Foreign?
    ensures Below(Apply(s, step), s)
  {
    var s' := Apply(s, step);
    StepRefines(s, step);
    ProtocolOfStep(step);
    if Moves(step) {
      MoveShortensWay(s, step);
      MoveIsBelow(s, s');
    } else {
      ProtocolStepIsBelow(s, s', Protocol(step).value);
    }
  }

  // ---- Progress ----

  /** Calls go to provided commands, nested ones down the order `rank`, and handlers answer. */
  predicate Orderly(s: System, rank: G.Rank, step: Step) {
    Protocol(step).Some? ==> G.Orderly(Abstract(s), rank, Protocol(step).value)
  }

  predicate OrderlyRun(s: System, rank: G.Rank, steps: seq<Step>)
    decreases |steps|
  {
    steps == [] ||
    (Enabled(s, steps[0]) && Orderly(s, rank, steps[0]) && OrderlyRun(Apply(s, steps[0]), rank, steps[1..]))
  }

  ghost predicate Live(s: System, rank: G.Rank) {
    SystemInv(s) && G.LiveInv(Abstract(s), rank)
  }

  lemma OrderlyStepIsLive(s: System, rank: G.Rank, step: Step)
    requires Live(s, rank) && Enabled(s, step) && Orderly(s, rank, step)
    ensures Live(Apply(s, step), rank)
  {
    StepRefines(s, step);
    StepKeepsSystemInv(s, step);
    if Protocol(step).Some? {
      G.StepKeepsLive(Abstract(s), rank, Protocol(step).value);
    }
  }

  lemma {:induction false} OrderlyRunIsLive(s: System, rank: G.Rank, steps: seq<Step>)
    requires Live(s, rank) && OrderlyRun(s, rank, steps)
    ensures Run(s, steps).Some? && Live(Run(s, steps).value, rank)
    decreases |steps|
  {
    if steps != [] {
      OrderlyStepIsLive(s, rank, steps[0]);
      OrderlyRunIsLive(Apply(s, steps[0]), rank, steps[1..]);
    }
  }

  /** Steps that finish what is under way: no new command, call or foreign doing, and no time-out. */
  predicate Finishing(step: Step) {
    !step.Provide? && !step.Register? && !step.Timeout? && !step.Foreign?
  }

  /** The step of the system for a step that the protocol can make. */
  lemma EnabledStep(s: System, rank: G.Rank, step: P.Step) returns (next: Step)
    requires SystemInv(s) && P.Inv(Abstract(s))
    requires P.Enabled(Abstract(s), step) && G.Advancing(step) && G.Orderly(Abstract(s), rank, step)
    ensures Enabled(s, next) && (Moves(next) || Protocol(next) == Some(step))
  {
    if step.Take? {
      next := MessageMovesOn(s, step.chan);
    } else {
      StepLifts(s, step);
      next := SystemStep(step);
    }
  }

  /** A step towards the return of a call in flight. */
  lemma NextStep(s: System, rank: G.Rank, id: string) returns (next: Step)
    requires Live(s, rank) && id in s.calls && s.calls[id].InFlight()
    ensures Enabled(s, next) && Orderly(s, rank, next) && Finishing(next)
    ensures Below(Apply(s, next), s)
  {
    var step := G.CallMovesOn(Abstract(s), rank, id);
    next := EnabledStep(s, rank, step);
    ProtocolOfStep(next);
    StepDecreases(s, next);
  }

  /**
   * Progress over every orderly run of the whole system: while a call is in flight some thread,
   * worker, delivery or return is enabled, and it lowers a well-founded measure.
   */
  lemma NeverStuck(s0: System, rank: G.Rank, steps: seq<Step>, id: string) returns (next: Step)
    requires Init(s0) && OrderlyRun(s0, rank, steps)
    requires Run(s0, steps).Some? && id in Run(s0, steps).value.calls && Run(s0, steps).value.calls[id].InFlight()
    ensures var s := Run(s0, steps).value;
            && Enabled(s, next) && Orderly(s, rank, next) && Finishing(next)
            && Below(Apply(s, next), s)
  {
    InitRefines(s0);
    G.InitLive(Abstract(s0), rank);
    OrderlyRunIsLive(s0, rank, steps);
    next := NextStep(Run(s0, steps).value, rank, id);
  }
}
