/**
 * The whole path of a command call: clients with their queues, routing workers, topic entries and
 * subscriptions, and a broker that keeps for each client and command topic the messages still to
 * be delivered, in order and exactly once. Variables, errors, ready signals and external messages
 * pass through the same workers. This system refines the protocol of module CallProtocol.
 */
module CallSystem {
  import opened Wrappers
  import opened Json
  import opened TopicMatch
  import H = MessageHandler
  import C = MqttClient
  import P = CallProtocol
  import M = MissingHandler

  /** `net` has a queue for each client and command topic; the tables are those of the protocol. */
  datatype System = System(
    prefix: string,
    owner: map<string, string>,
    clients: map<string, C.Client>,
    net: map<P.Chan, seq<C.Message>>,
    providers: map<P.Command, H.Token>,
    calls: map<string, P.Call>,
    computed: map<string, P.Computation>)

  datatype Step =
    | Provide(chan: P.Chan, name: string, uid: nat)
    | Register(id: string, chan: P.Chan, name: string, args: Json, uid: nat, parent: Option<P.Chan>)
    | Publish(id: string)
    | Return(id: string)
    | Timeout(id: string)
    | Deliver(chan: P.Chan)
    | TakeMessage(client: string)
    | RouteMessage(client: string)
    | Pop(chan: P.Chan)
    | Snapshot(chan: P.Chan)
    | Start(chan: P.Chan, tok: H.Token)
    | Answer(chan: P.Chan, retval: Json)
    | End(chan: P.Chan)
    | Finish(chan: P.Chan)
    | Foreign(client: string, step: C.Step)

  // ---- Steps ----

  function WorkAt(s: System, c: P.Chan): H.Work {
    if c.client in s.clients && c.topic in s.clients[c.client].topics
    then s.clients[c.client].topics[c.topic].entry.work else H.Idle
  }

  predicate Serving(s: System, c: P.Chan) {
    WorkAt(s, c).Executing? && WorkAt(s, c).tok.kind.Call?
  }

  predicate Can(s: System, p: string, step: C.Step) {
    p in s.clients && C.Enabled(s.clients[p], step)
  }

  function ProviderToken(name: string, uid: nat): H.Token {
    H.Token(uid, name, "", H.Call)
  }

  function ResultToken(id: string, name: string, uid: nat): H.Token {
    H.Token(uid, name, id, H.Result)
  }

  /**
   * What a client does that is no part of calls: variables, errors, ready signals and external
   * messages, with any filter that covers no everest topic by a wildcard. Its topics are not
   * command topics; nothing is known of the order or the number of these messages.
   */
  predicate IsForeign(prefix: string, owner: map<string, string>, step: C.Step) {
    match step
    case Receive(m) => m.topic !in owner && IsTopicName(m.topic)
    case Register(t, tok) => t !in owner && M.SafeFilter(prefix, t) && !tok.kind.Call? && !tok.kind.Result?
    case Unregister(t, _) => t !in owner
    case Publish(m) => m.topic !in owner
    case Handle(t, _) => t !in owner
    case _ => false
  }

  predicate Enabled(s: System, step: Step) {
    match step
    case Provide(c, name, uid) =>
      && c in s.net && c.topic in s.owner && s.owner[c.topic] == c.client
      && P.Command(c.topic, name) !in s.providers
      && Can(s, c.client, C.Register(c.topic, ProviderToken(name, uid)))
    case Register(id, c, name, args, uid, parent) =>
      && id !in s.calls && c in s.net && c.topic in s.owner
      && (parent.Some? ==>
            parent.value in s.net && parent.value.client == c.client
            && Serving(s, parent.value) && !P.Blocked(s.calls, parent.value))
      && Can(s, c.client, C.Register(c.topic, ResultToken(id, name, uid)))
    case Publish(id) =>
      id in s.calls && s.calls[id].status.Registered? && Can(s, s.calls[id].chan.client, C.Publish(CallOf(s, id)))
    case Return(id) =>
      && id in s.calls && s.calls[id].status.Fulfilled?
      && Can(s, s.calls[id].chan.client, C.Unregister(s.calls[id].chan.topic, s.calls[id].token))
    case Timeout(id) => id in s.calls && s.calls[id].status.Waiting?
    case Deliver(c) => c in s.net && s.net[c] != [] && Can(s, c.client, C.Receive(s.net[c][0]))
    case TakeMessage(p) => Can(s, p, C.Take)
    case RouteMessage(p) => Can(s, p, C.Route)
    case Pop(c) => c in s.net && Can(s, c.client, C.Handle(c.topic, H.Pop))
    case Snapshot(c) => c in s.net && Can(s, c.client, C.Handle(c.topic, H.Snapshot))
    case Start(c, tok) => c in s.net && Can(s, c.client, C.Handle(c.topic, H.Start(tok)))
    case Answer(c, _) =>
      c in s.net && Serving(s, c) && !P.Blocked(s.calls, c) && Can(s, c.client, C.Handle(c.topic, H.End))
    case End(c) => c in s.net && !P.Blocked(s.calls, c) && Can(s, c.client, C.Handle(c.topic, H.End))
    case Finish(c) => c in s.net && Can(s, c.client, C.Handle(c.topic, H.Finish))
    case Foreign(p, step) => Can(s, p, step) && IsForeign(s.prefix, s.owner, step)
  }

  function OnClient(s: System, p: string, step: C.Step): System
    requires Can(s, p, step)
  {
    s.(clients := s.clients[p := C.Apply(s.clients[p], step)])
  }

  /** A message on an everest topic; its text is that of `data` and parses back to it. */
  function MessageFor(topic: string, data: Json): C.Message {
    C.Message(topic, "", Some(data))
  }

  function CallOf(s: System, id: string): C.Message
    requires id in s.calls
  {
    MessageFor(s.calls[id].chan.topic, P.CallMessage(id, s.calls[id]))
  }

  /** The broker queues a message for every client subscribed to its topic. */
  function Broadcast(clients: map<string, C.Client>, net: map<P.Chan, seq<C.Message>>, m: C.Message)
    : map<P.Chan, seq<C.Message>>
  {
    map c | c in net :: if c.topic == m.topic && c.client in clients && m.topic in clients[c.client].link.subscribed
                        then net[c] + [m] else net[c]
  }

  function Sent(s: System, p: string, m: C.Message): System
    requires Can(s, p, C.Publish(m))
  {
    OnClient(s, p, C.Publish(m)).(net := Broadcast(s.clients, s.net, m))
  }

  function Started(s: System, c: P.Chan, tok: H.Token): System
    requires Can(s, c.client, C.Handle(c.topic, H.Start(tok)))
  {
    var outcome := H.Dispatch(tok, s.clients[c.client].topics[c.topic].entry.work.msg);
    OnClient(s, c.client, C.Handle(c.topic, H.Start(tok))).
      (calls := if outcome.Invoke? then P.HandleResult(s.calls, tok, outcome.arg) else s.calls)
  }

  function Answered(s: System, c: P.Chan, retval: Json): System
    requires Serving(s, c) && Can(s, c.client, C.Handle(c.topic, H.End))
  {
    var work := WorkAt(s, c);
    var s1 := OnClient(s, c.client, C.Handle(c.topic, H.End));
    Sent(s1, c.client, MessageFor(c.topic, P.AnswerMessage(work, retval, c.client))).
      (computed := s.computed[P.IdOf(work.msg) := P.Computation(P.ArgsOf(work.msg), retval)])
  }

  function Apply(s: System, step: Step): System
    requires Enabled(s, step)
  {
    match step
    case Provide(c, name, uid) =>
      OnClient(s, c.client, C.Register(c.topic, ProviderToken(name, uid))).
        (providers := s.providers[P.Command(c.topic, name) := ProviderToken(name, uid)])
    case Register(id, c, name, args, uid, parent) =>
      OnClient(s, c.client, C.Register(c.topic, ResultToken(id, name, uid))).
        (calls := s.calls[id := P.Call(c, name, args, ResultToken(id, name, uid), parent, P.Registered)])
    case Publish(id) =>
      Sent(s, s.calls[id].chan.client, CallOf(s, id)).(calls := P.SetStatus(s.calls, id, P.Waiting))
    case Return(id) =>
      OnClient(s, s.calls[id].chan.client, C.Unregister(s.calls[id].chan.topic, s.calls[id].token)).
        (calls := P.SetStatus(s.calls, id, P.Returned(s.calls[id].status.retval)))
    case Timeout(id) => s.(calls := P.SetStatus(s.calls, id, P.TimedOut))
    case Deliver(c) => OnClient(s, c.client, C.Receive(s.net[c][0])).(net := s.net[c := s.net[c][1..]])
    case TakeMessage(p) => OnClient(s, p, C.Take)
    case RouteMessage(p) => OnClient(s, p, C.Route)
    case Pop(c) => OnClient(s, c.client, C.Handle(c.topic, H.Pop))
    case Snapshot(c) => OnClient(s, c.client, C.Handle(c.topic, H.Snapshot))
    case Start(c, tok) => Started(s, c, tok)
    case Answer(c, retval) => Answered(s, c, retval)
    case End(c) => OnClient(s, c.client, C.Handle(c.topic, H.End))
    case Finish(c) => OnClient(s, c.client, C.Handle(c.topic, H.Finish))
    case Foreign(p, step) => OnClient(s, p, step)
  }

  // ---- The protocol state of a system ----

  /** All messages forwarded to a client for a topic, and what its handler thread did with them. */
  function CellAt(cl: C.Client, undelivered: seq<C.Message>, topic: string): P.Cell {
    var trace := C.RoutedData(cl.prefix, cl.inbox.added, topic) + C.RoutedData(cl.prefix, undelivered, topic);
    var e := if topic in cl.topics then cl.topics[topic].entry else H.NEW_ENTRY;
    P.Cell(trace, if e.Taken() >= 0 then e.Taken() else 0, e.work, e.handlers, topic in cl.link.subscribed)
  }

  function Cells(clients: map<string, C.Client>, net: map<P.Chan, seq<C.Message>>): map<P.Chan, P.Cell> {
    map c | c in net && c.client in clients :: CellAt(clients[c.client], net[c], c.topic)
  }

  function Abstract(s: System): P.State {
    P.State(s.owner, Cells(s.clients, s.net), s.providers, s.calls, s.computed)
  }

  /** The protocol step that a system step is; moving messages and what is foreign to calls are none. */
  function Protocol(step: Step): Option<P.Step> {
    match step
    case Provide(c, name, uid) => Some(P.Provide(c, name, uid))
    case Register(id, c, name, args, uid, parent) => Some(P.Register(id, c, name, args, uid, parent))
    case Publish(id) => Some(P.Publish(id))
    case Return(id) => Some(P.Return(id))
    case Timeout(id) => Some(P.Timeout(id))
    case Deliver(_) => None
    case TakeMessage(_) => None
    case RouteMessage(_) => None
    case Pop(c) => Some(P.Take(c))
    case Snapshot(c) => Some(P.Snapshot(c))
    case Start(c, tok) => Some(P.Start(c, tok))
    case Answer(c, retval) => Some(P.Answer(c, retval))
    case End(c) => Some(P.End(c))
    case Finish(c) => Some(P.Finish(c))
    case Foreign(_, _) => None
  }

  // ---- Invariant ----

  predicate IsCommand(prefix: string, owner: map<string, string>, topic: string) {
    topic in owner && C.IsEverest(prefix, topic) && IsTopicName(topic)
  }

  /** A message received on a command topic is JSON, and its entry was made before it came. */
  predicate Expected(owner: map<string, string>, cl: C.Client, i: nat)
    requires i < |cl.inbox.added|
  {
    var m := cl.inbox.added[i];
    m.topic in owner ==> m.parsed.Some? && m.topic in cl.topics && cl.topics[m.topic].since <= i
  }

  ghost predicate ClientOk(prefix: string, owner: map<string, string>, cl: C.Client) {
    && C.Inv(cl)
    && M.Safe(cl)
    && cl.prefix == prefix && cl.link.connected && cl.inbox.running && cl.fault.None?
    && TopicsRun(owner, cl.topics)
    && (forall i {:trigger Expected(owner, cl, i)} :: 0 <= i < |cl.inbox.added| ==> Expected(owner, cl, i))
  }

  /** Undelivered messages are for their channel, and its client subscribed before they were sent. */
  predicate ChannelOk(cl: C.Client, topic: string, ms: seq<C.Message>) {
    forall i :: 0 <= i < |ms| ==> ms[i].topic == topic && ms[i].parsed.Some? && topic in cl.link.everSubscribed
  }

  ghost predicate ClientsOk(prefix: string, owner: map<string, string>, clients: map<string, C.Client>) {
    forall p {:trigger ClientOk(prefix, owner, clients[p])} :: p in clients ==> ClientOk(prefix, owner, clients[p])
  }

  /** There is a channel for every command topic that a client has an entry for. */
  predicate NetOk(owner: map<string, string>, clients: map<string, C.Client>, net: map<P.Chan, seq<C.Message>>) {
    && (forall c :: c in net ==> c.client in clients && c.topic in owner)
    && (forall c {:trigger ChannelOk(clients[c.client], c.topic, net[c])} ::
          c in net ==> ChannelOk(clients[c.client], c.topic, net[c]))
    && (forall p, t {:trigger P.Chan(p, t)} ::
          p in clients && t in clients[p].topics && t in owner ==> P.Chan(p, t) in net)
  }

  ghost predicate SystemInv(s: System) {
    && (forall t :: t in s.owner ==> IsCommand(s.prefix, s.owner, t))
    && ClientsOk(s.prefix, s.owner, s.clients)
    && NetOk(s.owner, s.clients, s.net)
  }

  // ---- Clients ----

  /** To the entry of a topic name under the prefix go only the messages on just that topic. */
  lemma OnlyOwnTopicRoutes(prefix: string, m: C.Message, topic: string)
    requires C.IsEverest(prefix, topic) && IsTopicName(topic)
    ensures C.RoutesTo(prefix, m, topic) <==> m.topic == topic
  {
    TopicNameIsSafe(prefix, topic);
    if !C.IsEverest(prefix, m.topic) {
      PlainFilterIsEquality(m.topic, topic);
    }
  }

  lemma TopicNameIsSafe(prefix: string, topic: string)
    requires IsTopicName(topic)
    ensures M.SafeFilter(prefix, topic) && M.Plain(topic)
  {
    TopicNameLevels(topic);
  }

  /** Nothing came for a topic before its entry was made. */
  lemma NothingBeforeEntry(prefix: string, owner: map<string, string>, cl: C.Client, topic: string,
                           early: seq<C.Message>)
    requires ClientOk(prefix, owner, cl) && topic in cl.topics && IsCommand(prefix, owner, topic)
    requires early <= cl.inbox.added && |early| <= cl.topics[topic].since
    ensures C.RoutedData(prefix, early, topic) == []
  {
    forall i | 0 <= i < |early|
      ensures !C.RoutesTo(prefix, early[i], topic)
    {
      OnlyOwnTopicRoutes(prefix, early[i], topic);
      assert early[i] == cl.inbox.added[i] && Expected(owner, cl, i);
    }
    C.NothingRouted(prefix, early, topic);
  }

  /** What an entry got is the beginning of what was forwarded for its topic. */
  lemma RoutedIsForwarded(prefix: string, owner: map<string, string>, cl: C.Client, topic: string)
    requires ClientOk(prefix, owner, cl) && topic in cl.topics && IsCommand(prefix, owner, topic)
    ensures C.RoutedData(prefix, cl.inbox.added, topic) ==
            cl.topics[topic].entry.routed + C.RoutedData(prefix, C.Held(cl.inbox.routing) + cl.inbox.queue, topic)
    ensures 0 <= cl.topics[topic].entry.Taken() <= |cl.topics[topic].entry.routed|
  {
    var t := cl.topics[topic];
    assert C.TopicInv(prefix, cl.inbox.routed, topic, t);
    assert H.QueueInv(t.entry);
    var early, late := cl.inbox.routed[..t.since], cl.inbox.routed[t.since..];
    NothingBeforeEntry(prefix, owner, cl, topic, early);
    var rest := C.Held(cl.inbox.routing) + cl.inbox.queue;
    assert cl.inbox.added == early + late + rest;
    ForwardedInParts(prefix, early, late, rest, topic);
  }

  lemma ForwardedInParts(prefix: string, early: seq<C.Message>, late: seq<C.Message>, rest: seq<C.Message>,
                         topic: string)
    requires C.RoutedData(prefix, early, topic) == []
    ensures C.RoutedData(prefix, early + late + rest, topic) ==
            C.RoutedData(prefix, late, topic) + C.RoutedData(prefix, rest, topic)
  {
    C.RoutedDataConcat(prefix, early, late, topic);
    C.RoutedDataConcat(prefix, early + late, rest, topic);
  }

  /** A topic without an entry was forwarded nothing. */
  lemma NoEntryNothingForwarded(prefix: string, owner: map<string, string>, cl: C.Client, ms: seq<C.Message>,
                                topic: string)
    requires ClientOk(prefix, owner, cl) && ChannelOk(cl, topic, ms) && topic !in cl.topics
             && IsCommand(prefix, owner, topic)
    ensures CellAt(cl, ms, topic).trace == []
  {
    forall i | 0 <= i < |cl.inbox.added|
      ensures !C.RoutesTo(prefix, cl.inbox.added[i], topic)
    {
      OnlyOwnTopicRoutes(prefix, cl.inbox.added[i], topic);
      assert Expected(owner, cl, i);
    }
    C.NothingRouted(prefix, cl.inbox.added, topic);
  }

  /** The client steps of the system, with messages and topics it knows. */
  predicate Fits(owner: map<string, string>, cl: C.Client, step: C.Step) {
    match step
    case Receive(m) => IsTopicName(m.topic) && (m.topic in owner ==> m.parsed.Some? && m.topic in cl.topics)
    case Register(topic, tok) => M.SafeFilter(cl.prefix, topic) && (topic !in owner ==> !tok.kind.Result?)
    case Take => true
    case Route => true
    case Unregister(_, _) => true
    case Publish(_) => true
    case Handle(topic, step) => topic in owner ==> !step.Stop?
    case _ => false
  }

  lemma FitStaysExpected(prefix: string, owner: map<string, string>, cl: C.Client, step: C.Step, i: nat)
    requires ClientOk(prefix, owner, cl) && C.Enabled(cl, step) && Fits(owner, cl, step)
    requires i < |C.Apply(cl, step).inbox.added|
    ensures Expected(owner, C.Apply(cl, step), i)
  {
    C.TopicsStay(cl, step);
    if i < |cl.inbox.added| {
      assert Expected(owner, cl, i);
    } else if step.m.topic in owner {
      assert C.TopicInv(prefix, cl.inbox.routed, step.m.topic, cl.topics[step.m.topic]);
    }
  }

  lemma FitStaysConnected(prefix: string, owner: map<string, string>, cl: C.Client, step: C.Step)
    requires ClientOk(prefix, owner, cl) && C.Enabled(cl, step) && Fits(owner, cl, step)
    ensures var cl' := C.Apply(cl, step);
            && M.Safe(cl')
            && cl'.prefix == prefix && cl'.link.connected && cl'.inbox.running && cl'.fault.None?
  {
    M.SafeStepStaysSafe(cl, step);
  }

  /** Entries of command topics run, and only they have result handlers. */
  predicate TopicsRun(owner: map<string, string>, topics: map<string, C.Topic>) {
    forall f :: f in topics ==>
      if f in owner then topics[f].entry.running
      else forall tok: H.Token :: tok in topics[f].entry.handlers ==> !tok.kind.Result?
  }

  lemma FitStaysRunning(prefix: string, owner: map<string, string>, cl: C.Client, step: C.Step)
    requires TopicsRun(owner, cl.topics) && C.Enabled(cl, step) && Fits(owner, cl, step)
    ensures TopicsRun(owner, C.Apply(cl, step).topics)
  {
    match step
    case Route =>
    case Register(_, _) =>
    case Unregister(_, _) =>
    case Handle(_, _) =>
    case _ =>
  }

  lemma FitStaysOk(prefix: string, owner: map<string, string>, cl: C.Client, step: C.Step)
    requires ClientOk(prefix, owner, cl) && C.Enabled(cl, step) && Fits(owner, cl, step)
    ensures ClientOk(prefix, owner, C.Apply(cl, step))
  {
    C.StepPreservesInv(cl, step);
    FitStaysConnected(prefix, owner, cl, step);
    FitStaysRunning(prefix, owner, cl, step);
    forall i | 0 <= i < |C.Apply(cl, step).inbox.added|
      ensures Expected(owner, C.Apply(cl, step), i)
    {
      FitStaysExpected(prefix, owner, cl, step, i);
    }
  }

  // ---- What client steps do to cells ----

  lemma RegisterCell(cl: C.Client, ms: seq<C.Message>, topic: string, tok: H.Token)
    requires cl.link.connected
    requires topic in cl.topics ==> H.Inv(cl.topics[topic].entry)
    ensures CellAt(C.RegisterHandler(cl, topic, tok), ms, topic) == P.AddHandler(CellAt(cl, ms, topic), tok)
  {
  }

  lemma UnregisterCell(cl: C.Client, ms: seq<C.Message>, topic: string, tok: H.Token)
    requires C.Enabled(cl, C.Unregister(topic, tok)) && cl.link.connected && topic in cl.topics
    ensures CellAt(C.UnregisterHandler(cl, topic, tok), ms, topic) == P.RemoveHandler(CellAt(cl, ms, topic), tok)
  {
    var before := cl.topics[topic].entry.handlers;
    if before == {} {
      assert before - {tok} == {};
    }
  }

  /** Steps on one topic leave the cells of the others. */
  lemma OtherTopicCell(cl: C.Client, ms: seq<C.Message>, step: C.Step, other: string)
    requires C.Enabled(cl, step)
    requires step.Register? || step.Unregister? || step.Handle?
    requires other != step.topic
    ensures CellAt(C.Apply(cl, step), ms, other) == CellAt(cl, ms, other)
  {
  }

  lemma PublishCell(cl: C.Client, ms: seq<C.Message>, m: C.Message, topic: string)
    requires C.Enabled(cl, C.Publish(m))
    ensures CellAt(C.Apply(cl, C.Publish(m)), ms, topic) == CellAt(cl, ms, topic)
  {
  }

  /** The steps of the handler thread after taking a message. */
  lemma ThreadCell(cl: C.Client, ms: seq<C.Message>, topic: string, step: H.Step)
    requires C.Enabled(cl, C.Handle(topic, step)) && !step.Pop?
    ensures CellAt(C.Apply(cl, C.Handle(topic, step)), ms, topic) ==
            CellAt(cl, ms, topic).(work := H.Apply(cl.topics[topic].entry, step).work)
  {
  }

  lemma PopCell(prefix: string, owner: map<string, string>, cl: C.Client, ms: seq<C.Message>, topic: string)
    requires ClientOk(prefix, owner, cl) && IsCommand(prefix, owner, topic) && C.Enabled(cl, C.Handle(topic, H.Pop))
    ensures CellAt(cl, ms, topic).taken < |CellAt(cl, ms, topic).trace|
    ensures CellAt(C.Apply(cl, C.Handle(topic, H.Pop)), ms, topic) == P.CellTaken(CellAt(cl, ms, topic))
  {
    RoutedIsForwarded(prefix, owner, cl, topic);
    assert C.TopicInv(prefix, cl.inbox.routed, topic, cl.topics[topic]);
    var e := cl.topics[topic].entry;
    assert e.queue[0] == e.routed[e.Taken()];
  }

  /** A message more received and one less to come are the same forwarded messages. */
  lemma ForwardedStays(prefix: string, added: seq<C.Message>, ms: seq<C.Message>, topic: string)
    requires ms != []
    ensures C.RoutedData(prefix, added + [ms[0]], topic) + C.RoutedData(prefix, ms[1..], topic) ==
            C.RoutedData(prefix, added, topic) + C.RoutedData(prefix, ms, topic)
  {
    C.RoutedDataConcat(prefix, added, [ms[0]], topic);
    C.RoutedDataConcat(prefix, [ms[0]], ms[1..], topic);
    assert ms == [ms[0]] + ms[1..];
    Regroup(C.RoutedData(prefix, added, topic), C.RoutedData(prefix, [ms[0]], topic),
            C.RoutedData(prefix, ms[1..], topic));
  }

  lemma Regroup<T>(a: seq<T>, b: seq<T>, c: seq<T>)
    ensures (a + b) + c == a + (b + c)
  {
  }

  lemma ReceiveCell(cl: C.Client, ms: seq<C.Message>, topic: string)
    requires ms != [] && C.Enabled(cl, C.Receive(ms[0]))
    ensures CellAt(C.Apply(cl, C.Receive(ms[0])), ms[1..], topic) == CellAt(cl, ms, topic)
  {
    ForwardedStays(cl.prefix, cl.inbox.added, ms, topic);
  }

  /** Receiving a message for another topic. */
  lemma ReceiveOtherCell(cl: C.Client, ms: seq<C.Message>, m: C.Message, topic: string)
    requires C.Enabled(cl, C.Receive(m)) && m.topic != topic
    requires C.IsEverest(cl.prefix, topic) && IsTopicName(topic)
    ensures CellAt(C.Apply(cl, C.Receive(m)), ms, topic) == CellAt(cl, ms, topic)
  {
    OnlyOwnTopicRoutes(cl.prefix, m, topic);
    C.RoutedDataSnoc(cl.prefix, cl.inbox.added, m, topic);
  }

  lemma TakeCell(cl: C.Client, ms: seq<C.Message>, topic: string)
    requires C.Enabled(cl, C.Take)
    ensures CellAt(C.Apply(cl, C.Take), ms, topic) == CellAt(cl, ms, topic)
  {
  }

  lemma RouteCell(prefix: string, owner: map<string, string>, cl: C.Client, ms: seq<C.Message>, topic: string)
    requires ClientOk(prefix, owner, cl) && C.Enabled(cl, C.Route)
    ensures CellAt(C.Apply(cl, C.Route), ms, topic) == CellAt(cl, ms, topic)
  {
    M.SafeRouteFindsEntry(cl);
  }

  /** The broker queues a message for a subscribed client. */
  lemma BroadcastCell(cl: C.Client, ms: seq<C.Message>, topic: string, data: Json)
    requires C.IsEverest(cl.prefix, topic)
    ensures CellAt(cl, ms + [MessageFor(topic, data)], topic) ==
            CellAt(cl, ms, topic).(trace := CellAt(cl, ms, topic).trace + [data])
  {
    C.RoutedDataSnoc(cl.prefix, ms, MessageFor(topic, data), topic);
  }

  // ---- Refinement ----

  /** A client's step that touches no cell, with `net'` the messages then undelivered. */
  lemma CellsKept(clients: map<string, C.Client>, net: map<P.Chan, seq<C.Message>>,
                  p: string, cl: C.Client, net': map<P.Chan, seq<C.Message>>)
    requires p in clients && net'.Keys == net.Keys
    requires forall d :: d in net && d.client != p ==> net'[d] == net[d]
    requires forall d :: d in net && d.client == p ==>
             CellAt(cl, net'[d], d.topic) == CellAt(clients[p], net[d], d.topic)
    ensures Cells(clients[p := cl], net') == Cells(clients, net)
  {
  }

  /** A client's step that changes the cell of channel `c` only. */
  lemma OneCellChanges(clients: map<string, C.Client>, net: map<P.Chan, seq<C.Message>>, c: P.Chan, cl: C.Client)
    requires c in net && c.client in clients
    requires forall d :: d in net && d.client == c.client && d.topic != c.topic ==>
               CellAt(cl, net[d], d.topic) == CellAt(clients[c.client], net[d], d.topic)
    ensures Cells(clients[c.client := cl], net) == Cells(clients, net)[c := CellAt(cl, net[c], c.topic)]
  {
  }

  lemma EverSubscribedGrows(cl: C.Client, step: C.Step)
    requires C.Enabled(cl, step)
    ensures cl.link.everSubscribed <= C.Apply(cl, step).link.everSubscribed
  {
  }

  lemma NetStaysOk(owner: map<string, string>, clients: map<string, C.Client>, net: map<P.Chan, seq<C.Message>>,
                   p: string, cl: C.Client)
    requires NetOk(owner, clients, net) && p in clients
    requires clients[p].link.everSubscribed <= cl.link.everSubscribed
    requires forall t :: t in cl.topics && t in owner ==> t in clients[p].topics || P.Chan(p, t) in net
    ensures NetOk(owner, clients[p := cl], net)
  {
    forall c | c in net
      ensures ChannelOk(clients[p := cl][c.client], c.topic, net[c])
    {
      assert ChannelOk(clients[c.client], c.topic, net[c]);
    }
  }

  lemma ClientStepKeepsInv(s: System, p: string, step: C.Step, cl: C.Client)
    requires SystemInv(s) && Can(s, p, step) && Fits(s.owner, s.clients[p], step)
    requires step.Register? && step.topic in s.owner ==> P.Chan(p, step.topic) in s.net
    requires cl == C.Apply(s.clients[p], step)
    ensures SystemInv(s.(clients := s.clients[p := cl]))
  {
    assert ClientOk(s.prefix, s.owner, s.clients[p]);
    FitStaysOk(s.prefix, s.owner, s.clients[p], step);
    C.TopicsStay(s.clients[p], step);
    EverSubscribedGrows(s.clients[p], step);
    NetStaysOk(s.owner, s.clients, s.net, p, cl);
    forall q | q in s.clients
      ensures ClientOk(s.prefix, s.owner, s.clients[p := cl][q])
    {
      assert ClientOk(s.prefix, s.owner, s.clients[q]);
    }
  }

  /** A step of a client on one of its topics changes that topic's cell only. */
  lemma TopicStep(s: System, c: P.Chan, step: C.Step, cl: C.Client)
    requires SystemInv(s) && c in s.net && Can(s, c.client, step)
    requires (step.Register? || step.Unregister? || step.Handle?) && step.topic == c.topic
    requires step.Handle? ==> !step.step.Stop?
    requires cl == C.Apply(s.clients[c.client], step)
    ensures Cells(s.clients[c.client := cl], s.net) ==
            Cells(s.clients, s.net)[c := CellAt(cl, s.net[c], c.topic)]
  {
    forall d | d in s.net && d.client == c.client && d.topic != c.topic
      ensures CellAt(cl, s.net[d], d.topic) == CellAt(s.clients[c.client], s.net[d], d.topic)
    {
      OtherTopicCell(s.clients[c.client], s.net[d], step, d.topic);
    }
    OneCellChanges(s.clients, s.net, c, cl);
  }

  lemma CellOf(s: System, c: P.Chan)
    requires SystemInv(s) && c in s.net
    ensures c.client in s.clients && IsCommand(s.prefix, s.owner, c.topic)
    ensures ClientOk(s.prefix, s.owner, s.clients[c.client])
    ensures ChannelOk(s.clients[c.client], c.topic, s.net[c])
    ensures c in Cells(s.clients, s.net) && Cells(s.clients, s.net)[c] == CellAt(s.clients[c.client], s.net[c], c.topic)
  {
    assert ChannelOk(s.clients[c.client], c.topic, s.net[c]);
    assert ClientOk(s.prefix, s.owner, s.clients[c.client]);
  }

  /** A handler registered on a channel. */
  lemma RegisterRefines(s: System, c: P.Chan, tok: H.Token, cl: C.Client)
    requires SystemInv(s) && c in s.net && Can(s, c.client, C.Register(c.topic, tok))
    requires cl == C.RegisterHandler(s.clients[c.client], c.topic, tok)
    ensures c in Cells(s.clients, s.net)
    ensures Cells(s.clients[c.client := cl], s.net) ==
            Cells(s.clients, s.net)[c := P.AddHandler(Cells(s.clients, s.net)[c], tok)]
  {
    CellOf(s, c);
    TopicStep(s, c, C.Register(c.topic, tok), cl);
    EntryInv(s.prefix, s.owner, s.clients[c.client], c.topic);
    RegisterCell(s.clients[c.client], s.net[c], c.topic, tok);
  }

  lemma EntryInv(prefix: string, owner: map<string, string>, cl: C.Client, topic: string)
    requires ClientOk(prefix, owner, cl)
    ensures topic in cl.topics ==> H.Inv(cl.topics[topic].entry)
  {
    assert topic in cl.topics ==> C.TopicInv(prefix, cl.inbox.routed, topic, cl.topics[topic]);
  }

  lemma UnregisterRefines(s: System, c: P.Chan, tok: H.Token, cl: C.Client)
    requires SystemInv(s) && c in s.net && Can(s, c.client, C.Unregister(c.topic, tok))
    requires c in Cells(s.clients, s.net) && tok in Cells(s.clients, s.net)[c].handlers
    requires cl == C.UnregisterHandler(s.clients[c.client], c.topic, tok)
    ensures Cells(s.clients[c.client := cl], s.net) ==
            Cells(s.clients, s.net)[c := P.RemoveHandler(Cells(s.clients, s.net)[c], tok)]
  {
    CellOf(s, c);
    TopicStep(s, c, C.Unregister(c.topic, tok), cl);
    UnregisterCell(s.clients[c.client], s.net[c], c.topic, tok);
  }

  lemma PopRefines(s: System, c: P.Chan, cl: C.Client)
    requires SystemInv(s) && c in s.net && Can(s, c.client, C.Handle(c.topic, H.Pop))
    requires cl == C.Apply(s.clients[c.client], C.Handle(c.topic, H.Pop))
    ensures c in Cells(s.clients, s.net)
    ensures Cells(s.clients, s.net)[c].taken < |Cells(s.clients, s.net)[c].trace|
            && Cells(s.clients, s.net)[c].work.Idle?
    ensures Cells(s.clients[c.client := cl], s.net) ==
            Cells(s.clients, s.net)[c := P.CellTaken(Cells(s.clients, s.net)[c])]
  {
    CellOf(s, c);
    TopicStep(s, c, C.Handle(c.topic, H.Pop), cl);
    PopCell(s.prefix, s.owner, s.clients[c.client], s.net[c], c.topic);
  }

  /** A step of a handler thread after it took a message. */
  lemma ThreadRefines(s: System, c: P.Chan, step: H.Step, work: H.Work, cl: C.Client)
    requires SystemInv(s) && c in s.net && Can(s, c.client, C.Handle(c.topic, step)) && !step.Pop? && !step.Stop?
    requires cl == C.Apply(s.clients[c.client], C.Handle(c.topic, step))
    requires work == H.Apply(s.clients[c.client].topics[c.topic].entry, step).work
    ensures c in Cells(s.clients, s.net)
    ensures Cells(s.clients, s.net)[c].work == s.clients[c.client].topics[c.topic].entry.work
    ensures Cells(s.clients, s.net)[c].handlers == s.clients[c.client].topics[c.topic].entry.handlers
    ensures Cells(s.clients[c.client := cl], s.net) ==
            P.SetWork(Cells(s.clients, s.net), c, work)
  {
    CellOf(s, c);
    TopicStep(s, c, C.Handle(c.topic, step), cl);
    ThreadCell(s.clients[c.client], s.net[c], c.topic, step);
  }

  lemma ReceiveCells(s: System, c: P.Chan, cl: C.Client)
    requires SystemInv(s) && c in s.net && s.net[c] != [] && Can(s, c.client, C.Receive(s.net[c][0]))
    requires cl == C.Apply(s.clients[c.client], C.Receive(s.net[c][0]))
    ensures Cells(s.clients[c.client := cl], s.net[c := s.net[c][1..]]) == Cells(s.clients, s.net)
  {
    CellOf(s, c);
    var net := s.net[c := s.net[c][1..]];
    forall d | d in s.net && d.client == c.client
      ensures CellAt(cl, net[d], d.topic) == CellAt(s.clients[c.client], s.net[d], d.topic)
    {
      if d == c {
        ReceiveCell(s.clients[c.client], s.net[c], c.topic);
      } else {
        ReceiveOtherCell(s.clients[c.client], s.net[d], s.net[c][0], d.topic);
      }
    }
    CellsKept(s.clients, s.net, c.client, cl, net);
  }

  lemma ChannelTail(cl: C.Client, topic: string, ms: seq<C.Message>)
    requires ChannelOk(cl, topic, ms) && ms != []
    ensures ChannelOk(cl, topic, ms[1..])
  {
  }

  lemma DropKeepsNetOk(owner: map<string, string>, clients: map<string, C.Client>, net: map<P.Chan, seq<C.Message>>,
                       c: P.Chan)
    requires NetOk(owner, clients, net) && c in net && net[c] != []
    ensures NetOk(owner, clients, net[c := net[c][1..]])
  {
    forall d | d in net
      ensures d.client in clients && d.topic in owner
      ensures ChannelOk(clients[d.client], d.topic, net[c := net[c][1..]][d])
    {
      assert ChannelOk(clients[d.client], d.topic, net[d]);
      if d == c {
        ChannelTail(clients[d.client], d.topic, net[d]);
      }
    }
  }

  lemma ReceiveKeepsInv(s: System, c: P.Chan, cl: C.Client)
    requires SystemInv(s) && c in s.net && s.net[c] != [] && Can(s, c.client, C.Receive(s.net[c][0]))
    requires cl == C.Apply(s.clients[c.client], C.Receive(s.net[c][0]))
    ensures SystemInv(s.(clients := s.clients[c.client := cl], net := s.net[c := s.net[c][1..]]))
  {
    CellOf(s, c);
    SubscribedHasEntry(s.prefix, s.owner, s.clients[c.client], c.topic);
    ClientStepKeepsInv(s, c.client, C.Receive(s.net[c][0]), cl);
    DropKeepsNetOk(s.owner, s.clients[c.client := cl], s.net, c);
  }

  lemma SubscribedHasEntry(prefix: string, owner: map<string, string>, cl: C.Client, topic: string)
    requires ClientOk(prefix, owner, cl) && topic in cl.link.everSubscribed
    ensures topic in cl.topics
  {
  }

  /** What is foreign to calls changes no cell. */
  lemma ForeignCells(s: System, p: string, step: C.Step, cl: C.Client)
    requires SystemInv(s) && Can(s, p, step) && IsForeign(s.prefix, s.owner, step)
    requires cl == C.Apply(s.clients[p], step)
    ensures Cells(s.clients[p := cl], s.net) == Cells(s.clients, s.net)
  {
    forall d | d in s.net && d.client == p
      ensures CellAt(cl, s.net[d], d.topic) == CellAt(s.clients[p], s.net[d], d.topic)
    {
      CellOf(s, d);
      ForeignCell(s.prefix, s.owner, s.clients[p], s.net[d], step, d.topic);
    }
    CellsKept(s.clients, s.net, p, cl, s.net);
  }

  lemma ForeignCell(prefix: string, owner: map<string, string>, cl: C.Client, ms: seq<C.Message>, step: C.Step,
                    topic: string)
    requires C.Enabled(cl, step) && IsForeign(prefix, owner, step) && cl.prefix == prefix
    requires IsCommand(prefix, owner, topic)
    ensures CellAt(C.Apply(cl, step), ms, topic) == CellAt(cl, ms, topic)
  {
    match step
    case Receive(m) => ReceiveOtherCell(cl, ms, m, topic);
    case Publish(m) => PublishCell(cl, ms, m, topic);
    case _ => OtherTopicCell(cl, ms, step, topic);
  }

  lemma WorkerCells(s: System, p: string, step: C.Step, cl: C.Client)
    requires SystemInv(s) && Can(s, p, step) && (step.Take? || step.Route?)
    requires cl == C.Apply(s.clients[p], step)
    ensures Cells(s.clients[p := cl], s.net) == Cells(s.clients, s.net)
  {
    assert ClientOk(s.prefix, s.owner, s.clients[p]);
    forall d | d in s.net && d.client == p
      ensures CellAt(cl, s.net[d], d.topic) == CellAt(s.clients[p], s.net[d], d.topic)
    {
      if step.Take? {
        TakeCell(s.clients[p], s.net[d], d.topic);
      } else {
        RouteCell(s.prefix, s.owner, s.clients[p], s.net[d], d.topic);
      }
    }
    CellsKept(s.clients, s.net, p, cl, s.net);
  }

  /** Publishing changes no cell of the publisher by itself. */
  lemma PublishKeepsCells(clients: map<string, C.Client>, net: map<P.Chan, seq<C.Message>>, p: string, m: C.Message)
    requires p in clients && C.Enabled(clients[p], C.Publish(m))
    ensures Cells(clients[p := C.Apply(clients[p], C.Publish(m))], net) == Cells(clients, net)
  {
    var cl := C.Apply(clients[p], C.Publish(m));
    forall d: P.Chan | d in net && d.client == p
      ensures CellAt(cl, net[d], d.topic) == CellAt(clients[p], net[d], d.topic)
    {
      PublishCell(clients[p], net[d], m, d.topic);
    }
    CellsKept(clients, net, p, cl, net);
  }

  lemma BroadcastForwardsTo(s: System, topic: string, data: Json, c: P.Chan)
    requires SystemInv(s) && c in s.net
    ensures c.client in s.clients
    ensures CellAt(s.clients[c.client], Broadcast(s.clients, s.net, MessageFor(topic, data))[c], c.topic) ==
            P.Forward(Cells(s.clients, s.net), topic, data)[c]
  {
    CellOf(s, c);
    BroadcastCell(s.clients[c.client], s.net[c], c.topic, data);
  }

  lemma CellsAre(clients: map<string, C.Client>, net: map<P.Chan, seq<C.Message>>, cells: map<P.Chan, P.Cell>)
    requires forall c :: c in net ==> c.client in clients
    requires cells.Keys == net.Keys
    requires forall c :: c in net ==> CellAt(clients[c.client], net[c], c.topic) == cells[c]
    ensures Cells(clients, net) == cells
  {
  }

  lemma BroadcastForwards(s: System, topic: string, data: Json)
    requires SystemInv(s)
    ensures Cells(s.clients, Broadcast(s.clients, s.net, MessageFor(topic, data))) ==
            P.Forward(Cells(s.clients, s.net), topic, data)
  {
    var net := Broadcast(s.clients, s.net, MessageFor(topic, data));
    var cells := P.Forward(Cells(s.clients, s.net), topic, data);
    forall c | c in net
      ensures c.client in s.clients && CellAt(s.clients[c.client], net[c], c.topic) == cells[c]
    {
      BroadcastForwardsTo(s, topic, data, c);
    }
    CellsAre(s.clients, net, cells);
  }

  lemma BroadcastKeepsInv(s: System, topic: string, data: Json)
    requires SystemInv(s)
    ensures SystemInv(s.(net := Broadcast(s.clients, s.net, MessageFor(topic, data))))
  {
    var net := Broadcast(s.clients, s.net, MessageFor(topic, data));
    forall c | c in net
      ensures c.client in s.clients && c.topic in s.owner && ChannelOk(s.clients[c.client], c.topic, net[c])
    {
      CellOf(s, c);
    }
  }

  /** Publishing a message forwards it to the cells of its subscribers. */
  lemma SentForwards(s: System, p: string, topic: string, data: Json, cl: C.Client)
    requires SystemInv(s) && Can(s, p, C.Publish(MessageFor(topic, data)))
    requires cl == C.Apply(s.clients[p], C.Publish(MessageFor(topic, data)))
    ensures var net := Broadcast(s.clients, s.net, MessageFor(topic, data));
            && SystemInv(s.(clients := s.clients[p := cl], net := net))
            && Cells(s.clients[p := cl], net) == P.Forward(Cells(s.clients, s.net), topic, data)
  {
    var m := MessageFor(topic, data);
    var net := Broadcast(s.clients, s.net, m);
    BroadcastForwards(s, topic, data);
    PublishKeepsCells(s.clients, net, p, m);
    BroadcastKeepsInv(s, topic, data);
    ClientStepKeepsInv(s.(net := net), p, C.Publish(m), cl);
  }

  /** Publishing keeps the invariant. */
  lemma SentKeepsInv(s: System, p: string, topic: string, data: Json)
    requires SystemInv(s) && Can(s, p, C.Publish(MessageFor(topic, data)))
    ensures SystemInv(Sent(s, p, MessageFor(topic, data)))
  {
    SentForwards(s, p, topic, data, C.Apply(s.clients[p], C.Publish(MessageFor(topic, data))));
  }

  lemma OwnStepKeepsInv(s: System, p: string, step: C.Step)
    requires SystemInv(s) && Can(s, p, step) && Fits(s.owner, s.clients[p], step)
    requires step.Register? && step.topic in s.owner ==> P.Chan(p, step.topic) in s.net
    ensures SystemInv(OnClient(s, p, step))
  {
    ClientStepKeepsInv(s, p, step, C.Apply(s.clients[p], step));
  }

  lemma RegisterKeepsInv(s: System, c: P.Chan, tok: H.Token)
    requires SystemInv(s) && c in s.net && Can(s, c.client, C.Register(c.topic, tok))
    ensures SystemInv(OnClient(s, c.client, C.Register(c.topic, tok)))
  {
    CellOf(s, c);
    TopicNameIsSafe(s.prefix, c.topic);
    OwnStepKeepsInv(s, c.client, C.Register(c.topic, tok));
  }

  lemma ForeignKeepsInv(s: System, p: string, step: C.Step)
    requires SystemInv(s) && Can(s, p, step) && IsForeign(s.prefix, s.owner, step)
    ensures SystemInv(OnClient(s, p, step))
  {
    assert ClientOk(s.prefix, s.owner, s.clients[p]);
    OwnStepKeepsInv(s, p, step);
  }

  /** The steps of a handler thread. */
  predicate OfThread(step: Step) {
    step.Pop? || step.Snapshot? || step.Start? || step.Answer? || step.End? || step.Finish?
  }

  lemma AnswerKeepsSystemInv(s: System, c: P.Chan, retval: Json)
    requires SystemInv(s) && Serving(s, c) && Can(s, c.client, C.Handle(c.topic, H.End))
    ensures SystemInv(Answered(s, c, retval))
  {
    OwnStepKeepsInv(s, c.client, C.Handle(c.topic, H.End));
    SentKeepsInv(OnClient(s, c.client, C.Handle(c.topic, H.End)), c.client, c.topic,
                 P.AnswerMessage(WorkAt(s, c), retval, c.client));
  }

  lemma ThreadKeepsSystemInv(s: System, step: Step)
    requires SystemInv(s) && Enabled(s, step) && OfThread(step)
    ensures SystemInv(Apply(s, step))
  {
    var c := step.chan;
    match step
    case Pop(_) => OwnStepKeepsInv(s, c.client, C.Handle(c.topic, H.Pop));
    case Snapshot(_) => OwnStepKeepsInv(s, c.client, C.Handle(c.topic, H.Snapshot));
    case Start(_, tok) => OwnStepKeepsInv(s, c.client, C.Handle(c.topic, H.Start(tok)));
    case Answer(_, retval) => AnswerKeepsSystemInv(s, c, retval);
    case End(_) => OwnStepKeepsInv(s, c.client, C.Handle(c.topic, H.End));
    case Finish(_) => OwnStepKeepsInv(s, c.client, C.Handle(c.topic, H.Finish));
  }

  lemma StepKeepsSystemInv(s: System, step: Step)
    requires SystemInv(s) && Enabled(s, step)
    ensures SystemInv(Apply(s, step))
  {
    match step
    case Provide(c, name, uid) => RegisterKeepsInv(s, c, ProviderToken(name, uid));
    case Register(id, c, name, _, uid, _) => RegisterKeepsInv(s, c, ResultToken(id, name, uid));
    case Publish(id) =>
      SentKeepsInv(s, s.calls[id].chan.client, s.calls[id].chan.topic, P.CallMessage(id, s.calls[id]));
    case Return(id) =>
      OwnStepKeepsInv(s, s.calls[id].chan.client, C.Unregister(s.calls[id].chan.topic, s.calls[id].token));
    case Timeout(id) =>
    case Deliver(c) => ReceiveKeepsInv(s, c, C.Apply(s.clients[c.client], C.Receive(s.net[c][0])));
    case TakeMessage(p) => OwnStepKeepsInv(s, p, C.Take);
    case RouteMessage(p) => OwnStepKeepsInv(s, p, C.Route);
    case Foreign(p, cstep) => ForeignKeepsInv(s, p, cstep);
    case _ => ThreadKeepsSystemInv(s, step);
  }

  /** A system step is a step of the protocol, or none of its steps. */
  predicate Refines(s: System, s': System, step: Option<P.Step>) {
    && (step.None? ==> Abstract(s') == Abstract(s))
    && (step.Some? ==> P.Enabled(Abstract(s), step.value) && Abstract(s') == P.Apply(Abstract(s), step.value))
  }

  lemma ProvideRefines(s: System, c: P.Chan, name: string, uid: nat)
    requires SystemInv(s) && Enabled(s, Provide(c, name, uid))
    ensures Refines(s, Apply(s, Provide(c, name, uid)), Some(P.Provide(c, name, uid)))
  {
    var tok := ProviderToken(name, uid);
    RegisterRefines(s, c, tok, C.Apply(s.clients[c.client], C.Register(c.topic, tok)));
  }

  /** The thread that makes a nested call is executing a command handler. */
  lemma ServingCell(s: System, c: P.Chan)
    requires SystemInv(s) && c in s.net
    ensures c in Cells(s.clients, s.net) && Cells(s.clients, s.net)[c].work == WorkAt(s, c)
  {
    CellOf(s, c);
  }

  lemma ParentCanWait(s: System, parent: P.Chan, c: P.Chan)
    requires SystemInv(s) && parent in s.net && parent.client == c.client
    requires Serving(s, parent) && !P.Blocked(s.calls, parent)
    ensures var a := Abstract(s);
            && parent in a.cells && a.cells[parent].work.Executing? && a.cells[parent].work.tok.kind.Call?
            && !P.Blocked(a.calls, parent)
  {
    ServingCell(s, parent);
  }

  lemma CallRefines(s: System, id: string, c: P.Chan, name: string, args: Json, uid: nat, parent: Option<P.Chan>)
    requires SystemInv(s) && Enabled(s, Register(id, c, name, args, uid, parent))
    ensures Refines(s, Apply(s, Register(id, c, name, args, uid, parent)),
                    Some(P.Register(id, c, name, args, uid, parent)))
  {
    var tok := ResultToken(id, name, uid);
    RegisterRefines(s, c, tok, C.Apply(s.clients[c.client], C.Register(c.topic, tok)));
    CallCanBeMade(s, id, c, name, args, uid, parent);
  }

  lemma CallCanBeMade(s: System, id: string, c: P.Chan, name: string, args: Json, uid: nat, parent: Option<P.Chan>)
    requires SystemInv(s) && Enabled(s, Register(id, c, name, args, uid, parent))
    ensures P.Enabled(Abstract(s), P.Register(id, c, name, args, uid, parent))
  {
    CellOf(s, c);
    if parent.Some? {
      ParentCanWait(s, parent.value, c);
    }
  }

  lemma PublishRefines(s: System, id: string)
    requires SystemInv(s) && Enabled(s, Publish(id))
    ensures Refines(s, Apply(s, Publish(id)), Some(P.Publish(id)))
  {
    var p, m := s.calls[id].chan.client, CallOf(s, id);
    SentForwards(s, p, m.topic, P.CallMessage(id, s.calls[id]), C.Apply(s.clients[p], C.Publish(m)));
  }

  lemma CallHasHandler(a: P.State, id: string)
    requires P.Inv(a) && id in a.calls && !a.calls[id].status.Returned?
    ensures a.calls[id].chan in a.cells && a.calls[id].token in a.cells[a.calls[id].chan].handlers
  {
    assert P.CallInv(a, id);
  }

  lemma ReturnRefines(s: System, id: string)
    requires SystemInv(s) && P.Inv(Abstract(s)) && Enabled(s, Return(id))
    ensures Refines(s, Apply(s, Return(id)), Some(P.Return(id)))
  {
    var c, tok := s.calls[id].chan, s.calls[id].token;
    CallHasHandler(Abstract(s), id);
    UnregisterRefines(s, c, tok, C.Apply(s.clients[c.client], C.Unregister(c.topic, tok)));
  }

  lemma DeliverRefines(s: System, c: P.Chan)
    requires SystemInv(s) && Enabled(s, Deliver(c))
    ensures Refines(s, Apply(s, Deliver(c)), None)
  {
    var cl := C.Apply(s.clients[c.client], C.Receive(s.net[c][0]));
    ReceiveCells(s, c, cl);
  }

  lemma WorkerRefines(s: System, p: string, step: C.Step)
    requires SystemInv(s) && Can(s, p, step) && (step.Take? || step.Route?)
    ensures Refines(s, OnClient(s, p, step), None)
  {
    var cl := C.Apply(s.clients[p], step);
    WorkerCells(s, p, step, cl);
  }

  lemma ForeignRefines(s: System, p: string, step: C.Step)
    requires SystemInv(s) && Can(s, p, step) && IsForeign(s.prefix, s.owner, step)
    ensures Refines(s, OnClient(s, p, step), None)
  {
    ForeignCells(s, p, step, C.Apply(s.clients[p], step));
  }

  lemma TakeRefines(s: System, c: P.Chan)
    requires SystemInv(s) && c in s.net && Can(s, c.client, C.Handle(c.topic, H.Pop))
    ensures P.Enabled(Abstract(s), P.Take(c))
    ensures Abstract(OnClient(s, c.client, C.Handle(c.topic, H.Pop))) == P.Apply(Abstract(s), P.Take(c))
  {
    PopRefines(s, c, C.Apply(s.clients[c.client], C.Handle(c.topic, H.Pop)));
  }

  /** The steps of a handler thread that touch nothing but the thread. */
  predicate WorkStep(a: P.State, c: P.Chan, step: H.Step, work: H.Work, pstep: P.Step) {
    && c in a.cells
    && match step
       case Snapshot =>
         a.cells[c].work.Popped? && pstep == P.Snapshot(c)
           && work == H.Dispatching(a.cells[c].work.msg, a.cells[c].handlers)
       case End =>
         && a.cells[c].work.Executing? && pstep == P.End(c) && !P.Blocked(a.calls, c)
         && work == H.Dispatching(a.cells[c].work.msg, a.cells[c].work.todo)
       case Finish =>
         a.cells[c].work.Dispatching? && a.cells[c].work.todo == {} && pstep == P.Finish(c) && work == H.Idle
       case _ => false
  }

  lemma WorkStepState(a: P.State, c: P.Chan, step: H.Step, work: H.Work, pstep: P.Step)
    requires WorkStep(a, c, step, work, pstep)
    ensures P.Enabled(a, pstep) && P.Apply(a, pstep) == a.(cells := P.SetWork(a.cells, c, work))
  {
  }

  lemma WorkRefines(s: System, c: P.Chan, step: H.Step, pstep: P.Step)
    requires SystemInv(s) && c in s.net && Can(s, c.client, C.Handle(c.topic, step)) && !step.Pop? && !step.Stop?
    requires WorkStep(Abstract(s), c, step, H.Apply(s.clients[c.client].topics[c.topic].entry, step).work, pstep)
    ensures P.Enabled(Abstract(s), pstep)
    ensures Abstract(OnClient(s, c.client, C.Handle(c.topic, step))) == P.Apply(Abstract(s), pstep)
  {
    var work := H.Apply(s.clients[c.client].topics[c.topic].entry, step).work;
    WorkStepState(Abstract(s), c, step, work, pstep);
    ThreadRefines(s, c, step, work, C.Apply(s.clients[c.client], C.Handle(c.topic, step)));
  }

  /** Starting a handler does to the entry's thread what the protocol says. */
  lemma StartedThread(e: H.Entry, tok: H.Token)
    requires H.Enabled(e, H.Start(tok))
    ensures H.Apply(e, H.Start(tok)).work == P.StartedWork(e.work, tok)
  {
  }

  lemma StartCells(s: System, c: P.Chan, tok: H.Token, work: H.Work, s1: System)
    requires SystemInv(s) && c in s.net && Can(s, c.client, C.Handle(c.topic, H.Start(tok)))
    requires work == WorkAt(s, c) && s1 == OnClient(s, c.client, C.Handle(c.topic, H.Start(tok)))
    ensures c in Cells(s.clients, s.net) && Cells(s.clients, s.net)[c].work == work
    ensures Cells(s1.clients, s1.net) == P.SetWork(Cells(s.clients, s.net), c, P.StartedWork(work, tok))
  {
    StartedThread(s.clients[c.client].topics[c.topic].entry, tok);
    ThreadRefines(s, c, H.Start(tok), P.StartedWork(work, tok),
                  C.Apply(s.clients[c.client], C.Handle(c.topic, H.Start(tok))));
  }

  lemma StartedState(a: P.State, c: P.Chan, tok: H.Token, calls: map<string, P.Call>)
    requires c in a.cells && a.cells[c].work.Dispatching? && tok in a.cells[c].work.todo
    requires var outcome := H.Dispatch(tok, a.cells[c].work.msg);
             calls == if outcome.Invoke? then P.HandleResult(a.calls, tok, outcome.arg) else a.calls
    ensures P.Enabled(a, P.Start(c, tok))
    ensures P.Apply(a, P.Start(c, tok)) ==
            a.(cells := P.SetWork(a.cells, c, P.StartedWork(a.cells[c].work, tok)), calls := calls)
  {
  }

  lemma StartRefines(s: System, c: P.Chan, tok: H.Token)
    requires SystemInv(s) && c in s.net && Can(s, c.client, C.Handle(c.topic, H.Start(tok)))
    ensures P.Enabled(Abstract(s), P.Start(c, tok))
    ensures Abstract(Started(s, c, tok)) == P.Apply(Abstract(s), P.Start(c, tok))
  {
    StartCells(s, c, tok, WorkAt(s, c), OnClient(s, c.client, C.Handle(c.topic, H.Start(tok))));
    StartedState(Abstract(s), c, tok, Started(s, c, tok).calls);
  }

  lemma EndCells(s: System, c: P.Chan, s1: System)
    requires SystemInv(s) && c in s.net && Can(s, c.client, C.Handle(c.topic, H.End))
    requires s1 == OnClient(s, c.client, C.Handle(c.topic, H.End))
    ensures c in Cells(s.clients, s.net) && Cells(s.clients, s.net)[c].work == WorkAt(s, c)
    ensures Cells(s1.clients, s1.net) ==
            P.SetWork(Cells(s.clients, s.net), c, H.Dispatching(WorkAt(s, c).msg, WorkAt(s, c).todo))
  {
    ThreadRefines(s, c, H.End, H.Dispatching(WorkAt(s, c).msg, WorkAt(s, c).todo),
                  C.Apply(s.clients[c.client], C.Handle(c.topic, H.End)));
  }

  lemma SendCells(s: System, p: string, topic: string, data: Json, s': System)
    requires SystemInv(s) && Can(s, p, C.Publish(MessageFor(topic, data)))
    requires s' == Sent(s, p, MessageFor(topic, data))
    ensures Cells(s'.clients, s'.net) == P.Forward(Cells(s.clients, s.net), topic, data)
  {
    SentForwards(s, p, topic, data, C.Apply(s.clients[p], C.Publish(MessageFor(topic, data))));
  }

  /** The protocol's answer, from its effect on the cells and the tables. */
  lemma AnsweredState(a: P.State, c: P.Chan, retval: Json, work: H.Work, cells: map<P.Chan, P.Cell>)
    requires c in a.cells && a.cells[c].work == work && work.Executing? && work.tok.kind.Call? && !P.Blocked(a.calls, c)
    requires cells == P.SetWork(a.cells, c, H.Dispatching(work.msg, work.todo))
    ensures P.Enabled(a, P.Answer(c, retval))
    ensures P.Apply(a, P.Answer(c, retval)) ==
            a.(cells := P.Forward(cells, c.topic, P.AnswerMessage(work, retval, c.client)),
               computed := a.computed[P.IdOf(work.msg) := P.Computation(P.ArgsOf(work.msg), retval)])
  {
  }

  lemma AnswerRefines(s: System, c: P.Chan, retval: Json)
    requires SystemInv(s) && c in s.net && Serving(s, c) && !P.Blocked(s.calls, c)
    requires Can(s, c.client, C.Handle(c.topic, H.End))
    ensures P.Enabled(Abstract(s), P.Answer(c, retval))
    ensures Abstract(Answered(s, c, retval)) == P.Apply(Abstract(s), P.Answer(c, retval))
  {
    var s1 := OnClient(s, c.client, C.Handle(c.topic, H.End));
    var work := WorkAt(s, c);
    var data := P.AnswerMessage(work, retval, c.client);
    EndCells(s, c, s1);
    OwnStepKeepsInv(s, c.client, C.Handle(c.topic, H.End));
    SendCells(s1, c.client, c.topic, data, Sent(s1, c.client, MessageFor(c.topic, data)));
    AnsweredState(Abstract(s), c, retval, work, Cells(s1.clients, s1.net));
  }

  lemma SnapshotRefines(s: System, c: P.Chan)
    requires SystemInv(s) && c in s.net && Can(s, c.client, C.Handle(c.topic, H.Snapshot))
    ensures P.Enabled(Abstract(s), P.Snapshot(c))
    ensures Abstract(OnClient(s, c.client, C.Handle(c.topic, H.Snapshot))) == P.Apply(Abstract(s), P.Snapshot(c))
  {
    CellOf(s, c);
    WorkRefines(s, c, H.Snapshot, P.Snapshot(c));
  }

  lemma EndRefines(s: System, c: P.Chan)
    requires SystemInv(s) && c in s.net && Can(s, c.client, C.Handle(c.topic, H.End)) && !P.Blocked(s.calls, c)
    ensures P.Enabled(Abstract(s), P.End(c))
    ensures Abstract(OnClient(s, c.client, C.Handle(c.topic, H.End))) == P.Apply(Abstract(s), P.End(c))
  {
    CellOf(s, c);
    WorkRefines(s, c, H.End, P.End(c));
  }

  lemma FinishRefines(s: System, c: P.Chan)
    requires SystemInv(s) && c in s.net && Can(s, c.client, C.Handle(c.topic, H.Finish))
    ensures P.Enabled(Abstract(s), P.Finish(c))
    ensures Abstract(OnClient(s, c.client, C.Handle(c.topic, H.Finish))) == P.Apply(Abstract(s), P.Finish(c))
  {
    CellOf(s, c);
    WorkRefines(s, c, H.Finish, P.Finish(c));
  }

  lemma ThreadStepRefines(s: System, step: Step)
    requires SystemInv(s) && Enabled(s, step) && OfThread(step)
    ensures Protocol(step).Some? && P.Enabled(Abstract(s), Protocol(step).value)
    ensures Abstract(Apply(s, step)) == P.Apply(Abstract(s), Protocol(step).value)
  {
    var c := step.chan;
    match step
    case Pop(_) => TakeRefines(s, c);
    case Snapshot(_) => SnapshotRefines(s, c);
    case Start(_, tok) => StartRefines(s, c, tok);
    case Answer(_, retval) => AnswerRefines(s, c, retval);
    case End(_) => EndRefines(s, c);
    case Finish(_) => FinishRefines(s, c);
  }

  /** Every step of the system is a step of the protocol, or moves a message or is foreign to calls and is none. */
  lemma StepRefines(s: System, step: Step)
    requires SystemInv(s) && P.Inv(Abstract(s)) && Enabled(s, step)
    ensures Refines(s, Apply(s, step), Protocol(step))
  {
    match step
    case Provide(c, name, uid) => ProvideRefines(s, c, name, uid);
    case Register(id, c, name, args, uid, parent) => CallRefines(s, id, c, name, args, uid, parent);
    case Publish(id) => PublishRefines(s, id);
    case Return(id) => ReturnRefines(s, id);
    case Timeout(id) =>
    case Deliver(c) => DeliverRefines(s, c);
    case TakeMessage(p) => WorkerRefines(s, p, C.Take);
    case RouteMessage(p) => WorkerRefines(s, p, C.Route);
    case Foreign(p, cstep) => ForeignRefines(s, p, cstep);
    case _ => ThreadStepRefines(s, step);
  }
}
