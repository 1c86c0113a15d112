/**
 * One process on the MQTT network: its message queue and routing worker, its topic entries, and
 * its subscriptions at the broker. A step is what the code does under one lock; the broker side
 * changes with the calls into the MQTT library.
 */
module MqttClient {
  import opened Wrappers
  import opened Json
  import opened TopicMatch
  import H = MessageHandler

  /** A message as received; `parsed` is the payload read as JSON, if it is JSON. */
  datatype Message = Message(topic: string, payload: string, parsed: Option<Json>)

  predicate IsEverest(prefix: string, topic: string) {
    prefix <= topic
  }

  /** What the handlers get: parsed JSON on everest topics, the payload as a string on others. */
  function DataOf(prefix: string, m: Message): Option<Json> {
    if IsEverest(prefix, m.topic) then m.parsed else Some(Str(m.payload))
  }

  /** The topic comparison of `on_mqtt_message`. */
  predicate RoutesTo(prefix: string, m: Message, filter: string) {
    if IsEverest(prefix, m.topic) then m.topic == filter else TopicMatches(m.topic, filter)
  }

  /** `MessageQueue` and the message its worker holds; history: the messages added and routed. */
  datatype Inbox = Inbox(
    queue: seq<Message>,
    running: bool,
    routing: Option<Message>,
    added: seq<Message>,
    routed: seq<Message>)

  /**
   * The connection: outgoing messages wait until there is one. The broker has a set of subscribed
   * filters and the messages sent; history: the filters ever subscribed, the messages published.
   */
  datatype Link = Link(
    connected: bool,
    waiting: seq<Message>,
    subscribed: set<string>,
    sent: seq<Message>,
    everSubscribed: set<string>,
    published: seq<Message>)

  /** An element of `message_handlers`; history: how many messages were routed when it was made. */
  datatype Topic = Topic(entry: H.Entry, since: nat)

  /** `fault` is the topic of a message that found no entry, which ends the process. */
  datatype Client = Client(
    prefix: string,
    inbox: Inbox,
    link: Link,
    topics: map<string, Topic>,
    fault: Option<string>)

  function NewClient(prefix: string): Client {
    Client(prefix, Inbox([], true, None, [], []), Link(false, [], {}, [], {}, []), map[], None)
  }

  datatype Step =
    | Receive(m: Message)
    | Take
    | Route
    | StopQueue
    | Register(topic: string, tok: H.Token)
    | Unregister(topic: string, tok: H.Token)
    | Connect
    | Disconnect
    | Publish(m: Message)
    | Handle(topic: string, step: H.Step)

  /** The steps of an entry's own thread; messages and handlers reach it through the client. */
  predicate OwnStep(step: H.Step) {
    step.Pop? || step.Snapshot? || step.Start? || step.End? || step.Finish? || step.Stop?
  }

  /**
   * The broker forwards what some filter accepts by section 4.7 of MQTT Version 3.1.1, possibly one
   * whose unsubscription is under way.
   */
  predicate Forwarded(link: Link, topic: string) {
    exists f :: f in link.everSubscribed && AcceptsByBothSections(topic, f)
  }

  function HandlersOf(topics: map<string, Topic>, topic: string): set<H.Token> {
    if topic in topics then topics[topic].entry.handlers else {}
  }

  predicate Enabled(s: Client, step: Step) {
    && s.fault.None?
    && match step
       case Receive(m) => Forwarded(s.link, m.topic)
       case Take => s.inbox.running && s.inbox.routing.None? && s.inbox.queue != []
       case Route => s.inbox.routing.Some?
       case StopQueue => true
       case Register(_, _) => true
       case Unregister(topic, tok) => HandlersOf(s.topics, topic) != {} ==> tok in HandlersOf(s.topics, topic)
       case Connect => !s.link.connected
       case Disconnect => s.link.connected
       case Publish(_) => true
       case Handle(topic, step) => topic in s.topics && OwnStep(step) && H.Enabled(s.topics[topic].entry, step)
  }

  function MatchingTopics(prefix: string, topics: map<string, Topic>, m: Message): set<string> {
    set f | f in topics && RoutesTo(prefix, m, f)
  }

  function AddData(t: Topic, data: Json): Topic {
    t.(entry := H.Apply(t.entry, H.Add(data)))
  }

  function AddToTopics(topics: map<string, Topic>, to: set<string>, data: Json): map<string, Topic> {
    map f | f in topics :: if f in to then AddData(topics[f], data) else topics[f]
  }

  function Routed(inbox: Inbox): Inbox
    requires inbox.routing.Some?
  {
    inbox.(routing := None, routed := inbox.routed + [inbox.routing.value])
  }

  /** `on_mqtt_message`: undecodable payloads are dropped, a message without an entry is a fault. */
  function RouteMessage(s: Client): Client
    requires s.inbox.routing.Some?
  {
    var m := s.inbox.routing.value;
    var data := DataOf(s.prefix, m);
    var to := MatchingTopics(s.prefix, s.topics, m);
    if data.None? then s.(inbox := Routed(s.inbox))
    else if to == {} then s.(fault := Some(m.topic))
    else s.(inbox := Routed(s.inbox), topics := AddToTopics(s.topics, to, data.value))
  }

  function SubscribeTo(link: Link, filters: set<string>): Link {
    link.(subscribed := link.subscribed + filters, everSubscribed := link.everSubscribed + filters)
  }

  /** `register_handler`: the entry is made if needed; its first handler subscribes, if connected. */
  function AddHandlerTo(topics: map<string, Topic>, now: nat, topic: string, tok: H.Token): map<string, Topic> {
    var t := if topic in topics then topics[topic] else Topic(H.NEW_ENTRY, now);
    topics[topic := t.(entry := H.Apply(t.entry, H.AddHandler(tok)))]
  }

  function RegisterHandler(s: Client, topic: string, tok: H.Token): Client {
    var topics := AddHandlerTo(s.topics, |s.inbox.routed|, topic, tok);
    var link := if s.link.connected && |HandlersOf(topics, topic)| == 1 then SubscribeTo(s.link, {topic}) else s.link;
    s.(topics := topics, link := link)
  }

  function RemoveHandlerFrom(topics: map<string, Topic>, topic: string, tok: H.Token): map<string, Topic>
    requires HandlersOf(topics, topic) != {} ==> tok in HandlersOf(topics, topic)
  {
    if HandlersOf(topics, topic) == {} then topics
    else topics[topic := topics[topic].(entry := H.Apply(topics[topic].entry, H.RemoveHandler(tok)))]
  }

  /** `unregister_handler`: entries stay; losing the last handler unsubscribes, if connected. */
  function UnregisterHandler(s: Client, topic: string, tok: H.Token): Client
    requires Enabled(s, Unregister(topic, tok))
  {
    var topics := RemoveHandlerFrom(s.topics, topic, tok);
    var link := if HandlersOf(topics, topic) == {} && s.link.connected
                then s.link.(subscribed := s.link.subscribed - {topic}) else s.link;
    s.(topics := topics, link := link)
  }

  /** `on_mqtt_connect`: subscribe to all topics with an entry, then publish what waited. */
  function Connected(link: Link, topics: set<string>): Link {
    SubscribeTo(link, topics).(connected := true, sent := link.sent + link.waiting, waiting := [])
  }

  function Published(link: Link, m: Message): Link {
    var link' := link.(published := link.published + [m]);
    if link.connected then link'.(sent := link.sent + [m]) else link'.(waiting := link.waiting + [m])
  }

  function Apply(s: Client, step: Step): Client
    requires Enabled(s, step)
  {
    match step
    case Receive(m) => s.(inbox := s.inbox.(queue := s.inbox.queue + [m], added := s.inbox.added + [m]))
    case Take => s.(inbox := s.inbox.(queue := s.inbox.queue[1..], routing := Some(s.inbox.queue[0])))
    case Route => RouteMessage(s)
    case StopQueue => s.(inbox := s.inbox.(running := false))
    case Register(topic, tok) => RegisterHandler(s, topic, tok)
    case Unregister(topic, tok) => UnregisterHandler(s, topic, tok)
    case Connect => s.(link := Connected(s.link, s.topics.Keys))
    case Disconnect => s.(link := s.link.(connected := false, subscribed := {}))
    case Publish(m) => s.(link := Published(s.link, m))
    case Handle(topic, step) => s.(topics := StepTopic(s.topics, topic, step))
  }

  function StepTopic(topics: map<string, Topic>, topic: string, step: H.Step): map<string, Topic>
    requires topic in topics && H.Enabled(topics[topic].entry, step)
  {
    topics[topic := topics[topic].(entry := H.Apply(topics[topic].entry, step))]
  }

  // ---- Invariant ----

  function Held(routing: Option<Message>): seq<Message> {
    if routing.None? then [] else [routing.value]
  }

  /** The data, in order, that messages `ms` bring to the entry of `filter`. */
  function RoutedData(prefix: string, ms: seq<Message>, filter: string): seq<Json> {
    if ms == [] then []
    else
      var m := ms[|ms| - 1];
      RoutedData(prefix, ms[..|ms| - 1], filter) +
      (if DataOf(prefix, m).Some? && RoutesTo(prefix, m, filter) then [DataOf(prefix, m).value] else [])
  }

  /** Messages added are those routed, the one in flight and those queued. */
  predicate QueueInv(inbox: Inbox) {
    inbox.added == inbox.routed + Held(inbox.routing) + inbox.queue
  }

  ghost predicate TopicInv(prefix: string, routed: seq<Message>, f: string, t: Topic) {
    && H.Inv(t.entry)
    && t.since <= |routed|
    && t.entry.routed == RoutedData(prefix, routed[t.since..], f)
  }

  ghost predicate TopicsInv(prefix: string, routed: seq<Message>, topics: map<string, Topic>) {
    forall f {:trigger TopicInv(prefix, routed, f, topics[f])} :: f in topics ==> TopicInv(prefix, routed, f, topics[f])
  }

  /** While connected a topic with a handler is subscribed, and only topics with an entry ever were. */
  predicate SubscriptionInv(link: Link, topics: map<string, Topic>) {
    && link.subscribed <= link.everSubscribed <= topics.Keys
    && (link.connected ==> forall f :: f in topics && topics[f].entry.handlers != {} ==> f in link.subscribed)
    && (!link.connected ==> link.subscribed == {})
  }

  /** Nothing published is lost or reordered while waiting for the connection. */
  predicate PublishInv(link: Link) {
    && link.published == link.sent + link.waiting
    && (link.connected ==> link.waiting == [])
  }

  /**
   * What a step does to the subscriptions: the first handler of a topic subscribes it and the loss
   * of the last one unsubscribes it, while connected; connecting subscribes every topic that has
   * an entry, and disconnecting ends all.
   */
  lemma StepSubscribes(s: Client, step: Step)
    requires Enabled(s, step)
    ensures forall t :: t in Apply(s, step).link.subscribed <==>
              match step
              case Register(topic, tok) =>
                t in s.link.subscribed || (s.link.connected && t == topic && HandlersOf(s.topics, topic) <= {tok})
              case Unregister(topic, tok) =>
                t in s.link.subscribed && !(s.link.connected && t == topic && HandlersOf(s.topics, topic) <= {tok})
              case Connect => t in s.link.subscribed || t in s.topics
              case Disconnect => false
              case _ => t in s.link.subscribed
  {
    if step.Register? {
      var before := HandlersOf(s.topics, step.topic);
      assert HandlersOf(Apply(s, step).topics, step.topic) == before + {step.tok};
      if before <= {step.tok} {
        assert before + {step.tok} == {step.tok};
      } else {
        var other :| other in before && other != step.tok;
        assert {other, step.tok} <= before + {step.tok};
        assert |before + {step.tok}| >= |{other, step.tok}| by {
          SubsetSize({other, step.tok}, before + {step.tok});
        }
      }
    }
  }

  lemma SubsetSize<T>(a: set<T>, b: set<T>)
    requires a <= b
    ensures |a| <= |b|
  {
    assert b == a + (b - a);
  }

  /** The message at position `i` of those received has an entry, made before, whose filter accepts it. */
  predicate Covered(added: seq<Message>, topics: map<string, Topic>, i: nat)
    requires i < |added|
  {
    exists f :: f in topics && topics[f].since <= i && AcceptsByBothSections(added[i].topic, f)
  }

  predicate AllCovered(added: seq<Message>, topics: map<string, Topic>) {
    forall i {:trigger Covered(added, topics, i)} :: 0 <= i < |added| ==> Covered(added, topics, i)
  }

  ghost predicate Inv(s: Client) {
    && QueueInv(s.inbox)
    && TopicsInv(s.prefix, s.inbox.routed, s.topics)
    && SubscriptionInv(s.link, s.topics)
    && PublishInv(s.link)
    && AllCovered(s.inbox.added, s.topics)
  }

  lemma RoutedDataSnoc(prefix: string, ms: seq<Message>, m: Message, f: string)
    ensures RoutedData(prefix, ms + [m], f) ==
            RoutedData(prefix, ms, f) +
            (if DataOf(prefix, m).Some? && RoutesTo(prefix, m, f) then [DataOf(prefix, m).value] else [])
  {
    assert (ms + [m])[..|ms|] == ms;
  }

  lemma {:induction false} RoutedDataConcat(prefix: string, a: seq<Message>, b: seq<Message>, f: string)
    ensures RoutedData(prefix, a + b, f) == RoutedData(prefix, a, f) + RoutedData(prefix, b, f)
  {
    if b == [] {
      assert a + b == a;
    } else {
      var n := |b| - 1;
      assert (a + b)[..|a + b| - 1] == a + b[..n];
      RoutedDataConcat(prefix, a, b[..n], f);
    }
  }

  /** Messages that do not go to a topic bring it nothing. */
  lemma {:induction false} NothingRouted(prefix: string, ms: seq<Message>, f: string)
    requires forall i :: 0 <= i < |ms| ==> !RoutesTo(prefix, ms[i], f)
    ensures RoutedData(prefix, ms, f) == []
  {
    if ms != [] {
      NothingRouted(prefix, ms[..|ms| - 1], f);
    }
  }

  lemma InitInv(prefix: string)
    ensures Inv(NewClient(prefix))
  {
  }

  /** Routing one message extends what a topic got by what the message brings to it. */
  lemma RouteExtends(prefix: string, routed: seq<Message>, f: string, t: Topic, m: Message)
    requires TopicInv(prefix, routed, f, t)
    ensures DataOf(prefix, m).Some? && RoutesTo(prefix, m, f) ==>
              TopicInv(prefix, routed + [m], f, AddData(t, DataOf(prefix, m).value))
    ensures DataOf(prefix, m).None? || !RoutesTo(prefix, m, f) ==> TopicInv(prefix, routed + [m], f, t)
  {
    assert (routed + [m])[t.since..] == routed[t.since..] + [m];
    RoutedDataSnoc(prefix, routed[t.since..], m, f);
    if DataOf(prefix, m).Some? {
      H.StepPreservesInv(t.entry, H.Add(DataOf(prefix, m).value));
    }
  }

  lemma RoutePreservesTopics(s: Client)
    requires TopicsInv(s.prefix, s.inbox.routed, s.topics) && s.inbox.routing.Some?
    ensures TopicsInv(s.prefix, RouteMessage(s).inbox.routed, RouteMessage(s).topics)
  {
    var s' := RouteMessage(s);
    var m := s.inbox.routing.value;
    forall f | f in s'.topics
      ensures TopicInv(s.prefix, s'.inbox.routed, f, s'.topics[f])
    {
      RouteExtends(s.prefix, s.inbox.routed, f, s.topics[f], m);
    }
  }

  /** A step of one entry that routes nothing to it. */
  lemma StepPreservesTopic(prefix: string, routed: seq<Message>, f: string, t: Topic, step: H.Step)
    requires TopicInv(prefix, routed, f, t) && H.Enabled(t.entry, step) && !step.Add?
    ensures TopicInv(prefix, routed, f, t.(entry := H.Apply(t.entry, step)))
  {
    H.StepPreservesInv(t.entry, step);
  }

  lemma NewTopicInv(prefix: string, routed: seq<Message>, f: string)
    ensures TopicInv(prefix, routed, f, Topic(H.NEW_ENTRY, |routed|))
  {
    H.InitInv();
  }

  lemma RegisterPreservesTopics(prefix: string, routed: seq<Message>, topics: map<string, Topic>, topic: string,
                                tok: H.Token)
    requires TopicsInv(prefix, routed, topics)
    ensures TopicsInv(prefix, routed, AddHandlerTo(topics, |routed|, topic, tok))
  {
    NewTopicInv(prefix, routed, topic);
    var t := if topic in topics then topics[topic] else Topic(H.NEW_ENTRY, |routed|);
    StepPreservesTopic(prefix, routed, topic, t, H.AddHandler(tok));
  }

  lemma UnregisterPreservesTopics(prefix: string, routed: seq<Message>, topics: map<string, Topic>, topic: string,
                                  tok: H.Token)
    requires TopicsInv(prefix, routed, topics) && (HandlersOf(topics, topic) != {} ==> tok in HandlersOf(topics, topic))
    ensures TopicsInv(prefix, routed, RemoveHandlerFrom(topics, topic, tok))
  {
    if HandlersOf(topics, topic) != {} {
      StepPreservesTopic(prefix, routed, topic, topics[topic], H.RemoveHandler(tok));
    }
  }

  lemma HandlePreservesTopics(prefix: string, routed: seq<Message>, topics: map<string, Topic>, topic: string,
                              step: H.Step)
    requires TopicsInv(prefix, routed, topics) && topic in topics && H.Enabled(topics[topic].entry, step) && !step.Add?
    ensures TopicsInv(prefix, routed, StepTopic(topics, topic, step))
  {
    StepPreservesTopic(prefix, routed, topic, topics[topic], step);
  }

  lemma StepPreservesTopics(s: Client, step: Step)
    requires TopicsInv(s.prefix, s.inbox.routed, s.topics) && Enabled(s, step)
    ensures TopicsInv(Apply(s, step).prefix, Apply(s, step).inbox.routed, Apply(s, step).topics)
  {
    match step
    case Route => RoutePreservesTopics(s);
    case Register(topic, tok) => RegisterPreservesTopics(s.prefix, s.inbox.routed, s.topics, topic, tok);
    case Unregister(topic, tok) => UnregisterPreservesTopics(s.prefix, s.inbox.routed, s.topics, topic, tok);
    case Handle(topic, hstep) => HandlePreservesTopics(s.prefix, s.inbox.routed, s.topics, topic, hstep);
    case _ =>
  }

  lemma StepPreservesQueue(s: Client, step: Step)
    requires QueueInv(s.inbox) && Enabled(s, step)
    ensures QueueInv(Apply(s, step).inbox)
  {
  }

  lemma StepPreservesPublish(s: Client, step: Step)
    requires PublishInv(s.link) && Enabled(s, step)
    ensures PublishInv(Apply(s, step).link)
  {
  }

  /** The entry's own thread changes neither what was routed to it nor its handlers. */
  lemma OwnStepKeeps(e: H.Entry, step: H.Step)
    requires OwnStep(step) && H.Enabled(e, step)
    ensures H.Apply(e, step).routed == e.routed && H.Apply(e, step).handlers == e.handlers
    ensures H.Apply(e, step).seen == e.seen
  {
  }

  /** The second and later handlers of a topic find it subscribed already. */
  lemma RegisterPreservesSubscriptions(s: Client, topic: string, tok: H.Token)
    requires SubscriptionInv(s.link, s.topics)
    ensures SubscriptionInv(RegisterHandler(s, topic, tok).link, RegisterHandler(s, topic, tok).topics)
  {
    var before := HandlersOf(s.topics, topic);
    assert HandlersOf(RegisterHandler(s, topic, tok).topics, topic) == before + {tok};
    if before == {} {
      assert before + {tok} == {tok};
    }
  }

  lemma StepPreservesSubscriptions(s: Client, step: Step)
    requires SubscriptionInv(s.link, s.topics) && Enabled(s, step)
    ensures SubscriptionInv(Apply(s, step).link, Apply(s, step).topics)
  {
    match step
    case Register(topic, tok) => RegisterPreservesSubscriptions(s, topic, tok);
    case Handle(topic, hstep) => OwnStepKeeps(s.topics[topic].entry, hstep);
    case _ =>
  }

  lemma CoveredKept(added: seq<Message>, topics: map<string, Topic>, topics': map<string, Topic>)
    requires AllCovered(added, topics)
    requires forall f :: f in topics ==> f in topics' && topics'[f].since == topics[f].since
    ensures AllCovered(added, topics')
  {
    forall i | 0 <= i < |added|
      ensures Covered(added, topics', i)
    {
      assert Covered(added, topics, i);
      var f :| f in topics && topics[f].since <= i && AcceptsByBothSections(added[i].topic, f);
      assert f in topics';
    }
  }

  lemma ReceiveCovered(s: Client, m: Message)
    requires Inv(s) && Forwarded(s.link, m.topic)
    ensures AllCovered(s.inbox.added + [m], s.topics)
  {
    var added := s.inbox.added + [m];
    forall i | 0 <= i < |added|
      ensures Covered(added, s.topics, i)
    {
      if i == |s.inbox.added| {
        var f :| f in s.link.everSubscribed && AcceptsByBothSections(m.topic, f);
        assert TopicInv(s.prefix, s.inbox.routed, f, s.topics[f]);
      } else {
        assert Covered(s.inbox.added, s.topics, i);
      }
    }
  }

  /** No step removes an entry or moves its start. */
  lemma TopicsStay(s: Client, step: Step)
    requires Enabled(s, step)
    ensures forall f :: f in s.topics ==>
            f in Apply(s, step).topics && Apply(s, step).topics[f].since == s.topics[f].since
    ensures Apply(s, step).topics.Keys <= s.topics.Keys + (if step.Register? then {step.topic} else {})
  {
  }

  lemma StepPreservesCovered(s: Client, step: Step)
    requires Inv(s) && Enabled(s, step)
    ensures AllCovered(Apply(s, step).inbox.added, Apply(s, step).topics)
  {
    if step.Receive? {
      ReceiveCovered(s, step.m);
    } else {
      TopicsStay(s, step);
      CoveredKept(s.inbox.added, s.topics, Apply(s, step).topics);
    }
  }

  lemma StepPreservesInv(s: Client, step: Step)
    requires Inv(s) && Enabled(s, step)
    ensures Inv(Apply(s, step))
  {
    StepPreservesQueue(s, step);
    StepPreservesTopics(s, step);
    StepPreservesSubscriptions(s, step);
    StepPreservesPublish(s, step);
    StepPreservesCovered(s, step);
  }

  // ---- Runs ----

  function Run(s: Client, steps: seq<Step>): Option<Client>
    decreases |steps|
  {
    if steps == [] then Some(s)
    else if !Enabled(s, steps[0]) then None
    else Run(Apply(s, steps[0]), steps[1..])
  }

  lemma {:induction false} RunPreservesInv(s: Client, steps: seq<Step>)
    requires Inv(s) && Run(s, steps).Some?
    ensures Inv(Run(s, steps).value)
    decreases |steps|
  {
    if steps != [] {
      StepPreservesInv(s, steps[0]);
      RunPreservesInv(Apply(s, steps[0]), steps[1..]);
    }
  }

  /**
   * Over every run: messages added are those routed, in flight and queued, in this order, and the
   * entry of each topic got exactly the order-preserving selection of the messages routed since
   * it was made; what was published reached the broker in order, or waits for the connection.
   */
  lemma EndToEndConservation(prefix: string, steps: seq<Step>)
    requires Run(NewClient(prefix), steps).Some?
    ensures var s := Run(NewClient(prefix), steps).value;
            && s.inbox.added == s.inbox.routed + Held(s.inbox.routing) + s.inbox.queue
            && (forall f :: f in s.topics ==>
                  && s.topics[f].since <= |s.inbox.routed|
                  && s.topics[f].entry.routed == RoutedData(s.prefix, s.inbox.routed[s.topics[f].since..], f))
            && s.link.published == s.link.sent + s.link.waiting
  {
    InitInv(prefix);
    RunPreservesInv(NewClient(prefix), steps);
    var s := Run(NewClient(prefix), steps).value;
    forall f | f in s.topics
      ensures TopicInv(s.prefix, s.inbox.routed, f, s.topics[f])
    {
    }
  }

  /**
   * From the network to the handlers, over every run: each handler of a topic is called in
   * arrival order, exactly once for each message that was due, out of the order-preserving
   * selection of the messages routed since the topic's entry was made, and with what its test
   * extracts from that message.
   */
  lemma HandlersGetTheirSelection(prefix: string, steps: seq<Step>, f: string, tok: H.Token)
    requires Run(NewClient(prefix), steps).Some? && f in Run(NewClient(prefix), steps).value.topics
    ensures var s := Run(NewClient(prefix), steps).value;
            var Topic(e, since) := s.topics[f];
            && since <= |s.inbox.routed|
            && H.GetsWhatIsDue(e, tok)
            && forall i :: 0 <= i < |e.log| ==>
                 var selected := RoutedData(s.prefix, s.inbox.routed[since..], f);
                 && e.log[i].pos < |selected|
                 && H.Dispatch(e.log[i].tok, selected[e.log[i].pos]) == H.Invoke(e.log[i].arg)
  {
    InitInv(prefix);
    RunPreservesInv(NewClient(prefix), steps);
    var s := Run(NewClient(prefix), steps).value;
    assert TopicInv(s.prefix, s.inbox.routed, f, s.topics[f]);
    H.InvGetsWhatIsDue(s.topics[f].entry, tok);
  }

  /** Over every run: while connected only known topics are subscribed, all with a handler among them. */
  lemma SubscriptionsFollowHandlers(prefix: string, steps: seq<Step>)
    requires Run(NewClient(prefix), steps).Some?
    ensures var s := Run(NewClient(prefix), steps).value;
            && s.link.subscribed <= s.topics.Keys
            && (s.link.connected ==>
                  forall f :: f in s.topics && s.topics[f].entry.handlers != {} ==> f in s.link.subscribed)
  {
    InitInv(prefix);
    RunPreservesInv(NewClient(prefix), steps);
  }

  // ---- One topic of a client ----

  /** What a client's step does to the entry of a topic. */
  function EntryStep(s: Client, step: Step, topic: string): seq<H.Step>
    requires Enabled(s, step)
  {
    match step
    case Route =>
      var m := s.inbox.routing.value;
      var data := DataOf(s.prefix, m);
      if data.Some? && topic in MatchingTopics(s.prefix, s.topics, m) then [H.Add(data.value)] else []
    case Register(t, tok) => if t == topic then [H.AddHandler(tok)] else []
    case Unregister(t, tok) => if t == topic && HandlersOf(s.topics, topic) != {} then [H.RemoveHandler(tok)] else []
    case Handle(t, step) => if t == topic then [step] else []
    case _ => []
  }

  function EntrySteps(s: Client, steps: seq<Step>, topic: string): seq<H.Step>
    requires Run(s, steps).Some?
    decreases |steps|
  {
    if steps == [] then []
    else EntryStep(s, steps[0], topic) + EntrySteps(Apply(s, steps[0]), steps[1..], topic)
  }

  lemma StepProjects(s: Client, step: Step, topic: string)
    requires Enabled(s, step) && topic in s.topics
    ensures topic in Apply(s, step).topics
    ensures var es := EntryStep(s, step, topic);
            && |es| <= 1
            && (es == [] ==> Apply(s, step).topics[topic].entry == s.topics[topic].entry)
            && (es != [] ==> H.Enabled(s.topics[topic].entry, es[0])
                             && Apply(s, step).topics[topic].entry == H.Apply(s.topics[topic].entry, es[0]))
            && (forall tok :: H.AddHandler(tok) in es ==> step == Register(topic, tok))
  {
  }

  /** An entry goes through a run of its own steps, with handlers added only by registering them. */
  lemma {:induction false} RunProjects(s: Client, steps: seq<Step>, topic: string)
    requires Run(s, steps).Some? && topic in s.topics
    ensures topic in Run(s, steps).value.topics
    ensures H.Run(s.topics[topic].entry, EntrySteps(s, steps, topic)) == Some(Run(s, steps).value.topics[topic].entry)
    ensures forall tok :: H.AddHandler(tok) in EntrySteps(s, steps, topic) ==> Register(topic, tok) in steps
    decreases |steps|
  {
    if steps != [] {
      var s1 := Apply(s, steps[0]);
      var es, rest := EntryStep(s, steps[0], topic), EntrySteps(s1, steps[1..], topic);
      StepProjects(s, steps[0], topic);
      RunProjects(s1, steps[1..], topic);
      if es == [] {
        assert es + rest == rest;
      } else {
        assert (es + rest)[1..] == rest;
      }
    }
  }

  /**
   * Once `unregister_handler` has returned for a registered handler, and unless it is registered
   * again, every run of the client delivers at most one more message of that topic to it: the one
   * whose snapshot of handlers was already taken.
   */
  lemma AtMostOneAfterUnregister(s: Client, topic: string, tok: H.Token, steps: seq<Step>)
    requires Inv(s) && Enabled(s, Unregister(topic, tok)) && tok in HandlersOf(s.topics, topic)
    requires Register(topic, tok) !in steps
    requires Run(Apply(s, Unregister(topic, tok)), steps).Some?
    ensures var log := s.topics[topic].entry.log;
            var s' := Run(Apply(s, Unregister(topic, tok)), steps).value;
            && topic in s'.topics
            && var log' := s'.topics[topic].entry.log;
               && log <= log'
               && (forall i :: |log| <= i < |log'| && log'[i].tok == tok ==> tok in s.topics[topic].entry.work.Todo())
               && (forall i, j :: |log| <= i <= j < |log'| && log'[i].tok == log'[j].tok == tok ==> i == j)
  {
    var s1 := Apply(s, Unregister(topic, tok));
    StepPreservesInv(s, Unregister(topic, tok));
    RunProjects(s1, steps, topic);
    assert TopicInv(s1.prefix, s1.inbox.routed, topic, s1.topics[topic]);
    H.AtMostOneAfterRemoval(s1.topics[topic].entry, EntrySteps(s1, steps, topic), tok);
  }
}
