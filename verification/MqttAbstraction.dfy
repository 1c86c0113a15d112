/**
 * The objects behind the state machines of modules MessageHandler and MqttClient. Their methods
 * are what the code does under one lock, or one turn of a thread's loop; each is tied to the
 * steps of the state machines, whose runs carry the properties.
 */
module MqttAbstraction {
  import opened Wrappers
  import opened Json
  import opened TopicMatch
  import H = MessageHandler
  import C = MqttClient

  function SetOf(toks: seq<H.Token>): set<H.Token> {
    set tok | tok in toks
  }

  /** `MessageHandler`: the queue and the handlers of one topic, and its thread's place in its loop. */
  class TopicHandler {
    var handlers: set<H.Token>
    var queue: seq<Json>
    var running: bool
    var work: H.Work
    ghost var routed: seq<Json>
    ghost var seen: set<H.Token>
    ghost var snapshots: seq<set<H.Token>>
    ghost var log: seq<H.Delivery>

    ghost function View(): H.Entry
      reads this
    {
      H.Entry(handlers, queue, running, work, routed, seen, snapshots, log)
    }

    constructor ()
      ensures View() == H.NEW_ENTRY
    {
      handlers, queue, running, work := {}, [], true, H.Idle;
      routed, seen, snapshots, log := [], {}, [], [];
    }

    method Add(msg: Json)
      modifies this
      ensures View() == H.Apply(old(View()), H.Add(msg))
    {
      queue := queue + [msg];
      routed := routed + [msg];
    }

    method Stop()
      modifies this
      ensures View() == H.Apply(old(View()), H.Stop)
    {
      running := false;
    }

    method AddHandler(tok: H.Token)
      modifies this
      ensures View() == H.Apply(old(View()), H.AddHandler(tok))
    {
      handlers := handlers + {tok};
      seen := seen + {tok};
    }

    method RemoveHandler(tok: H.Token)
      requires tok in handlers
      modifies this
      ensures View() == H.Apply(old(View()), H.RemoveHandler(tok))
    {
      handlers := handlers - {tok};
    }

    /** The test of the distribution loop, in the order in which it looks at the members. */
    method Test(tok: H.Token, data: Json) returns (outcome: H.Outcome)
      ensures outcome == H.Dispatch(tok, data)
      ensures outcome.Invoke? <==> H.IsFor(data, tok) && H.PartFor(data, tok).Some?
      ensures outcome.Invoke? ==> H.PartFor(data, tok) == Some(outcome.arg)
    {
      H.InvokedIff(tok, data, if H.PartFor(data, tok).Some? then H.PartFor(data, tok).value else Null);
      if !tok.kind.Call? && !tok.kind.Result? && !tok.kind.SubscribeVar? {
        return H.Invoke(data);
      }
      var name := At(data, "name");
      if name.None? {
        return H.Throw;
      }
      if name.value != Str(tok.name) {
        return H.Skip;
      }
      if tok.kind.Call? || tok.kind.Result? {
        var kind := At(data, "type");
        if kind.None? {
          return H.Throw;
        }
        if kind.value != Str(if tok.kind.Call? then "call" else "result") {
          return H.Skip;
        }
      }
      var arg := At(data, "data");
      if arg.None? {
        return H.Throw;
      }
      if tok.kind.Result? {
        var id := At(arg.value, "id");
        if id.None? {
          return H.Throw;
        }
        if id.value != Str(tok.id) {
          return H.Skip;
        }
      }
      outcome := H.Invoke(arg.value);
    }

    /** The copy of the handlers that a message is distributed to. */
    method TakeSnapshot() returns (local: seq<H.Token>)
      ensures forall tok :: tok in local <==> tok in handlers
      ensures forall i, j :: 0 <= i < j < |local| ==> local[i] != local[j]
    {
      local := [];
      var rest := handlers;
      while rest != {}
        invariant rest <= handlers
        invariant forall tok :: tok in local <==> tok in handlers - rest
        invariant forall i, j :: 0 <= i < j < |local| ==> local[i] != local[j]
        decreases rest
      {
        var tok :| tok in rest;
        assert tok !in local;
        local := local + [tok];
        rest := rest - {tok};
      }
    }

    /** The body of the distribution loop: a Start and, if the handler is called, an End. */
    method DistributeTo(tok: H.Token) returns (ghost steps: seq<H.Step>)
      requires work.Dispatching? && tok in work.todo && |snapshots| > 0
      modifies `work, `log
      ensures H.Run(old(View()), steps) == Some(View())
      ensures work == if H.Dispatch(tok, old(work.msg)).Throw? then H.Failed(old(work.msg), old(work.todo))
                      else H.Dispatching(old(work.msg), old(work.todo) - {tok})
    {
      ghost var e0 := View();
      var msg, todo := work.msg, work.todo;
      var outcome := Test(tok, msg);
      assert H.Run(e0, []) == Some(e0);
      steps := Advance(e0, [], e0, H.Start(tok));
      match outcome {
        case Throw =>
          work := H.Failed(msg, todo);
        case Skip =>
          work := H.Dispatching(msg, todo - {tok});
        case Invoke(arg) =>
          work := H.Executing(msg, todo - {tok}, tok);
          log := log + [H.Delivery(tok, |snapshots| - 1, arg)];
          steps := Advance(e0, steps, View(), H.End);
          work := H.Dispatching(msg, todo - {tok});
      }
    }

    /** The distribution loop, over the copied handlers. */
    method Distribute(local: seq<H.Token>) returns (ghost steps: seq<H.Step>)
      requires work.Dispatching? && work.todo == SetOf(local) && |snapshots| > 0
      requires forall i, j :: 0 <= i < j < |local| ==> local[i] != local[j]
      modifies `work, `log
      ensures H.Run(old(View()), steps) == Some(View())
      ensures work.Failed? || work == H.Dispatching(old(work.msg), {})
    {
      ghost var e0 := View();
      ghost var msg := work.msg;
      steps := [];
      assert H.Run(e0, []) == Some(e0);
      var i := 0;
      while i < |local|
        invariant 0 <= i <= |local|
        invariant work == H.Dispatching(msg, SetOf(local[i..]))
        invariant H.Run(e0, steps) == Some(View())
      {
        ghost var before := View();
        var more := DistributeTo(local[i]);
        H.RunConcat(e0, steps, more);
        steps := steps + more;
        if work.Failed? {
          return;
        }
        assert SetOf(local[i..]) - {local[i]} == SetOf(local[i + 1..]);
        i := i + 1;
      }
    }

    /** The thread takes a message, and the snapshot of handlers that gets it. */
    method TakeMessage() returns (local: seq<H.Token>, ghost steps: seq<H.Step>)
      requires running && work.Idle? && queue != []
      modifies `queue, `work, `snapshots
      ensures queue == old(queue)[1..] && snapshots == old(snapshots) + [handlers]
      ensures work == H.Dispatching(old(queue)[0], handlers)
      ensures SetOf(local) == handlers && forall i, j :: 0 <= i < j < |local| ==> local[i] != local[j]
      ensures H.Run(old(View()), steps) == Some(View())
    {
      ghost var e0 := View();
      assert H.Run(e0, []) == Some(e0);
      steps := Advance(e0, [], e0, H.Pop);
      work := H.Popped(queue[0]);
      queue := queue[1..];
      local := TakeSnapshot();
      steps := Advance(e0, steps, View(), H.Snapshot);
      work := H.Dispatching(work.msg, handlers);
      snapshots := snapshots + [handlers];
    }

    /**
     * One turn of the thread's loop, during which nothing else happens. It is a run of the steps
     * of the entry, and calls exactly the handlers that pass the test.
     */
    method Turn() returns (ghost steps: seq<H.Step>)
      requires H.Inv(View()) && running && work.Idle? && queue != []
      modifies `queue, `work, `snapshots, `log
      ensures H.Run(old(View()), steps) == Some(View())
      ensures queue == old(queue)[1..]
      ensures work.Idle? || work.Failed?
      ensures work.Idle? ==> forall tok :: H.Delivered(log, tok, |old(snapshots)|) <==>
                tok in old(handlers) && H.IsFor(old(queue)[0], tok) && H.PartFor(old(queue)[0], tok).Some?
    {
      ghost var e0 := View();
      ghost var more: seq<H.Step>;
      var local;
      local, steps := TakeMessage();
      more := Distribute(local);
      H.RunConcat(e0, steps, more);
      steps := steps + more;
      if work.Failed? {
        return;
      }
      steps := Advance(e0, steps, View(), H.Finish);
      work := H.Idle;
      Distributed(e0, steps, View(), old(queue)[0]);
    }
  }

  lemma Advance(e0: H.Entry, steps: seq<H.Step>, e: H.Entry, step: H.Step) returns (steps': seq<H.Step>)
    requires H.Run(e0, steps) == Some(e) && H.Enabled(e, step)
    ensures steps' == steps + [step] && H.Run(e0, steps') == Some(H.Apply(e, step))
  {
    steps' := steps + [step];
    H.RunSnoc(e0, steps, step);
  }

  /** After a whole turn exactly the handlers of the snapshot that pass the test were called. */
  lemma Distributed(e0: H.Entry, steps: seq<H.Step>, e: H.Entry, msg: Json)
    requires H.Inv(e0) && e0.work.Idle? && e0.queue != [] && e0.queue[0] == msg
    requires H.Run(e0, steps) == Some(e) && e.work.Idle? && e.queue == e0.queue[1..] && e.routed == e0.routed
    requires e.snapshots == e0.snapshots + [e0.handlers]
    ensures forall tok :: H.Delivered(e.log, tok, |e0.snapshots|) <==>
              tok in e0.handlers && H.IsFor(msg, tok) && H.PartFor(msg, tok).Some?
  {
    H.RunPreservesInv(e0, steps);
    var pos := |e0.snapshots|;
    assert e.routed[pos] == msg;
    forall tok
      ensures H.Delivered(e.log, tok, pos) <==>
                tok in e0.handlers && H.IsFor(msg, tok) && H.PartFor(msg, tok).Some?
    {
      H.InvokedIff(tok, msg, if H.PartFor(msg, tok).Some? then H.PartFor(msg, tok).value else Null);
      assert H.Due(e, tok, pos) <==> tok in e0.handlers && H.Dispatch(tok, msg).Invoke?;
    }
  }

  /** In the loop of `on_mqtt_message`, with topics `todo` to go. */
  predicate AddedSoFar(prefix: string, topics0: map<string, C.Topic>, m: C.Message, data: Json,
                       todo: set<string>, topics: map<string, C.Topic>, found: bool) {
    var matching := C.MatchingTopics(prefix, topics0, m);
    && topics == C.AddToTopics(topics0, matching - todo, data)
    && (found <==> matching - todo != {})
  }

  lemma AddedNothing(prefix: string, topics0: map<string, C.Topic>, m: C.Message, data: Json)
    ensures AddedSoFar(prefix, topics0, m, data, topics0.Keys, topics0, false)
  {
  }

  lemma AddedAll(prefix: string, topics0: map<string, C.Topic>, m: C.Message, data: Json,
                 topics: map<string, C.Topic>, found: bool)
    requires AddedSoFar(prefix, topics0, m, data, {}, topics, found)
    ensures topics == C.AddToTopics(topics0, C.MatchingTopics(prefix, topics0, m), data)
    ensures found <==> C.MatchingTopics(prefix, topics0, m) != {}
  {
    var matching := C.MatchingTopics(prefix, topics0, m);
    assert matching - {} == matching;
  }

  lemma AddedToOneMore(prefix: string, topics0: map<string, C.Topic>, m: C.Message, data: Json,
                       todo: set<string>, topics: map<string, C.Topic>, found: bool, f: string)
    requires AddedSoFar(prefix, topics0, m, data, todo, topics, found) && f in todo && f in topics0
    ensures var matches := C.RoutesTo(prefix, m, f);
            AddedSoFar(prefix, topics0, m, data, todo - {f},
                       if matches then topics[f := C.AddData(topics[f], data)] else topics, found || matches)
  {
    var matching := C.MatchingTopics(prefix, topics0, m);
    if f in matching {
      assert f in matching - (todo - {f});
    } else {
      assert matching - (todo - {f}) == matching - todo;
    }
  }

  /** `MessageQueue`; `routing` is what its worker took and hands to the callback. */
  class MessageQueue {
    var queue: seq<C.Message>
    var running: bool
    var routing: Option<C.Message>
    ghost var added: seq<C.Message>
    ghost var done: seq<C.Message>

    ghost function View(): C.Inbox
      reads this
    {
      C.Inbox(queue, running, routing, added, done)
    }

    constructor ()
      ensures View() == C.Inbox([], true, None, [], [])
    {
      queue, running, routing, added, done := [], true, None, [], [];
    }

    method Add(m: C.Message)
      modifies this
      ensures View() == old(View()).(queue := old(queue) + [m], added := old(added) + [m])
    {
      queue := queue + [m];
      added := added + [m];
    }

    method Stop()
      modifies this
      ensures View() == old(View()).(running := false)
    {
      running := false;
    }

    /** The worker takes the first message, unless the queue was stopped. */
    method Take()
      requires running && routing.None? && queue != []
      modifies this
      ensures View() == old(View()).(queue := old(queue)[1..], routing := Some(old(queue)[0]))
    {
      routing := Some(queue[0]);
      queue := queue[1..];
    }

    method CallbackDone()
      requires routing.Some?
      modifies this
      ensures View() == C.Routed(old(View()))
    {
      done := done + [routing.value];
      routing := None;
    }
  }

  lemma Registered(s: C.Client, topic: string, tok: H.Token, topics: map<string, C.Topic>, link: C.Link, s': C.Client)
    requires topics == C.AddHandlerTo(s.topics, |s.inbox.routed|, topic, tok)
    requires link == if s.link.connected && |C.HandlersOf(topics, topic)| == 1
                     then C.SubscribeTo(s.link, {topic}) else s.link
    requires s' == s.(topics := topics, link := link)
    ensures s' == C.RegisterHandler(s, topic, tok)
  {
  }

  lemma Unregistered(s: C.Client, topic: string, tok: H.Token, topics: map<string, C.Topic>, link: C.Link, s': C.Client)
    requires C.Enabled(s, C.Unregister(topic, tok))
    requires topics == C.RemoveHandlerFrom(s.topics, topic, tok)
    requires link == if |C.HandlersOf(topics, topic)| == 0 && s.link.connected
                     then s.link.(subscribed := s.link.subscribed - {topic}) else s.link
    requires s' == s.(topics := topics, link := link)
    ensures s' == C.UnregisterHandler(s, topic, tok)
  {
  }

  lemma AddedToNone(topics: map<string, C.Topic>, data: Json)
    ensures C.AddToTopics(topics, {}, data) == topics
  {
  }

  lemma OneMoreDone<T>(start: set<T>, done: set<T>, todo: set<T>, x: T)
    requires x in todo
    ensures (start + done) + {x} == start + (done + {x}) && (done + {x}) + (todo - {x}) == done + todo
  {
  }

  /**
   * `MQTTAbstractionImpl`. The MQTT library and the broker are the filters subscribed and the
   * messages sent.
   */
  class MqttAbstraction {
    const prefix: string
    const inbox: MessageQueue
    var messageHandlers: map<string, TopicHandler>
    var connected: bool
    var messagesBeforeConnected: seq<C.Message>
    var subscribed: set<string>
    var sent: seq<C.Message>
    var fault: Option<string>
    ghost var since: map<string, nat>
    ghost var everSubscribed: set<string>
    ghost var published: seq<C.Message>

    /** Every topic has its own handler object. */
    ghost predicate Valid()
      reads `messageHandlers, `since
    {
      && since.Keys == messageHandlers.Keys
      && forall f, g :: f in messageHandlers && g in messageHandlers && f != g ==>
         messageHandlers[f] != messageHandlers[g]
    }

    ghost function Handlers(): set<object>
      reads `messageHandlers
    {
      set f | f in messageHandlers :: messageHandlers[f]
    }

    ghost function Topics(): map<string, C.Topic>
      reads `messageHandlers, `since, Handlers()
      requires Valid()
    {
      map f | f in messageHandlers :: C.Topic(messageHandlers[f].View(), since[f])
    }

    ghost function LinkView(): C.Link
      reads `connected, `messagesBeforeConnected, `subscribed, `sent, `everSubscribed, `published
    {
      C.Link(connected, messagesBeforeConnected, subscribed, sent, everSubscribed, published)
    }

    ghost function View(): C.Client
      reads this, inbox, Handlers()
      requires Valid()
    {
      C.Client(prefix, inbox.View(), LinkView(), Topics(), fault)
    }

    constructor (prefix: string)
      ensures Valid() && fresh(inbox) && fresh(Handlers()) && View() == C.NewClient(prefix)
    {
      this.prefix := prefix;
      inbox := new MessageQueue();
      messageHandlers, connected, messagesBeforeConnected := map[], false, [];
      subscribed, sent, fault, since, everSubscribed, published := {}, [], None, map[], {}, [];
    }

    method Subscribe(topic: string)
      modifies `subscribed, `everSubscribed
      ensures subscribed == old(subscribed) + {topic} && everSubscribed == old(everSubscribed) + {topic}
    {
      subscribed := subscribed + {topic};
      everSubscribed := everSubscribed + {topic};
    }

    method Publish(m: C.Message)
      modifies `messagesBeforeConnected, `sent, `published
      ensures LinkView() == C.Published(old(LinkView()), m)
    {
      published := published + [m];
      if !connected {
        messagesBeforeConnected := messagesBeforeConnected + [m];
        return;
      }
      sent := sent + [m];
    }

    twostate lemma EntryAddedValid(topic: string)
      requires old(Valid()) && topic !in old(messageHandlers) && topic in messageHandlers && topic in since
      requires messageHandlers == old(messageHandlers)[topic := messageHandlers[topic]]
      requires since == old(since)[topic := since[topic]]
      requires forall f :: f in old(messageHandlers) ==> messageHandlers[f] != messageHandlers[topic]
      ensures Valid()
    {
    }

    /** A new object for a topic, beside those that stay as they are. */
    twostate lemma EntryAdded(topic: string)
      requires old(Valid()) && topic !in old(messageHandlers) && topic in messageHandlers && topic in since
      requires messageHandlers == old(messageHandlers)[topic := messageHandlers[topic]]
      requires since == old(since)[topic := since[topic]]
      requires forall f :: f in old(messageHandlers) ==>
                 && messageHandlers[f] != messageHandlers[topic]
                 && messageHandlers[f].View() == old(messageHandlers[f].View())
      ensures Valid() && Topics() == old(Topics())[topic := C.Topic(messageHandlers[topic].View(), since[topic])]
    {
      EntryAddedValid(topic);
    }

    /** An entry for a topic that has none. */
    method MakeEntry(topic: string)
      requires Valid() && topic !in messageHandlers
      modifies `messageHandlers, `since
      ensures Valid() && topic in messageHandlers && fresh(messageHandlers[topic])
      ensures messageHandlers == old(messageHandlers)[topic := messageHandlers[topic]]
      ensures Topics() == old(Topics())[topic := C.Topic(H.NEW_ENTRY, |inbox.done|)]
    {
      var handler := new TopicHandler();
      messageHandlers := messageHandlers[topic := handler];
      since := since[topic := |inbox.done|];
      EntryAdded(topic);
    }

    /** Everything but the entry of `f` stays when only its object changes. */
    twostate lemma OneEntryChanges(f: string)
      requires old(Valid()) && f in old(messageHandlers)
      requires messageHandlers == old(messageHandlers) && since == old(since)
      requires forall g :: g in messageHandlers && g != f ==>
               messageHandlers[g].View() == old(messageHandlers[g].View())
      ensures Valid() && Topics() == old(Topics())[f := C.Topic(messageHandlers[f].View(), since[f])]
    {
    }

    method AddHandlerToEntry(topic: string, tok: H.Token) returns (count: nat)
      requires Valid() && topic in messageHandlers
      modifies messageHandlers[topic]
      ensures Valid()
      ensures Topics() == old(Topics())[topic :=
              old(Topics())[topic].(entry := H.Apply(old(Topics())[topic].entry, H.AddHandler(tok)))]
      ensures count == |C.HandlersOf(Topics(), topic)|
    {
      messageHandlers[topic].AddHandler(tok);
      OneEntryChanges(topic);
      count := |messageHandlers[topic].handlers|;
    }

    /** The entry of a topic gets a handler more; the entry is made if there is none. */
    method AddHandlerTo(topic: string, tok: H.Token) returns (count: nat)
      requires Valid()
      modifies `messageHandlers, `since, Handlers()
      ensures Valid() && fresh(Handlers() - old(Handlers()))
      ensures Topics() == C.AddHandlerTo(old(Topics()), |inbox.done|, topic, tok)
      ensures count == |C.HandlersOf(Topics(), topic)|
    {
      if topic !in messageHandlers {
        MakeEntry(topic);
      }
      count := AddHandlerToEntry(topic, tok);
    }

    method SubscribeIfFirst(topic: string, count: nat)
      requires Valid()
      modifies `subscribed, `everSubscribed
      ensures Valid() && Topics() == old(Topics()) && inbox.View() == old(inbox.View())
      ensures LinkView() == if connected && count == 1 then C.SubscribeTo(old(LinkView()), {topic}) else old(LinkView())
    {
      if connected && count == 1 {
        Subscribe(topic);
      }
    }

    /** `register_handler`. */
    method RegisterHandler(topic: string, tok: H.Token)
      requires Valid()
      modifies `messageHandlers, `since, `subscribed, `everSubscribed, Handlers()
      ensures Valid() && fresh(Handlers() - old(Handlers()))
      ensures View() == C.RegisterHandler(old(View()), topic, tok)
    {
      var count := AddHandlerTo(topic, tok);
      SubscribeIfFirst(topic, count);
      Registered(old(View()), topic, tok, Topics(), LinkView(), View());
    }

    /** The entry of a topic loses a handler, if it has any. */
    method RemoveHandlerFrom(topic: string, tok: H.Token) returns (count: nat)
      requires Valid()
      requires C.HandlersOf(Topics(), topic) != {} ==> tok in C.HandlersOf(Topics(), topic)
      modifies Handlers()
      ensures Valid() && Topics() == C.RemoveHandlerFrom(old(Topics()), topic, tok)
      ensures count == |C.HandlersOf(Topics(), topic)|
    {
      ghost var topics0 := Topics();
      count := 0;
      if topic in messageHandlers && |messageHandlers[topic].handlers| != 0 {
        assert C.HandlersOf(topics0, topic) == messageHandlers[topic].handlers;
        messageHandlers[topic].RemoveHandler(tok);
        assert forall f :: f in messageHandlers && f != topic ==> Topics()[f] == topics0[f];
        count := |messageHandlers[topic].handlers|;
      }
    }

    /** `unregister_handler`: the token must be registered if the topic has handlers. */
    method UnregisterHandler(topic: string, tok: H.Token)
      requires Valid() && C.Enabled(View(), C.Unregister(topic, tok))
      modifies `subscribed, Handlers()
      ensures Valid()
      ensures View() == C.UnregisterHandler(old(View()), topic, tok)
    {
      var count := RemoveHandlerFrom(topic, tok);
      UnsubscribeIfLast(topic, count);
      Unregistered(old(View()), topic, tok, Topics(), LinkView(), View());
    }

    method UnsubscribeIfLast(topic: string, count: nat)
      requires Valid()
      modifies `subscribed
      ensures Valid() && Topics() == old(Topics()) && inbox.View() == old(inbox.View())
      ensures LinkView() == if count == 0 && connected
                            then old(LinkView()).(subscribed := old(subscribed) - {topic}) else old(LinkView())
    {
      if count == 0 && connected {
        subscribed := subscribed - {topic};
      }
    }

    /** One topic in the loop of `on_mqtt_message`. */
    method AddIfMatching(m: C.Message, f: string, data: Json) returns (matches: bool)
      requires Valid() && f in messageHandlers
      modifies messageHandlers[f]
      ensures Valid() && matches == C.RoutesTo(prefix, m, f)
      ensures Topics() == if matches then old(Topics())[f := C.AddData(old(Topics())[f], data)] else old(Topics())
    {
      if C.IsEverest(prefix, m.topic) {
        matches := m.topic == f;
      } else {
        matches := CheckTopicMatches(m.topic, f);
      }
      if matches {
        messageHandlers[f].Add(data);
        OneEntryChanges(f);
      }
    }

    /** One turn of the loop of `on_mqtt_message`. */
    method AddStep(m: C.Message, data: Json, f: string, ghost topics0: map<string, C.Topic>, ghost todo: set<string>,
                   found: bool)
      returns (found': bool)
      requires Valid() && f in messageHandlers && f in todo && f in topics0
      requires AddedSoFar(prefix, topics0, m, data, todo, Topics(), found)
      modifies messageHandlers[f]
      ensures Valid() && AddedSoFar(prefix, topics0, m, data, todo - {f}, Topics(), found')
    {
      AddedToOneMore(prefix, topics0, m, data, todo, Topics(), found, f);
      var matches := AddIfMatching(m, f, data);
      found' := found || matches;
    }

    /** The loop of `on_mqtt_message` over the topics with an entry. */
    method AddToMatching(m: C.Message, data: Json) returns (found: bool)
      requires Valid()
      modifies Handlers()
      ensures Valid()
      ensures found <==> C.MatchingTopics(prefix, old(Topics()), m) != {}
      ensures Topics() == C.AddToTopics(old(Topics()), C.MatchingTopics(prefix, old(Topics()), m), data)
    {
      found := false;
      ghost var topics0 := Topics();
      var todo := messageHandlers.Keys;
      AddedNothing(prefix, topics0, m, data);
      ghost var topics := topics0;
      while todo != {}
        invariant todo <= messageHandlers.Keys
        invariant Topics() == topics && AddedSoFar(prefix, topics0, m, data, todo, topics, found)
        decreases todo
      {
        var f :| f in todo;
        found := AddStep(m, data, f, topics0, todo, found);
        topics := Topics();
        todo := todo - {f};
      }
      AddedAll(prefix, topics0, m, data, topics, found);
    }

    /** A message that found no entry is fatal, any other is done with. */
    method FinishRouting(m: C.Message, found: bool)
      requires Valid() && inbox.routing.Some?
      modifies inbox, `fault
      ensures Valid() && Topics() == old(Topics()) && LinkView() == old(LinkView())
      ensures inbox.View() == if found then C.Routed(old(inbox.View())) else old(inbox.View())
      ensures fault == if found then old(fault) else Some(m.topic)
    {
      if !found {
        fault := Some(m.topic);
      } else {
        inbox.CallbackDone();
      }
    }

    method RouteData(m: C.Message, data: Json)
      requires Valid() && inbox.routing.Some?
      modifies Handlers(), inbox, `fault
      ensures Valid()
      ensures var to := C.MatchingTopics(prefix, old(Topics()), m);
              if to == {} then View() == old(View()).(fault := Some(m.topic))
              else View() == old(View()).(inbox := C.Routed(old(inbox.View())),
                                          topics := C.AddToTopics(old(Topics()), to, data))
    {
      var found := AddToMatching(m, data);
      FinishRouting(m, found);
      if !found {
        AddedToNone(old(Topics()), data);
      }
    }

    /** `on_mqtt_message` for the message that the worker took. */
    method OnMqttMessage()
      requires Valid() && inbox.routing.Some?
      modifies Handlers(), inbox, `fault
      ensures Valid()
      ensures View() == C.RouteMessage(old(View()))
    {
      var m := inbox.routing.value;
      var data := if C.IsEverest(prefix, m.topic) then m.parsed else Some(Str(m.payload));
      if data.Some? {
        RouteData(m, data.value);
      } else {
        inbox.CallbackDone();
      }
    }

    method SubscribeAll()
      modifies `subscribed, `everSubscribed
      ensures LinkView() == C.SubscribeTo(old(LinkView()), messageHandlers.Keys)
    {
      var todo := messageHandlers.Keys;
      ghost var done := {};
      while todo != {}
        invariant done + todo == messageHandlers.Keys
        invariant subscribed == old(subscribed) + done && everSubscribed == old(everSubscribed) + done
        decreases todo
      {
        var topic :| topic in todo;
        Subscribe(topic);
        OneMoreDone(old(subscribed), done, todo, topic);
        OneMoreDone(old(everSubscribed), done, todo, topic);
        todo, done := todo - {topic}, done + {topic};
      }
      assert done == messageHandlers.Keys;
    }

    method SendWaiting()
      modifies `messagesBeforeConnected, `sent
      ensures LinkView() == old(LinkView()).(sent := old(sent) + old(messagesBeforeConnected), waiting := [])
    {
      var i := 0;
      while i < |messagesBeforeConnected|
        invariant 0 <= i <= |messagesBeforeConnected| && messagesBeforeConnected == old(messagesBeforeConnected)
        invariant sent == old(sent) + messagesBeforeConnected[..i]
      {
        sent := sent + [messagesBeforeConnected[i]];
        i := i + 1;
      }
      messagesBeforeConnected := [];
    }

    /** `on_mqtt_connect`: subscribe to the topics with an entry, then send what waited. */
    method OnMqttConnect()
      requires !connected
      modifies `connected, `messagesBeforeConnected, `subscribed, `sent, `everSubscribed
      ensures LinkView() == C.Connected(old(LinkView()), messageHandlers.Keys)
    {
      SubscribeAll();
      connected := true;
      SendWaiting();
    }
  }
}
