/**
 * The abort of `on_mqtt_message` for a message without an entry: everest topics are compared with
 * the filters verbatim, but the broker matches wildcards.
 */
module MissingHandler {
  import opened Wrappers
  import opened Json
  import opened Strings
  import opened TopicMatch
  import opened FilterCover
  import opened MqttClient
  import H = MessageHandler

  predicate Plain(filter: string) {
    forall i :: 0 <= i < |Split(filter, '/')| ==> Split(filter, '/')[i] != "+" && Split(filter, '/')[i] != "#"
  }

  /** A well-formed filter that has no wildcard, or brings no everest topic. */
  predicate SafeFilter(prefix: string, filter: string) {
    WellFormedFilter(filter) && (Plain(filter) || !Brings(prefix, filter))
  }

  predicate SafeStep(prefix: string, step: Step) {
    && (step.Register? ==> SafeFilter(prefix, step.topic))
    && (step.Receive? ==> IsTopicName(step.m.topic))
  }

  predicate Safe(s: Client) {
    && (forall f :: f in s.topics ==> SafeFilter(s.prefix, f))
    && (forall i :: 0 <= i < |s.inbox.added| ==> IsTopicName(s.inbox.added[i].topic))
  }

  /** A filter that accepts the topic, found by the comparison that routing uses. */
  lemma AcceptedIsRouted(prefix: string, m: Message, f: string)
    requires SafeFilter(prefix, f) && IsTopicName(m.topic) && AcceptsByBothSections(m.topic, f)
    ensures RoutesTo(prefix, m, f)
  {
    MatcherMeetsStandard(m.topic, f);
    if IsEverest(prefix, m.topic) {
      BringsExactly(prefix, f);
      PlainFilterIsEquality(m.topic, f);
    }
  }

  lemma SafeRouteFindsEntry(s: Client)
    requires Inv(s) && Safe(s) && Enabled(s, Route)
    ensures Apply(s, Route).fault.None?
  {
    var i := |s.inbox.routed|;
    var m := s.inbox.routing.value;
    assert s.inbox.added[i] == m;
    assert Covered(s.inbox.added, s.topics, i);
    var f :| f in s.topics && s.topics[f].since <= i && AcceptsByBothSections(s.inbox.added[i].topic, f);
    AcceptedIsRouted(s.prefix, m, f);
    assert f in MatchingTopics(s.prefix, s.topics, m);
  }

  lemma SafeStepStaysSafe(s: Client, step: Step)
    requires Inv(s) && Safe(s) && Enabled(s, step) && SafeStep(s.prefix, step)
    ensures Apply(s, step).fault.None? && Safe(Apply(s, step)) && Apply(s, step).prefix == s.prefix
  {
    if step.Route? {
      SafeRouteFindsEntry(s);
    }
    TopicsStay(s, step);
  }

  /**
   * With safe filters, every message the broker forwards finds an entry: the abort for a missing
   * handler is unreachable, in every order of registering, unregistering and connecting.
   */
  lemma {:induction false} NoMissingHandler(s: Client, steps: seq<Step>)
    requires Inv(s) && Safe(s) && s.fault.None?
    requires forall step :: step in steps ==> SafeStep(s.prefix, step)
    requires Run(s, steps).Some?
    ensures Run(s, steps).value.fault.None?
    decreases |steps|
  {
    if steps != [] {
      assert steps[0] in steps;
      StepPreservesInv(s, steps[0]);
      SafeStepStaysSafe(s, steps[0]);
      assert forall step :: step in steps[1..] ==> step in steps;
      NoMissingHandler(Apply(s, steps[0]), steps[1..]);
    }
  }

  // ---- The filters that reach it ----

  /** From a new client: register a filter, connect, and route one message of topic `t`. */
  function RouteOne(f: string, tok: H.Token, t: string, data: Json): seq<Step> {
    [Register(f, tok), Connect, Receive(Message(t, "", Some(data))), Take, Route]
  }

  lemma RunOfFive(s: Client, a: Step, b: Step, c: Step, d: Step, e: Step)
    requires Enabled(s, a) && Enabled(Apply(s, a), b) && Enabled(Apply(Apply(s, a), b), c)
    requires Enabled(Apply(Apply(Apply(s, a), b), c), d)
    requires Enabled(Apply(Apply(Apply(Apply(s, a), b), c), d), e)
    ensures Run(s, [a, b, c, d, e]) == Some(Apply(Apply(Apply(Apply(Apply(s, a), b), c), d), e))
  {
    var s1 := Apply(s, a);
    var s2 := Apply(s1, b);
    var s3 := Apply(s2, c);
    var s4 := Apply(s3, d);
    assert Run(s4, [e]) == Run(Apply(s4, e), []);
    assert [d, e][1..] == [e];
    assert Run(s3, [d, e]) == Run(s4, [e]);
    assert [c, d, e][1..] == [d, e];
    assert Run(s2, [c, d, e]) == Run(s3, [d, e]);
    assert [b, c, d, e][1..] == [c, d, e];
    assert Run(s1, [b, c, d, e]) == Run(s2, [c, d, e]);
    assert [a, b, c, d, e][1..] == [b, c, d, e];
  }

  /** A wildcard filter that brings an everest topic: its message ends the process. */
  lemma UnsafeFilterAborts(prefix: string, f: string, tok: H.Token, t: string, data: Json)
    requires WellFormedFilter(f) && !Plain(f)
    requires IsTopicName(t) && IsEverest(prefix, t) && AcceptsByBothSections(t, f)
    ensures var run := Run(NewClient(prefix), RouteOne(f, tok, t, data));
            run.Some? && run.value.fault == Some(t)
  {
    var m := Message(t, "", Some(data));
    TopicNameLevels(t);
    assert t != f;
    var s1 := Apply(NewClient(prefix), Register(f, tok));
    var s2 := Apply(s1, Connect);
    assert f in s2.link.everSubscribed;
    var s3 := Apply(s2, Receive(m));
    var s4 := Apply(s3, Take);
    assert MatchingTopics(prefix, s4.topics, m) == {};
    RunOfFive(NewClient(prefix), Register(f, tok), Connect, Receive(m), Take, Route);
  }

  /** The steps register only these filters and receive only messages with topic names. */
  predicate Uses(steps: seq<Step>, filters: set<string>) {
    forall step :: step in steps ==>
      && (step.Register? ==> step.topic in filters)
      && (step.Receive? ==> IsTopicName(step.m.topic))
  }

  ghost predicate CanAbort(prefix: string, filters: set<string>) {
    exists steps ::
      Uses(steps, filters) && Run(NewClient(prefix), steps).Some? && Run(NewClient(prefix), steps).value.fault.Some?
  }

  /**
   * Exactly which filters make the abort reachable: some run that registers filters of this set
   * ends in it if and only if one of them has a wildcard and brings an everest topic.
   */
  lemma AbortsIff(prefix: string, filters: set<string>)
    requires forall f :: f in filters ==> WellFormedFilter(f)
    ensures CanAbort(prefix, filters) <==> exists f :: f in filters && !Plain(f) && Brings(prefix, f)
  {
    if f :| f in filters && !Plain(f) && Brings(prefix, f) {
      var t, tok := TopicUnder(prefix, f), H.Token(0, "", "", H.ExternalMQTT);
      BringsExactly(prefix, f);
      UnsafeFilterAborts(prefix, f, tok, t, Null);
      assert Uses(RouteOne(f, tok, t, Null), filters);
    }
    if CanAbort(prefix, filters) && forall f :: f in filters ==> Plain(f) || !Brings(prefix, f) {
      var steps :| Uses(steps, filters) && Run(NewClient(prefix), steps).Some?
                   && Run(NewClient(prefix), steps).value.fault.Some?;
      InitInv(prefix);
      assert forall step :: step in steps ==> SafeStep(prefix, step);
      NoMissingHandler(NewClient(prefix), steps);
      assert false;
    }
  }
}
