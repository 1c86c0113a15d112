/** What the entries of a process get, message by message: `MQTTAbstractionImpl::on_mqtt_message`. */
module EntrySelection {
  import opened Wrappers
  import opened Json
  import opened TopicMatch
  import opened MqttClient
  import H = MessageHandler

  /**
   * A message under the prefix goes to the entry of just its topic, if it is JSON; any other to
   * the entries whose filter matches.
   */
  predicate GoesTo(prefix: string, m: Message, f: string) {
    if prefix <= m.topic then m.topic == f && m.parsed.Some? else TopicMatches(m.topic, f)
  }

  /** Parsed under the prefix, the bare payload as a string elsewhere. */
  predicate IsDataOf(prefix: string, m: Message, data: Json) {
    if prefix <= m.topic then m.parsed == Some(data) else data == Str(m.payload)
  }

  function Chosen(prefix: string, ms: seq<Message>, f: string): seq<nat> {
    if ms == [] then []
    else Chosen(prefix, ms[..|ms| - 1], f) + (if GoesTo(prefix, ms[|ms| - 1], f) then [|ms| - 1] else [])
  }

  /** The positions, in order, of exactly the messages that go to `f`, with their data. */
  ghost predicate Gets(prefix: string, ms: seq<Message>, since: nat, f: string, ps: seq<nat>, got: seq<Json>) {
    && (forall i, j :: 0 <= i < j < |ps| ==> ps[i] < ps[j])
    && (forall i: nat :: i in ps <==> since <= i < |ms| && GoesTo(prefix, ms[i], f))
    && |got| == |ps|
    && forall k :: 0 <= k < |ps| ==> ps[k] < |ms| && IsDataOf(prefix, ms[ps[k]], got[k])
  }

  lemma OneMoreChosen(prefix: string, ms: seq<Message>, f: string, ps: seq<nat>, got: seq<Json>)
    requires ms != [] && Gets(prefix, ms[..|ms| - 1], 0, f, ps, got)
    ensures !GoesTo(prefix, ms[|ms| - 1], f) ==> Gets(prefix, ms, 0, f, ps, got)
    ensures GoesTo(prefix, ms[|ms| - 1], f) ==> forall d :: IsDataOf(prefix, ms[|ms| - 1], d) ==>
              Gets(prefix, ms, 0, f, ps + [|ms| - 1], got + [d])
  {
    var n := |ms| - 1;
    assert forall i: nat :: i < n ==> ms[..n][i] == ms[i];
    assert forall k :: 0 <= k < |ps| ==> ps[k] in ps;
  }

  lemma {:induction false} ChosenAreGot(prefix: string, ms: seq<Message>, f: string)
    ensures Gets(prefix, ms, 0, f, Chosen(prefix, ms, f), RoutedData(prefix, ms, f))
  {
    if ms != [] {
      var n := |ms| - 1;
      var before := Chosen(prefix, ms[..n], f);
      ChosenAreGot(prefix, ms[..n], f);
      OneMoreChosen(prefix, ms, f, before, RoutedData(prefix, ms[..n], f));
    }
  }

  function Shifted(ps: seq<nat>, since: nat): seq<nat> {
    seq(|ps|, k requires 0 <= k < |ps| => since + ps[k])
  }

  lemma InShifted(ps: seq<nat>, since: nat, i: nat)
    ensures i in Shifted(ps, since) <==> since <= i && i - since in ps
  {
    if since <= i && i - since in ps {
      var k :| 0 <= k < |ps| && ps[k] == i - since;
      assert Shifted(ps, since)[k] == i;
    }
  }

  lemma DataSince(prefix: string, ms: seq<Message>, since: nat, ps: seq<nat>, got: seq<Json>, k: nat)
    requires since <= |ms| && k < |ps| && k < |got|
    requires ps[k] < |ms[since..]| && IsDataOf(prefix, ms[since..][ps[k]], got[k])
    ensures Shifted(ps, since)[k] < |ms| && IsDataOf(prefix, ms[Shifted(ps, since)[k]], got[k])
  {
  }

  lemma GotSince(prefix: string, ms: seq<Message>, since: nat, f: string, ps: seq<nat>, got: seq<Json>)
    requires since <= |ms| && Gets(prefix, ms[since..], 0, f, ps, got)
    ensures Gets(prefix, ms, since, f, Shifted(ps, since), got)
  {
    forall i: nat
      ensures i in Shifted(ps, since) <==> since <= i < |ms| && GoesTo(prefix, ms[i], f)
    {
      InShifted(ps, since, i);
      if since <= i {
        assert i - since in ps <==> i - since < |ms[since..]| && GoesTo(prefix, ms[since..][i - since], f);
      }
    }
    forall k | 0 <= k < |ps|
      ensures Shifted(ps, since)[k] < |ms| && IsDataOf(prefix, ms[Shifted(ps, since)[k]], got[k])
    {
      DataSince(prefix, ms, since, ps, got, k);
    }
  }

  lemma {:induction false} RunKeepsPrefix(s: Client, steps: seq<Step>)
    requires Run(s, steps).Some?
    ensures Run(s, steps).value.prefix == s.prefix
    decreases |steps|
  {
    if steps != [] {
      RunKeepsPrefix(Apply(s, steps[0]), steps[1..]);
    }
  }

  lemma TopicGets(prefix: string, routed: seq<Message>, f: string, t: Topic) returns (ps: seq<nat>)
    requires TopicInv(prefix, routed, f, t)
    ensures Gets(prefix, routed, t.since, f, ps, t.entry.routed)
  {
    var late := routed[t.since..];
    var chosen := Chosen(prefix, late, f);
    ChosenAreGot(prefix, late, f);
    GotSince(prefix, routed, t.since, f, chosen, t.entry.routed);
    ps := Shifted(chosen, t.since);
  }

  /** Outside the prefix an entry gets payloads as strings, of the messages that its filter matches. */
  predicate PayloadsOf(ms: seq<Message>, f: string, ps: seq<nat>, got: seq<Json>) {
    && |got| == |ps|
    && forall k :: 0 <= k < |ps| ==>
         ps[k] < |ms| && TopicMatches(ms[ps[k]].topic, f) && got[k] == Str(ms[ps[k]].payload)
  }

  /** Under the prefix the entry of a topic name gets parsed values, of the messages on just that topic. */
  predicate ValuesOf(ms: seq<Message>, f: string, ps: seq<nat>, got: seq<Json>) {
    && |got| == |ps|
    && forall k :: 0 <= k < |ps| ==> ps[k] < |ms| && ms[ps[k]].topic == f && ms[ps[k]].parsed == Some(got[k])
  }

  lemma OutsideOrUnder(prefix: string, m: Message, f: string)
    requires GoesTo(prefix, m, f)
    ensures !(prefix <= f) ==> !(prefix <= m.topic) && TopicMatches(m.topic, f)
    ensures prefix <= f && IsTopicName(f) ==> prefix <= m.topic && m.topic == f
  {
    if IsTopicName(f) {
      TopicNameLevels(f);
      PlainFilterIsEquality(m.topic, f);
    }
  }

  lemma GotByPlace(prefix: string, ms: seq<Message>, since: nat, f: string, ps: seq<nat>, got: seq<Json>)
    requires Gets(prefix, ms, since, f, ps, got)
    ensures !(prefix <= f) ==> PayloadsOf(ms, f, ps, got)
    ensures prefix <= f && IsTopicName(f) ==> ValuesOf(ms, f, ps, got)
  {
    forall k | 0 <= k < |ps|
      ensures ps[k] < |ms| && GoesTo(prefix, ms[ps[k]], f) && IsDataOf(prefix, ms[ps[k]], got[k])
      ensures !(prefix <= f) ==> TopicMatches(ms[ps[k]].topic, f) && got[k] == Str(ms[ps[k]].payload)
      ensures prefix <= f && IsTopicName(f) ==> ms[ps[k]].topic == f && ms[ps[k]].parsed == Some(got[k])
    {
      assert ps[k] in ps;
      OutsideOrUnder(prefix, ms[ps[k]], f);
    }
  }

  /**
   * Over every run, of the messages received: an entry got, in order, the data of exactly those
   * routed since it was made that go to it. Outside the prefix these are payloads as strings;
   * the entry of a topic name under the prefix gets the parsed values of its own messages. And
   * of what an entry got each handler gets just its own.
   */
  lemma EntryGetsItsMessages(prefix: string, steps: seq<Step>, f: string) returns (ps: seq<nat>)
    requires Run(NewClient(prefix), steps).Some? && f in Run(NewClient(prefix), steps).value.topics
    ensures var s := Run(NewClient(prefix), steps).value;
            var Topic(e, since) := s.topics[f];
            && s.inbox.routed <= s.inbox.added
            && Gets(prefix, s.inbox.routed, since, f, ps, e.routed)
            && (!(prefix <= f) ==> PayloadsOf(s.inbox.added, f, ps, e.routed))
            && (prefix <= f && IsTopicName(f) ==> ValuesOf(s.inbox.added, f, ps, e.routed))
            && H.OwnMessages(e)
  {
    InitInv(prefix);
    RunPreservesInv(NewClient(prefix), steps);
    RunKeepsPrefix(NewClient(prefix), steps);
    var s := Run(NewClient(prefix), steps).value;
    assert TopicInv(s.prefix, s.inbox.routed, f, s.topics[f]);
    ps := TopicGets(prefix, s.inbox.routed, f, s.topics[f]);
    H.InvGivesOwn(s.topics[f].entry);
    GotByPlace(prefix, s.inbox.routed, s.topics[f].since, f, ps, s.topics[f].entry.routed);
  }

  /**
   * Routing a message puts its data at the end of the queue of exactly the entries that it goes
   * to, and is fatal exactly if it is no undecodable one and goes to none.
   */
  lemma RouteGives(s: Client)
    requires s.inbox.routing.Some?
    ensures var m, s' := s.inbox.routing.value, RouteMessage(s);
            && s'.topics.Keys == s.topics.Keys
            && (forall f, data :: f in s.topics && GoesTo(s.prefix, m, f) && IsDataOf(s.prefix, m, data) ==>
                  s'.topics[f].entry.queue == s.topics[f].entry.queue + [data])
            && (forall f :: f in s.topics && !GoesTo(s.prefix, m, f) ==> s'.topics[f] == s.topics[f])
            && s'.fault == if && (s.prefix <= m.topic ==> m.parsed.Some?)
                              && forall f :: f in s.topics ==> !GoesTo(s.prefix, m, f)
                           then Some(m.topic) else s.fault
  {
    var m := s.inbox.routing.value;
    assert forall f :: f in MatchingTopics(s.prefix, s.topics, m) <==> f in s.topics && RoutesTo(s.prefix, m, f);
  }
}
