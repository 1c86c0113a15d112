/**
 * Command calls over the connections of a loaded config: the config says which module owns a
 * command topic, and that module alone serves the calls made over its connections.
 */
module CallConfig {
  import opened Wrappers
  import opened Json
  import opened Strings
  import opened TopicMatch
  import opened FilterCover
  import opened Requirements
  import opened ModuleCache
  import L = Config
  import opened CallSystem
  import opened CallRuns
  import P = CallProtocol
  import S = CallSafety

  // ---- The owners of command topics ----

  /** What the schemas allow in the ids of modules and implementations. */
  predicate IsId(id: string) {
    '/' !in id && IsTopicName(id)
  }

  predicate Implements(main: Main, manifests: Manifests, id: string, impl: string) {
    id in main && main[id].kind in manifests && impl in manifests[main[id].kind].provided
  }

  ghost predicate IdsOk(main: Main, manifests: Manifests) {
    forall id, impl {:trigger Implements(main, manifests, id, impl)} ::
      Implements(main, manifests, id, impl) ==> IsId(id) && IsId(impl)
  }

  function Implementations(main: Main, manifests: Manifests): (pairs: set<(string, string)>)
    ensures forall id, impl :: (id, impl) in pairs <==> Implements(main, manifests, id, impl)
  {
    set id, impl | id in main && main[id].kind in manifests && impl in manifests[main[id].kind].provided :: (id, impl)
  }

  lemma TopicsAreDistinct(prefix: string, main: Main, manifests: Manifests)
    requires IdsOk(main, manifests)
    ensures forall a, b :: a in Implementations(main, manifests) && b in Implementations(main, manifests) ==>
              CommandTopic(prefix, a.0, a.1) == CommandTopic(prefix, b.0, b.1) ==> a == b
  {
    forall a, b | a in Implementations(main, manifests) && b in Implementations(main, manifests)
                  && CommandTopic(prefix, a.0, a.1) == CommandTopic(prefix, b.0, b.1)
      ensures a == b
    {
      assert Implements(main, manifests, a.0, a.1) && Implements(main, manifests, b.0, b.1);
      CommandTopicHasOneOwner(prefix, a.0, a.1, b.0, b.1);
    }
  }

  /** Every command topic of the config, with the module that it names. */
  ghost function OwnersOf(prefix: string, main: Main, manifests: Manifests): map<string, string>
    requires IdsOk(main, manifests)
  {
    TopicsAreDistinct(prefix, main, manifests);
    map i | i in Implementations(main, manifests) :: CommandTopic(prefix, i.0, i.1) := i.0
  }

  lemma OwnerIsNamed(prefix: string, main: Main, manifests: Manifests, id: string, impl: string)
    requires IdsOk(main, manifests) && Implements(main, manifests, id, impl)
    ensures var topic, owner := CommandTopic(prefix, id, impl), OwnersOf(prefix, main, manifests);
            topic in owner && owner[topic] == id
  {
    TopicsAreDistinct(prefix, main, manifests);
    assert (id, impl) in Implementations(main, manifests);
  }

  lemma ConcatIsTopicName(a: string, b: string)
    requires IsTopicName(a) && IsTopicName(b)
    ensures IsTopicName(a + b)
  {
  }

  lemma TopicIsCommand(prefix: string, id: string, impl: string)
    requires IsTopicName(prefix) && IsId(id) && IsId(impl)
    ensures prefix <= CommandTopic(prefix, id, impl) && IsTopicName(CommandTopic(prefix, id, impl))
  {
    var parts := [id, impl, "cmd"];
    assert forall i :: 0 <= i < |parts| ==> '/' !in parts[i] && IsTopicName(parts[i]);
    JoinIsTopicName(parts);
    ConcatIsTopicName(prefix, Join(parts, '/'));
  }

  /** The command topics of a config are topic names under the prefix, as the system takes them. */
  lemma OwnersAreCommands(prefix: string, main: Main, manifests: Manifests)
    requires IdsOk(main, manifests) && IsTopicName(prefix)
    ensures var owner := OwnersOf(prefix, main, manifests);
            forall t :: t in owner ==> IsCommand(prefix, owner, t)
  {
    var owner := OwnersOf(prefix, main, manifests);
    forall t | t in owner
      ensures IsCommand(prefix, owner, t)
    {
      var i :| i in Implementations(main, manifests) && t == CommandTopic(prefix, i.0, i.1);
      assert Implements(main, manifests, i.0, i.1);
      TopicIsCommand(prefix, i.0, i.1);
    }
  }

  // ---- Calls over connections ----

  lemma {:induction false} RunKeepsOwner(s: System, steps: seq<Step>)
    requires Run(s, steps).Some?
    ensures Run(s, steps).value.owner == s.owner && Run(s, steps).value.prefix == s.prefix
    decreases |steps|
  {
    if steps != [] {
      RunKeepsOwner(Apply(s, steps[0]), steps[1..]);
    }
  }

  /** A call with a result was taken and served by the thread of its topic's owner. */
  lemma OwnerAnswered(a: P.State, id: string)
    requires P.Inv(a) && id in a.calls && (a.calls[id].status.Fulfilled? || a.calls[id].status.Returned?)
    ensures ServedBy(a, id, a.calls[id].status.retval)
  {
    assert P.CallInv(a, id);
    assert P.ComputedInv(a, id);
  }

  /** The owner of the call's topic took the call and computed `retval` for its arguments. */
  predicate ServedBy(a: P.State, id: string, retval: Json)
    requires id in a.calls
  {
    var call := a.calls[id];
    var cmd := P.Command(call.chan.topic, call.name);
    && id in a.computed && a.computed[id] == P.Computation(call.args, retval)
    && call.chan.topic in a.owner && cmd in a.providers
    && var c := P.Chan(a.owner[call.chan.topic], call.chan.topic);
       c in a.cells && P.Consumed(a.cells[c], P.CallMessage(id, call), a.providers[cmd])
  }

  lemma OnlyOwnerServes(a: P.State, c: P.Chan)
    requires P.Inv(a) && P.Serving(a, c)
    ensures var id := P.IdOf(a.cells[c].work.msg);
            && id in a.calls && a.calls[id].chan.topic in a.owner
            && c == P.Chan(a.owner[a.calls[id].chan.topic], a.calls[id].chan.topic)
  {
    S.ServedCall(a, c);
  }

  /** The connection at `index` of a requirement, and the topic that `call_cmd` uses for it. */
  predicate MadeOver(prefix: string, main: Main, call: P.Call, rid: string, index: nat) {
    && call.chan.client in main && index < |ListOf(main[call.chan.client], rid)|
    && var c := ListOf(main[call.chan.client], rid)[index];
       call.chan.topic == CommandTopic(prefix, c.moduleId, c.implementationId)
  }

  /** The target of a connection of a finished load implements what is connected to. */
  lemma TargetImplements(files: Files, before: Main, after: Main, order: seq<Entry>, loaded: Loaded,
                         id: string, rid: string, index: nat)
    requires L.LoadedFrom(files, before, after, order, loaded)
    requires id in after && index < |ListOf(after[id], rid)|
    ensures var c := ListOf(after[id], rid)[index];
            Implements(after, loaded.manifests, c.moduleId, c.implementationId)
  {
    ResolvedLookup(before, loaded.manifests, id, rid, index);
  }

  /**
   * In every run of a system whose command topics are those of a loaded config: a call made over
   * a connection, at any index, is only ever served by the connected module, and a result that it
   * returns was computed there, by the one handler registered for the command, for its arguments.
   */
  lemma ConnectedModuleServes(files: Files, before: Main, after: Main, order: seq<Entry>, loaded: Loaded,
                              s0: System, steps: seq<Step>, s: System, id: string, rid: string, index: nat)
    requires L.LoadedFrom(files, before, after, order, loaded) && IdsOk(after, loaded.manifests)
    requires Init(s0) && s0.owner == OwnersOf(s0.prefix, after, loaded.manifests) && Run(s0, steps) == Some(s)
    requires id in s.calls && MadeOver(s0.prefix, after, s.calls[id], rid, index)
    ensures var call := s.calls[id];
            var connection := ListOf(after[call.chan.client], rid)[index];
            var server := P.Chan(connection.moduleId, call.chan.topic);
            && call.chan.topic in s.owner && s.owner[call.chan.topic] == connection.moduleId
            && (call.status.Fulfilled? || call.status.Returned? ==> ServedBy(Abstract(s), id, call.status.retval))
            && forall c :: P.Serving(Abstract(s), c) && P.IdOf(Abstract(s).cells[c].work.msg) == id ==> c == server
  {
    var call := s.calls[id];
    var connection := ListOf(after[call.chan.client], rid)[index];
    var a := Abstract(s);
    RunFromInit(s0, steps, s);
    RunKeepsOwner(s0, steps);
    TargetImplements(files, before, after, order, loaded, call.chan.client, rid, index);
    OwnerIsNamed(s0.prefix, after, loaded.manifests, connection.moduleId, connection.implementationId);
    if call.status.Fulfilled? || call.status.Returned? {
      OwnerAnswered(a, id);
    }
    forall c | P.Serving(a, c) && P.IdOf(a.cells[c].work.msg) == id
      ensures c == P.Chan(connection.moduleId, call.chan.topic)
    {
      OnlyOwnerServes(a, c);
    }
  }
}
