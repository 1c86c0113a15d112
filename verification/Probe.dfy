/**
 * The generated manifest of the ProbeModule: it provides what other modules connect to it for,
 * and requires what its own connections lead to.
 */
module Probe {
  import opened Wrappers
  import opened Requirements

  /** A connection of another module to the probe: an implementation, and the interface wanted of it. */
  datatype Incoming = Incoming(impl: string, interface: string)

  /** The connection ids of the other modules are declared in their manifests. */
  predicate RequirementsDeclared(main: Main, manifests: Manifests, probe: string) {
    forall id :: id in main && id != probe ==>
      && main[id].kind in manifests
      && main[id].connections.Keys <= manifests[main[id].kind].required.Keys
  }

  predicate ConnectsToProbe(main: Main, manifests: Manifests, probe: string, id: string, rid: string, i: nat,
                            wanted: Incoming) {
    && id in main && id != probe && rid in main[id].connections && i < |main[id].connections[rid]|
    && main[id].kind in manifests && rid in manifests[main[id].kind].required
    && var c := main[id].connections[rid][i];
       c.moduleId == probe && wanted == Incoming(c.implementationId, manifests[main[id].kind].required[rid].interface)
  }

  ghost predicate IsIncoming(main: Main, manifests: Manifests, probe: string, wanted: Incoming) {
    exists id, rid, i: nat :: ConnectsToProbe(main, manifests, probe, id, rid, i, wanted)
  }

  /** Two connections want one implementation with different interfaces. */
  ghost predicate Conflict(main: Main, manifests: Manifests, probe: string) {
    exists a, b :: IsIncoming(main, manifests, probe, a) && IsIncoming(main, manifests, probe, b)
                   && a.impl == b.impl && a.interface != b.interface
  }

  const NOTHING_PROVIDED: map<string, Provide> := map["none" := Provide("empty")]

  /** What the probe has to provide: exactly what is wanted of it, or the placeholder. */
  ghost predicate ProvidesIncoming(main: Main, manifests: Manifests, probe: string, provided: map<string, Provide>) {
    || (provided == NOTHING_PROVIDED && forall a :: !IsIncoming(main, manifests, probe, a))
    || (&& (exists a :: IsIncoming(main, manifests, probe, a))
        && (forall a :: IsIncoming(main, manifests, probe, a) <==>
              a.impl in provided && provided[a.impl] == Provide(a.interface)))
  }

  /**
   * With what the probe provides, every connection into it passes the provides and interface
   * check of the requirement it is for.
   */
  lemma IncomingConnectionsPass(main: Main, manifests: Manifests, probe: string, provided: map<string, Provide>,
                                required: map<string, Requirement>, id: string, rid: string, i: nat)
    requires RequirementsDeclared(main, manifests, probe) && ProvidesIncoming(main, manifests, probe, provided)
    requires probe in main && id in main && id != probe && main[id].kind != main[probe].kind
    requires rid in main[id].connections && i < |main[id].connections[rid]|
             && main[id].connections[rid][i].moduleId == probe
    ensures var manifests' := manifests[main[probe].kind := Manifest(provided, required)];
            ConnectionMet(main, manifests', manifests'[main[id].kind].required[rid], main[id].connections[rid][i])
  {
    var c := main[id].connections[rid][i];
    var wanted := Incoming(c.implementationId, manifests[main[id].kind].required[rid].interface);
    assert ConnectsToProbe(main, manifests, probe, id, rid, i, wanted);
    assert IsIncoming(main, manifests, probe, wanted);
  }

  // ---- What the probe requires ----

  /** The interface that a connection of the probe leads to, if its target provides it. */
  function TargetInterface(main: Main, manifests: Manifests, c: Connection): Option<string> {
    if c.moduleId in main && main[c.moduleId].kind in manifests
       && c.implementationId in manifests[main[c.moduleId].kind].provided
    then Some(manifests[main[c.moduleId].kind].provided[c.implementationId].interface)
    else None
  }

  /** Every own connection has a target, and those of one requirement lead to one interface. */
  ghost predicate TargetsAgree(main: Main, manifests: Manifests, config: ModuleConfig) {
    && (forall rid, c :: rid in config.connections && c in config.connections[rid] ==>
          TargetInterface(main, manifests, c).Some?)
    && (forall rid, c, d :: rid in config.connections ==>
          c in config.connections[rid] && d in config.connections[rid] ==>
            TargetInterface(main, manifests, c) == TargetInterface(main, manifests, d))
  }

  /** The generated requirements; the manifest schema makes each one for exactly one connection. */
  ghost predicate RequiresTargets(main: Main, manifests: Manifests, config: ModuleConfig,
                                  required: map<string, Requirement>) {
    && (forall rid :: rid in required <==> rid in config.connections && config.connections[rid] != [])
    && (forall rid :: rid in required ==>
          && required[rid].min == 1 && required[rid].max == 1
          && TargetInterface(main, manifests, config.connections[rid][0]) == Some(required[rid].interface))
  }

  /**
   * The generated requirements pass the later check exactly if each of the probe's own lists has
   * one entry: an empty list is not declared, a longer one breaks the default bounds.
   */
  lemma OwnConnectionsPassIff(main: Main, manifests: Manifests, probe: string, provided: map<string, Provide>,
                              required: map<string, Requirement>)
    requires probe in main
    requires var partial := manifests[main[probe].kind := Manifest(provided, map[])];
             TargetsAgree(main, partial, main[probe]) && RequiresTargets(main, partial, main[probe], required)
    ensures ModuleMet(main, manifests[main[probe].kind := Manifest(provided, required)], main[probe]) <==>
            forall rid :: rid in main[probe].connections ==> |main[probe].connections[rid]| == 1
  {
    var config := main[probe];
    var partial := manifests[config.kind := Manifest(provided, map[])];
    var complete := manifests[config.kind := Manifest(provided, required)];
    forall c
      ensures TargetInterface(main, complete, c) == TargetInterface(main, partial, c)
    {
    }
    if ModuleMet(main, complete, config) {
      forall rid | rid in config.connections
        ensures |config.connections[rid]| == 1
      {
        assert RequirementMet(main, complete, config, rid, required[rid]);
      }
    }
    if forall rid :: rid in config.connections ==> |config.connections[rid]| == 1 {
      forall rid | rid in required
        ensures RequirementMet(main, complete, config, rid, required[rid])
      {
        var list := config.connections[rid];
        assert forall c :: c in list ==> c == list[0];
      }
    }
  }

  /** What `setup_probe_module_manifest` puts into the manifest of the probe, if it does not fail. */
  ghost predicate Generated(main: Main, manifests: Manifests, probe: string, manifest: Manifest)
    requires probe in main
  {
    var partial := manifests[main[probe].kind := Manifest(manifest.provided, map[])];
    && RequirementsDeclared(main, manifests, probe) && !Conflict(main, manifests, probe)
    && ProvidesIncoming(main, manifests, probe, manifest.provided)
    && TargetsAgree(main, partial, main[probe])
    && RequiresTargets(main, partial, main[probe], manifest.required)
  }

  /** With one entry in each own list, each is required exactly once, with the interface of its target. */
  predicate RequiresEach(main: Main, manifests: Manifests, config: ModuleConfig, required: map<string, Requirement>) {
    && required.Keys == config.connections.Keys
    && forall rid :: rid in required ==>
         && required[rid].min == 1 && required[rid].max == 1
         && config.connections[rid] != []
         && TargetInterface(main, manifests, config.connections[rid][0]) == Some(required[rid].interface)
  }

  lemma GeneratedRequires(main: Main, manifests: Manifests, probe: string, m: Manifest)
    requires probe in main && Generated(main, manifests, probe, m)
    requires forall rid :: rid in main[probe].connections ==> |main[probe].connections[rid]| == 1
    ensures RequiresEach(main, manifests[main[probe].kind := m], main[probe], m.required)
  {
    var partial := manifests[main[probe].kind := Manifest(m.provided, map[])];
    forall c
      ensures TargetInterface(main, manifests[main[probe].kind := m], c) == TargetInterface(main, partial, c)
    {
    }
  }

  lemma ProvidedIsUnique(main: Main, manifests: Manifests, probe: string, a: map<string, Provide>,
                         b: map<string, Provide>)
    requires ProvidesIncoming(main, manifests, probe, a) && ProvidesIncoming(main, manifests, probe, b)
    ensures a == b
  {
    if exists x :: IsIncoming(main, manifests, probe, x) {
      forall impl | impl in a || impl in b
        ensures impl in a && impl in b && a[impl] == b[impl]
      {
        var interface := if impl in a then a[impl].interface else b[impl].interface;
        assert IsIncoming(main, manifests, probe, Incoming(impl, interface));
      }
    }
  }

  /** The wiring leaves no choice: there is at most one such manifest. */
  lemma GeneratedIsUnique(main: Main, manifests: Manifests, probe: string, a: Manifest, b: Manifest)
    requires probe in main && Generated(main, manifests, probe, a) && Generated(main, manifests, probe, b)
    ensures a == b
  {
    ProvidedIsUnique(main, manifests, probe, a.provided, b.provided);
    assert a.required == b.required;
  }

  // ---- For the loops that collect what is wanted of the probe ----

  /** `provided` has exactly what was `seen` to be wanted. */
  ghost predicate Represents(provided: map<string, Provide>, seen: set<Incoming>) {
    forall a :: a in seen <==> a.impl in provided && provided[a.impl] == Provide(a.interface)
  }

  ghost predicate SeenIsIncoming(main: Main, manifests: Manifests, probe: string, seen: set<Incoming>) {
    forall a :: a in seen ==> IsIncoming(main, manifests, probe, a)
  }

  ghost predicate CoversList(main: Main, manifests: Manifests, probe: string, id: string, rid: string, n: nat,
                             seen: set<Incoming>) {
    forall i: nat, a {:trigger ConnectsToProbe(main, manifests, probe, id, rid, i, a)} ::
      i < n && ConnectsToProbe(main, manifests, probe, id, rid, i, a) ==> a in seen
  }

  ghost predicate CoversModule(main: Main, manifests: Manifests, probe: string, id: string, rids: set<string>,
                               seen: set<Incoming>) {
    forall rid, i: nat, a {:trigger ConnectsToProbe(main, manifests, probe, id, rid, i, a)} ::
      rid in rids && ConnectsToProbe(main, manifests, probe, id, rid, i, a) ==> a in seen
  }

  ghost predicate Covers(main: Main, manifests: Manifests, probe: string, ids: set<string>, seen: set<Incoming>) {
    forall id, rid, i: nat, a {:trigger ConnectsToProbe(main, manifests, probe, id, rid, i, a)} ::
      id in ids && ConnectsToProbe(main, manifests, probe, id, rid, i, a) ==> a in seen
  }

  /** All of the config seen without a conflict. */
  lemma SeenAll(main: Main, manifests: Manifests, probe: string, provided: map<string, Provide>, seen: set<Incoming>)
    requires Represents(provided, seen) && SeenIsIncoming(main, manifests, probe, seen)
    requires Covers(main, manifests, probe, main.Keys, seen)
    ensures !Conflict(main, manifests, probe)
    ensures ProvidesIncoming(main, manifests, probe, if provided == map[] then NOTHING_PROVIDED else provided)
  {
    forall a
      ensures IsIncoming(main, manifests, probe, a) <==> a in seen
    {
      if IsIncoming(main, manifests, probe, a) {
        var id, rid, i: nat :| ConnectsToProbe(main, manifests, probe, id, rid, i, a);
      }
    }
    if provided != map[] {
      var impl :| impl in provided;
      assert Incoming(impl, provided[impl].interface) in seen;
    }
  }
}
