/**
 * The parsed and patched parts of the main config and of the manifests that wire modules, and
 * what `Config::resolve_all_requirements` demands of them.
 */
module Requirements {
  import opened Wrappers

  datatype Provide = Provide(interface: string)

  datatype Requirement = Requirement(interface: string, min: int, max: int)

  datatype Manifest = Manifest(provided: map<string, Provide>, required: map<string, Requirement>)

  /** `provides` and `required_interface`, which resolving adds to a connection. */
  datatype Resolution = Resolution(provided: Provide, requiredInterface: string)

  datatype Connection = Connection(moduleId: string, implementationId: string, resolution: Option<Resolution>)

  /** A module of the main config; `kind` is its module type, also called its name. */
  datatype ModuleConfig = ModuleConfig(kind: string, connections: map<string, seq<Connection>>)

  type Main = map<string, ModuleConfig>
  type Manifests = map<string, Manifest>

  // ---- What is demanded ----

  /** The target exists and provides the implementation with the required interface. */
  predicate ConnectionMet(main: Main, manifests: Manifests, req: Requirement, c: Connection) {
    && c.moduleId in main
    && main[c.moduleId].kind in manifests
    && c.implementationId in manifests[main[c.moduleId].kind].provided
    && manifests[main[c.moduleId].kind].provided[c.implementationId].interface == req.interface
  }

  predicate ListMet(main: Main, manifests: Manifests, req: Requirement, list: seq<Connection>) {
    && req.min <= |list| <= req.max
    && forall c :: c in list ==> ConnectionMet(main, manifests, req, c)
  }

  predicate RequirementMet(main: Main, manifests: Manifests, config: ModuleConfig, rid: string, req: Requirement) {
    if rid in config.connections then ListMet(main, manifests, req, config.connections[rid]) else req.min < 1
  }

  /** Every configured connection is a declared requirement, and every requirement is met. */
  predicate ModuleMet(main: Main, manifests: Manifests, config: ModuleConfig)
    requires config.kind in manifests
  {
    var required := manifests[config.kind].required;
    && config.connections.Keys <= required.Keys
    && forall rid :: rid in required ==> RequirementMet(main, manifests, config, rid, required[rid])
  }

  predicate KindsKnown(main: Main, manifests: Manifests) {
    forall id :: id in main ==> main[id].kind in manifests
  }

  predicate AllMet(main: Main, manifests: Manifests)
    requires KindsKnown(main, manifests)
  {
    forall id :: id in main ==> ModuleMet(main, manifests, main[id])
  }

  // ---- What is added ----

  function ResolveConnection(main: Main, manifests: Manifests, req: Requirement, c: Connection): Connection
    requires ConnectionMet(main, manifests, req, c)
  {
    c.(resolution := Some(Resolution(manifests[main[c.moduleId].kind].provided[c.implementationId], req.interface)))
  }

  function ResolveList(main: Main, manifests: Manifests, req: Requirement, list: seq<Connection>): seq<Connection>
    requires forall c :: c in list ==> ConnectionMet(main, manifests, req, c)
  {
    seq(|list|, i requires 0 <= i < |list| => ResolveConnection(main, manifests, req, list[i]))
  }

  function ResolveModule(main: Main, manifests: Manifests, config: ModuleConfig): ModuleConfig
    requires config.kind in manifests && ModuleMet(main, manifests, config)
  {
    config.(connections := map rid | rid in config.connections ::
              ResolveList(main, manifests, manifests[config.kind].required[rid], config.connections[rid]))
  }

  function ResolveAll(main: Main, manifests: Manifests): Main
    requires KindsKnown(main, manifests) && AllMet(main, manifests)
  {
    map id | id in main :: ResolveModule(main, manifests, main[id])
  }

  function EraseConnection(c: Connection): Connection {
    c.(resolution := None)
  }

  function EraseList(list: seq<Connection>): seq<Connection> {
    seq(|list|, i requires 0 <= i < |list| => EraseConnection(list[i]))
  }

  function EraseModule(config: ModuleConfig): ModuleConfig {
    config.(connections := map rid | rid in config.connections :: EraseList(config.connections[rid]))
  }

  function Erase(main: Main): Main {
    map id | id in main :: EraseModule(main[id])
  }

  lemma ModuleOnlyGains(main: Main, manifests: Manifests, config: ModuleConfig)
    requires config.kind in manifests && ModuleMet(main, manifests, config)
    ensures EraseModule(ResolveModule(main, manifests, config)) == EraseModule(config)
  {
    var resolved := ResolveModule(main, manifests, config);
    forall rid | rid in config.connections
      ensures EraseList(resolved.connections[rid]) == EraseList(config.connections[rid])
    {
    }
  }

  /** Resolving adds `provides` and `required_interface` to connections and changes nothing else. */
  lemma ResolvingOnlyAdds(main: Main, manifests: Manifests)
    requires KindsKnown(main, manifests) && AllMet(main, manifests)
    ensures Erase(ResolveAll(main, manifests)) == Erase(main)
  {
    forall id | id in main
      ensures EraseModule(ResolveAll(main, manifests)[id]) == EraseModule(main[id])
    {
      ModuleOnlyGains(main, manifests, main[id]);
    }
  }

  /**
   * Connection `c` came from `c0`, and its added fields are the target's entry for the
   * implementation and the interface that the requirement declares, which that entry has.
   */
  predicate IsResolved(main: Main, manifests: Manifests, req: Requirement, c0: Connection, c: Connection) {
    && c.moduleId == c0.moduleId && c.implementationId == c0.implementationId
    && c.resolution.Some?
    && c.resolution.value.requiredInterface == req.interface
    && c.moduleId in main && main[c.moduleId].kind in manifests
    && c.implementationId in manifests[main[c.moduleId].kind].provided
    && c.resolution.value.provided == manifests[main[c.moduleId].kind].provided[c.implementationId]
    && c.resolution.value.provided.interface == req.interface
  }

  predicate ListIsResolvedTo(main: Main, manifests: Manifests, req: Requirement,
                             list: seq<Connection>, list': seq<Connection>) {
    && |list'| == |list|
    && forall i :: 0 <= i < |list| ==> IsResolved(main, manifests, req, list[i], list'[i])
  }

  predicate ModuleIsResolvedTo(main: Main, manifests: Manifests, config: ModuleConfig, config': ModuleConfig) {
    && config'.kind == config.kind && config.kind in manifests
    && config'.connections.Keys == config.connections.Keys
    && forall rid :: rid in config.connections ==>
         && rid in manifests[config.kind].required
         && ListIsResolvedTo(main, manifests, manifests[config.kind].required[rid],
                             config.connections[rid], config'.connections[rid])
  }

  /** From `main` to `main'` every connection of every module was resolved, and nothing else was changed. */
  predicate AllResolvedIn(main: Main, manifests: Manifests, main': Main) {
    && main'.Keys == main.Keys
    && forall id :: id in main ==> ModuleIsResolvedTo(main, manifests, main[id], main'[id])
  }

  lemma ListIsResolved(main: Main, manifests: Manifests, req: Requirement, list: seq<Connection>)
    requires ListMet(main, manifests, req, list)
    ensures ListIsResolvedTo(main, manifests, req, list, ResolveList(main, manifests, req, list))
  {
    forall i | 0 <= i < |list|
      ensures IsResolved(main, manifests, req, list[i], ResolveList(main, manifests, req, list)[i])
    {
      assert list[i] in list;
    }
  }

  lemma ModuleIsResolved(main: Main, manifests: Manifests, config: ModuleConfig)
    requires config.kind in manifests && ModuleMet(main, manifests, config)
    ensures ModuleIsResolvedTo(main, manifests, config, ResolveModule(main, manifests, config))
  {
    forall rid | rid in config.connections
      ensures ListIsResolvedTo(main, manifests, manifests[config.kind].required[rid], config.connections[rid],
                               ResolveModule(main, manifests, config).connections[rid])
    {
      assert RequirementMet(main, manifests, config, rid, manifests[config.kind].required[rid]);
      ListIsResolved(main, manifests, manifests[config.kind].required[rid], config.connections[rid]);
    }
  }

  /** Resolving puts the right values into the added fields of every connection. */
  lemma ResolvingFills(main: Main, manifests: Manifests)
    requires KindsKnown(main, manifests) && AllMet(main, manifests)
    ensures AllResolvedIn(main, manifests, ResolveAll(main, manifests))
  {
    var main' := ResolveAll(main, manifests);
    forall id | id in main
      ensures ModuleIsResolvedTo(main, manifests, main[id], main'[id])
    {
      assert main'[id] == ResolveModule(main, manifests, main[id]);
      ModuleIsResolved(main, manifests, main[id]);
    }
  }

  // ---- What a failure is ----

  /** One thing that is wrong with the wiring of a config. */
  datatype Violation =
    | Undeclared(id: string, rid: string)
    | Absent(id: string, rid: string)
    | TooFew(id: string, rid: string)
    | TooMany(id: string, rid: string)
    | NoModule(id: string, rid: string, i: nat)
    | NoImplementation(id: string, rid: string, i: nat)
    | OtherInterface(id: string, rid: string, i: nat)

  predicate Declares(main: Main, manifests: Manifests, id: string, rid: string) {
    id in main && main[id].kind in manifests && rid in manifests[main[id].kind].required
  }

  predicate HasList(main: Main, manifests: Manifests, id: string, rid: string) {
    Declares(main, manifests, id, rid) && rid in main[id].connections
  }

  predicate HasConnection(main: Main, manifests: Manifests, id: string, rid: string, i: nat) {
    HasList(main, manifests, id, rid) && i < |main[id].connections[rid]|
  }

  predicate Violated(main: Main, manifests: Manifests, v: Violation) {
    match v
    case Undeclared(id, rid) =>
      && id in main && main[id].kind in manifests
      && rid in main[id].connections && rid !in manifests[main[id].kind].required
    case Absent(id, rid) =>
      && Declares(main, manifests, id, rid) && rid !in main[id].connections
      && 1 <= manifests[main[id].kind].required[rid].min
    case TooFew(id, rid) =>
      && HasList(main, manifests, id, rid)
      && |main[id].connections[rid]| < manifests[main[id].kind].required[rid].min
    case TooMany(id, rid) =>
      && HasList(main, manifests, id, rid)
      && manifests[main[id].kind].required[rid].max < |main[id].connections[rid]|
    case NoModule(id, rid, i) =>
      HasConnection(main, manifests, id, rid, i) && main[id].connections[rid][i].moduleId !in main
    case NoImplementation(id, rid, i) =>
      && HasConnection(main, manifests, id, rid, i)
      && var c := main[id].connections[rid][i];
         c.moduleId in main && main[c.moduleId].kind in manifests
         && c.implementationId !in manifests[main[c.moduleId].kind].provided
    case OtherInterface(id, rid, i) =>
      && HasConnection(main, manifests, id, rid, i)
      && var c := main[id].connections[rid][i];
         c.moduleId in main && main[c.moduleId].kind in manifests
         && c.implementationId in manifests[main[c.moduleId].kind].provided
         && manifests[main[c.moduleId].kind].provided[c.implementationId].interface !=
            manifests[main[id].kind].required[rid].interface
  }

  lemma ViolatedIsUnmet(main: Main, manifests: Manifests, v: Violation)
    requires KindsKnown(main, manifests) && Violated(main, manifests, v)
    ensures !AllMet(main, manifests)
  {
    var config, rid := main[v.id], v.rid;
    var required := manifests[config.kind].required;
    if rid in required && rid in config.connections {
      var list := config.connections[rid];
      assert v.NoModule? || v.NoImplementation? || v.OtherInterface? ==> list[v.i] in list;
      assert !ListMet(main, manifests, required[rid], list);
      assert !RequirementMet(main, manifests, config, rid, required[rid]);
    } else if rid in required {
      assert !RequirementMet(main, manifests, config, rid, required[rid]);
    }
    assert !ModuleMet(main, manifests, config);
  }

  lemma UnmetIsViolated(main: Main, manifests: Manifests) returns (v: Violation)
    requires KindsKnown(main, manifests) && !AllMet(main, manifests)
    ensures Violated(main, manifests, v)
  {
    var id :| id in main && !ModuleMet(main, manifests, main[id]);
    var config := main[id];
    var required := manifests[config.kind].required;
    if rid :| rid in config.connections && rid !in required {
      v := Undeclared(id, rid);
    } else {
      var rid :| rid in required && !RequirementMet(main, manifests, config, rid, required[rid]);
      if rid !in config.connections {
        v := Absent(id, rid);
      } else {
        v := UnmetListIsViolated(main, manifests, id, rid);
      }
    }
  }

  lemma UnmetListIsViolated(main: Main, manifests: Manifests, id: string, rid: string) returns (v: Violation)
    requires KindsKnown(main, manifests) && HasList(main, manifests, id, rid)
    requires !ListMet(main, manifests, manifests[main[id].kind].required[rid], main[id].connections[rid])
    ensures Violated(main, manifests, v)
  {
    var req, list := manifests[main[id].kind].required[rid], main[id].connections[rid];
    if |list| < req.min {
      v := TooFew(id, rid);
    } else if req.max < |list| {
      v := TooMany(id, rid);
    } else {
      var c :| c in list && !ConnectionMet(main, manifests, req, c);
      var i :| 0 <= i < |list| && list[i] == c;
      v := if c.moduleId !in main then NoModule(id, rid, i)
           else if c.implementationId !in manifests[main[c.moduleId].kind].provided then NoImplementation(id, rid, i)
           else OtherInterface(id, rid, i);
    }
  }

  /** The requirements are met exactly if nothing on this list is wrong. */
  lemma MetIff(main: Main, manifests: Manifests)
    requires KindsKnown(main, manifests)
    ensures AllMet(main, manifests) <==> forall v :: !Violated(main, manifests, v)
  {
    if !AllMet(main, manifests) {
      var v := UnmetIsViolated(main, manifests);
    }
    forall v | Violated(main, manifests, v)
      ensures !AllMet(main, manifests)
    {
      ViolatedIsUnmet(main, manifests, v);
    }
  }

  // ---- Looking requirements up ----

  datatype Connections = Single(connection: Connection) | Many(list: seq<Connection>)

  /** `resolve_requirement` once the module is found; None is the exception of `at(0)` on an empty list. */
  function Resolve(config: ModuleConfig, manifest: Manifest, rid: string): Option<Connections> {
    if rid !in config.connections then Some(Many([]))
    else
      var list := config.connections[rid];
      if rid in manifest.required && manifest.required[rid].min == 1 && manifest.required[rid].max == 1 then
        if list == [] then None else Some(Single(list[0]))
      else Some(Many(list))
  }

  /** The connection that `call_cmd` takes for an index. */
  function Pick(cs: Connections, index: nat): Option<Connection> {
    if cs.Single? then Some(cs.connection)
    else if index < |cs.list| then Some(cs.list[index])
    else None
  }

  function ListOf(config: ModuleConfig, rid: string): seq<Connection> {
    if rid in config.connections then config.connections[rid] else []
  }

  /** The lookup fails exactly on an empty list where one single connection is required. */
  lemma ResolveFailsIff(config: ModuleConfig, manifest: Manifest, rid: string)
    ensures Resolve(config, manifest, rid).None? <==>
            && rid in config.connections && |config.connections[rid]| == 0
            && rid in manifest.required && manifest.required[rid].min == 1 && manifest.required[rid].max == 1
  {
  }

  /**
   * After resolving, `resolve_requirement` never fails, `at(0)` included; and for a declared
   * requirement every index in range gives the connection configured there, to an
   * implementation that provides the required interface.
   */
  lemma ResolvedLookup(main: Main, manifests: Manifests, id: string, rid: string, index: nat)
    requires KindsKnown(main, manifests) && AllMet(main, manifests) && id in main
    ensures var config := ResolveAll(main, manifests)[id];
            var manifest := manifests[config.kind];
            var cs := Resolve(config, manifest, rid);
            && cs.Some?
            && (cs.value.Single? <==>
                  && rid in config.connections && rid in manifest.required
                  && manifest.required[rid].min == 1 && manifest.required[rid].max == 1)
            && (cs.value.Many? ==> cs.value.list == ListOf(config, rid))
            && (index < |ListOf(config, rid)| ==>
                  && Pick(cs.value, index) == Some(config.connections[rid][index])
                  && rid in manifest.required
                  && ConnectionMet(main, manifests, manifest.required[rid], config.connections[rid][index]))
  {
    assert ModuleMet(main, manifests, main[id]);
    var config := main[id];
    var required := manifests[config.kind].required;
    if rid in config.connections {
      assert RequirementMet(main, manifests, config, rid, required[rid]);
      if index < |config.connections[rid]| {
        assert config.connections[rid][index] in config.connections[rid];
      }
    }
  }
}
