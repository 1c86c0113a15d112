/**
 * `Config`: loading the manifests of the configured modules, generating that of the probe,
 * resolving all requirements, and the lookups that command calls make afterwards.
 */
module Config {
  import opened Wrappers
  import opened Strings
  import opened Requirements
  import opened ModuleCache
  import opened Probe

  /** Module ids in the order of a JSON object's items. */
  predicate InIdOrder(order: seq<Entry>) {
    forall i, j :: 0 <= i < j < |order| ==> Less(order[i].id, order[j].id)
  }

  /** The modules but the probe, each once. */
  ghost predicate ListsModules(main: Main, order: seq<Entry>) {
    && InIdOrder(order)
    && (forall e :: e in order <==> e.id in main && main[e.id].kind == e.kind && e.kind != PROBE)
  }

  /** The order of loading: by id, but the probe last. */
  predicate LoadsBefore(main: Main, a: string, b: string)
    requires a in main && b in main
  {
    main[a].kind != PROBE && (main[b].kind == PROBE || Less(a, b))
  }

  predicate InLoadOrder(main: Main, order: seq<Entry>) {
    && (forall e :: e in order ==> e.id in main)
    && forall i, j :: 0 <= i < j < |order| ==> LoadsBefore(main, order[i].id, order[j].id)
  }

  lemma OrderedIdsAreUnique(order: seq<Entry>)
    requires InIdOrder(order)
    ensures UniqueIds(order)
  {
    forall i, j | 0 <= i < j < |order|
      ensures order[i].id != order[j].id
    {
      LessAsymmetric(order[i].id, order[j].id);
    }
  }

  /** What a lookup leaves in a manifest for a requirement that it does not declare. */
  datatype Leftover = JustNull | NullMinimum

  class Config {
    const files: Files
    var main: Main
    var manifests: Manifests
    var interfaces: map<string, map<string, Interface>>
    var interfaceDefinitions: map<string, Interface>
    var cache: map<string, Cache>
    var moduleNames: map<string, string>
    var leftovers: map<(string, string), Leftover>

    function View(): Loaded
      reads this
    {
      Loaded(manifests, interfaces, cache, moduleNames)
    }

    /** The definitions kept by interface are those of the files. */
    predicate DefinitionsRight()
      reads `interfaceDefinitions
    {
      forall n :: n in interfaceDefinitions ==> n in files.interfaces && interfaceDefinitions[n] == files.interfaces[n]
    }

    constructor (main: Main, files: Files)
      ensures interfaceDefinitions == map[]
      ensures this.main == main && this.files == files && View() == Start(map[]) && leftovers == map[]
    {
      this.files := files;
      this.main := main;
      manifests, interfaces, interfaceDefinitions, cache, moduleNames := map[], map[], map[], map[], map[];
      leftovers := map[];
    }

    /** `resolve_interface` for one implementation, with its commands put into the cache. */
    method AddInterface(kind: string, impl: string, name: string)
      requires name in files.interfaces && kind in cache && kind in interfaces
      modifies `interfaces, `interfaceDefinitions, `cache
      ensures interfaces == old(interfaces)[kind := old(interfaces)[kind][impl := files.interfaces[name]]]
      ensures cache == old(cache)[kind :=
                old(cache)[kind].(cmds := old(cache)[kind].cmds[impl := files.interfaces[name].cmds])]
      ensures interfaceDefinitions == old(interfaceDefinitions)[name := files.interfaces[name]]
    {
      var definition := files.interfaces[name];
      interfaceDefinitions := interfaceDefinitions[name := definition];
      interfaces := interfaces[kind := interfaces[kind][impl := definition]];
      cache := cache[kind := cache[kind].(cmds := cache[kind].cmds[impl := definition.cmds])];
    }

    /** The loop of `load_and_validate_manifest` over the implementations of a type. */
    method LoadInterfaces(kind: string, manifest: Manifest) returns (r: Result<(), Failure>)
      requires kind in cache && kind in interfaces && interfaces[kind] == map[]
      modifies `interfaces, `interfaceDefinitions, `cache
      ensures r == if InterfacesKnown(files, manifest) then Ok(()) else Err(NoInterface)
      ensures r.Ok? ==> interfaces == old(interfaces)[kind := InterfacesOf(files, manifest)]
      ensures r.Ok? ==> cache == old(cache)[kind := WithCommands(old(cache)[kind], InterfacesOf(files, manifest))]
      ensures old(DefinitionsRight()) ==> DefinitionsRight()
      ensures old(interfaceDefinitions).Keys <= interfaceDefinitions.Keys
      ensures r.Ok? ==> DefinesAll(interfaceDefinitions, manifest)
    {
      var todo := manifest.provided.Keys;
      ghost var loaded: map<string, Interface> := map[];
      NoCommands(cache[kind]);
      while todo != {}
        invariant todo <= manifest.provided.Keys
        invariant LoadedSoFar(files, manifest, todo, loaded)
        invariant interfaces == old(interfaces)[kind := loaded]
        invariant cache == old(cache)[kind := WithCommands(old(cache)[kind], loaded)]
        invariant old(DefinitionsRight()) ==> DefinitionsRight()
        invariant old(interfaceDefinitions).Keys <= interfaceDefinitions.Keys
        invariant forall i :: i in manifest.provided.Keys - todo ==>
                    manifest.provided[i].interface in interfaceDefinitions
        decreases todo
      {
        var impl := LeastKey(todo);
        var name := manifest.provided[impl].interface;
        if name !in files.interfaces {
          return Err(NoInterface);
        }
        AddInterface(kind, impl, name);
        OneMoreCommand(old(cache)[kind], loaded, impl, files.interfaces[name]);
        UpdateTwice(old(interfaces), kind, loaded, loaded[impl := files.interfaces[name]]);
        UpdateTwice(old(cache), kind, WithCommands(old(cache)[kind], loaded),
                    WithCommands(old(cache)[kind], loaded[impl := files.interfaces[name]]));
        LoadOneMore(files, manifest, todo, loaded, impl);
        loaded := loaded[impl := files.interfaces[name]];
        todo := todo - {impl};
      }
      AllLoaded(files, manifest, loaded);
      r := Ok(());
    }

    /** `load_and_validate_manifest`. */
    method LoadAndValidateManifest(id: string, kind: string) returns (r: Result<(), Failure>)
      modifies `manifests, `interfaces, `interfaceDefinitions, `cache, `moduleNames
      ensures var after := LoadModule(files, old(View()), Entry(id, kind));
              if after.Ok? then r.Ok? && View() == after.value else r == Err(after.error)
      ensures old(DefinitionsRight()) ==> DefinitionsRight()
      ensures old(interfaceDefinitions).Keys <= interfaceDefinitions.Keys
      ensures r.Ok? ==> kind in manifests && DefinesAll(interfaceDefinitions, manifests[kind])
    {
      cache := cache[id := EMPTY_CACHE];
      moduleNames := moduleNames[id := kind];
      if kind != PROBE {
        if kind !in files.manifests {
          return Err(NoManifest);
        }
        manifests := manifests[kind := files.manifests[kind]];
      } else if kind !in manifests {
        return Err(NoManifest);
      }
      r := FillCache(kind, manifests[kind]);
      assert old(manifests)[kind := manifests[kind]] == manifests;
    }

    /** The part of `load_and_validate_manifest` that fills the interfaces and the cache of a type. */
    method FillCache(kind: string, manifest: Manifest) returns (r: Result<(), Failure>)
      modifies `interfaces, `interfaceDefinitions, `cache
      ensures r == if InterfacesKnown(files, manifest) then Ok(()) else Err(NoInterface)
      ensures r.Ok? ==> interfaces == old(interfaces)[kind := InterfacesOf(files, manifest)]
      ensures r.Ok? ==>
                var before := if kind in old(cache) then old(cache)[kind] else EMPTY_CACHE;
                cache == old(cache)[kind :=
                  WithCommands(before.(provided := manifest.provided.Keys), InterfacesOf(files, manifest))]
      ensures old(DefinitionsRight()) ==> DefinitionsRight()
      ensures old(interfaceDefinitions).Keys <= interfaceDefinitions.Keys
      ensures r.Ok? ==> DefinesAll(interfaceDefinitions, manifest)
    {
      var before := if kind in cache then cache[kind] else EMPTY_CACHE;
      var filled := before.(provided := manifest.provided.Keys);
      interfaces := interfaces[kind := map[]];
      cache := cache[kind := filled];
      r := LoadInterfaces(kind, manifest);
      if r.Ok? {
        UpdateTwice(old(interfaces), kind, map[], InterfacesOf(files, manifest));
        UpdateTwice(old(cache), kind, filled, WithCommands(filled, InterfacesOf(files, manifest)));
      }
    }

    /** The loop of the constructor over the configured modules: all but the probe are loaded. */
    method LoadManifests() returns (r: Result<Option<string>, Failure>, ghost order: seq<Entry>)
      requires View() == Start(map[])
      modifies `manifests, `interfaces, `interfaceDefinitions, `cache, `moduleNames
      ensures r.Ok? <==> Loadable(main, files)
      ensures r.Ok? ==> ListsModules(main, order) && LoadAll(files, Start(map[]), order) == Ok(View())
      ensures r.Ok? ==> forall id :: id in main ==> (main[id].kind == PROBE <==> r.value == Some(id))
      ensures r.Ok? && r.value.Some? ==> r.value.value in main
      ensures old(DefinitionsRight()) ==> DefinitionsRight()
      ensures old(interfaceDefinitions).Keys <= interfaceDefinitions.Keys
      ensures r.Ok? ==> DefinesUsed(interfaceDefinitions, main, files)
    {
      var probe: Option<string> := None;
      var todo := main.Keys;
      order := [];
      while todo != {}
        invariant todo <= main.Keys
        invariant ListedSoFar(main, todo, order)
        invariant LoadAll(files, Start(map[]), order) == Ok(View())
        invariant forall e :: e in order ==> ModuleLoadable(files, e.kind)
        invariant probe.Some? ==> probe.value in main.Keys - todo
        invariant forall id :: id in main.Keys - todo ==> (main[id].kind == PROBE <==> probe == Some(id))
        invariant old(DefinitionsRight()) ==> DefinitionsRight()
        invariant old(interfaceDefinitions).Keys <= interfaceDefinitions.Keys
        invariant forall id :: id in main.Keys - todo && main[id].kind != PROBE && main[id].kind in files.manifests ==>
                    DefinesAll(interfaceDefinitions, files.manifests[main[id].kind])
        decreases todo
      {
        var id := LeastKey(todo);
        var kind := main[id].kind;
        if kind == PROBE {
          if probe.Some? {
            assert main[probe.value].kind == PROBE;
            return Err(SecondProbe), order;
          }
          probe := Some(id);
          SkipProbe(main, todo, order, id);
        } else {
          var e := Entry(id, kind);
          assert (order + [e])[..|order|] == order;
          r := LoadModuleFile(e);
          if r.Err? {
            return;
          }
          ListOneMore(main, todo, order, e);
          order := order + [e];
        }
        todo := todo - {id};
      }
      AllListed(main, files, order);
      r := Ok(probe);
    }

    /** Loading a module that has a manifest file. */
    method LoadModuleFile(e: Entry) returns (r: Result<Option<string>, Failure>)
      requires e.kind != PROBE
      modifies `manifests, `interfaces, `interfaceDefinitions, `cache, `moduleNames
      ensures r.Ok? <==> ModuleLoadable(files, e.kind)
      ensures r.Ok? ==> LoadModule(files, old(View()), e) == Ok(View())
      ensures old(DefinitionsRight()) ==> DefinitionsRight()
      ensures old(interfaceDefinitions).Keys <= interfaceDefinitions.Keys
      ensures r.Ok? ==> e.kind in files.manifests && DefinesAll(interfaceDefinitions, files.manifests[e.kind])
    {
      var loaded := LoadAndValidateManifest(e.id, e.kind);
      r := if loaded.Ok? then Ok(None) else Err(loaded.error);
    }

    // ---- The probe's manifest ----

    /** The entries of one connection list of another module. */
    method ScanList(probe: string, id: string, rid: string, provided: map<string, Provide>, ghost seen: set<Incoming>)
      returns (r: Result<map<string, Provide>, Failure>, ghost seen': set<Incoming>)
      requires id in main && id != probe && rid in main[id].connections
      requires main[id].kind in manifests && rid in manifests[main[id].kind].required
      requires Represents(provided, seen) && SeenIsIncoming(main, manifests, probe, seen)
      ensures r.Err? ==> Conflict(main, manifests, probe)
      ensures r.Ok? ==> Represents(r.value, seen') && SeenIsIncoming(main, manifests, probe, seen') && seen <= seen'
      ensures r.Ok? ==> CoversList(main, manifests, probe, id, rid, |main[id].connections[rid]|, seen')
    {
      var interface := manifests[main[id].kind].required[rid].interface;
      var list := main[id].connections[rid];
      var result := provided;
      seen' := seen;
      var i := 0;
      while i < |list|
        invariant 0 <= i <= |list|
        invariant Represents(result, seen') && SeenIsIncoming(main, manifests, probe, seen') && seen <= seen'
        invariant CoversList(main, manifests, probe, id, rid, i, seen')
      {
        if list[i].moduleId == probe {
          var impl := list[i].implementationId;
          ghost var wanted := Incoming(impl, interface);
          assert ConnectsToProbe(main, manifests, probe, id, rid, i, wanted);
          assert IsIncoming(main, manifests, probe, wanted);
          if impl in result && result[impl].interface != interface {
            assert Incoming(impl, result[impl].interface) in seen';
            return Err(ProbeConflict), seen';
          }
          result := result[impl := Provide(interface)];
          seen' := seen' + {wanted};
        }
        i := i + 1;
      }
      r := Ok(result);
    }

    /** The connection lists of another module. */
    method ScanModule(probe: string, id: string, provided: map<string, Provide>, ghost seen: set<Incoming>)
      returns (r: Result<map<string, Provide>, Failure>, ghost seen': set<Incoming>)
      requires id in main && id != probe && main[id].kind in manifests
      requires Represents(provided, seen) && SeenIsIncoming(main, manifests, probe, seen)
      ensures r.Err? ==>
                || Conflict(main, manifests, probe)
                || !(main[id].connections.Keys <= manifests[main[id].kind].required.Keys)
      ensures r.Ok? ==> Represents(r.value, seen') && SeenIsIncoming(main, manifests, probe, seen') && seen <= seen'
      ensures r.Ok? ==> CoversModule(main, manifests, probe, id, main[id].connections.Keys, seen')
      ensures r.Ok? ==> main[id].connections.Keys <= manifests[main[id].kind].required.Keys
    {
      var connections := main[id].connections;
      r, seen' := Ok(provided), seen;
      var todo := connections.Keys;
      while todo != {}
        invariant todo <= connections.Keys
        invariant r.Ok? && Represents(r.value, seen') && SeenIsIncoming(main, manifests, probe, seen') && seen <= seen'
        invariant CoversModule(main, manifests, probe, id, connections.Keys - todo, seen')
        invariant connections.Keys - todo <= manifests[main[id].kind].required.Keys
        decreases todo
      {
        var rid := LeastKey(todo);
        if rid !in manifests[main[id].kind].required {
          return Err(NotFound), seen';
        }
        r, seen' := ScanList(probe, id, rid, r.value, seen');
        if r.Err? {
          return;
        }
        todo := todo - {rid};
      }
    }

    /** `get_provides_for_probe_module`. */
    method ProvidesForProbe(probe: string) returns (r: Result<map<string, Provide>, Failure>)
      requires forall id :: id in main && id != probe ==> main[id].kind in manifests
      ensures r.Ok? <==> RequirementsDeclared(main, manifests, probe) && !Conflict(main, manifests, probe)
      ensures r.Ok? ==> ProvidesIncoming(main, manifests, probe, r.value)
    {
      r := Ok(map[]);
      ghost var seen: set<Incoming> := {};
      var todo := main.Keys;
      while todo != {}
        invariant todo <= main.Keys
        invariant r.Ok? && Represents(r.value, seen) && SeenIsIncoming(main, manifests, probe, seen)
        invariant Covers(main, manifests, probe, main.Keys - todo, seen)
        invariant forall id :: id in main.Keys - todo && id != probe ==>
                    main[id].connections.Keys <= manifests[main[id].kind].required.Keys
        decreases todo
      {
        var id := LeastKey(todo);
        if id != probe {
          r, seen := ScanModule(probe, id, r.value, seen);
          if r.Err? {
            return;
          }
        }
        todo := todo - {id};
      }
      SeenAll(main, manifests, probe, r.value, seen);
      if r.value == map[] {
        r := Ok(NOTHING_PROVIDED);
      }
    }

    /** One connection list of the probe. */
    method RequireList(rid: string, list: seq<Connection>, required: map<string, Requirement>)
      returns (r: Result<map<string, Requirement>, Failure>)
      requires rid !in required
      ensures r.Ok? <==> ListAgrees(main, manifests, list)
      ensures r.Ok? ==> r.value == if list == [] then required
                                   else var interface := TargetInterface(main, manifests, list[0]).value;
                                        required[rid := Requirement(interface, 1, 1)]
    {
      var result := required;
      var i := 0;
      while i < |list|
        invariant 0 <= i <= |list|
        invariant ListAgrees(main, manifests, list[..i])
        invariant result == if i == 0 then required
                            else required[rid := Requirement(TargetInterface(main, manifests, list[0]).value, 1, 1)]
      {
        assert list[..i + 1] == list[..i] + [list[i]];
        var target := TargetInterface(main, manifests, list[i]);
        if target.None? {
          assert list[i] in list;
          return Err(NotFound);
        }
        if rid in result && result[rid].interface != target.value {
          assert list[0] in list && list[i] in list;
          return Err(ProbeConflict);
        }
        AgreesWithFirst(main, manifests, list, i);
        result := result[rid := Requirement(target.value, 1, 1)];
        i := i + 1;
      }
      assert list[..i] == list;
      r := Ok(result);
    }

    /** `get_requirements_for_probe_module`, with the defaults that the manifest schema adds. */
    method RequirementsForProbe(probe: string) returns (r: Result<map<string, Requirement>, Failure>)
      requires probe in main
      ensures r.Ok? <==> TargetsAgree(main, manifests, main[probe])
      ensures r.Ok? ==> RequiresTargets(main, manifests, main[probe], r.value)
    {
      var connections := main[probe].connections;
      r := Ok(map[]);
      var todo := connections.Keys;
      while todo != {}
        invariant todo <= connections.Keys
        invariant forall rid :: rid in connections.Keys - todo ==> ListAgrees(main, manifests, connections[rid])
        invariant r.Ok? && forall rid :: rid in r.value <==> rid in connections.Keys - todo && connections[rid] != []
        invariant forall rid :: rid in r.value ==>
                    && TargetInterface(main, manifests, connections[rid][0]).Some?
                    && r.value[rid] == Requirement(TargetInterface(main, manifests, connections[rid][0]).value, 1, 1)
        decreases todo
      {
        var rid := LeastKey(todo);
        r := RequireList(rid, connections[rid], r.value);
        if r.Err? {
          return;
        }
        todo := todo - {rid};
      }
    }

    /** `setup_probe_module_manifest` and the loading of the generated manifest. */
    method LoadProbe(probe: string) returns (r: Result<(), Failure>)
      requires probe in main && main[probe].kind == PROBE && PROBE !in manifests
      requires forall id :: id in main && id != probe ==> main[id].kind in manifests
      modifies `manifests, `interfaces, `interfaceDefinitions, `cache, `moduleNames
      ensures r.Ok? <==> exists m :: Generated(main, old(manifests), probe, m) && InterfacesKnown(files, m)
      ensures r.Ok? ==>
                && PROBE in manifests && Generated(main, old(manifests), probe, manifests[PROBE])
                && InterfacesKnown(files, manifests[PROBE])
                && manifests == old(manifests)[PROBE := manifests[PROBE]]
                && LoadModule(files, old(View()).(manifests := manifests), Entry(probe, PROBE)) == Ok(View())
      ensures old(DefinitionsRight()) ==> DefinitionsRight()
      ensures old(interfaceDefinitions).Keys <= interfaceDefinitions.Keys
      ensures r.Ok? ==> PROBE in manifests && DefinesAll(interfaceDefinitions, manifests[PROBE])
    {
      var provided := ProvidesForProbe(probe);
      if provided.Err? {
        return Err(provided.error);
      }
      manifests := manifests[PROBE := Manifest(provided.value, map[])];
      var required := RequirementsForProbe(probe);
      if required.Err? {
        OtherProvidesFail(main, old(manifests), probe, provided.value);
        return Err(required.error);
      }
      ghost var manifest := Manifest(provided.value, required.value);
      manifests := manifests[PROBE := Manifest(provided.value, required.value)];
      UpdateTwice(old(manifests), PROBE, Manifest(provided.value, map[]), manifest);
      assert Generated(main, old(manifests), probe, manifest);
      r := LoadGenerated(probe, manifest);
      OtherManifestsFail(files, main, old(manifests), probe, manifest);
    }

    /** `load_and_validate_manifest` for the probe, whose manifest is set up. */
    method LoadGenerated(probe: string, ghost manifest: Manifest) returns (r: Result<(), Failure>)
      requires PROBE in manifests && manifests[PROBE] == manifest
      modifies `manifests, `interfaces, `interfaceDefinitions, `cache, `moduleNames
      ensures r.Ok? <==> InterfacesKnown(files, manifest)
      ensures r.Ok? ==> manifests == old(manifests) && LoadModule(files, old(View()), Entry(probe, PROBE)) == Ok(View())
      ensures old(DefinitionsRight()) ==> DefinitionsRight()
      ensures old(interfaceDefinitions).Keys <= interfaceDefinitions.Keys
      ensures r.Ok? ==> DefinesAll(interfaceDefinitions, manifest)
    {
      r := LoadAndValidateManifest(probe, PROBE);
      assert old(manifests)[PROBE := manifest] == old(manifests);
    }

    // ---- Requirements ----

    /** The three tests on a connection, in their order. */
    method CheckConnection(req: Requirement, c: Connection) returns (met: bool)
      ensures met <==> ConnectionMet(main, manifests, req, c)
    {
      if c.moduleId !in main || main[c.moduleId].kind !in manifests {
        return false;
      }
      var provided := manifests[main[c.moduleId].kind].provided;
      if c.implementationId !in provided {
        return false;
      }
      met := provided[c.implementationId].interface == req.interface;
    }

    method SetConnection(id: string, rid: string, i: nat, c: Connection)
      requires id in main && rid in main[id].connections && i < |main[id].connections[rid]|
      modifies `main
      ensures main == WithList(old(main), id, rid, old(main)[id].connections[rid][i := c])
    {
      var connections := main[id].connections;
      main := main[id := main[id].(connections := connections[rid := connections[rid][i := c]])];
    }

    /** The innermost loop of `resolve_all_requirements`, over the connections of one requirement. */
    method ResolveConnections(id: string, rid: string, req: Requirement) returns (ok: bool)
      requires id in main && rid in main[id].connections
      modifies `main
      ensures SameKinds(old(main), main)
      ensures ok <==> forall c :: c in old(main)[id].connections[rid] ==> ConnectionMet(old(main), manifests, req, c)
      ensures ok ==>
                main ==
                WithList(old(main), id, rid, ResolveList(old(main), manifests, req, old(main)[id].connections[rid]))
    {
      ghost var main0 := main;
      var list := main[id].connections[rid];
      ghost var resolved := [];
      var i := 0;
      WithSameList(main, id, rid);
      while i < |list|
        invariant 0 <= i <= |list|
        invariant forall c :: c in list[..i] ==> ConnectionMet(main0, manifests, req, c)
        invariant resolved == ResolveList(main0, manifests, req, list[..i])
        invariant main == WithList(main0, id, rid, resolved + list[i..])
      {
        TakeOne(list, i);
        var c := list[i];
        var met := CheckConnection(req, c);
        if !met {
          assert c in list && !ConnectionMet(main0, manifests, req, c);
          return false;
        }
        assert ConnectionMet(main0, manifests, req, c);
        var provide := manifests[main[c.moduleId].kind].provided[c.implementationId];
        var resolution := Some(Resolution(provide, req.interface));
        SetConnection(id, rid, i, c.(resolution := resolution));
        OneMoreResolved(main0, id, rid, resolved, list[i..], c.(resolution := resolution));
        resolved := resolved + [c.(resolution := resolution)];
        i := i + 1;
      }
      assert list[..i] == list && list[i..] == [] && resolved + [] == resolved;
      ok := true;
    }

    /** The loop of `resolve_all_requirements` over the requirements of one module. */
    method ResolveRequirements(id: string) returns (ok: bool)
      requires id in main && main[id].kind in manifests
      modifies `main
      ensures SameKinds(old(main), main)
      ensures ok <==> ModuleMet(old(main), manifests, old(main)[id])
      ensures ok ==> main == old(main)[id := ResolveModule(old(main), manifests, old(main)[id])]
    {
      ghost var main0 := main;
      var config := main[id];
      var required := manifests[config.kind].required;
      if !(config.connections.Keys <= required.Keys) {
        return false;
      }
      var todo := required.Keys;
      NothingResolved(main0, manifests, id);
      assert required.Keys - todo == {};
      while todo != {}
        invariant todo <= required.Keys && SameKinds(main0, main)
        invariant MetSoFar(main0, manifests, config, required.Keys - todo)
        invariant main == main0[id := ResolveSome(main0, manifests, config, required.Keys - todo)]
        decreases todo
      {
        var rid := LeastKey(todo);
        var req := required[rid];
        var met := ResolveRequirement(id, rid, req, main0, config, required.Keys - todo);
        if !met {
          return false;
        }
        assert required.Keys - todo + {rid} == required.Keys - (todo - {rid});
        todo := todo - {rid};
      }
      assert required.Keys - todo == required.Keys;
      AllResolved(main0, manifests, config);
      ok := true;
    }

    /** One requirement: skipped if absent and optional, else its list is checked and resolved. */
    method ResolveRequirement(id: string, rid: string, req: Requirement,
                              ghost main0: Main, ghost config: ModuleConfig, ghost done: set<string>)
      returns (met: bool)
      requires id in main0 && main0[id] == config && config.kind in manifests && SameKinds(main0, main)
      requires rid in manifests[config.kind].required && manifests[config.kind].required[rid] == req && rid !in done
      requires MetSoFar(main0, manifests, config, done)
      requires main == main0[id := ResolveSome(main0, manifests, config, done)]
      modifies `main
      ensures SameKinds(main0, main)
      ensures met <==> RequirementMet(main0, manifests, config, rid, req)
      ensures met ==> MetSoFar(main0, manifests, config, done + {rid})
      ensures met ==> main == main0[id := ResolveSome(main0, manifests, config, done + {rid})]
    {
      if rid !in main[id].connections {
        met := req.min < 1;
        if met {
          ResolvedAbsent(main0, manifests, config, done, rid);
        }
        return;
      }
      var list := main[id].connections[rid];
      if |list| < req.min || |list| > req.max {
        return false;
      }
      SameKindsSameList(main0, main, manifests, req, list);
      met := ResolveConnections(id, rid, req);
      if met {
        ResolvedOneMore(main0, manifests, id, done, rid);
      }
    }

    /** `resolve_all_requirements`. */
    method ResolveAllRequirements() returns (r: Result<(), Failure>)
      requires KindsKnown(main, manifests)
      modifies `main
      ensures r.Ok? <==> AllMet(old(main), manifests)
      ensures r.Ok? ==> main == ResolveAll(old(main), manifests)
      ensures r.Ok? ==> AllResolvedIn(old(main), manifests, main)
    {
      ghost var main0 := main;
      var todo := main.Keys;
      while todo != {}
        invariant todo <= main0.Keys && SameKinds(main0, main)
        invariant forall id :: id in main0.Keys - todo ==>
                    ModuleMet(main0, manifests, main0[id]) && main[id] == ResolveModule(main0, manifests, main0[id])
        invariant forall id :: id in todo ==> main[id] == main0[id]
        decreases todo
      {
        var id := LeastKey(todo);
        SameKindsSameModule(main0, main, manifests, main0[id]);
        var ok := ResolveRequirements(id);
        if !ok {
          return Err(Unresolved);
        }
        todo := todo - {id};
      }
      ResolvingFills(main0, manifests);
      assert main == ResolveAll(main0, manifests);
      r := Ok(());
    }

    /** The constructor from the loading of manifests up to that of the probe. */
    method LoadModules() returns (r: Result<(), Failure>, ghost order: seq<Entry>)
      requires View() == Start(map[])
      modifies `manifests, `interfaces, `interfaceDefinitions, `cache, `moduleNames
      ensures r.Err? ==> !CanLoad(main, files)
      ensures r.Ok? ==> Loadable(main, files) && ModulesLoaded(files, main, order, View())
      ensures old(DefinitionsRight()) ==> DefinitionsRight()
      ensures r.Ok? ==> DefinesUsed(interfaceDefinitions, main, files)
      ensures r.Ok? && PROBE in manifests ==> DefinesAll(interfaceDefinitions, manifests[PROBE])
    {
      var probe;
      probe, order := LoadManifests();
      if probe.Err? {
        return Err(probe.error), order;
      }
      OrderedIdsAreUnique(order);
      LoadAllInv(files, order);
      EntriesLoaded(files, map[], main, order, View());
      ManifestsAreThoseUsed(main, files, order, View());
      if probe.value.Some? {
        ghost var s := View();
        r := LoadProbe(probe.value.value);
        if r.Err? {
          CannotLoadWithout(main, files, probe.value.value);
          return;
        }
        assert WithProbe(main, files, manifests, probe.value.value, manifests[PROBE]);
        order := ProbeLoaded(files, main, order, s, manifests[PROBE], probe.value.value, View());
      } else {
        ghost var known: Manifests := map[];
        ListedInLoadOrder(main, order);
        assert LoadInv(files, known, order, View());
        r := Ok(());
      }
      KindsAreKnown(files, main, order, View());
    }

    /** The constructor from the loading of manifests on. */
    method Load() returns (r: Result<(), Failure>, ghost order: seq<Entry>)
      requires View() == Start(map[])
      modifies `main, `manifests, `interfaces, `interfaceDefinitions, `cache, `moduleNames
      ensures r.Ok? <==> CanLoad(old(main), files)
      ensures r.Ok? ==> LoadedFrom(files, old(main), main, order, View())
      ensures old(DefinitionsRight()) ==> DefinitionsRight()
      ensures r.Ok? ==> forall kind :: kind in manifests ==> DefinesAll(interfaceDefinitions, manifests[kind])
    {
      r, order := LoadModules();
      if r.Err? {
        return;
      }
      CanLoadIff(main, files, manifests);
      UsedIsAll(interfaceDefinitions, main, files, manifests);
      r := ResolveAllRequirements();
    }

    /**
     * `resolve_requirement`; NotFound is an unknown module, or the exception of `at(0)`. Reading a
     * requirement with `operator[]` enters it, as null, if the manifest does not declare it, and
     * reading the minimum of a null enters that.
     */
    method ResolveRequirementOf(id: string, rid: string) returns (r: Result<Connections, Failure>)
      requires forall id :: id in moduleNames ==> id in main && moduleNames[id] in manifests
      modifies `leftovers
      ensures r == if id !in moduleNames then Err(NotFound)
                   else var cs := Resolve(main[id], manifests[moduleNames[id]], rid);
                        if cs.None? then Err(NotFound) else Ok(cs.value)
      ensures id !in moduleNames || rid in manifests[moduleNames[id]].required ==> leftovers == old(leftovers)
      ensures id in moduleNames && rid !in manifests[moduleNames[id]].required ==>
                var key := (moduleNames[id], rid);
                && leftovers.Keys == old(leftovers).Keys + {key}
                && leftovers - {key} == old(leftovers) - {key}
                && leftovers[key] == if rid in main[id].connections then NullMinimum
                                     else if key in old(leftovers) then old(leftovers)[key] else JustNull
    {
      if id !in moduleNames {
        return Err(NotFound);
      }
      var manifest, key := manifests[moduleNames[id]], (moduleNames[id], rid);
      if rid !in manifest.required && key !in leftovers {
        leftovers := leftovers[key := JustNull];
      }
      if rid !in main[id].connections {
        return Ok(Many([]));
      }
      var list := main[id].connections[rid];
      if rid !in manifest.required {
        leftovers := leftovers[key := NullMinimum];
      } else if manifest.required[rid].min == 1 && manifest.required[rid].max == 1 {
        return if list == [] then Err(NotFound) else Ok(Single(list[0]));
      }
      r := Ok(Many(list));
    }
  }

  /** Every interface that the manifest's implementations have is defined. */
  predicate DefinesAll(definitions: map<string, Interface>, manifest: Manifest) {
    forall impl :: impl in manifest.provided ==> manifest.provided[impl].interface in definitions
  }

  predicate DefinesUsed(definitions: map<string, Interface>, main: Main, files: Files) {
    forall id :: id in main && main[id].kind != PROBE && main[id].kind in files.manifests ==>
      DefinesAll(definitions, files.manifests[main[id].kind])
  }

  /** A manifest file and the interfaces of its implementations exist. */
  predicate ModuleLoadable(files: Files, kind: string) {
    kind in files.manifests && InterfacesKnown(files, files.manifests[kind])
  }

  predicate Loadable(main: Main, files: Files) {
    && (forall id :: id in main && main[id].kind != PROBE ==> ModuleLoadable(files, main[id].kind))
    && (forall a, b :: a in main && b in main && main[a].kind == PROBE && main[b].kind == PROBE ==> a == b)
  }

  predicate SameKinds(a: Main, b: Main) {
    a.Keys == b.Keys && forall id :: id in a ==> a[id].kind == b[id].kind
  }

  /** The config with one connection list replaced. */
  function WithList(main: Main, id: string, rid: string, list: seq<Connection>): Main
    requires id in main
  {
    main[id := main[id].(connections := main[id].connections[rid := list])]
  }

  lemma WithSameList(main: Main, id: string, rid: string)
    requires id in main && rid in main[id].connections
    ensures WithList(main, id, rid, [] + main[id].connections[rid][0..]) == main
  {
    var list := main[id].connections[rid];
    assert [] + list[0..] == list;
    assert main[id].connections[rid := list] == main[id].connections;
  }

  lemma SameKindsSameList(a: Main, b: Main, manifests: Manifests, req: Requirement, list: seq<Connection>)
    requires SameKinds(a, b)
    ensures forall c :: ConnectionMet(a, manifests, req, c) <==> ConnectionMet(b, manifests, req, c)
    ensures (forall c :: c in list ==> ConnectionMet(a, manifests, req, c)) ==>
              ResolveList(a, manifests, req, list) == ResolveList(b, manifests, req, list)
  {
    if forall c :: c in list ==> ConnectionMet(a, manifests, req, c) {
      var x, y := ResolveList(a, manifests, req, list), ResolveList(b, manifests, req, list);
      forall i | 0 <= i < |list|
        ensures x[i] == y[i]
      {
        assert list[i] in list;
        assert a[list[i].moduleId].kind == b[list[i].moduleId].kind;
      }
    }
  }

  lemma SameKindsSameModule(a: Main, b: Main, manifests: Manifests, config: ModuleConfig)
    requires SameKinds(a, b) && config.kind in manifests
    ensures ModuleMet(a, manifests, config) <==> ModuleMet(b, manifests, config)
    ensures ModuleMet(a, manifests, config) ==>
            ResolveModule(a, manifests, config) == ResolveModule(b, manifests, config)
  {
    forall rid | rid in manifests[config.kind].required && rid in config.connections
      ensures var req, list := manifests[config.kind].required[rid], config.connections[rid];
              && (ListMet(a, manifests, req, list) <==> ListMet(b, manifests, req, list))
              && (ListMet(a, manifests, req, list) ==>
                    ResolveList(a, manifests, req, list) == ResolveList(b, manifests, req, list))
    {
      SameKindsSameList(a, b, manifests, manifests[config.kind].required[rid], config.connections[rid]);
    }
    if ModuleMet(a, manifests, config) {
      forall rid | rid in config.connections
        ensures ResolveModule(a, manifests, config).connections[rid] ==
                ResolveModule(b, manifests, config).connections[rid]
      {
        assert RequirementMet(a, manifests, config, rid, manifests[config.kind].required[rid]);
      }
    }
  }

  /** The requirements `done` of a module are met. */
  predicate MetSoFar(main: Main, manifests: Manifests, config: ModuleConfig, done: set<string>) {
    && config.kind in manifests && done <= manifests[config.kind].required.Keys
    && forall rid :: rid in done ==> RequirementMet(main, manifests, config, rid, manifests[config.kind].required[rid])
  }

  /** A module with the connections of the requirements `done` resolved. */
  function ResolveSome(main: Main, manifests: Manifests, config: ModuleConfig, done: set<string>): ModuleConfig
    requires MetSoFar(main, manifests, config, done)
  {
    config.(connections := map rid | rid in config.connections ::
              if rid in done
              then assert RequirementMet(main, manifests, config, rid, manifests[config.kind].required[rid]);
                   ResolveList(main, manifests, manifests[config.kind].required[rid], config.connections[rid])
              else config.connections[rid])
  }

  lemma NothingResolved(main: Main, manifests: Manifests, id: string)
    requires id in main && main[id].kind in manifests
    ensures MetSoFar(main, manifests, main[id], {}) && main[id := ResolveSome(main, manifests, main[id], {})] == main
  {
    assert ResolveSome(main, manifests, main[id], {}).connections == main[id].connections;
  }

  lemma ResolvedAbsent(main: Main, manifests: Manifests, config: ModuleConfig, done: set<string>, rid: string)
    requires MetSoFar(main, manifests, config, done) && rid in manifests[config.kind].required
    requires rid !in config.connections && manifests[config.kind].required[rid].min < 1
    ensures MetSoFar(main, manifests, config, done + {rid})
    ensures ResolveSome(main, manifests, config, done + {rid}) == ResolveSome(main, manifests, config, done)
  {
  }

  lemma ResolvedOneMore(main: Main, manifests: Manifests, id: string, done: set<string>, rid: string)
    requires id in main && MetSoFar(main, manifests, main[id], done) && rid !in done
    requires rid in manifests[main[id].kind].required && rid in main[id].connections
    requires RequirementMet(main, manifests, main[id], rid, manifests[main[id].kind].required[rid])
    ensures MetSoFar(main, manifests, main[id], done + {rid})
    ensures var list := ResolveList(main, manifests, manifests[main[id].kind].required[rid], main[id].connections[rid]);
            main[id := ResolveSome(main, manifests, main[id], done + {rid})] ==
            WithList(main[id := ResolveSome(main, manifests, main[id], done)], id, rid, list)
  {
    var list := ResolveList(main, manifests, manifests[main[id].kind].required[rid], main[id].connections[rid]);
    var before := ResolveSome(main, manifests, main[id], done);
    var after := ResolveSome(main, manifests, main[id], done + {rid});
    assert after.connections == before.connections[rid := list];
  }

  lemma AllResolved(main: Main, manifests: Manifests, config: ModuleConfig)
    requires config.kind in manifests && config.connections.Keys <= manifests[config.kind].required.Keys
    requires MetSoFar(main, manifests, config, manifests[config.kind].required.Keys)
    ensures ModuleMet(main, manifests, config)
    ensures ResolveSome(main, manifests, config, manifests[config.kind].required.Keys) ==
            ResolveModule(main, manifests, config)
  {
  }

  lemma OneMoreResolved(main: Main, id: string, rid: string, done: seq<Connection>, rest: seq<Connection>,
                        c: Connection)
    requires id in main && rest != []
    ensures var before := WithList(main, id, rid, done + rest);
            WithList(main, id, rid, done + [c] + rest[1..]) ==
              WithList(before, id, rid, before[id].connections[rid][|done| := c])
  {
    assert (done + rest)[|done| := c] == done + [c] + rest[1..];
    UpdateTwice(main[id].connections, rid, done + rest, done + [c] + rest[1..]);
  }

  lemma OtherProvidesFail(main: Main, manifests: Manifests, probe: string, provided: map<string, Provide>)
    requires probe in main && ProvidesIncoming(main, manifests, probe, provided)
    requires !TargetsAgree(main, manifests[main[probe].kind := Manifest(provided, map[])], main[probe])
    ensures forall m :: !Generated(main, manifests, probe, m)
  {
    forall m | Generated(main, manifests, probe, m)
      ensures m.provided == provided
    {
      ProvidedIsUnique(main, manifests, probe, m.provided, provided);
    }
  }

  lemma OtherManifestsFail(files: Files, main: Main, manifests: Manifests, probe: string, manifest: Manifest)
    requires probe in main && Generated(main, manifests, probe, manifest)
    ensures (exists m :: Generated(main, manifests, probe, m) && InterfacesKnown(files, m)) <==>
            InterfacesKnown(files, manifest)
  {
    forall m | Generated(main, manifests, probe, m)
      ensures m == manifest
    {
      GeneratedIsUnique(main, manifests, probe, m, manifest);
    }
  }

  // ---- When a load succeeds ----

  function UsedKinds(main: Main): set<string> {
    set id | id in main && main[id].kind != PROBE :: main[id].kind
  }

  /** The manifest files of the module types in use. */
  function UsedManifests(main: Main, files: Files): Manifests {
    map kind | kind in files.manifests && kind in UsedKinds(main) :: files.manifests[kind]
  }

  ghost predicate WithProbe(main: Main, files: Files, manifests: Manifests, probe: string, manifest: Manifest) {
    && probe in main && main[probe].kind == PROBE
    && Generated(main, UsedManifests(main, files), probe, manifest) && InterfacesKnown(files, manifest)
    && manifests == UsedManifests(main, files)[PROBE := manifest]
  }

  /** The manifests in use, with the generated one if a probe is configured. */
  ghost predicate FinalManifests(main: Main, files: Files, manifests: Manifests) {
    || (manifests == UsedManifests(main, files) && forall id :: id in main ==> main[id].kind != PROBE)
    || exists probe, m :: WithProbe(main, files, manifests, probe, m)
  }

  /** All files are there, the probe's manifest can be generated, and every requirement is met. */
  ghost predicate CanLoad(main: Main, files: Files) {
    && Loadable(main, files)
    && exists manifests ::
         FinalManifests(main, files, manifests) && KindsKnown(main, manifests) && AllMet(main, manifests)
  }

  function KindsOf(order: seq<Entry>): set<string> {
    set e | e in order :: e.kind
  }

  lemma {:induction false} LoadedKinds(files: Files, order: seq<Entry>)
    requires LoadAll(files, Start(map[]), order).Ok?
    ensures LoadAll(files, Start(map[]), order).value.manifests.Keys == KindsOf(order)
    decreases |order|
  {
    if order != [] {
      var n := |order| - 1;
      assert order == order[..n] + [order[n]];
      LoadedKinds(files, order[..n]);
      assert KindsOf(order) == KindsOf(order[..n]) + {order[n].kind};
    }
  }

  lemma ManifestsAreThoseUsed(main: Main, files: Files, order: seq<Entry>, s: Loaded)
    requires ListsModules(main, order) && LoadInv(files, map[], order, s)
    requires LoadAll(files, Start(map[]), order) == Ok(s)
    ensures s.manifests == UsedManifests(main, files)
  {
    LoadedKinds(files, order);
    forall kind | kind in UsedKinds(main)
      ensures kind in KindsOf(order)
    {
      var id :| id in main && main[id].kind != PROBE && main[id].kind == kind;
      assert Entry(id, kind) in order;
    }
    forall kind | kind in KindsOf(order)
      ensures kind in UsedKinds(main) && kind in files.manifests && s.manifests[kind] == files.manifests[kind]
    {
      var e :| e in order && e.kind == kind;
      assert EntryLoaded(files, map[], s, e);
      assert main[e.id].kind == kind;
    }
  }

  lemma FinalManifestsAreUnique(main: Main, files: Files, manifests: Manifests, others: Manifests)
    requires Loadable(main, files) && FinalManifests(main, files, manifests) && FinalManifests(main, files, others)
    ensures manifests == others
  {
    if probe, m :| WithProbe(main, files, manifests, probe, m) {
      var probe', m' :| WithProbe(main, files, others, probe', m');
      GeneratedIsUnique(main, UsedManifests(main, files), probe, m, m');
    }
  }

  /** With the final manifests known, a load succeeds exactly if they meet all requirements. */
  lemma CanLoadIff(main: Main, files: Files, manifests: Manifests)
    requires Loadable(main, files) && FinalManifests(main, files, manifests) && KindsKnown(main, manifests)
    ensures CanLoad(main, files) <==> AllMet(main, manifests)
  {
    if CanLoad(main, files) {
      var others :| FinalManifests(main, files, others) && KindsKnown(main, others) && AllMet(main, others);
      FinalManifestsAreUnique(main, files, manifests, others);
    }
  }

  /** Without a manifest for the probe nothing loads. */
  lemma CannotLoadWithout(main: Main, files: Files, probe: string)
    requires probe in main && forall id :: id in main ==> (main[id].kind == PROBE <==> id == probe)
    requires !exists m :: Generated(main, UsedManifests(main, files), probe, m) && InterfacesKnown(files, m)
    ensures !CanLoad(main, files)
  {
    forall manifests
      ensures !FinalManifests(main, files, manifests)
    {
    }
  }

  lemma UsedIsAll(definitions: map<string, Interface>, main: Main, files: Files, manifests: Manifests)
    requires FinalManifests(main, files, manifests) && DefinesUsed(definitions, main, files)
    requires PROBE in manifests ==> DefinesAll(definitions, manifests[PROBE])
    ensures forall kind :: kind in manifests ==> DefinesAll(definitions, manifests[kind])
  {
  }

  /** Every module is loaded, with the manifests that the config uses. */
  ghost predicate ModulesLoaded(files: Files, main: Main, order: seq<Entry>, s: Loaded) {
    && UniqueIds(order) && EntriesOf(main, order) && InLoadOrder(main, order)
    && (exists probe :: LoadInv(files, probe, order, s))
    && FinalManifests(main, files, s.manifests)
    && KindsKnown(main, s.manifests)
  }

  /**
   * A finished load: every module of the config is loaded, the probe with its generated manifest,
   * and all requirements are resolved.
   */
  ghost predicate LoadedFrom(files: Files, before: Main, after: Main, order: seq<Entry>, s: Loaded) {
    && ModulesLoaded(files, before, order, s) && AllMet(before, s.manifests)
    && after == ResolveAll(before, s.manifests) && AllResolvedIn(before, s.manifests, after)
  }

  /** The entries are the modules of the config. */
  ghost predicate EntriesOf(main: Main, order: seq<Entry>) {
    forall e :: e in order <==> e.id in main && main[e.id].kind == e.kind
  }

  lemma OneProbe(main: Main, order: seq<Entry>, a: string, b: string)
    requires EntriesOf(main, order) && InLoadOrder(main, order)
    requires a in main && b in main && main[a].kind == PROBE && main[b].kind == PROBE
    ensures a == b
  {
    assert Entry(a, PROBE) in order && Entry(b, PROBE) in order;
    var i :| 0 <= i < |order| && order[i] == Entry(a, PROBE);
    var j :| 0 <= j < |order| && order[j] == Entry(b, PROBE);
    assert i == j;
  }

  /**
   * After a finished load the probe has the manifest that its wiring generates, and each of its
   * connection lists had exactly one entry: with any other list the load would have failed.
   */
  lemma LoadedProbe(files: Files, before: Main, after: Main, order: seq<Entry>, s: Loaded, probe: string)
    requires LoadedFrom(files, before, after, order, s) && probe in before && before[probe].kind == "ProbeModule"
    ensures PROBE in s.manifests && Generated(before, UsedManifests(before, files), probe, s.manifests[PROBE])
    ensures (forall a :: !IsIncoming(before, UsedManifests(before, files), probe, a)) ==>
              s.manifests[PROBE].provided == map["none" := Provide("empty")]
    ensures forall rid :: rid in before[probe].connections ==> |before[probe].connections[rid]| == 1
    ensures RequiresEach(before, s.manifests, before[probe], s.manifests[PROBE].required)
  {
    var p, m :| WithProbe(before, files, s.manifests, p, m);
    OneProbe(before, order, p, probe);
    OwnConnectionsPassIff(before, UsedManifests(before, files), probe, m.provided, m.required);
    GeneratedRequires(before, UsedManifests(before, files), probe, m);
  }

  lemma EntriesLoaded(files: Files, probe: Manifests, main: Main, order: seq<Entry>, s: Loaded)
    requires ListsModules(main, order) && LoadInv(files, probe, order, s)
    ensures forall id :: id in main && main[id].kind != PROBE ==> main[id].kind in s.manifests
    ensures PROBE in s.manifests ==> PROBE in probe
  {
    forall id | id in main && main[id].kind != PROBE
      ensures main[id].kind in s.manifests
    {
      assert EntryLoaded(files, probe, s, Entry(id, main[id].kind));
    }
  }

  lemma ListedInLoadOrder(main: Main, order: seq<Entry>)
    requires ListsModules(main, order)
    ensures InLoadOrder(main, order)
  {
    forall i, j | 0 <= i < j < |order|
      ensures order[i].id in main && order[j].id in main && LoadsBefore(main, order[i].id, order[j].id)
    {
      assert order[i] in order && order[j] in order;
    }
  }

  /** The probe is loaded last, with its generated manifest. */
  lemma ProbeLoaded(files: Files, main: Main, order: seq<Entry>, s: Loaded, manifest: Manifest, probe: string,
                    s': Loaded)
    returns (order': seq<Entry>)
    requires ListsModules(main, order) && LoadInv(files, map[], order, s) && UniqueIds(order)
    requires forall id :: id in main ==> (main[id].kind == PROBE <==> id == probe)
    requires probe in main
    requires LoadModule(files, s.(manifests := s.manifests[PROBE := manifest]), Entry(probe, PROBE)) == Ok(s')
    ensures UniqueIds(order') && EntriesOf(main, order') && InLoadOrder(main, order')
    ensures LoadInv(files, map[PROBE := manifest], order', s')
  {
    order' := order + [Entry(probe, PROBE)];
    ListedInLoadOrder(main, order);
    assert forall e :: e in order ==> e.id != probe;
    SetupInv(files, order, s, manifest);
    LoadStepInv(files, map[PROBE := manifest], order, s.(manifests := s.manifests[PROBE := manifest]),
                Entry(probe, PROBE));
  }

  lemma KindsAreKnown(files: Files, main: Main, order: seq<Entry>, s: Loaded)
    requires EntriesOf(main, order) && exists probe :: LoadInv(files, probe, order, s)
    ensures KindsKnown(main, s.manifests)
  {
    var probe :| LoadInv(files, probe, order, s);
    forall id | id in main
      ensures main[id].kind in s.manifests
    {
      assert EntryLoaded(files, probe, s, Entry(id, main[id].kind));
    }
  }

  /**
   * The config makes a load wipe the cache of a type: a module of another type has the name of
   * this one as its id, and is loaded after every module of it.
   */
  predicate WipesCache(main: Main, kind: string) {
    && kind in main && main[kind].kind != kind
    && forall id :: id in main && main[id].kind == kind ==> LoadsBefore(main, id, kind)
  }

  lemma LoadsBeforeAsymmetric(main: Main, a: string, b: string)
    requires a in main && b in main && LoadsBefore(main, a, b)
    ensures !LoadsBefore(main, b, a)
  {
    if Less(a, b) {
      LessAsymmetric(a, b);
    }
  }

  /** What the config says about wiping is what happens in the order of loading, with a probe or without. */
  lemma WipedIff(main: Main, order: seq<Entry>, kind: string)
    requires EntriesOf(main, order) && InLoadOrder(main, order)
    ensures Wiped(order, kind) <==> WipesCache(main, kind)
  {
    if Wiped(order, kind) {
      var i :| 0 <= i < |order| && order[i].id == kind && forall j :: i <= j < |order| ==> order[j].kind != kind;
      assert order[i] in order;
      forall id | id in main && main[id].kind == kind
        ensures LoadsBefore(main, id, kind)
      {
        assert Entry(id, kind) in order;
        var j :| 0 <= j < |order| && order[j] == Entry(id, kind);
        assert j < i;
      }
    }
    if WipesCache(main, kind) {
      assert Entry(kind, main[kind].kind) in order;
      var i :| 0 <= i < |order| && order[i] == Entry(kind, main[kind].kind);
      forall j | i <= j < |order|
        ensures order[j].kind != kind
      {
        assert order[j] in order;
        if i < j && order[j].kind == kind {
          LoadsBeforeAsymmetric(main, order[i].id, order[j].id);
        }
      }
      assert Wiped(order, kind);
    }
  }

  predicate IdsAreNotOtherTypes(main: Main) {
    forall a, b :: a in main && b in main && a == main[b].kind ==> main[a].kind == main[b].kind
  }

  /**
   * After a finished load, a call through any connection of any module finds its command's
   * definition, that of the required interface, exactly if the config does not make a load wipe
   * the cache of the target's type; else it fails.
   */
  lemma CallsResolve(files: Files, before: Main, after: Main, order: seq<Entry>, s: Loaded,
                     id: string, rid: string, index: nat, cmd: string)
    requires LoadedFrom(files, before, after, order, s)
    requires id in after && index < |ListOf(after[id], rid)|
    ensures after[id].kind in s.manifests
    ensures var cs := Resolve(after[id], s.manifests[after[id].kind], rid);
            && cs.Some? && Pick(cs.value, index).Some?
            && var c := Pick(cs.value, index).value;
               && c.moduleId in after
               && rid in s.manifests[after[id].kind].required
               && var interface := s.manifests[after[id].kind].required[rid].interface;
                  && interface in files.interfaces
                  && (cmd in files.interfaces[interface].cmds ==>
                        GetCmdDefinition(s, c.moduleId, c.implementationId, cmd) ==
                        if WipesCache(before, before[c.moduleId].kind) then Err(NotFound)
                        else Ok(files.interfaces[interface].cmds[cmd]))
  {
    var probe :| LoadInv(files, probe, order, s);
    ResolvedLookup(before, s.manifests, id, rid, index);
    assert |before[id].connections[rid]| == |after[id].connections[rid]|;
    var c := before[id].connections[rid][index];
    var target := Entry(c.moduleId, before[c.moduleId].kind);
    assert ConnectionMet(before, s.manifests, s.manifests[before[id].kind].required[rid], c);
    WipedIff(before, order, target.kind);
    LookupExactly(files, probe, order, s, target, c.implementationId, cmd);
  }

  /** With no module id that is the name of another module's type, every such call finds its definition. */
  lemma CallsAlwaysResolve(files: Files, before: Main, after: Main, order: seq<Entry>, s: Loaded,
                           id: string, rid: string, index: nat, cmd: string)
    requires LoadedFrom(files, before, after, order, s) && IdsAreNotOtherTypes(before)
    requires id in after && index < |ListOf(after[id], rid)|
    ensures after[id].kind in s.manifests
    ensures var cs := Resolve(after[id], s.manifests[after[id].kind], rid);
            && cs.Some? && Pick(cs.value, index).Some?
            && var c := Pick(cs.value, index).value;
               && rid in s.manifests[after[id].kind].required
               && var interface := s.manifests[after[id].kind].required[rid].interface;
                  && interface in files.interfaces
                  && (cmd in files.interfaces[interface].cmds ==>
                        GetCmdDefinition(s, c.moduleId, c.implementationId, cmd) ==
                        Ok(files.interfaces[interface].cmds[cmd]))
  {
    CallsResolve(files, before, after, order, s, id, rid, index, cmd);
  }

  /** Every connection of a list of the probe has a target, all with one interface. */
  ghost predicate ListAgrees(main: Main, manifests: Manifests, list: seq<Connection>) {
    && (forall c :: c in list ==> TargetInterface(main, manifests, c).Some?)
    && (forall c, d :: c in list && d in list ==>
          TargetInterface(main, manifests, c) == TargetInterface(main, manifests, d))
  }

  lemma AgreesWithFirst(main: Main, manifests: Manifests, list: seq<Connection>, i: nat)
    requires i < |list| && ListAgrees(main, manifests, list[..i]) && TargetInterface(main, manifests, list[i]).Some?
    requires i == 0 || TargetInterface(main, manifests, list[0]) == TargetInterface(main, manifests, list[i])
    ensures ListAgrees(main, manifests, list[..i + 1])
  {
    assert list[..i + 1] == list[..i] + [list[i]];
    if i > 0 {
      assert list[0] == list[..i][0];
    }
  }

  /** In the loop of the constructor, with ids `todo` to go. */
  ghost predicate ListedSoFar(main: Main, todo: set<string>, order: seq<Entry>) {
    && InIdOrder(order)
    && (forall e :: e in order <==> e.id in main.Keys - todo && main[e.id].kind == e.kind && e.kind != PROBE)
    && (forall e, id :: e in order && id in todo ==> Less(e.id, id))
  }

  lemma SkipProbe(main: Main, todo: set<string>, order: seq<Entry>, id: string)
    requires ListedSoFar(main, todo, order) && id in todo && todo <= main.Keys && main[id].kind == PROBE
    ensures ListedSoFar(main, todo - {id}, order)
  {
  }

  lemma ListOneMore(main: Main, todo: set<string>, order: seq<Entry>, e: Entry)
    requires ListedSoFar(main, todo, order) && e.id in todo && todo <= main.Keys && main[e.id].kind == e.kind
             && e.kind != PROBE
    requires forall k :: k in todo && k != e.id ==> Less(e.id, k)
    ensures ListedSoFar(main, todo - {e.id}, order + [e])
  {
    forall i | 0 <= i < |order|
      ensures Less(order[i].id, e.id)
    {
      assert order[i] in order;
    }
  }

  lemma AllListed(main: Main, files: Files, order: seq<Entry>)
    requires ListedSoFar(main, {}, order) && forall e :: e in order ==> ModuleLoadable(files, e.kind)
    ensures ListsModules(main, order)
    ensures forall id :: id in main && main[id].kind != PROBE ==> ModuleLoadable(files, main[id].kind)
  {
    forall id | id in main && main[id].kind != PROBE
      ensures ModuleLoadable(files, main[id].kind)
    {
      assert Entry(id, main[id].kind) in order;
    }
  }

  function WithCommands(cache: Cache, interfaces: map<string, Interface>): Cache {
    cache.(cmds := cache.cmds + CommandsOf(interfaces))
  }

  predicate LoadedSoFar(files: Files, manifest: Manifest, todo: set<string>, loaded: map<string, Interface>) {
    && loaded.Keys == manifest.provided.Keys - todo
    && forall impl :: impl in loaded ==>
         && impl in manifest.provided && manifest.provided[impl].interface in files.interfaces
         && loaded[impl] == files.interfaces[manifest.provided[impl].interface]
  }

  lemma LoadOneMore(files: Files, manifest: Manifest, todo: set<string>, loaded: map<string, Interface>, impl: string)
    requires LoadedSoFar(files, manifest, todo, loaded) && impl in todo && impl in manifest.provided
    requires manifest.provided[impl].interface in files.interfaces
    ensures LoadedSoFar(files, manifest, todo - {impl},
                        loaded[impl := files.interfaces[manifest.provided[impl].interface]])
  {
  }

  lemma AllLoaded(files: Files, manifest: Manifest, loaded: map<string, Interface>)
    requires LoadedSoFar(files, manifest, {}, loaded)
    ensures InterfacesKnown(files, manifest) && loaded == InterfacesOf(files, manifest)
  {
    assert loaded.Keys == manifest.provided.Keys;
  }

  lemma NoCommands(cache: Cache)
    ensures WithCommands(cache, map[]) == cache
  {
    assert CommandsOf(map[]) == map[];
    assert cache.cmds + map[] == cache.cmds;
  }

  lemma TakeOne<T>(list: seq<T>, i: nat)
    requires i < |list|
    ensures list[..i + 1] == list[..i] + [list[i]] && list[i..] == [list[i]] + list[i + 1..]
  {
  }

  lemma UpdateTwice<K, V>(m: map<K, V>, k: K, a: V, b: V)
    ensures m[k := a][k := b] == m[k := b]
  {
  }

  lemma UpdateMerged<K, V>(a: map<K, V>, b: map<K, V>, k: K, v: V)
    ensures a + b[k := v] == (a + b)[k := v]
  {
  }

  lemma OneMoreCommand(cache: Cache, interfaces: map<string, Interface>, impl: string, definition: Interface)
    ensures WithCommands(cache, interfaces[impl := definition]) ==
            WithCommands(cache, interfaces).(cmds := WithCommands(cache, interfaces).cmds[impl := definition.cmds])
  {
    assert CommandsOf(interfaces[impl := definition]) == CommandsOf(interfaces)[impl := definition.cmds];
    UpdateMerged(cache.cmds, CommandsOf(interfaces), impl, definition.cmds);
  }
}
