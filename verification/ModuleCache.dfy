/**
 * Loading module manifests, and the cache of implementations and commands for each module type.
 * The cache is cleared under the id of a module, but filled under the name of its type: a module
 * whose id is the name of another module's type wipes that type's cache.
 */
module ModuleCache {
  import opened Wrappers
  import opened Json
  import opened Requirements

  const PROBE := "ProbeModule"

  /** The commands of an interface with their definitions. */
  datatype Interface = Interface(cmds: map<string, Json>)

  /** Parsed, validated and patched manifest and interface files. */
  datatype Files = Files(manifests: Manifests, interfaces: map<string, Interface>)

  datatype Cache = Cache(provided: set<string>, cmds: map<string, map<string, Json>>)

  const EMPTY_CACHE := Cache({}, map[])

  datatype Failure = NoManifest | NoInterface | SecondProbe | ProbeConflict | Unresolved | NotFound

  /** What loading fills in; `interfaces` and `cache` are kept by module type, `names` by module id. */
  datatype Loaded = Loaded(
    manifests: Manifests,
    interfaces: map<string, map<string, Interface>>,
    cache: map<string, Cache>,
    names: map<string, string>)

  /** A module to load: its id and the name of its type. */
  datatype Entry = Entry(id: string, kind: string)

  predicate InterfacesKnown(files: Files, manifest: Manifest) {
    forall impl :: impl in manifest.provided ==> manifest.provided[impl].interface in files.interfaces
  }

  /** The interfaces of a module type's implementations. */
  function InterfacesOf(files: Files, manifest: Manifest): map<string, Interface>
    requires InterfacesKnown(files, manifest)
  {
    map impl | impl in manifest.provided :: files.interfaces[manifest.provided[impl].interface]
  }

  function CommandsOf(interfaces: map<string, Interface>): map<string, map<string, Json>> {
    map impl | impl in interfaces :: interfaces[impl].cmds
  }

  /** The manifest that a load uses: the generated one for the probe, else the file. */
  function ManifestFor(files: Files, manifests: Manifests, kind: string): Option<Manifest> {
    if kind == PROBE then if kind in manifests then Some(manifests[kind]) else None
    else if kind in files.manifests then Some(files.manifests[kind]) else None
  }

  /** `load_and_validate_manifest`: clears the cache of the id, fills that of the type. */
  function LoadModule(files: Files, s: Loaded, e: Entry): Result<Loaded, Failure> {
    var cache := s.cache[e.id := EMPTY_CACHE];
    var manifest := ManifestFor(files, s.manifests, e.kind);
    if manifest.None? then Err(NoManifest)
    else if !InterfacesKnown(files, manifest.value) then Err(NoInterface)
    else
      var interfaces := InterfacesOf(files, manifest.value);
      var before := if e.kind in cache then cache[e.kind] else EMPTY_CACHE;
      Ok(Loaded(
           s.manifests[e.kind := manifest.value],
           s.interfaces[e.kind := interfaces],
           cache[e.kind := Cache(manifest.value.provided.Keys, before.cmds + CommandsOf(interfaces))],
           s.names[e.id := e.kind]))
  }

  function LoadAll(files: Files, s: Loaded, order: seq<Entry>): Result<Loaded, Failure> {
    if order == [] then Ok(s)
    else
      var before := LoadAll(files, s, order[..|order| - 1]);
      if before.Err? then before else LoadModule(files, before.value, order[|order| - 1])
  }

  // ---- What the cache holds ----

  /** The cache entry as it should be for a manifest. */
  function RightCache(files: Files, manifest: Manifest): Cache
    requires InterfacesKnown(files, manifest)
  {
    Cache(manifest.provided.Keys, CommandsOf(InterfacesOf(files, manifest)))
  }

  /** Whether the last load that touches the cache of `name` fills it, or only clears it. */
  function LastTouch(order: seq<Entry>, name: string): Option<bool> {
    if order == [] then None
    else
      var last := order[|order| - 1];
      if last.kind == name then Some(true)
      else if last.id == name then Some(false)
      else LastTouch(order[..|order| - 1], name)
  }

  /** A module with the id `name` is loaded after every module of the type `name`. */
  predicate Wiped(order: seq<Entry>, name: string) {
    exists i :: 0 <= i < |order| && order[i].id == name && forall j :: i <= j < |order| ==> order[j].kind != name
  }

  lemma {:induction false} WipedIsLastTouch(order: seq<Entry>, name: string)
    ensures Wiped(order, name) <==> LastTouch(order, name) == Some(false)
    ensures (exists i :: 0 <= i < |order| && order[i].kind == name) ==> LastTouch(order, name).Some?
    ensures LastTouch(order, name) == Some(true) ==> exists i :: 0 <= i < |order| && order[i].kind == name
  {
    if order != [] {
      var n := |order| - 1;
      var init := order[..n];
      WipedIsLastTouch(init, name);
      if order[n].kind == name {
        assert !Wiped(order, name);
      } else if order[n].id == name {
        assert order[n].id == name && forall j :: n <= j < |order| ==> order[j].kind != name;
      } else {
        if Wiped(init, name) {
          var i :| 0 <= i < n && init[i].id == name && forall j :: i <= j < n ==> init[j].kind != name;
          assert forall j :: i <= j < |order| ==> order[j] == (if j < n then init[j] else order[n]);
          assert order[i].id == name;
        }
        if Wiped(order, name) {
          var i :| 0 <= i < |order| && order[i].id == name && forall j :: i <= j < |order| ==> order[j].kind != name;
          assert forall j :: i <= j < n ==> init[j] == order[j];
          assert init[i].id == name;
        }
        if i :| 0 <= i < |order| && order[i].kind == name {
          assert init[i].kind == name;
        }
        if LastTouch(order, name) == Some(true) {
          var i :| 0 <= i < |init| && init[i].kind == name;
          assert order[i].kind == name;
        }
      }
    }
  }

  /** The manifest and the interfaces of a loaded type. */
  predicate KindLoaded(files: Files, probe: Manifests, s: Loaded, kind: string) {
    && ManifestFor(files, probe, kind).Some?
    && kind in s.manifests && s.manifests[kind] == ManifestFor(files, probe, kind).value
    && InterfacesKnown(files, s.manifests[kind])
    && kind in s.interfaces && s.interfaces[kind] == InterfacesOf(files, s.manifests[kind])
  }

  predicate CacheAt(files: Files, s: Loaded, name: string, touch: Option<bool>) {
    match touch
    case None => name !in s.cache
    case Some(false) => name in s.cache && s.cache[name] == EMPTY_CACHE
    case Some(true) =>
      && name in s.cache && name in s.manifests && InterfacesKnown(files, s.manifests[name])
      && s.cache[name] == RightCache(files, s.manifests[name])
  }

  predicate UniqueIds(order: seq<Entry>) {
    forall i, j :: 0 <= i < j < |order| ==> order[i].id != order[j].id
  }

  predicate EntryLoaded(files: Files, probe: Manifests, s: Loaded, e: Entry) {
    KindLoaded(files, probe, s, e.kind) && e.id in s.names && s.names[e.id] == e.kind
  }

  /** Every entry is loaded, and every cache is as its last touch left it; `probe` has the generated manifest. */
  ghost predicate LoadInv(files: Files, probe: Manifests, order: seq<Entry>, s: Loaded) {
    && (forall e {:trigger EntryLoaded(files, probe, s, e)} :: e in order ==> EntryLoaded(files, probe, s, e))
    && (forall name {:trigger LastTouch(order, name)} :: CacheAt(files, s, name, LastTouch(order, name)))
    && (PROBE in s.manifests <==> PROBE in probe) && (PROBE in probe ==> s.manifests[PROBE] == probe[PROBE])
  }

  /** Before the first load there is at most the generated manifest. */
  function Start(probe: Manifests): Loaded {
    Loaded(probe, map[], map[], map[])
  }

  lemma LoadKeepsEntry(files: Files, probe: Manifests, s: Loaded, e: Entry, other: Entry)
    requires EntryLoaded(files, probe, s, other) && other.id != e.id && LoadModule(files, s, e).Ok?
    requires (PROBE in s.manifests <==> PROBE in probe) && (PROBE in probe ==> s.manifests[PROBE] == probe[PROBE])
    ensures EntryLoaded(files, probe, LoadModule(files, s, e).value, other)
  {
  }

  /** A load fills the cache of its type, though it finds the one of an earlier load of the type there. */
  lemma LoadFills(files: Files, s: Loaded, e: Entry)
    requires LoadModule(files, s, e).Ok?
    requires e.kind in s.cache && e.kind != e.id ==>
               || s.cache[e.kind] == EMPTY_CACHE
               || exists m :: ManifestFor(files, s.manifests, e.kind) == Some(m) && InterfacesKnown(files, m)
                              && s.cache[e.kind] == RightCache(files, m)
    ensures var s' := LoadModule(files, s, e).value;
            CacheAt(files, s', e.kind, Some(true))
  {
    var manifest := ManifestFor(files, s.manifests, e.kind).value;
    var right := CommandsOf(InterfacesOf(files, manifest));
    assert right + right == right;
    assert map[] + right == right;
  }

  lemma LoadTouches(files: Files, s: Loaded, order: seq<Entry>, e: Entry, name: string)
    requires CacheAt(files, s, name, LastTouch(order, name)) && LoadModule(files, s, e).Ok?
    requires name in s.manifests && LastTouch(order, name) == Some(true) ==>
             ManifestFor(files, s.manifests, name) == Some(s.manifests[name])
    ensures CacheAt(files, LoadModule(files, s, e).value, name, LastTouch(order + [e], name))
  {
    assert (order + [e])[..|order|] == order;
    if e.kind == name {
      LoadFills(files, s, e);
    }
  }

  lemma LastTouchLoaded(files: Files, probe: Manifests, order: seq<Entry>, s: Loaded, name: string)
    requires LoadInv(files, probe, order, s) && LastTouch(order, name) == Some(true)
    ensures KindLoaded(files, probe, s, name) && ManifestFor(files, s.manifests, name) == Some(s.manifests[name])
  {
    WipedIsLastTouch(order, name);
    var i :| 0 <= i < |order| && order[i].kind == name;
    assert EntryLoaded(files, probe, s, order[i]);
  }

  lemma LoadStepInv(files: Files, probe: Manifests, order: seq<Entry>, s: Loaded, e: Entry)
    requires LoadInv(files, probe, order, s) && UniqueIds(order + [e]) && LoadModule(files, s, e).Ok?
    ensures LoadInv(files, probe, order + [e], LoadModule(files, s, e).value)
  {
    var s' := LoadModule(files, s, e).value;
    forall d | d in order + [e]
      ensures EntryLoaded(files, probe, s', d)
    {
      if d != e {
        var i :| 0 <= i < |order + [e]| && (order + [e])[i] == d;
        assert (order + [e])[|order|] == e;
        assert EntryLoaded(files, probe, s, d);
        LoadKeepsEntry(files, probe, s, e, d);
      }
    }
    forall name
      ensures CacheAt(files, s', name, LastTouch(order + [e], name))
    {
      assert CacheAt(files, s, name, LastTouch(order, name));
      if LastTouch(order, name) == Some(true) {
        LastTouchLoaded(files, probe, order, s, name);
      }
      LoadTouches(files, s, order, e, name);
    }
  }

  lemma {:induction false} LoadAllInv(files: Files, order: seq<Entry>)
    requires UniqueIds(order) && LoadAll(files, Start(map[]), order).Ok?
    ensures LoadInv(files, map[], order, LoadAll(files, Start(map[]), order).value)
    decreases |order|
  {
    if order != [] {
      var n := |order| - 1;
      assert order == order[..n] + [order[n]];
      LoadAllInv(files, order[..n]);
      LoadStepInv(files, map[], order[..n], LoadAll(files, Start(map[]), order[..n]).value, order[n]);
    }
  }

  /** `setup_probe_module_manifest`, after all other modules are loaded. */
  lemma SetupInv(files: Files, order: seq<Entry>, s: Loaded, manifest: Manifest)
    requires LoadInv(files, map[], order, s) && forall e :: e in order ==> e.kind != PROBE
    ensures LoadInv(files, map[PROBE := manifest], order, s.(manifests := s.manifests[PROBE := manifest]))
  {
    var s', probe := s.(manifests := s.manifests[PROBE := manifest]), map[PROBE := manifest];
    forall e | e in order
      ensures EntryLoaded(files, probe, s', e)
    {
      assert EntryLoaded(files, map[], s, e);
    }
    forall name
      ensures CacheAt(files, s', name, LastTouch(order, name))
    {
      assert CacheAt(files, s, name, LastTouch(order, name));
      WipedIsLastTouch(order, name);
    }
  }

  // ---- Looking commands up ----

  /** `Everest::get_cmd_definition`, with `get_module_name`, `get_module_cmds` and `module_provides`. */
  function GetCmdDefinition(s: Loaded, id: string, impl: string, cmd: string): Result<Json, Failure> {
    if id !in s.names then Err(NotFound)
    else
      var name := s.names[id];
      if name !in s.cache || impl !in s.cache[name].cmds then Err(NotFound)
      else if impl !in s.cache[name].provided then Err(NotFound)
      else if cmd !in s.cache[name].cmds[impl] then Err(NotFound)
      else Ok(s.cache[name].cmds[impl][cmd])
  }

  /** The definition that manifest and interface files have for a command. */
  function Definition(files: Files, manifest: Manifest, impl: string, cmd: string): Option<Json>
    requires InterfacesKnown(files, manifest)
  {
    if impl in manifest.provided && cmd in files.interfaces[manifest.provided[impl].interface].cmds
    then Some(files.interfaces[manifest.provided[impl].interface].cmds[cmd]) else None
  }

  /**
   * After loading, looking up a command of a configured module gives what the manifest and
   * interface of its type say, in every case, unless the cache of the type is wiped; then it
   * always fails.
   */
  lemma LookupExactly(files: Files, probe: Manifests, order: seq<Entry>, s: Loaded, e: Entry, impl: string, cmd: string)
    requires LoadInv(files, probe, order, s) && e in order
    ensures e.kind in s.manifests && InterfacesKnown(files, s.manifests[e.kind])
    ensures var definition := Definition(files, s.manifests[e.kind], impl, cmd);
            GetCmdDefinition(s, e.id, impl, cmd) ==
            if !Wiped(order, e.kind) && definition.Some? then Ok(definition.value) else Err(NotFound)
  {
    assert EntryLoaded(files, probe, s, e);
    var i :| 0 <= i < |order| && order[i] == e;
    assert order[i].kind == e.kind;
    WipedIsLastTouch(order, e.kind);
    assert CacheAt(files, s, e.kind, LastTouch(order, e.kind));
  }

  /** No module id is the name of a different module type in use. */
  predicate IdsAreNotOtherKinds(order: seq<Entry>) {
    forall d, e :: d in order && e in order && d.id == e.kind ==> d.kind == e.kind
  }

  lemma NothingIsWiped(order: seq<Entry>, e: Entry)
    requires IdsAreNotOtherKinds(order) && e in order
    ensures !Wiped(order, e.kind)
  {
    forall i | 0 <= i < |order| && order[i].id == e.kind
      ensures order[i].kind == e.kind
    {
      assert order[i] in order;
    }
  }

  /** Such an id makes lookups fail: with a module `m` loaded after all modules of the type `m`. */
  lemma OtherIdWipesCache(files: Files, order: seq<Entry>, s: Loaded, a: Entry, m: Entry, impl: string, cmd: string)
    requires order == [a, m] && a.kind == m.id && m.kind != m.id && a.id != m.id
    requires LoadAll(files, Start(map[]), order) == Ok(s)
    ensures GetCmdDefinition(s, a.id, impl, cmd) == Err(NotFound)
  {
    LoadAllInv(files, order);
    assert order[0] == a && order[1] == m;
    assert Wiped(order, a.kind);
    LookupExactly(files, map[], order, s, a, impl, cmd);
  }
}
