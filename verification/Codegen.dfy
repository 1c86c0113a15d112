/**
 * The type closure of the Rust code generator: from the types that the interfaces of a module
 * refer to, `emit` follows references until every type is defined, and puts each definition
 * into a tree of modules.
 */
module Codegen {
  import opened Wrappers
  import opened Strings
  import opened TypeRefs
  import opened SchemaTypes

  // ---- Type files ----

  /** `YamlRepo` with the cache of `lazy_load`. */
  class YamlRepo {
    const roots: Roots
    var dataTypes: map<string, DataTypes>

    /** What is cached is what would be found. */
    ghost predicate Valid()
      reads this
    {
      forall name :: name in dataTypes ==> Find(roots, name) == Some(dataTypes[name])
    }

    constructor (roots: Roots)
      ensures Valid() && this.roots == roots
    {
      this.roots := roots;
      dataTypes := map[];
    }

    /** `lazy_load`: whatever was loaded before, the result is that of the files. */
    method GetDataTypes(name: string) returns (r: Option<DataTypes>)
      requires Valid()
      modifies this
      ensures Valid() && r == Find(roots, name)
    {
      if name in dataTypes {
        return Some(dataTypes[name]);
      }
      var matches := [];
      var i := 0;
      while i < |roots|
        invariant 0 <= i <= |roots| && Valid()
        invariant matches == Matches(roots[..i], name)
      {
        assert roots[..i + 1][..i] == roots[..i];
        if name in roots[i] {
          matches := matches + [roots[i][name]];
        }
        i := i + 1;
      }
      assert roots[..i] == roots;
      if |matches| != 1 {
        return None;
      }
      dataTypes := dataTypes[name := matches[0]];
      r := Some(matches[0]);
    }
  }

  // ---- The Rust name of a type, and what it refers to ----

  datatype Named = Named(name: string, refs: set<TypeRef>)

  function JoinWith(parts: seq<string>, separator: string): string {
    if |parts| == 0 then ""
    else if |parts| == 1 then parts[0]
    else parts[0] + separator + JoinWith(parts[1..], separator)
  }

  function AbsoluteTypePath(t: TypeRef): string {
    "crate::generated::types::" + JoinWith(t.path, "::") + "::" + t.name
  }

  function Referred(reference: string): Option<Named> {
    var t := FromReference(reference);
    if t.None? then None else Some(Named(AbsoluteTypePath(t.value), {t.value}))
  }

  /** `as_typename`; None is a reference that cannot be read, or one with properties of its own. */
  function AsTypename(t: Type): Option<Named> {
    match t
    case Null => Some(Named("()", {}))
    case Boolean => Some(Named("bool", {}))
    case Number => Some(Named("f64", {}))
    case Integer => Some(Named("i64", {}))
    case StringType(reference, _) =>
      if reference.None? then Some(Named("String", {})) else Referred(reference.value)
    case ObjectType(reference, properties, _) =>
      if reference.None? then Some(Named("::serde_json::Value", {}))
      else if properties != map[] then None
      else Referred(reference.value)
    case ArrayType(items) =>
      if items.None? then Some(Named("Vec<::serde_json::Value>", {}))
      else
        var item := AsTypename(items.value);
        if item.None? then None else Some(item.value.(name := "Vec<" + item.value.name + ">"))
    case Multiple => Some(Named("::serde_json::Value", {}))
  }

  // ---- Definitions ----

  datatype Context =
    | ObjectContext(name: string, properties: map<string, string>)
    | EnumContext(name: string, items: seq<string>)

  datatype Defined = Defined(context: Context, refs: set<TypeRef>)

  predicate PropertiesNamed(properties: map<string, Type>) {
    forall p :: p in properties ==> AsTypename(properties[p]).Some?
  }

  function PropertyName(t: Type, required: bool): string
    requires AsTypename(t).Some?
  {
    if required then AsTypename(t).value.name else "Option<" + AsTypename(t).value.name + ">"
  }

  function PropertyNames(properties: map<string, Type>, required: set<string>): map<string, string>
    requires PropertiesNamed(properties)
  {
    map p | p in properties :: PropertyName(properties[p], p in required)
  }

  function PropertyRefs(properties: map<string, Type>, names: set<string>): set<TypeRef> {
    set p, r | p in names && p in properties && AsTypename(properties[p]).Some?
               && r in AsTypename(properties[p]).value.refs :: r
  }

  /** The part of `type_context_from_ref` after the type is found. */
  function Define(name: string, t: Type): Option<Defined> {
    match t
    case ObjectType(_, properties, required) =>
      if !PropertiesNamed(properties) then None
      else Some(Defined(
                  ObjectContext(name, PropertyNames(properties, required)), PropertyRefs(properties, properties.Keys)))
    case StringType(_, enumItems) =>
      if enumItems.None? then None else Some(Defined(EnumContext(name, enumItems.value), {}))
    case _ => None
  }

  /** `type_context_from_ref`; None is an error or a panic. */
  function Definition(roots: Roots, t: TypeRef): Option<Defined> {
    if TypeAt(roots, t).None? then None else Define(t.name, TypeAt(roots, t).value)
  }

  // ---- What a definition is made of ----

  /** A type has a name exactly if its references are sound, at every depth. */
  lemma {:induction false} NamedIff(t: Type)
    ensures AsTypename(t).Some? <==> SoundThroughout(t)
  {
    assert ItemsAt(t, 0) == Some(t);
    if t.ArrayType? && t.items.Some? {
      NamedIff(t.items.value);
      assert forall depth: nat :: depth > 0 ==> ItemsAt(t, depth) == ItemsAt(t.items.value, depth - 1);
      assert forall depth: nat :: ItemsAt(t.items.value, depth) == ItemsAt(t, depth + 1);
    } else {
      assert forall depth: nat :: ItemsAt(t, depth).Some? ==> depth == 0;
    }
  }

  /** What is referred to is read from exactly the texts that occur in the type. */
  lemma {:induction false} RefersIff(t: Type, r: TypeRef)
    requires AsTypename(t).Some?
    ensures r in AsTypename(t).value.refs <==> exists text :: Occurs(text, t) && FromReference(text) == Some(r)
  {
    assert ItemsAt(t, 0) == Some(t);
    if t.ArrayType? && t.items.Some? {
      RefersIff(t.items.value, r);
      forall text
        ensures Occurs(text, t) <==> Occurs(text, t.items.value)
      {
        OccursInItems(t, text);
      }
    } else {
      assert forall depth: nat :: ItemsAt(t, depth).Some? ==> depth == 0;
      assert OwnText(t).Some? ==> Occurs(OwnText(t).value, t);
    }
  }

  lemma OccursInItems(t: Type, text: string)
    requires t.ArrayType? && t.items.Some?
    ensures Occurs(text, t) <==> Occurs(text, t.items.value)
  {
    if depth: nat :| ItemsAt(t, depth).Some? && OwnText(ItemsAt(t, depth).value) == Some(text) {
      assert ItemsAt(t.items.value, depth - 1) == ItemsAt(t, depth);
    }
    if depth: nat :| ItemsAt(t.items.value, depth).Some? && OwnText(ItemsAt(t.items.value, depth).value) == Some(text) {
      assert ItemsAt(t, depth + 1) == ItemsAt(t.items.value, depth);
    }
  }

  /** The types that a definition refers to. */
  function Refs(roots: Roots, t: TypeRef): set<TypeRef> {
    if Definition(roots, t).Some? then Definition(roots, t).value.refs else {}
  }

  function AllRefs(roots: Roots, types: set<TypeRef>): set<TypeRef> {
    set t, x | t in types && x in Refs(roots, t) :: x
  }

  /** A definition refers to exactly the types that its properties mention. */
  lemma RefsAreMentioned(roots: Roots, t: TypeRef, r: TypeRef)
    ensures r in Refs(roots, t) ==> Mentions(roots, t, r)
    ensures Definition(roots, t).Some? && Mentions(roots, t, r) ==> r in Refs(roots, t)
  {
    if Definition(roots, t).Some? && TypeAt(roots, t).value.ObjectType? {
      var properties := TypeAt(roots, t).value.properties;
      forall p | p in properties
        ensures r in AsTypename(properties[p]).value.refs <==>
                exists text :: Occurs(text, properties[p]) && FromReference(text) == Some(r)
      {
        RefersIff(properties[p], r);
      }
      assert Refs(roots, t) == PropertyRefs(properties, properties.Keys);
    }
  }

  /** An object is defined whose properties have sound references, and a string that is an enum; nothing else. */
  ghost predicate Definable(t: Type) {
    || (t.ObjectType? && forall p :: p in t.properties ==> SoundThroughout(t.properties[p]))
    || (t.StringType? && t.enumItems.Some?)
  }

  /** `name` in the code is a type in Rust: wrapped exactly if the property is not required. */
  predicate DescribesProperty(t: Type, required: bool, name: string) {
    && AsTypename(t).Some?
    && (required ==> name == AsTypename(t).value.name)
    && (!required ==> name == "Option<" + AsTypename(t).value.name + ">")
  }

  /** What is emitted for a type: each property with its Rust type, or the items of the enum. */
  predicate Describes(t: TypeRef, found: Type, context: Context) {
    match context
    case ObjectContext(name, properties) =>
      && name == t.name && found.ObjectType? && properties.Keys == found.properties.Keys
      && forall p :: p in properties ==> DescribesProperty(found.properties[p], p in found.required, properties[p])
    case EnumContext(name, items) =>
      name == t.name && found.StringType? && found.enumItems == Some(items)
  }

  lemma DefinitionExactly(roots: Roots, t: TypeRef)
    ensures Definition(roots, t).Some? <==> TypeAt(roots, t).Some? && Definable(TypeAt(roots, t).value)
    ensures Definition(roots, t).Some? ==>
              && Describes(t, TypeAt(roots, t).value, Definition(roots, t).value.context)
              && forall r :: r in Definition(roots, t).value.refs <==> Mentions(roots, t, r)
  {
    if TypeAt(roots, t).Some? && TypeAt(roots, t).value.ObjectType? {
      var properties := TypeAt(roots, t).value.properties;
      forall p | p in properties
        ensures AsTypename(properties[p]).Some? <==> SoundThroughout(properties[p])
      {
        NamedIff(properties[p]);
      }
    }
    forall r
      ensures Definition(roots, t).Some? ==> (r in Definition(roots, t).value.refs <==> Mentions(roots, t, r))
    {
      RefsAreMentioned(roots, t, r);
    }
  }

  // ---- Rust names ----

  function Vecs(depth: nat, name: string): string {
    if depth == 0 then name else "Vec<" + Vecs(depth - 1, name) + ">"
  }

  /** Arrays of arrays are vectors of vectors. */
  lemma {:induction false} NameIsNested(t: Type, depth: nat)
    requires AsTypename(t).Some? && ItemsAt(t, depth).Some?
    ensures var item := AsTypename(ItemsAt(t, depth).value);
            item.Some? && AsTypename(t).value.name == Vecs(depth, item.value.name)
    decreases depth
  {
    if depth > 0 {
      NameIsNested(t.items.value, depth - 1);
    }
  }

  /** What is no array with items has its own name: a primitive, JSON, or the path of its reference. */
  lemma BaseName(t: Type)
    requires AsTypename(t).Some? && !(t.ArrayType? && t.items.Some?)
    ensures var name := AsTypename(t).value.name;
            && (t.Null? ==> name == "()") && (t.Boolean? ==> name == "bool")
            && (t.Number? ==> name == "f64") && (t.Integer? ==> name == "i64")
            && (t.StringType? && t.reference.None? ==> name == "String")
            && (t.Multiple? || (t.ObjectType? && t.reference.None?) ==> name == "::serde_json::Value")
            && (t.ArrayType? ==> name == "Vec<::serde_json::Value>")
            && (OwnText(t).Some? ==> name == AbsoluteTypePath(FromReference(OwnText(t).value).value))
  {
  }

  /** Segments and name joined in order. */
  function Parts(t: TypeRef): seq<string> {
    t.path + [t.name]
  }

  lemma {:induction false} PathIsJoined(path: seq<string>, name: string)
    requires path != []
    ensures JoinWith(path, "::") + "::" + name == JoinWith(path + [name], "::")
  {
    var parts := path + [name];
    assert parts[1..] == path[1..] + [name] && parts[0] == path[0];
    if |path| > 1 {
      PathIsJoined(path[1..], name);
      Regroup(path[0], "::", JoinWith(path[1..], "::"), "::" + name);
    }
  }

  lemma Regroup(a: string, b: string, c: string, d: string)
    ensures a + b + c + d == a + b + (c + d)
  {
  }

  lemma StartsWith(x: string, u: string)
    ensures x != "" ==> (x + u)[0] == x[0]
    ensures x == "" ==> x + u == u
  {
  }

  /** A text without colons ends where the first colon is. */
  lemma {:induction false} FirstColon(x: string, u: string, y: string, v: string)
    requires ':' !in x && ':' !in y && x + u == y + v
    requires (u == "" || u[0] == ':') && (v == "" || v[0] == ':')
    ensures x == y && u == v
    decreases |x|
  {
    StartsWith(x, u);
    StartsWith(y, v);
    if x != "" && y != "" {
      assert (x + u)[1..] == x[1..] + u && (y + v)[1..] == y[1..] + v;
      FirstColon(x[1..], u, y[1..], v);
      assert x == [x[0]] + x[1..] && y == [y[0]] + y[1..];
    }
  }

  predicate Colonless(parts: seq<string>) {
    forall i :: 0 <= i < |parts| ==> ':' !in parts[i]
  }

  function AfterFirst(parts: seq<string>): string
    requires parts != []
  {
    if |parts| == 1 then "" else "::" + JoinWith(parts[1..], "::")
  }

  lemma JoinFirst(parts: seq<string>)
    requires parts != []
    ensures JoinWith(parts, "::") == parts[0] + AfterFirst(parts)
  {
  }

  lemma {:induction false} JoinedAreDistinct(a: seq<string>, b: seq<string>)
    requires a != [] && b != [] && Colonless(a) && Colonless(b)
    requires JoinWith(a, "::") == JoinWith(b, "::")
    ensures a == b
    decreases |a|
  {
    JoinFirst(a);
    JoinFirst(b);
    FirstColon(a[0], AfterFirst(a), b[0], AfterFirst(b));
    if |a| > 1 && |b| > 1 {
      assert AfterFirst(a)[2..] == JoinWith(a[1..], "::") && AfterFirst(b)[2..] == JoinWith(b[1..], "::");
      JoinedAreDistinct(a[1..], b[1..]);
    }
    assert a == [a[0]] + a[1..] && b == [b[0]] + b[1..];
  }

  /** Different types have different paths in Rust, all under the module of generated types. */
  lemma PathsAreDistinct(t: TypeRef, u: TypeRef)
    requires t.path != [] && u.path != [] && Colonless(Parts(t)) && Colonless(Parts(u))
    ensures AbsoluteTypePath(t) == "crate::generated::types::" + JoinWith(Parts(t), "::")
    ensures AbsoluteTypePath(t) == AbsoluteTypePath(u) ==> t == u
  {
    PathIsJoined(t.path, t.name);
    PathIsJoined(u.path, u.name);
    var prefix := "crate::generated::types::";
    Regroup(prefix, JoinWith(t.path, "::"), "::", t.name);
    Regroup(prefix, JoinWith(u.path, "::"), "::", u.name);
    assert AbsoluteTypePath(t) == prefix + JoinWith(Parts(t), "::");
    assert AbsoluteTypePath(u) == prefix + JoinWith(Parts(u), "::");
    if AbsoluteTypePath(t) == AbsoluteTypePath(u) {
      assert (prefix + JoinWith(Parts(t), "::"))[|prefix|..] == JoinWith(Parts(t), "::");
      assert (prefix + JoinWith(Parts(u), "::"))[|prefix|..] == JoinWith(Parts(u), "::");
      JoinedAreDistinct(Parts(t), Parts(u));
      assert Parts(t)[..|t.path|] == t.path && Parts(u)[..|u.path|] == u.path;
    }
  }

  // ---- Termination ----

  /** The types of the files under one root, referred to by their segments. */
  function TypesOfRoot(root: map<string, DataTypes>): set<TypeRef> {
    set file, name | file in root && name in root[file] :: TypeRef(Split(file, '/'), name)
  }

  function AllTypes(roots: Roots): set<TypeRef> {
    if roots == [] then {} else AllTypes(roots[..|roots| - 1]) + TypesOfRoot(roots[|roots| - 1])
  }

  lemma {:induction false} MatchIsInRoots(roots: Roots, file: string, t: TypeRef)
    requires exists i :: 0 <= i < |Matches(roots, file)| && t.name in Matches(roots, file)[i]
    requires t.path == Split(file, '/')
    ensures t in AllTypes(roots)
  {
    if roots != [] {
      var n := |roots| - 1;
      var i :| 0 <= i < |Matches(roots, file)| && t.name in Matches(roots, file)[i];
      if i < |Matches(roots[..n], file)| {
        assert t.name in Matches(roots[..n], file)[i];
        MatchIsInRoots(roots[..n], file, t);
      } else {
        assert file in roots[n] && t.name in roots[n][file];
      }
    }
  }

  /** References are made of segments without slashes, as reading them yields. */
  predicate Segmented(t: TypeRef) {
    t.path != [] && forall i :: 0 <= i < |t.path| ==> '/' !in t.path[i]
  }

  lemma DefinedIsInFiles(roots: Roots, t: TypeRef)
    requires Segmented(t) && Definition(roots, t).Some?
    ensures t in AllTypes(roots)
  {
    var file := Join(t.path, '/');
    SplitJoin(t.path, '/');
    assert t.name in Matches(roots, file)[0];
    MatchIsInRoots(roots, file, t);
  }

  lemma ReadIsSegmented(reference: string)
    ensures FromReference(reference).Some? ==> Segmented(FromReference(reference).value)
  {
    if FromReference(reference).Some? {
      SplitPartsFree(SplitParts(TrimSlashes(reference))[0], '/');
    }
  }

  lemma {:induction false} NamedRefsAreSegmented(t: Type, r: TypeRef)
    requires AsTypename(t).Some? && r in AsTypename(t).value.refs
    ensures Segmented(r)
  {
    match t
    case StringType(reference, _) =>
      if reference.Some? {
        ReadIsSegmented(reference.value);
      }
    case ObjectType(reference, _, _) =>
      if reference.Some? {
        ReadIsSegmented(reference.value);
      }
    case ArrayType(items) =>
      if items.Some? {
        NamedRefsAreSegmented(items.value, r);
      }
    case _ =>
  }

  lemma RefsAreSegmented(roots: Roots, t: TypeRef, r: TypeRef)
    requires r in Refs(roots, t)
    ensures Segmented(r)
  {
    var def := Find(roots, Join(t.path, '/')).value[t.name];
    if def.ObjectType? {
      var p :| p in def.properties && r in AsTypename(def.properties[p]).value.refs;
      NamedRefsAreSegmented(def.properties[p], r);
    }
  }

  // ---- The module tree ----

  /** `TypeModuleContext`. */
  datatype Tree = Node(children: map<string, Tree>, objects: seq<Context>, enums: seq<Context>)

  const EMPTY_TREE := Node(map[], [], [])

  function Push(tree: Tree, c: Context): Tree {
    if c.ObjectContext? then tree.(objects := tree.objects + [c]) else tree.(enums := tree.enums + [c])
  }

  /** Walks down the module path, making modules on the way, and adds a definition there. */
  function Insert(tree: Tree, path: seq<string>, c: Context): Tree
    decreases |path|
  {
    if path == [] then Push(tree, c)
    else
      var child := if path[0] in tree.children then tree.children[path[0]] else EMPTY_TREE;
      tree.(children := tree.children[path[0] := Insert(child, path[1..], c)])
  }

  function ModuleAt(tree: Tree, path: seq<string>): Tree
    decreases |path|
  {
    if path == [] then tree
    else if path[0] in tree.children then ModuleAt(tree.children[path[0]], path[1..])
    else EMPTY_TREE
  }

  function WithName(items: seq<Context>, name: string): seq<Context> {
    if items == [] then []
    else
      var n := |items| - 1;
      WithName(items[..n], name) + (if items[n].name == name then [items[n]] else [])
  }

  /** The definitions in the tree that a reference leads to. */
  function DefinitionsAt(tree: Tree, t: TypeRef): seq<Context> {
    var here := ModuleAt(tree, t.path);
    WithName(here.objects, t.name) + WithName(here.enums, t.name)
  }

  lemma EmptyTreeHasNothing(path: seq<string>)
    ensures ModuleAt(EMPTY_TREE, path) == EMPTY_TREE
  {
  }

  lemma {:induction false} InsertAt(tree: Tree, path: seq<string>, c: Context, other: seq<string>)
    ensures var before, after := ModuleAt(tree, other), ModuleAt(Insert(tree, path, c), other);
            && after.objects == (if other == path && c.ObjectContext? then before.objects + [c] else before.objects)
            && after.enums == (if other == path && c.EnumContext? then before.enums + [c] else before.enums)
    decreases |path|
  {
    if path != [] && other != [] && other[0] == path[0] {
      var child := if path[0] in tree.children then tree.children[path[0]] else EMPTY_TREE;
      InsertAt(child, path[1..], c, other[1..]);
      EmptyTreeHasNothing(other[1..]);
      EmptyTreeHasNothing(path[1..]);
      assert path == [path[0]] + path[1..] && other == [other[0]] + other[1..];
    }
  }

  lemma WithNameSnoc(items: seq<Context>, c: Context, name: string)
    ensures WithName(items + [c], name) == WithName(items, name) + (if c.name == name then [c] else [])
  {
    assert (items + [c])[..|items|] == items;
  }

  /** Each type done is in the tree exactly once, with its definition, and nothing else is. */
  ghost predicate TreeHas(roots: Roots, tree: Tree, done: set<TypeRef>) {
    && (forall t :: t in done ==> Definition(roots, t).Some?)
    && (forall t {:trigger DefinitionsAt(tree, t)} ::
          DefinitionsAt(tree, t) == if t in done then [Definition(roots, t).value.context] else [])
  }

  lemma EmptyTreeHas(roots: Roots)
    ensures TreeHas(roots, EMPTY_TREE, {})
  {
    forall t
      ensures DefinitionsAt(EMPTY_TREE, t) == []
    {
      EmptyTreeHasNothing(t.path);
    }
  }

  lemma DefinitionKeepsName(roots: Roots, t: TypeRef)
    requires Definition(roots, t).Some?
    ensures Definition(roots, t).value.context.name == t.name
  {
  }

  lemma InsertedElsewhere(tree: Tree, t: TypeRef, c: Context, u: TypeRef)
    requires c.name == t.name && u != t
    ensures DefinitionsAt(Insert(tree, t.path, c), u) == DefinitionsAt(tree, u)
  {
    InsertAt(tree, t.path, c, u.path);
    if u.path == t.path {
      assert u.name != t.name;
      var here := ModuleAt(tree, t.path);
      WithNameSnoc(here.objects, c, u.name);
      WithNameSnoc(here.enums, c, u.name);
    }
  }

  lemma InsertedHere(tree: Tree, t: TypeRef, c: Context)
    requires c.name == t.name && DefinitionsAt(tree, t) == []
    ensures DefinitionsAt(Insert(tree, t.path, c), t) == [c]
  {
    InsertAt(tree, t.path, c, t.path);
    var here := ModuleAt(tree, t.path);
    WithNameSnoc(here.objects, c, t.name);
    WithNameSnoc(here.enums, c, t.name);
  }

  lemma InsertedOnce(roots: Roots, tree: Tree, done: set<TypeRef>, t: TypeRef)
    requires TreeHas(roots, tree, done) && t !in done && Definition(roots, t).Some?
    ensures TreeHas(roots, Insert(tree, t.path, Definition(roots, t).value.context), done + {t})
  {
    var c := Definition(roots, t).value.context;
    var tree' := Insert(tree, t.path, c);
    DefinitionKeepsName(roots, t);
    forall u
      ensures DefinitionsAt(tree', u) == if u in done + {t} then [Definition(roots, u).value.context] else []
    {
      assert DefinitionsAt(tree, u) == if u in done then [Definition(roots, u).value.context] else [];
      if u == t {
        InsertedHere(tree, t, c);
      } else {
        InsertedElsewhere(tree, t, c, u);
      }
    }
  }

  // ---- The work list ----

  /** The properties `done` of an object are described. */
  predicate Described(t: Type, done: set<string>, names: map<string, string>, refs: set<TypeRef>) {
    && t.ObjectType? && done <= t.properties.Keys && names.Keys == done
    && (forall p :: p in done ==>
          AsTypename(t.properties[p]).Some? && names[p] == PropertyName(t.properties[p], p in t.required))
    && refs == PropertyRefs(t.properties, done)
  }

  lemma DescribeOneMore(t: Type, done: set<string>, names: map<string, string>, refs: set<TypeRef>, p: string)
    requires Described(t, done, names, refs) && p in t.properties && AsTypename(t.properties[p]).Some?
    ensures Described(t, done + {p}, names[p := PropertyName(t.properties[p], p in t.required)],
                      refs + AsTypename(t.properties[p]).value.refs)
  {
    assert PropertyRefs(t.properties, done + {p}) ==
           PropertyRefs(t.properties, done) + AsTypename(t.properties[p]).value.refs;
  }

  lemma DescribedAll(name: string, t: Type, names: map<string, string>, refs: set<TypeRef>)
    requires t.ObjectType? && Described(t, t.properties.Keys, names, refs)
    ensures Define(name, t) == Some(Defined(ObjectContext(name, names), refs))
  {
    assert names == PropertyNames(t.properties, t.required);
  }

  lemma MoveOne<T>(done: set<T>, todo: set<T>, x: T)
    requires x in todo
    ensures (done + {x}) + (todo - {x}) == done + todo
  {
  }

  /** The loop of `type_context_from_ref` over the properties of an object. */
  method DefineObject(name: string, t: Type) returns (r: Option<Defined>)
    requires t.ObjectType?
    ensures r == Define(name, t)
  {
    var names: map<string, string> := map[];
    var refs: set<TypeRef> := {};
    var todo := t.properties.Keys;
    ghost var done: set<string> := {};
    while todo != {}
      invariant done + todo == t.properties.Keys
      invariant Described(t, done, names, refs)
      decreases todo
    {
      var p := LeastKey(todo);
      var named := AsTypename(t.properties[p]);
      if named.None? {
        return None;
      }
      DescribeOneMore(t, done, names, refs, p);
      MoveOne(done, todo, p);
      names := names[p := if p in t.required then named.value.name else "Option<" + named.value.name + ">"];
      refs := refs + named.value.refs;
      done, todo := done + {p}, todo - {p};
    }
    assert done == t.properties.Keys;
    DescribedAll(name, t, names, refs);
    r := Some(Defined(ObjectContext(name, names), refs));
  }

  /** `type_context_from_ref`. */
  method TypeContextFromRef(repo: YamlRepo, t: TypeRef) returns (r: Option<Defined>)
    requires repo.Valid()
    modifies repo
    ensures repo.Valid() && r == Definition(repo.roots, t)
  {
    var file := repo.GetDataTypes(Join(t.path, '/'));
    if file.None? || t.name !in file.value {
      return None;
    }
    var found := file.value[t.name];
    if found.ObjectType? {
      r := DefineObject(t.name, found);
    } else if found.StringType? && found.enumItems.Some? {
      r := Some(Defined(EnumContext(t.name, found.enumItems.value), {}));
    } else {
      r := None;
    }
  }

  lemma OneMore<T>(done: set<T>, now: set<T>, todo: set<T>, t: T)
    requires t in todo && now !! todo
    ensures (done + now) + {t} == done + (now + {t})
    ensures (now + {t}) + (todo - {t}) == now + todo && (now + {t}) !! (todo - {t})
  {
  }

  lemma OneMoreRefs(roots: Roots, types: set<TypeRef>, t: TypeRef)
    ensures AllRefs(roots, types + {t}) == AllRefs(roots, types) + Refs(roots, t)
  {
  }

  /** One round of the work list: all types that are not done yet. */
  method EmitRound(repo: YamlRepo, typeRefs: set<TypeRef>, tree: Tree, done: set<TypeRef>)
    returns (r: Option<Tree>, found: set<TypeRef>, ghost missing: TypeRef)
    requires repo.Valid() && done <= typeRefs && TreeHas(repo.roots, tree, done)
    modifies repo
    ensures repo.Valid()
    ensures r.Some? ==> TreeHas(repo.roots, r.value, typeRefs)
    ensures r.Some? ==> found == AllRefs(repo.roots, typeRefs - done)
    ensures r.None? ==> missing in typeRefs && Definition(repo.roots, missing).None?
  {
    var result, added := tree, {};
    found := {};
    missing := TypeRef([], "");
    var todo := typeRefs - done;
    while todo != {}
      invariant repo.Valid() && added + todo == typeRefs - done && added !! todo
      invariant TreeHas(repo.roots, result, done + added)
      invariant found == AllRefs(repo.roots, added)
      decreases todo
    {
      var t :| t in todo;
      var defined := TypeContextFromRef(repo, t);
      if defined.None? {
        return None, found, t;
      }
      InsertedOnce(repo.roots, result, done + added, t);
      OneMoreRefs(repo.roots, added, t);
      OneMore(done, added, todo, t);
      result := Insert(result, t.path, defined.value.context);
      found := found + defined.value.refs;
      added := added + {t};
      todo := todo - {t};
    }
    assert added == typeRefs - done && done + added == typeRefs;
    r := Some(result);
  }

  /**
   * The work list of `emit`. It ends on every input; it succeeds exactly if every type that can
   * be reached from the initial ones is defined; and then the types done are the least set that
   * has the initial ones and is closed under references, each put into the tree once.
   */
  method Emit(repo: YamlRepo, initial: set<TypeRef>) returns (r: Option<Tree>, ghost done: set<TypeRef>)
    requires repo.Valid() && forall t :: t in initial ==> Segmented(t)
    modifies repo
    ensures repo.Valid()
    ensures r.Some? <==> forall t :: Reachable(repo.roots, initial, t) ==> Definition(repo.roots, t).Some?
    ensures r.Some? ==> initial <= done && Closed(repo.roots, done) && TreeHas(repo.roots, r.value, done)
    ensures r.Some? ==> forall types: set<TypeRef> :: initial <= types && Closed(repo.roots, types) ==> done <= types
  {
    var typeRefs := initial;
    var tree := EMPTY_TREE;
    var finished: set<TypeRef> := {};
    EmptyTreeHas(repo.roots);
    while |finished| != |typeRefs|
      invariant repo.Valid() && finished <= typeRefs && initial <= typeRefs
      invariant TreeHas(repo.roots, tree, finished)
      invariant forall t :: t in typeRefs ==> Segmented(t) && Reachable(repo.roots, initial, t)
      invariant forall t :: t in finished ==> Refs(repo.roots, t) <= typeRefs
      decreases |AllTypes(repo.roots) - finished|
    {
      ghost var missing;
      var round, found;
      round, found, missing := EmitRound(repo, typeRefs, tree, finished);
      if round.None? {
        return None, finished;
      }
      RoundMakesProgress(repo.roots, finished, typeRefs);
      RoundReaches(repo.roots, initial, typeRefs, found);
      tree := round.value;
      finished := typeRefs;
      typeRefs := typeRefs + found;
    }
    SameSize(finished, typeRefs);
    done := finished;
    DoneIsClosed(repo.roots, done);
    EveryReachableIsDone(repo.roots, initial, done);
    r := Some(tree);
  }

  lemma DoneIsClosed(roots: Roots, done: set<TypeRef>)
    requires forall t :: t in done ==> Definition(roots, t).Some? && Refs(roots, t) <= done
    ensures Closed(roots, done)
  {
    forall t, r | t in done && Mentions(roots, t, r)
      ensures r in done
    {
      RefsAreMentioned(roots, t, r);
    }
  }

  lemma SameSize(a: set<TypeRef>, b: set<TypeRef>)
    requires a <= b && |a| == |b|
    ensures a == b
  {
    assert b == a + (b - a);
  }

  /** A round that succeeds defines a type more, of the finitely many in the files. */
  lemma RoundMakesProgress(roots: Roots, finished: set<TypeRef>, typeRefs: set<TypeRef>)
    requires finished <= typeRefs && |finished| != |typeRefs|
    requires forall t :: t in typeRefs ==> Segmented(t) && Definition(roots, t).Some?
    ensures |AllTypes(roots) - typeRefs| < |AllTypes(roots) - finished|
  {
    var rest := typeRefs - finished;
    assert typeRefs == finished + rest;
    assert |rest| > 0;
    var t :| t in rest;
    DefinedIsInFiles(roots, t);
    var before, after := AllTypes(roots) - finished, AllTypes(roots) - typeRefs;
    assert before == after + (before - after);
    assert t in before - after;
  }

  lemma RoundReaches(roots: Roots, initial: set<TypeRef>, typeRefs: set<TypeRef>, found: set<TypeRef>)
    requires forall t :: t in typeRefs ==> Segmented(t) && Reachable(roots, initial, t)
    requires forall x :: x in found ==> exists t :: t in typeRefs && x in Refs(roots, t)
    ensures forall x :: x in found ==> Segmented(x) && Reachable(roots, initial, x)
  {
    forall x | x in found
      ensures Segmented(x) && Reachable(roots, initial, x)
    {
      var t :| t in typeRefs && x in Refs(roots, t);
      RefsAreSegmented(roots, t, x);
      RefsAreMentioned(roots, t, x);
      ReachableStep(roots, initial, t, x);
    }
  }

  lemma EveryReachableIsDone(roots: Roots, initial: set<TypeRef>, done: set<TypeRef>)
    requires initial <= done && Closed(roots, done)
    ensures forall t :: Reachable(roots, initial, t) ==> t in done
  {
  }
}
