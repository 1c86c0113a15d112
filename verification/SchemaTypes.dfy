/**
 * The types that schema files define, and which types they mention: what the code generator
 * works on.
 */
module SchemaTypes {
  import opened Wrappers
  import opened Strings
  import opened TypeRefs

  /** A type in a schema. A reference of a string or an object names a type of a file. */
  datatype Type =
    | Null
    | Boolean
    | Number
    | Integer
    | StringType(reference: Option<string>, enumItems: Option<seq<string>>)
    | ObjectType(reference: Option<string>, properties: map<string, Type>, required: set<string>)
    | ArrayType(items: Option<Type>)
    | Multiple

  type DataTypes = map<string, Type>

  /** The files that parse, by name, under each root directory. */
  type Roots = seq<map<string, DataTypes>>

  // ---- The file of a name ----

  function Matches(roots: Roots, name: string): seq<DataTypes> {
    if roots == [] then []
    else Matches(roots[..|roots| - 1], name) +
         (if name in roots[|roots| - 1] then [roots[|roots| - 1][name]] else [])
  }

  /** The one file of a name; None is the panic if it is missing, or there are several. */
  function Find(roots: Roots, name: string): Option<DataTypes> {
    if |Matches(roots, name)| == 1 then Some(Matches(roots, name)[0]) else None
  }

  /** A root has the file, and no other root has one of that name. */
  predicate OnlyAt(roots: Roots, name: string, i: nat, file: DataTypes) {
    && i < |roots| && name in roots[i] && roots[i][name] == file
    && forall j :: 0 <= j < |roots| && j != i ==> name !in roots[j]
  }

  lemma {:induction false} NoMatch(roots: Roots, name: string)
    ensures Matches(roots, name) == [] <==> forall j :: 0 <= j < |roots| ==> name !in roots[j]
  {
    if roots != [] {
      var n := |roots| - 1;
      NoMatch(roots[..n], name);
      assert forall j :: 0 <= j < n ==> roots[..n][j] == roots[j];
    }
  }

  lemma OnlyAtInit(roots: Roots, n: nat, name: string, i: nat, file: DataTypes)
    requires |roots| == n + 1 && name !in roots[n]
    ensures OnlyAt(roots, name, i, file) <==> OnlyAt(roots[..n], name, i, file)
  {
    var init := roots[..n];
    assert forall j :: 0 <= j < n ==> init[j] == roots[j];
    if OnlyAt(init, name, i, file) {
      assert init[i] == roots[i];
      forall j | 0 <= j < |roots| && j != i
        ensures name !in roots[j]
      {
        if j < n {
          assert name !in init[j];
        }
      }
    }
    if OnlyAt(roots, name, i, file) {
      assert i != n;
      assert init[i] == roots[i];
    }
  }

  lemma {:induction false} OneMatch(roots: Roots, name: string, file: DataTypes)
    ensures Matches(roots, name) == [file] <==> exists i: nat :: OnlyAt(roots, name, i, file)
  {
    if roots != [] {
      var n := |roots| - 1;
      var init := roots[..n];
      NoMatch(init, name);
      OneMatch(init, name, file);
      assert forall j :: 0 <= j < n ==> init[j] == roots[j];
      if name in roots[n] {
        assert Matches(init, name) == [] && roots[n][name] == file ==> OnlyAt(roots, name, n, file);
        if i: nat :| OnlyAt(roots, name, i, file) {
          assert i == n;
          assert forall j :: 0 <= j < n ==> name !in init[j];
        }
        var before := Matches(init, name);
        assert Matches(roots, name) == before + [roots[n][name]];
        if Matches(roots, name) == [file] {
          assert |before + [roots[n][name]]| == 1;
          assert before == [] && (before + [roots[n][name]])[0] == file;
          assert OnlyAt(roots, name, n, file);
        }
      } else {
        forall i: nat
          ensures OnlyAt(roots, name, i, file) <==> OnlyAt(init, name, i, file)
        {
          OnlyAtInit(roots, n, name, i, file);
        }
      }
    }
  }

  /** A file is found exactly if it is the only one of its name under all roots. */
  lemma FindExactly(roots: Roots, name: string, file: DataTypes)
    ensures Find(roots, name) == Some(file) <==> exists i: nat :: OnlyAt(roots, name, i, file)
  {
    OneMatch(roots, name, file);
  }

  /** The type that a reference leads to. */
  function TypeAt(roots: Roots, t: TypeRef): Option<Type> {
    var file := Find(roots, Join(t.path, '/'));
    if file.None? || t.name !in file.value then None else Some(file.value[t.name])
  }

  /** The text of a reference, a file and a name around "#/", leads to the type of that name in that file. */
  lemma ReferenceLeads(roots: Roots, reference: string, file: string, name: string)
    requires TrimSlashes(reference) == file + "#/" + name && NoSeparator(file) && NoSeparator(name)
    ensures FromReference(reference).Some?
    ensures var found := Find(roots, file);
            TypeAt(roots, FromReference(reference).value) ==
            if found.Some? && name in found.value then Some(found.value[name]) else None
  {
    var t := TypeRef(Split(file, '/'), name);
    JoinSplit(file, '/');
    SplitPartsFree(file, '/');
    ReadIff(reference, t);
  }

  // ---- What a type mentions ----

  /** The items of the items, `depth` arrays down. */
  function ItemsAt(t: Type, depth: nat): Option<Type> {
    if depth == 0 then Some(t)
    else if t.ArrayType? && t.items.Some? then ItemsAt(t.items.value, depth - 1)
    else None
  }

  function OwnText(t: Type): Option<string> {
    if t.StringType? || t.ObjectType? then t.reference else None
  }

  /** The text of a reference is that of the type, or inside its array items at any depth. */
  ghost predicate Occurs(text: string, t: Type) {
    exists depth: nat :: ItemsAt(t, depth).Some? && OwnText(ItemsAt(t, depth).value) == Some(text)
  }

  /** A reference can be read, and stands alone. */
  predicate Sound(t: Type) {
    && (OwnText(t).Some? ==> FromReference(OwnText(t).value).Some?)
    && (t.ObjectType? && t.reference.Some? ==> t.properties == map[])
  }

  ghost predicate SoundThroughout(t: Type) {
    forall depth: nat :: ItemsAt(t, depth).Some? ==> Sound(ItemsAt(t, depth).value)
  }

  /** A property of the object `t` is of a type with a reference to `r` in it. */
  ghost predicate Mentions(roots: Roots, t: TypeRef, r: TypeRef) {
    && TypeAt(roots, t).Some? && TypeAt(roots, t).value.ObjectType?
    && var properties := TypeAt(roots, t).value.properties;
       exists p, text :: p in properties && Occurs(text, properties[p]) && FromReference(text) == Some(r)
  }

  ghost predicate Closed(roots: Roots, types: set<TypeRef>) {
    forall t, r {:trigger Mentions(roots, t, r)} :: t in types && Mentions(roots, t, r) ==> r in types
  }

  /** A type that every closed set with the initial types in it has. */
  ghost predicate Reachable(roots: Roots, initial: set<TypeRef>, t: TypeRef) {
    forall types: set<TypeRef> :: initial <= types && Closed(roots, types) ==> t in types
  }

  lemma ReachableStep(roots: Roots, initial: set<TypeRef>, t: TypeRef, r: TypeRef)
    requires Reachable(roots, initial, t) && Mentions(roots, t, r)
    ensures Reachable(roots, initial, r)
  {
    forall types: set<TypeRef> | initial <= types && Closed(roots, types)
      ensures r in types
    {
      assert t in types;
    }
  }
}
