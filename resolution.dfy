/**
 * Name resolution: `GetType` and `GetMethod` are first-match linear searches
 * that throw when nothing matches; here they return `Err` instead. A found
 * type is returned as its location, the handle through which a stage writes
 * the patched type back into the assembly.
 */
module Resolution {
  import opened Wrappers
  import opened Cil

  /** A top-level type: the index of its module, then its index in that module's `Types`. */
  datatype TypeLocation = TypeLocation(moduleIndex: nat, typeIndex: nat)

  predicate IsLocation(modules: seq<ModuleDefinition>, loc: TypeLocation)
  {
    loc.moduleIndex < |modules| && loc.typeIndex < |modules[loc.moduleIndex].types|
  }

  function TypeAt(modules: seq<ModuleDefinition>, loc: TypeLocation): TypeDefinition
    requires IsLocation(modules, loc)
  {
    modules[loc.moduleIndex].types[loc.typeIndex]
  }

  /** `modules` with the type at `loc` replaced by `t` (no change if `loc` is not a location). */
  function UpdateType(modules: seq<ModuleDefinition>, loc: TypeLocation, t: TypeDefinition): seq<ModuleDefinition>
  {
    if IsLocation(modules, loc) then
      var m := modules[loc.moduleIndex];
      modules[loc.moduleIndex := m.(types := m.types[loc.typeIndex := t])]
    else modules
  }

  predicate HasName(t: TypeDefinition, typeNamespace: string, typeName: string)
  {
    t.namespace == typeNamespace && t.name == typeName
  }

  predicate NamedAt(modules: seq<ModuleDefinition>, loc: TypeLocation, typeNamespace: string, typeName: string)
  {
    IsLocation(modules, loc) && HasName(TypeAt(modules, loc), typeNamespace, typeName)
  }

  /** The iteration order of the two nested `foreach` loops: module by module, then type by type. */
  predicate Precedes(a: TypeLocation, b: TypeLocation)
  {
    a.moduleIndex < b.moduleIndex || (a.moduleIndex == b.moduleIndex && a.typeIndex < b.typeIndex)
  }

  /** The first index at or after `from` of a type named `typeNamespace.typeName` in one module. */
  function FindTypeIn(types: seq<TypeDefinition>, typeNamespace: string, typeName: string, from: nat): (r: Option<nat>)
    requires from <= |types|
    decreases |types| - from
    ensures r.Some? ==> from <= r.value < |types| && HasName(types[r.value], typeNamespace, typeName)
    ensures r.Some? ==> forall j :: from <= j < r.value ==> !HasName(types[j], typeNamespace, typeName)
    ensures r.None? ==> forall j :: from <= j < |types| ==> !HasName(types[j], typeNamespace, typeName)
  {
    if from == |types| then None
    else if HasName(types[from], typeNamespace, typeName) then Some(from)
    else FindTypeIn(types, typeNamespace, typeName, from + 1)
  }

  /** The search of `GetType` over the modules from index `m` on. */
  function GetTypeFrom(modules: seq<ModuleDefinition>, typeNamespace: string, typeName: string, m: nat): (r: Result<TypeLocation, PatchError>)
    requires m <= |modules|
    decreases |modules| - m
    ensures r.Ok? ==> m <= r.value.moduleIndex && NamedAt(modules, r.value, typeNamespace, typeName)
    ensures r.Ok? ==> forall loc: TypeLocation :: m <= loc.moduleIndex && Precedes(loc, r.value) ==> !NamedAt(modules, loc, typeNamespace, typeName)
    ensures r.Err? ==> r.error == TypeNotFound(typeNamespace, typeName)
    ensures r.Err? ==> forall loc: TypeLocation :: m <= loc.moduleIndex ==> !NamedAt(modules, loc, typeNamespace, typeName)
  {
    if m == |modules| then Err(TypeNotFound(typeNamespace, typeName))
    else
      match FindTypeIn(modules[m].types, typeNamespace, typeName, 0)
      case Some(j) => Ok(TypeLocation(m, j))
      case None => GetTypeFrom(modules, typeNamespace, typeName, m + 1)
  }

  /**
   * The first top-level type, in iteration order, with the given namespace and
   * name; nested types are not searched. Fails exactly when there is none.
   */
  function GetType(modules: seq<ModuleDefinition>, typeNamespace: string, typeName: string): (r: Result<TypeLocation, PatchError>)
    ensures r.Ok? ==> NamedAt(modules, r.value, typeNamespace, typeName)
    ensures r.Ok? ==> forall loc :: Precedes(loc, r.value) ==> !NamedAt(modules, loc, typeNamespace, typeName)
    ensures r.Err? ==> r.error == TypeNotFound(typeNamespace, typeName)
    ensures r.Err? ==> forall loc :: !NamedAt(modules, loc, typeNamespace, typeName)
  {
    GetTypeFrom(modules, typeNamespace, typeName, 0)
  }

  /** The first index at or after `from` of a method named `methodName`. */
  function FindMethodIn(methods: seq<MethodDefinition>, methodName: string, from: nat): (r: Option<nat>)
    requires from <= |methods|
    decreases |methods| - from
    ensures r.Some? ==> from <= r.value < |methods| && methods[r.value].name == methodName
    ensures r.Some? ==> forall j :: from <= j < r.value ==> methods[j].name != methodName
    ensures r.None? ==> forall j :: from <= j < |methods| ==> methods[j].name != methodName
  {
    if from == |methods| then None
    else if methods[from].name == methodName then Some(from)
    else FindMethodIn(methods, methodName, from + 1)
  }

  /** The index of the first method of `t` named `methodName`. Fails exactly when there is none. */
  function GetMethod(t: TypeDefinition, methodName: string): (r: Result<nat, PatchError>)
    ensures r.Ok? ==> r.value < |t.methods| && t.methods[r.value].name == methodName
    ensures r.Ok? ==> forall j :: 0 <= j < r.value ==> t.methods[j].name != methodName
    ensures r.Err? ==> r.error == MethodNotFound(methodName)
    ensures r.Err? ==> forall j :: 0 <= j < |t.methods| ==> t.methods[j].name != methodName
  {
    match FindMethodIn(t.methods, methodName, 0)
    case Some(j) => Ok(j)
    case None => Err(MethodNotFound(methodName))
  }

  // ---- Lookups only see names ----

  /** Two assemblies with the same top-level type namespaces and names at every location. */
  predicate SameTypeNames(a: seq<ModuleDefinition>, b: seq<ModuleDefinition>)
  {
    |a| == |b|
    && (forall m :: 0 <= m < |a| ==> |a[m].types| == |b[m].types|)
    && (forall m, j :: 0 <= m < |a| && 0 <= j < |a[m].types| ==>
          a[m].types[j].namespace == b[m].types[j].namespace && a[m].types[j].name == b[m].types[j].name)
  }

  lemma {:induction false} FindTypeInSameNames(a: seq<TypeDefinition>, b: seq<TypeDefinition>, typeNamespace: string, typeName: string, from: nat)
    requires |a| == |b| && from <= |a|
    requires forall j :: 0 <= j < |a| ==> a[j].namespace == b[j].namespace && a[j].name == b[j].name
    decreases |a| - from
    ensures FindTypeIn(a, typeNamespace, typeName, from) == FindTypeIn(b, typeNamespace, typeName, from)
  {
    if from < |a| {
      FindTypeInSameNames(a, b, typeNamespace, typeName, from + 1);
    }
  }

  lemma {:induction false} GetTypeFromSameNames(a: seq<ModuleDefinition>, b: seq<ModuleDefinition>, typeNamespace: string, typeName: string, m: nat)
    requires SameTypeNames(a, b) && m <= |a|
    decreases |a| - m
    ensures GetTypeFrom(a, typeNamespace, typeName, m) == GetTypeFrom(b, typeNamespace, typeName, m)
  {
    if m < |a| {
      FindTypeInSameNames(a[m].types, b[m].types, typeNamespace, typeName, 0);
      GetTypeFromSameNames(a, b, typeNamespace, typeName, m + 1);
    }
  }

  /** `GetType` finds the same location in two assemblies whose type names agree. */
  lemma GetTypeSameNames(a: seq<ModuleDefinition>, b: seq<ModuleDefinition>, typeNamespace: string, typeName: string)
    requires SameTypeNames(a, b)
    ensures GetType(a, typeNamespace, typeName) == GetType(b, typeNamespace, typeName)
  {
    GetTypeFromSameNames(a, b, typeNamespace, typeName, 0);
  }

  /** Writing back a type that keeps its namespace and name changes that one location and no name. */
  lemma UpdateTypeKeepsLayout(modules: seq<ModuleDefinition>, loc: TypeLocation, t: TypeDefinition)
    requires IsLocation(modules, loc)
    requires HasName(t, TypeAt(modules, loc).namespace, TypeAt(modules, loc).name)
    ensures SameTypeNames(modules, UpdateType(modules, loc, t))
    ensures forall l :: IsLocation(UpdateType(modules, loc, t), l) <==> IsLocation(modules, l)
    ensures forall l :: IsLocation(modules, l) ==>
      TypeAt(UpdateType(modules, loc, t), l) == if l == loc then t else TypeAt(modules, l)
  {
  }

  /** ... and so every lookup finds what it found before. */
  lemma UpdateTypeKeepsLookups(modules: seq<ModuleDefinition>, loc: TypeLocation, t: TypeDefinition)
    requires IsLocation(modules, loc)
    requires HasName(t, TypeAt(modules, loc).namespace, TypeAt(modules, loc).name)
    ensures forall ns, n :: GetType(UpdateType(modules, loc, t), ns, n) == GetType(modules, ns, n)
  {
    UpdateTypeKeepsLayout(modules, loc, t);
    forall ns, n ensures GetType(UpdateType(modules, loc, t), ns, n) == GetType(modules, ns, n) {
      GetTypeSameNames(modules, UpdateType(modules, loc, t), ns, n);
    }
  }

  /** After a write-back, the location is still a location and holds the written type. */
  lemma UpdateTypeAt(modules: seq<ModuleDefinition>, loc: TypeLocation, t: TypeDefinition)
    requires IsLocation(modules, loc)
    ensures IsLocation(UpdateType(modules, loc, t), loc) && TypeAt(UpdateType(modules, loc, t), loc) == t
  {
  }

  /** A second write-back to the same location replaces the first. */
  lemma UpdateTypeOverwrites(modules: seq<ModuleDefinition>, loc: TypeLocation, a: TypeDefinition, b: TypeDefinition)
    requires IsLocation(modules, loc)
    ensures IsLocation(UpdateType(modules, loc, a), loc) && TypeAt(UpdateType(modules, loc, a), loc) == a
    ensures UpdateType(UpdateType(modules, loc, a), loc, b) == UpdateType(modules, loc, b)
  {
    var m := modules[loc.moduleIndex];
    var once := UpdateType(modules, loc, a);
    assert once[loc.moduleIndex].types[loc.typeIndex := b] == m.types[loc.typeIndex := b];
  }

  /** Write-backs to two different locations can be made in either order. */
  lemma UpdateTypesCommute(modules: seq<ModuleDefinition>, a: TypeLocation, b: TypeLocation, s: TypeDefinition, t: TypeDefinition)
    requires a != b
    ensures UpdateType(UpdateType(modules, a, s), b, t) == UpdateType(UpdateType(modules, b, t), a, s)
  {
    if IsLocation(modules, a) && IsLocation(modules, b) && a.moduleIndex == b.moduleIndex {
      var m := modules[a.moduleIndex];
      assert m.types[a.typeIndex := s][b.typeIndex := t] == m.types[b.typeIndex := t][a.typeIndex := s];
    }
  }

  /** Two types with the same method names at every index. */
  predicate SameMethodNames(s: TypeDefinition, t: TypeDefinition)
  {
    |s.methods| == |t.methods| && forall j :: 0 <= j < |s.methods| ==> s.methods[j].name == t.methods[j].name
  }

  lemma {:induction false} FindMethodInSameNames(a: seq<MethodDefinition>, b: seq<MethodDefinition>, methodName: string, from: nat)
    requires |a| == |b| && from <= |a|
    requires forall j :: 0 <= j < |a| ==> a[j].name == b[j].name
    decreases |a| - from
    ensures FindMethodIn(a, methodName, from) == FindMethodIn(b, methodName, from)
  {
    if from < |a| {
      FindMethodInSameNames(a, b, methodName, from + 1);
    }
  }

  /** `GetMethod` finds the same index in two types whose method names agree. */
  lemma GetMethodSameNames(s: TypeDefinition, t: TypeDefinition, methodName: string)
    requires SameMethodNames(s, t)
    ensures GetMethod(s, methodName) == GetMethod(t, methodName)
  {
    FindMethodInSameNames(s.methods, t.methods, methodName, 0);
  }
}
