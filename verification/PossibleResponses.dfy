/** Which responses execution can give: exactly those that conform. */
module PossibleResponses {
  import opened Common
  import opened GraphQL
  import opened CollectFields
  import opened Conformance
  import opened ValueCompletion

  /** What is at one step from a place that holds `v`. */
  ghost function Child(v: Value, s: Segment): Value {
    match s
    case Key(k) => if v.Object? && k in v.fields then v.fields[k] else Null
    case Item(i) => if v.List? && i < |v.items| then v.items[i] else Null
  }

  ghost function At(root: Value, path: Path): Value {
    if path == [] then root else Child(At(root, path[..|path| - 1]), path[|path| - 1])
  }

  lemma AtNext(root: Value, path: Path, s: Segment)
    ensures At(root, path + [s]) == Child(At(root, path), s)
  {
    assert (path + [s])[..|path|] == path;
  }

  ghost function Shown(root: Value, path: Path, f: Selection): Resolved {
    var v := At(root, path);
    if f.Field? && v.List? && |v.items| > First(f) then Ok(Null) else Ok(v)
  }

  /** The resolver that has the parts of one response to give, but no lists of entities longer than a field asks for. */
  ghost function Replay(q: Query, root: Value, types: Types): Resolver {
    Resolver(
      path => false,
      (path, ot, f) => [],
      (path, ot, f, n, v) => Ok(At(root, path)),
      (path, ot, f, n, v) => Shown(root, path, f),
      (path, ot, f, n, v) => Ok(At(root, path)),
      (path, n) => if IsRuntimeType(q, n, types(path, n)) then Some(types(path, n)) else None,
      n => "")
  }

  lemma ReplayKeeps(q: Query, root: Value, types: Types)
    ensures Trusted(q, Replay(q, root, types)) && Limiting(Replay(q, root, types))
  {
    var r := Replay(q, root, types);
    forall path, ot, f, n, v
      ensures Limited(f, r.resolveObjects(path, ot, f, n, v))
    {
      assert r.resolveObjects(path, ot, f, n, v) == Shown(root, path, f);
    }
  }

  /** Values of all fields of the schema's types can be resolved. */
  ghost predicate AllResolvable(q: Query) {
    forall def, name :: def in q.types.Values && GetField(def, name).Some? ==> Resolvable(q, GetField(def, name).value)
  }

  const Limits := Demand(true, LeaderLimits)

  lemma {:induction false} ReplayResolves(q: Query, root: Value, types: Types, path: Path, ot: TypeDefinition,
                                          v: Option<Value>, group: seq<Selection>, ty: Type)
    requires AllFields(group) && group != [] && Resolvable(q, ty)
             && Conforms(q, Limits, types, path, ty, group, At(root, path))
    ensures ResolveFieldValue(q, Replay(q, root, types), path, ot, v, group[0], ty) == Ok(At(root, path))
  {
    match ty
    case NonNullType(inner) => ReplayResolves(q, root, types, path, ot, v, group, inner);
    case NamedType(_) =>
    case ListType(inner) => ReplayResolvesList(q, root, types, path, ot, v, group[0], inner);
  }

  lemma {:induction false} ReplayResolvesList(q: Query, root: Value, types: Types, path: Path, ot: TypeDefinition,
                                              v: Option<Value>, field: Selection, inner: Type)
    requires field.Field? && ItemsResolvable(q, inner)
    requires HoldsEntities(q, inner) && At(root, path).List? ==> |At(root, path).items| <= First(field)
    ensures ResolveList(q, Replay(q, root, types), path, ot, v, field, inner) == Ok(At(root, path))
  {
    match inner
    case NonNullType(ty) =>
      assert BaseType(inner) == BaseType(ty);
      ReplayResolvesList(q, root, types, path, ot, v, field, ty);
    case NamedType(n) =>
      if HoldsEntities(q, inner) { assert Shown(root, path, field) == Ok(At(root, path)); }
  }

  lemma {:induction false} ReplayCompletes(q: Query, root: Value, types: Types, d: nat, path: Path,
                                           group: seq<Selection>, ty: Type)
    requires AllResolvable(q) && FragmentsExist(q) && Within(q, d, group) && group != []
    requires Conforms(q, Limits, types, path, ty, group, At(root, path))
    ensures Complete(q, Replay(q, root, types), d, path, group, ty, At(root, path)) == Ok(At(root, path))
    decreases d, 3, ty, 0, 0
  {
    var v, r := At(root, path), Replay(q, root, types);
    match ty
    case NonNullType(inner) => ReplayCompletes(q, root, types, d, path, group, inner);
    case ListType(inner) =>
      if v.List? {
        ReplayCompletesItems(q, root, types, d, path, group, inner, |v.items|);
        assert v.items[..|v.items|] == v.items;
      }
    case NamedType(n) =>
      if v != Null {
        match q.types[n]
        case ScalarType(_) =>
        case EnumType(_, _) =>
        case InputObjectType(_) =>
        case _ =>
          var ot := TypeThere(q, types, path, n);
          assert IsRuntimeType(q, n, ot);
          ReplayExecutesMerged(q, root, types, d, path, group, ot);
      }
  }

  lemma {:induction false} ReplayCompletesItems(q: Query, root: Value, types: Types, d: nat, path: Path,
                                                group: seq<Selection>, inner: Type, n: nat)
    requires AllResolvable(q) && FragmentsExist(q) && Within(q, d, group) && group != []
    requires At(root, path).List? && n <= |At(root, path).items|
    requires Conforms(q, Limits, types, path, ListType(inner), group, At(root, path))
    ensures CompleteItems(q, Replay(q, root, types), d, path, group, inner, At(root, path).items[..n])
            == Slots(At(root, path).items[..n], [])
    decreases d, 3, inner, 1, n
  {
    if n > 0 {
      var items := At(root, path).items;
      assert items[..n][..n - 1] == items[..n - 1] && items[..n] == items[..n - 1] + [items[n - 1]];
      ReplayCompletesItems(q, root, types, d, path, group, inner, n - 1);
      AtNext(root, path, Item(n - 1));
      ReplayCompletes(q, root, types, d, path + [Item(n - 1)], group, inner);
    }
  }

  lemma {:induction false} ReplayExecutesMerged(q: Query, root: Value, types: Types, d: nat, path: Path,
                                                group: seq<Selection>, ot: TypeDefinition)
    requires AllResolvable(q) && FragmentsExist(q) && Within(q, d, group) && ot in q.types.Values && ot.ObjectType?
    requires ObjectConforms(q, Limits, types, path, ot, Flatten(SelectionSets(group)), At(root, path))
    ensures ExecuteMerged(q, Replay(q, root, types), d, path, group, ot, At(root, path)) == Ok(At(root, path))
    decreases d, 2
  {
    SelectionSetsBounded(q, d, group);
    ReplayExecutes(q, root, types, d, path, ot, Flatten(SelectionSets(group)), Some(At(root, path)));
  }

  /** A response that conforms is what execution gives when a resolver has its parts to give. */
  lemma {:induction false} ReplayExecutes(q: Query, root: Value, types: Types, d: nat, path: Path, ot: TypeDefinition,
                                          sels: seq<Selection>, prefetched: Option<Value>)
    requires AllResolvable(q) && FragmentsExist(q) && Bounded(q, d, sels) && ot in q.types.Values && ot.ObjectType?
    requires prefetched.Some? ==> prefetched.value.Object?
    requires ObjectConforms(q, Limits, types, path, ot, sels, At(root, path))
    ensures Execute(q, Replay(q, root, types), d, path, ot, sels, prefetched) == Ok(At(root, path))
    decreases d, 1
  {
    BoundedSpreads(q, d, sels);
    CollectedBounded(q, d, ot, sels, {});
    var fields := Collect(q, ot, sels, {}).fields;
    var v := At(root, path);
    ReplayGroups(q, root, types, d, path, ot, fields, FirstKeys(fields), DataOf(prefetched));
    assert v.fields == Children(v, FirstKeys(fields)) by {
      assert forall k :: k in v.fields <==> k in ToSet(FirstKeys(fields));
    }
  }

  ghost function Children(v: Value, keys: seq<Name>): map<string, Value> {
    map k | k in keys :: Child(v, Key(k))
  }

  lemma ChildrenNext(v: Value, keys: seq<Name>, key: Name)
    ensures Children(v, keys)[key := Child(v, Key(key))] == Children(v, keys + [key])
  {}

  lemma {:induction false} ReplayGroups(q: Query, root: Value, types: Types, d: nat, path: Path, ot: TypeDefinition,
                                        fields: seq<Selection>, keys: seq<Name>, data: map<string, Value>)
    requires AllResolvable(q) && FragmentsExist(q) && AllFields(fields) && BoundedBelow(q, d, fields)
    requires ot in q.types.Values && ot.ObjectType?
    requires forall k :: k in keys ==> FieldConforms(q, Limits, types, path + [Key(k)], ot, FieldsFor(fields, k),
                                                     Child(At(root, path), Key(k)))
    ensures ExecuteGroups(q, Replay(q, root, types), d, path, ot, fields, keys, data)
            == Progress(Children(At(root, path), keys), [], false)
    decreases d, 0, |keys|
  {
    if keys != [] {
      var n := |keys| - 1;
      var key, before := keys[n], keys[..n];
      assert keys == before + [key];
      ReplayGroups(q, root, types, d, path, ot, fields, before, data);
      ReplayGroup(q, root, types, d, path, ot, fields, key, data);
      GroupsNext(q, Replay(q, root, types), d, path, ot, fields, keys, data);
      ChildrenNext(At(root, path), before, key);
    }
  }

  lemma {:induction false} ReplayGroup(q: Query, root: Value, types: Types, d: nat, path: Path, ot: TypeDefinition,
                                       fields: seq<Selection>, key: Name, data: map<string, Value>)
    requires AllResolvable(q) && FragmentsExist(q) && AllFields(fields) && BoundedBelow(q, d, fields)
    requires ot in q.types.Values && ot.ObjectType?
    requires FieldConforms(q, Limits, types, path + [Key(key)], ot, FieldsFor(fields, key),
                           Child(At(root, path), Key(key)))
    ensures GroupResult(q, Replay(q, root, types), d, path, ot, fields, key, data)
            == Ok(Child(At(root, path), Key(key)))
    decreases d, 0, 0, 1
  {
    AtNext(root, path, Key(key));
    GroupWithin(fields, key);
    var group := FieldsFor(fields, key);
    ReplayField(q, root, types, d, path + [Key(key)], ot, group, Prefetched(data, key, group[0].name));
  }

  lemma {:induction false} ReplayField(q: Query, root: Value, types: Types, d: nat, path: Path, ot: TypeDefinition,
                                       group: seq<Selection>, v: Option<Value>)
    requires AllResolvable(q) && FragmentsExist(q) && AllFields(group) && group != [] && BoundedBelow(q, d, group)
    requires ot in q.types.Values && ot.ObjectType? && FieldConforms(q, Limits, types, path, ot, group, At(root, path))
    ensures ExecuteField(q, Replay(q, root, types), d, path, ot, group, v) == Ok(At(root, path))
    decreases d, 0, 0, 0
  {
    var ty := GetField(ot, group[0].name).value;
    ReplayResolves(q, root, types, path, ot, v, group, ty);
    ReplayCompletes(q, root, types, d - 1, path, group, ty);
  }

  /** `v` is what executing the selections gives with a resolver that keeps to what fields ask for, if nothing fails
      silently. */
  ghost predicate Produces(q: Query, r: Resolver, d: nat, ot: TypeDefinition, sels: seq<Selection>, v: Value)
    requires FragmentsExist(q) && Bounded(q, d, sels) && ot.ObjectType?
  {
    Trusted(q, r) && Limiting(r) && !Silent(q, r, d, [], ot, sels, None)
      && Execute(q, r, d, [], ot, sels, None) == Ok(v)
  }

  /** The possible responses are the conforming ones. */
  lemma ExactlyConforming(q: Query, d: nat, ot: TypeDefinition, sels: seq<Selection>, v: Value)
    requires AllResolvable(q) && FragmentsExist(q) && Bounded(q, d, sels) && ot in q.types.Values && ot.ObjectType?
    ensures (exists r :: Produces(q, r, d, ot, sels, v))
            <==> (exists types :: ObjectConforms(q, Limits, types, [], ot, sels, v))
  {
    if r :| Produces(q, r, d, ot, sels, v) {
      ExecuteExact(q, r, LeaderLimits, d, [], ot, sels, None);
      assert ObjectConforms(q, Limits, TypesOf(r), [], ot, sels, v);
    }
    if types :| ObjectConforms(q, Limits, types, [], ot, sels, v) {
      ReplayProduces(q, d, types, ot, sels, v);
    }
  }

  lemma ReplayProduces(q: Query, d: nat, types: Types, ot: TypeDefinition, sels: seq<Selection>, v: Value)
    requires AllResolvable(q) && FragmentsExist(q) && Bounded(q, d, sels) && ot in q.types.Values && ot.ObjectType?
    requires ObjectConforms(q, Limits, types, [], ot, sels, v)
    ensures Produces(q, Replay(q, v, types), d, ot, sels, v)
  {
    var r := Replay(q, v, types);
    assert At(v, []) == v;
    ReplayKeeps(q, v, types);
    LoudIsNotSilent(q, r, d, [], ot, sels, None);
    ReplayExecutes(q, v, types, d, [], ot, sels, None);
  }
}
