/** Execution of selection sets and completion of values
    (packages/graph-node/graphql/src/execution/execution.rs), for any resolver. */
module ValueCompletion {
  import opened Common
  import opened GraphQL
  import opened CollectFields
  import opened Conformance

  datatype Error =
    | ResolverError(code: nat)
    | NamedTypeError(name: Name)
    | Unimplemented(what: string)
    | NonNullError(field: Name)
    | ListValueError(field: Name)
    | ScalarCoercionError(field: Name, value: Value, typeName: Name)
    | EnumCoercionError(field: Name, value: Value, typeName: Name)
    | AbstractTypeError(name: Name)
    | Timeout
    | Panic

  type Completed = Result<Value, seq<Error>>

  type Resolved = Result<Value, Error>

  /** Everything the execution asks of others, place by place. Only for lists of scalars or enums can there be several
      errors, or none, when that fails. */
  datatype Resolver = Resolver(
    expired: Path -> bool,
    argumentErrors: (Path, TypeDefinition, Selection) -> seq<Error>,
    resolveOne: (Path, TypeDefinition, Selection, Name, Option<Value>) -> Resolved,
    resolveObjects: (Path, TypeDefinition, Selection, Name, Option<Value>) -> Resolved,
    resolveLeaves: (Path, TypeDefinition, Selection, Name, Option<Value>) -> Completed,
    resolveAbstractType: (Path, Name) -> Option<TypeDefinition>,
    showNumber: int -> string)

  function OneError(r: Resolved): Completed {
    match r case Ok(v) => Ok(v) case Err(e) => Err([e])
  }

  function CoerceScalar(r: Resolver, name: Name, v: Value): Option<Value> {
    if v.Null? then Some(v)
    else if name == "Boolean" && v.Boolean? then Some(v)
    else if name == "Int" && v.Int? then
      if -0x8000_0000 <= v.n <= 0x7FFF_FFFF then Some(v) else None
    else if name in {"BigDecimal", "ID", "BigInt"} && v.Int? then Some(Str(r.showNumber(v.n)))
    else if name in {"BigDecimal", "String", "ID", "Bytes", "BigInt"} && v.Str? then Some(v)
    else None
  }

  function CoerceEnum(values: set<Name>, v: Value): Option<Value> {
    if v.Null? then Some(v)
    else if v.Str? && v.s in values then Some(Enum(v.s))
    else if v.Enum? && v.value in values then Some(v)
    else None
  }

  /** A value of its type stays what it is, and a number for a type of strings is printed; nothing else is accepted. */
  lemma CoercedScalarMeaning(r: Resolver, name: Name, v: Value)
    ensures CoerceScalar(r, name, v) ==
            if v == Null || ScalarValue(name, v) then Some(v)
            else if v.Int? && (name == "BigDecimal" || name == "ID" || name == "BigInt")
              then Some(Str(r.showNumber(v.n)))
            else None
  {}

  /** An enum value may come as a string, but must be one of the type. */
  lemma CoercedEnumMeaning(values: set<Name>, v: Value)
    ensures forall w :: CoerceEnum(values, v) == Some(w) <==>
              (w == Null && v == Null) || (w.Enum? && w.value in values && (v == w || v == Str(w.value)))
  {}

  function ResolveFieldValue(q: Query, r: Resolver, path: Path, ot: TypeDefinition, v: Option<Value>,
                             field: Selection, ty: Type): Completed {
    match ty
    case NonNullType(inner) => ResolveFieldValue(q, r, path, ot, v, field, inner)
    case NamedType(n) =>
      if n !in q.types then Err([NamedTypeError(n)]) else
      (match q.types[n]
       case UnionType(_, _) => Err([Unimplemented("unions")])
       case InputObjectType(_) => Err([Panic])
       case _ => OneError(r.resolveOne(path, ot, field, n, v)))
    case ListType(inner) => ResolveList(q, r, path, ot, v, field, inner)
  }

  function ResolveList(q: Query, r: Resolver, path: Path, ot: TypeDefinition, v: Option<Value>, field: Selection,
                       inner: Type): Completed {
    match inner
    case NonNullType(ty) => ResolveList(q, r, path, ot, v, field, ty)
    case NamedType(n) =>
      if n !in q.types then Err([NamedTypeError(n)]) else
      (match q.types[n]
       case UnionType(_, _) => Err([Unimplemented("unions")])
       case InputObjectType(_) => Err([Panic])
       case ScalarType(_) => r.resolveLeaves(path, ot, field, n, v)
       case EnumType(_, _) => r.resolveLeaves(path, ot, field, n, v)
       case _ => OneError(r.resolveObjects(path, ot, field, n, v)))
    case ListType(_) => Err([Unimplemented("nested list types")])
  }

  ghost predicate ListOfLists(ty: Type) {
    match ty
    case NamedType(_) => false
    case NonNullType(inner) => ListOfLists(inner)
    case ListType(inner) => HasList(inner)
  }

  /** What cannot be resolved: fields whose type is not in the schema, or a union or an input type, and lists of
      lists. */
  lemma {:induction false} NeverResolved(q: Query, r: Resolver, path: Path, ot: TypeDefinition, v: Option<Value>,
                                         field: Selection, ty: Type)
    requires BaseType(ty) !in q.types || q.types[BaseType(ty)].UnionType? || q.types[BaseType(ty)].InputObjectType?
             || ListOfLists(ty)
    ensures ResolveFieldValue(q, r, path, ot, v, field, ty).Err?
    ensures ResolveFieldValue(q, r, path, ot, v, field, ty).error != []
  {
    match ty
    case NamedType(_) =>
    case NonNullType(inner) => NeverResolved(q, r, path, ot, v, field, inner);
    case ListType(inner) => ListNeverResolved(q, r, path, ot, v, field, inner);
  }

  lemma {:induction false} ListNeverResolved(q: Query, r: Resolver, path: Path, ot: TypeDefinition, v: Option<Value>,
                                             field: Selection, inner: Type)
    requires BaseType(inner) !in q.types || q.types[BaseType(inner)].UnionType?
             || q.types[BaseType(inner)].InputObjectType? || HasList(inner)
    ensures ResolveList(q, r, path, ot, v, field, inner).Err?
    ensures ResolveList(q, r, path, ot, v, field, inner).error != []
  {
    match inner
    case NonNullType(ty) => ListNeverResolved(q, r, path, ot, v, field, ty);
    case _ =>
  }

  /** What a prefetched object has for a field: under a key of its own for other objects, or under the field's name. */
  function Prefetched(data: map<string, Value>, key: Name, name: FieldName): Option<Value> {
    if "prefetch:" + key in data then Some(data["prefetch:" + key]) else Lookup(data, name)
  }

  /** What is selected below each of the fields is nested at most `d` deep. */
  ghost predicate Within(q: Query, d: nat, group: seq<Selection>) {
    forall f :: f in group ==> f.Field? && Bounded(q, d, f.selectionSet)
  }

  lemma SelectionSetsBounded(q: Query, d: nat, group: seq<Selection>)
    requires Within(q, d, group)
    ensures Bounded(q, d, Flatten(SelectionSets(group)))
  {
    forall i | 0 <= i < |group|
      ensures Bounded(q, d, SelectionSets(group)[i])
    {
      assert group[i] in group;
    }
    FlattenBounded(q, d, SelectionSets(group));
  }

  /** `complete_value` */
  ghost function Complete(q: Query, r: Resolver, d: nat, path: Path, group: seq<Selection>, ty: Type, v: Value)
    : Completed
    requires FragmentsExist(q) && Within(q, d, group) && group != []
    decreases d, 3, ty, 0, 0
  {
    var name := group[0].name;
    match ty
    case NonNullType(inner) =>
      (match Complete(q, r, d, path, group, inner, v)
       case Ok(Null) => Err([NonNullError(name)])
       case other => other)
    case ListType(inner) =>
      if v == Null then Ok(Null)
      else if v.List? then
        var slots := CompleteItems(q, r, d, path, group, inner, v.items);
        if slots.errors == [] then Ok(List(slots.items)) else Err(slots.errors)
      else Err([ListValueError(name)])
    case NamedType(n) =>
      if v == Null then Ok(Null)
      else if n !in q.types then Err([Panic]) else
      match q.types[n]
      case ScalarType(scalar) =>
        (match CoerceScalar(r, scalar, v)
         case Some(w) => Ok(w)
         case None => Err([ScalarCoercionError(name, v, scalar)]))
      case EnumType(enum, values) =>
        (match CoerceEnum(values, v) case Some(w) => Ok(w) case None => Err([EnumCoercionError(name, v, enum)]))
      case InputObjectType(_) => Err([Panic])
      case ObjectType(_, _, _) => ExecuteMerged(q, r, d, path, group, q.types[n], v)
      case _ =>
        match r.resolveAbstractType(path, n)
        case None => Err([AbstractTypeError(q.types[n].name)])
        case Some(ot) => if ot.ObjectType? then ExecuteMerged(q, r, d, path, group, ot, v) else Err([Panic])
  }

  /** The slots of a list once they have all been gone through: null where completion failed. */
  datatype Slots = Slots(items: seq<Value>, errors: seq<Error>)

  ghost function CompleteItems(q: Query, r: Resolver, d: nat, path: Path, group: seq<Selection>, inner: Type,
                               values: seq<Value>): (s: Slots)
    requires FragmentsExist(q) && Within(q, d, group) && group != []
    ensures |s.items| == |values|
    decreases d, 3, inner, 1, |values|
  {
    if values == [] then Slots([], []) else
    var n := |values| - 1;
    var before := CompleteItems(q, r, d, path, group, inner, values[..n]);
    match Complete(q, r, d, path + [Item(n)], group, inner, values[n])
    case Ok(v) => Slots(before.items + [v], before.errors)
    case Err(errors) => Slots(before.items + [Null], before.errors + errors)
  }

  ghost function ExecuteMerged(q: Query, r: Resolver, d: nat, path: Path, group: seq<Selection>, ot: TypeDefinition,
                               v: Value): Completed
    requires FragmentsExist(q) && Within(q, d, group) && ot.ObjectType?
    decreases d, 2
  {
    SelectionSetsBounded(q, d, group);
    Execute(q, r, d, path, ot, Flatten(SelectionSets(group)), Some(v))
  }

  function DataOf(prefetched: Option<Value>): map<string, Value> {
    if prefetched.Some? && prefetched.value.Object? then prefetched.value.fields else map[]
  }

  /** `execute_selection_set` */
  ghost function Execute(q: Query, r: Resolver, d: nat, path: Path, ot: TypeDefinition, sels: seq<Selection>,
                         prefetched: Option<Value>): Completed
    requires FragmentsExist(q) && Bounded(q, d, sels) && ot.ObjectType?
    decreases d, 1
  {
    if prefetched.Some? && !prefetched.value.Object? then Err([Panic]) else
    BoundedSpreads(q, d, sels);
    CollectedBounded(q, d, ot, sels, {});
    var fields := Collect(q, ot, sels, {}).fields;
    var data := DataOf(prefetched);
    var progress := ExecuteGroups(q, r, d, path, ot, fields, FirstKeys(fields), data);
    if progress.errors == [] then Ok(Object(progress.resultMap)) else Err(progress.errors)
  }

  /** The state of the loop over the groups. */
  datatype Progress = Progress(resultMap: map<string, Value>, errors: seq<Error>, stopped: bool) {
    function With(key: Name, c: Completed): Progress {
      match c
      case Ok(v) => Progress(resultMap[key := v], errors, stopped)
      case Err(more) => Progress(resultMap, errors + more, stopped)
    }
  }

  ghost function ExecuteGroups(q: Query, r: Resolver, d: nat, path: Path, ot: TypeDefinition, fields: seq<Selection>,
                               keys: seq<Name>, data: map<string, Value>): Progress
    requires FragmentsExist(q) && AllFields(fields) && BoundedBelow(q, d, fields) && ot.ObjectType?
    decreases d, 0, |keys|
  {
    if keys == [] then Progress(map[], [], false) else
    var n := |keys| - 1;
    var key := keys[n];
    var before := ExecuteGroups(q, r, d, path, ot, fields, keys[..n], data);
    if before.stopped then before
    else if r.expired(path + [Key(key)]) then Progress(before.resultMap, before.errors + [Timeout], true)
    else
      GroupWithin(fields, key);
      var group := FieldsFor(fields, key);
      before.With(key, if group == [] then Err([Panic])
                       else ExecuteField(q, r, d, path + [Key(key)], ot, group, Prefetched(data, key, group[0].name)))
  }

  /** `execute_field`, on what was prefetched for it. */
  ghost function ExecuteField(q: Query, r: Resolver, d: nat, path: Path, ot: TypeDefinition, group: seq<Selection>,
                              v: Option<Value>): Completed
    requires FragmentsExist(q) && AllFields(group) && group != [] && BoundedBelow(q, d, group) && ot.ObjectType?
    decreases d, 0, 0
  {
    var field := group[0];
    var ty := GetField(ot, field.name);
    if ty.None? then Err([Panic]) else
    var argumentErrors := r.argumentErrors(path, ot, field);
    if argumentErrors != [] then Err(argumentErrors) else
    match ResolveFieldValue(q, r, path, ot, v, field, ty.value)
    case Err(errors) => Err(errors)
    case Ok(resolved) => Complete(q, r, d - 1, path, group, ty.value, resolved)
  }

  // ---------- Failing without an error

  /** Completing the value comes to a field whose resolution fails without an error. */
  ghost predicate SilentValue(q: Query, r: Resolver, d: nat, path: Path, group: seq<Selection>, ty: Type, v: Value)
    requires FragmentsExist(q) && Within(q, d, group)
    decreases d, 3, ty
  {
    match ty
    case NonNullType(inner) => SilentValue(q, r, d, path, group, inner, v)
    case ListType(inner) =>
      v.List? && exists i :: 0 <= i < |v.items| && SilentValue(q, r, d, path + [Item(i)], group, inner, v.items[i])
    case NamedType(n) =>
      v != Null && n in q.types &&
      match q.types[n]
      case ScalarType(_) => false
      case EnumType(_, _) => false
      case InputObjectType(_) => false
      case ObjectType(_, _, _) => SilentMerged(q, r, d, path, group, q.types[n], v)
      case _ =>
        var ot := r.resolveAbstractType(path, n);
        ot.Some? && ot.value.ObjectType? && SilentMerged(q, r, d, path, group, ot.value, v)
  }

  ghost predicate SilentMerged(q: Query, r: Resolver, d: nat, path: Path, group: seq<Selection>, ot: TypeDefinition,
                               v: Value)
    requires FragmentsExist(q) && Within(q, d, group) && ot.ObjectType?
    decreases d, 2
  {
    SelectionSetsBounded(q, d, group);
    Silent(q, r, d, path, ot, Flatten(SelectionSets(group)), Some(v))
  }

  /** Executing the selections does. */
  ghost predicate Silent(q: Query, r: Resolver, d: nat, path: Path, ot: TypeDefinition, sels: seq<Selection>,
                         prefetched: Option<Value>)
    requires FragmentsExist(q) && Bounded(q, d, sels) && ot.ObjectType?
    decreases d, 1
  {
    BoundedSpreads(q, d, sels);
    CollectedBounded(q, d, ot, sels, {});
    var fields := Collect(q, ot, sels, {}).fields;
    exists k :: k in FirstKeys(fields) && SilentGroup(q, r, d, path + [Key(k)], ot, fields, k, DataOf(prefetched))
  }

  ghost predicate SilentGroup(q: Query, r: Resolver, d: nat, path: Path, ot: TypeDefinition, fields: seq<Selection>,
                              key: Name, data: map<string, Value>)
    requires FragmentsExist(q) && AllFields(fields) && BoundedBelow(q, d, fields) && ot.ObjectType?
    decreases d, 0, 1
  {
    GroupWithin(fields, key);
    var group := FieldsFor(fields, key);
    group != [] && SilentField(q, r, d, path, ot, group, Prefetched(data, key, group[0].name))
  }

  ghost predicate SilentField(q: Query, r: Resolver, d: nat, path: Path, ot: TypeDefinition, group: seq<Selection>,
                              v: Option<Value>)
    requires FragmentsExist(q) && AllFields(group) && group != [] && BoundedBelow(q, d, group) && ot.ObjectType?
    decreases d, 0, 0
  {
    var ty := GetField(ot, group[0].name);
    ty.Some? && r.argumentErrors(path, ot, group[0]) == [] &&
    var c := ResolveFieldValue(q, r, path, ot, v, group[0], ty.value);
    c == Err([]) || (c.Ok? && SilentValue(q, r, d - 1, path, group, ty.value, c.value))
  }

  // ---------- A response conforms exactly unless that happens

  ghost predicate Explained(c: Completed) {
    c.Err? ==> c.error != []
  }

  /** Abstract types are resolved to types of the schema that they have. */
  ghost predicate Trusted(q: Query, r: Resolver) {
    forall path, n :: r.resolveAbstractType(path, n).Some? ==> IsRuntimeType(q, n, r.resolveAbstractType(path, n).value)
  }

  ghost function TypesOf(r: Resolver): Types {
    (path, n) => if r.resolveAbstractType(path, n).Some? then r.resolveAbstractType(path, n).value
      else InputObjectType(n)
  }

  /** Lists of entities are no longer than the field they are resolved for asks. */
  ghost predicate Limiting(r: Resolver) {
    forall path, ot, f, n, v :: Limited(f, r.resolveObjects(path, ot, f, n, v))
  }

  ghost predicate Limited(f: Selection, c: Resolved) {
    f.Field? && c.Ok? && c.value.List? ==> |c.value.items| <= First(f)
  }

  ghost predicate Keeps(r: Resolver, limit: Limit) {
    limit.Unlimited? || (limit.LeaderLimits? && Limiting(r))
  }

  /** A list of entities that is no longer than `field` asks, and holds no lists. */
  ghost predicate Short(q: Query, ty: Type, field: Selection, v: Value)
    requires field.Field?
  {
    match ty
    case NamedType(_) => true
    case NonNullType(inner) => Short(q, inner, field, v)
    case ListType(inner) => !HasList(inner) && (HoldsEntities(q, inner) && v.List? ==> |v.items| <= First(field))
  }

  lemma {:induction false} NoListIsShort(q: Query, ty: Type, field: Selection, v: Value)
    requires field.Field? && !HasList(ty)
    ensures Short(q, ty, field, v)
  {
    if ty.NonNullType? { NoListIsShort(q, ty.inner, field, v); }
  }

  /** What is resolved for a field is as short as the resolver keeps it, and no list of lists. */
  lemma {:induction false} ResolvedShort(q: Query, r: Resolver, path: Path, ot: TypeDefinition, v: Option<Value>,
                                         field: Selection, ty: Type)
    requires field.Field? && Limiting(r)
    ensures var c := ResolveFieldValue(q, r, path, ot, v, field, ty); c.Ok? ==> Short(q, ty, field, c.value)
  {
    match ty
    case NamedType(_) =>
    case NonNullType(inner) => ResolvedShort(q, r, path, ot, v, field, inner);
    case ListType(inner) => ResolvedListShort(q, r, path, ot, v, field, inner);
  }

  lemma {:induction false} ResolvedListShort(q: Query, r: Resolver, path: Path, ot: TypeDefinition, v: Option<Value>,
                                             field: Selection, inner: Type)
    requires field.Field? && Limiting(r)
    ensures var c := ResolveList(q, r, path, ot, v, field, inner);
            c.Ok? ==> !HasList(inner) && (HoldsEntities(q, inner) && c.value.List? ==> |c.value.items| <= First(field))
  {
    match inner
    case NamedType(n) => assert Limited(field, r.resolveObjects(path, ot, field, n, v));
    case NonNullType(ty) =>
      assert BaseType(inner) == BaseType(ty);
      ResolvedListShort(q, r, path, ot, v, field, ty);
    case ListType(_) =>
  }

  /** Only for a list of scalars or enums can there be an error without errors. */
  lemma {:induction false} SilentForLeaves(q: Query, r: Resolver, path: Path, ot: TypeDefinition, v: Option<Value>,
                                           field: Selection, ty: Type)
    ensures ResolveFieldValue(q, r, path, ot, v, field, ty) == Err([]) ==>
            HasList(ty) && BaseType(ty) in q.types && !HoldsEntities(q, ty)
    ensures ResolveList(q, r, path, ot, v, field, ty) == Err([]) ==> BaseType(ty) in q.types && !HoldsEntities(q, ty)
  {
    match ty
    case NamedType(_) =>
    case NonNullType(inner) => SilentForLeaves(q, r, path, ot, v, field, inner);
    case ListType(inner) => SilentForLeaves(q, r, path, ot, v, field, inner);
  }

  lemma CoercedScalar(r: Resolver, name: Name, v: Value)
    requires CoerceScalar(r, name, v).Some?
    ensures var w := CoerceScalar(r, name, v).value; w == Null || ScalarValue(name, w)
  {}

  /** What was completed conforms but for missing keys, and fully exactly if nothing failed silently. A failure of the
      completion itself comes with an error. */
  ghost predicate Exact(q: Query, limit: Limit, types: Types, path: Path, group: seq<Selection>, ty: Type,
                        c: Completed, silent: bool)
    requires AllFields(group)
  {
    Explained(c) &&
    (c.Ok? ==>
      && Conforms(q, Demand(false, limit), types, path, ty, group, c.value)
      && (Conforms(q, Demand(true, limit), types, path, ty, group, c.value) <==> !silent))
  }

  ghost predicate ExactObject(q: Query, limit: Limit, types: Types, path: Path, ot: TypeDefinition,
                              sels: seq<Selection>, c: Completed, silent: bool)
  {
    Explained(c) &&
    (c.Ok? ==>
      && ObjectConforms(q, Demand(false, limit), types, path, ot, sels, c.value)
      && (ObjectConforms(q, Demand(true, limit), types, path, ot, sels, c.value) <==> !silent))
  }

  /** A value completed for a type is one of that type: no null under a non-null type, lists only at list types. */
  lemma {:induction false} CompleteExact(q: Query, r: Resolver, limit: Limit, d: nat, path: Path,
                                         group: seq<Selection>, ty: Type, v: Value)
    requires FragmentsExist(q) && Within(q, d, group) && group != [] && Trusted(q, r) && Keeps(r, limit)
    requires limit.LeaderLimits? ==> group[0].Field? && Short(q, ty, group[0], v)
    ensures Exact(q, limit, TypesOf(r), path, group, ty, Complete(q, r, d, path, group, ty, v),
                  SilentValue(q, r, d, path, group, ty, v))
    decreases d, 3, ty, 0, 0
  {
    match ty
    case NonNullType(inner) => CompleteExact(q, r, limit, d, path, group, inner, v);
    case ListType(inner) =>
      if v.List? {
        CompleteItemsExact(q, r, limit, d, path, group, inner, v.items);
        ListExact(q, r, limit, d, path, group, inner, v);
      }
    case NamedType(n) => CompleteNamedExact(q, r, limit, d, path, group, n, v);
  }

  lemma {:induction false} CompleteNamedExact(q: Query, r: Resolver, limit: Limit, d: nat, path: Path,
                                              group: seq<Selection>, n: Name, v: Value)
    requires FragmentsExist(q) && Within(q, d, group) && group != [] && Trusted(q, r) && Keeps(r, limit)
    ensures Exact(q, limit, TypesOf(r), path, group, NamedType(n), Complete(q, r, d, path, group, NamedType(n), v),
                  SilentValue(q, r, d, path, group, NamedType(n), v))
    decreases d, 2, 2
  {
    if v != Null && n in q.types {
      match q.types[n]
      case ScalarType(scalar) =>
        if CoerceScalar(r, scalar, v).Some? { CoercedScalar(r, scalar, v); }
      case EnumType(_, _) =>
      case InputObjectType(_) =>
      case ObjectType(_, _, _) =>
        assert IsRuntimeType(q, n, q.types[n]);
        ExecuteMergedExact(q, r, limit, d, path, group, q.types[n], v);
      case _ =>
        var ot := r.resolveAbstractType(path, n);
        if ot.Some? {
          assert IsRuntimeType(q, n, ot.value) && TypeThere(q, TypesOf(r), path, n) == ot.value;
          ExecuteMergedExact(q, r, limit, d, path, group, ot.value, v);
        }
    }
  }

  /** The items of a list once all have been completed. */
  ghost predicate ExactItems(q: Query, r: Resolver, limit: Limit, d: nat, path: Path, group: seq<Selection>,
                             inner: Type, values: seq<Value>, items: seq<Value>)
    requires FragmentsExist(q) && Within(q, d, group)
  {
    |items| == |values| &&
    forall i :: 0 <= i < |values| ==>
      ExactItem(q, r, limit, d, path, group, inner, values[i], i, Ok(items[i]))
  }

  ghost predicate ExactItem(q: Query, r: Resolver, limit: Limit, d: nat, path: Path, group: seq<Selection>, inner: Type,
                            value: Value, i: nat, result: Completed)
    requires FragmentsExist(q) && Within(q, d, group)
  {
    Exact(q, limit, TypesOf(r), path + [Item(i)], group, inner, result,
          SilentValue(q, r, d, path + [Item(i)], group, inner, value))
  }

  lemma {:induction false} CompleteItemsExact(q: Query, r: Resolver, limit: Limit, d: nat, path: Path,
                                              group: seq<Selection>, inner: Type, values: seq<Value>)
    requires FragmentsExist(q) && Within(q, d, group) && group != [] && Trusted(q, r) && Keeps(r, limit)
    requires limit.LeaderLimits? ==> group[0].Field? && !HasList(inner)
    ensures var s := CompleteItems(q, r, d, path, group, inner, values);
            s.errors == [] ==> ExactItems(q, r, limit, d, path, group, inner, values, s.items)
    decreases d, 3, inner, 1, |values|
  {
    if values != [] {
      var n := |values| - 1;
      CompleteItemsExact(q, r, limit, d, path, group, inner, values[..n]);
      if limit.LeaderLimits? { NoListIsShort(q, inner, group[0], values[n]); }
      CompleteExact(q, r, limit, d, path + [Item(n)], group, inner, values[n]);
      var before := CompleteItems(q, r, d, path, group, inner, values[..n]);
      var result := Complete(q, r, d, path + [Item(n)], group, inner, values[n]);
      if before.errors == [] && result.Ok? {
        LastItemExact(q, r, limit, d, path, group, inner, values, before.items, result);
      }
    }
  }

  lemma LastItemExact(q: Query, r: Resolver, limit: Limit, d: nat, path: Path, group: seq<Selection>, inner: Type,
                      values: seq<Value>, before: seq<Value>, result: Completed)
    requires FragmentsExist(q) && Within(q, d, group) && values != [] && result.Ok?
    requires ExactItems(q, r, limit, d, path, group, inner, values[..|values| - 1], before)
    requires ExactItem(q, r, limit, d, path, group, inner, values[|values| - 1], |values| - 1, result)
    ensures ExactItems(q, r, limit, d, path, group, inner, values, before + [result.value])
  {
    var items, n := before + [result.value], |values| - 1;
    forall i | 0 <= i < |values|
      ensures ExactItem(q, r, limit, d, path, group, inner, values[i], i, Ok(items[i]))
    {
      if i < n { assert values[..n][i] == values[i]; }
    }
  }

  lemma ListExact(q: Query, r: Resolver, limit: Limit, d: nat, path: Path, group: seq<Selection>, inner: Type, v: Value)
    requires FragmentsExist(q) && Within(q, d, group) && group != [] && v.List?
    requires HoldsEntities(q, inner) ==> WithinLimit(limit, group, |v.items|)
    requires var s := CompleteItems(q, r, d, path, group, inner, v.items);
             s.errors == [] ==> ExactItems(q, r, limit, d, path, group, inner, v.items, s.items)
    ensures Exact(q, limit, TypesOf(r), path, group, ListType(inner),
                  Complete(q, r, d, path, group, ListType(inner), v),
                  SilentValue(q, r, d, path, group, ListType(inner), v))
  {
    var s := CompleteItems(q, r, d, path, group, inner, v.items);
    if s.errors == [] {
      var w := List(s.items);
      forall i | 0 <= i < |v.items|
        ensures Conforms(q, Demand(false, limit), TypesOf(r), path + [Item(i)], inner, group, w.items[i])
        ensures Conforms(q, Demand(true, limit), TypesOf(r), path + [Item(i)], inner, group, w.items[i])
                <==> !SilentValue(q, r, d, path + [Item(i)], group, inner, v.items[i])
      {}
    }
  }

  lemma {:induction false} ExecuteMergedExact(q: Query, r: Resolver, limit: Limit, d: nat, path: Path,
                                              group: seq<Selection>, ot: TypeDefinition, v: Value)
    requires FragmentsExist(q) && Within(q, d, group) && ot.ObjectType? && Trusted(q, r) && Keeps(r, limit)
    ensures ExactObject(q, limit, TypesOf(r), path, ot, Flatten(SelectionSets(group)),
                        ExecuteMerged(q, r, d, path, group, ot, v), SilentMerged(q, r, d, path, group, ot, v))
    decreases d, 2, 1
  {
    SelectionSetsBounded(q, d, group);
    ExecuteExact(q, r, limit, d, path, ot, Flatten(SelectionSets(group)), Some(v));
  }

  /** A successful response to a selection set has conforming values under collected keys, and all of these keys exactly
      if no field on the way failed without an error. */
  lemma {:induction false} ExecuteExact(q: Query, r: Resolver, limit: Limit, d: nat, path: Path, ot: TypeDefinition,
                                        sels: seq<Selection>, prefetched: Option<Value>)
    requires FragmentsExist(q) && Bounded(q, d, sels) && ot.ObjectType? && Trusted(q, r) && Keeps(r, limit)
    ensures ExactObject(q, limit, TypesOf(r), path, ot, sels, Execute(q, r, d, path, ot, sels, prefetched),
                        Silent(q, r, d, path, ot, sels, prefetched))
    decreases d, 1
  {
    if prefetched.None? || prefetched.value.Object? {
      BoundedSpreads(q, d, sels);
      CollectedBounded(q, d, ot, sels, {});
      var fields := Collect(q, ot, sels, {}).fields;
      var data := DataOf(prefetched);
      GroupsOutcome(q, r, d, path, ot, fields, FirstKeys(fields), data);
      forall k | k in FirstKeys(fields)
        ensures ExactGroup(q, r, limit, d, path, ot, fields, k, data)
      {
        GroupExact(q, r, limit, d, path, ot, fields, k, data);
      }
      var p := ExecuteGroups(q, r, d, path, ot, fields, FirstKeys(fields), data);
      if p.errors == [] {
        ObjectPartial(q, r, limit, d, path, ot, sels, data, Object(p.resultMap));
        ObjectFull(q, r, limit, d, path, ot, sels, data, Object(p.resultMap));
      }
    }
  }

  /** The result for one group, as the loop over the groups gets it. */
  ghost function GroupResult(q: Query, r: Resolver, d: nat, path: Path, ot: TypeDefinition, fields: seq<Selection>,
                             key: Name, data: map<string, Value>): Completed
    requires FragmentsExist(q) && AllFields(fields) && BoundedBelow(q, d, fields) && ot.ObjectType?
  {
    GroupWithin(fields, key);
    var group := FieldsFor(fields, key);
    if group == [] then Err([Panic])
    else ExecuteField(q, r, d, path + [Key(key)], ot, group, Prefetched(data, key, group[0].name))
  }

  /** The value from which the field under `key` is executed: what was prefetched for that key, or else what the object
      has under the field's name, or else none. */
  lemma StartsFrom(q: Query, r: Resolver, d: nat, path: Path, ot: TypeDefinition, fields: seq<Selection>, key: Name,
                   data: map<string, Value>, v: Option<Value>)
    requires FragmentsExist(q) && AllFields(fields) && BoundedBelow(q, d, fields) && ot.ObjectType?
    requires FieldsFor(fields, key) != []
    requires v == if "prefetch:" + key in data then Some(data["prefetch:" + key])
                  else if FieldsFor(fields, key)[0].name in data then Some(data[FieldsFor(fields, key)[0].name])
                  else None
    ensures BoundedBelow(q, d, FieldsFor(fields, key))
    ensures GroupResult(q, r, d, path, ot, fields, key, data)
            == ExecuteField(q, r, d, path + [Key(key)], ot, FieldsFor(fields, key), v)
  {
    GroupWithin(fields, key);
  }

  lemma GroupsNext(q: Query, r: Resolver, d: nat, path: Path, ot: TypeDefinition, fields: seq<Selection>,
                   keys: seq<Name>, data: map<string, Value>)
    requires FragmentsExist(q) && AllFields(fields) && BoundedBelow(q, d, fields) && ot.ObjectType? && keys != []
    requires !r.expired(path + [Key(keys[|keys| - 1])])
    ensures var before, key := ExecuteGroups(q, r, d, path, ot, fields, keys[..|keys| - 1], data), keys[|keys| - 1];
            !before.stopped ==>
              ExecuteGroups(q, r, d, path, ot, fields, keys, data)
                == before.With(key, GroupResult(q, r, d, path, ot, fields, key, data))
  {}

  /** When the loop over the groups ends without errors, a key is missing exactly if its field failed without one. */
  lemma {:induction false} GroupsOutcome(q: Query, r: Resolver, d: nat, path: Path, ot: TypeDefinition,
                                         fields: seq<Selection>, keys: seq<Name>, data: map<string, Value>)
    requires FragmentsExist(q) && AllFields(fields) && BoundedBelow(q, d, fields) && ot.ObjectType?
    ensures var p := ExecuteGroups(q, r, d, path, ot, fields, keys, data); p.stopped ==> p.errors != []
    ensures var p := ExecuteGroups(q, r, d, path, ot, fields, keys, data);
            p.errors == [] ==> Gathered(q, r, d, path, ot, fields, keys, data, p.resultMap)
  {
    if keys != [] {
      var key, rest := keys[|keys| - 1], keys[..|keys| - 1];
      assert keys == rest + [key];
      GroupsOutcome(q, r, d, path, ot, fields, rest, data);
      if !r.expired(path + [Key(key)]) {
        GroupsNext(q, r, d, path, ot, fields, keys, data);
        var before := ExecuteGroups(q, r, d, path, ot, fields, rest, data);
        if before.errors == [] { GatheredNext(q, r, d, path, ot, fields, rest, key, data, before.resultMap); }
      }
    }
  }

  lemma GatheredNext(q: Query, r: Resolver, d: nat, path: Path, ot: TypeDefinition, fields: seq<Selection>,
                     keys: seq<Name>, key: Name, data: map<string, Value>, resultMap: map<string, Value>)
    requires FragmentsExist(q) && AllFields(fields) && BoundedBelow(q, d, fields) && ot.ObjectType?
    requires Gathered(q, r, d, path, ot, fields, keys, data, resultMap)
    ensures var c := GroupResult(q, r, d, path, ot, fields, key, data);
            && (c.Ok? ==> Gathered(q, r, d, path, ot, fields, keys + [key], data, resultMap[key := c.value]))
            && (c == Err([]) ==> Gathered(q, r, d, path, ot, fields, keys + [key], data, resultMap))
  {}

  // ---------- What is not what it should be

  /** Null comes from null only, and fails where it is not allowed. */
  lemma {:induction false} NullFromNull(q: Query, r: Resolver, d: nat, path: Path, group: seq<Selection>, ty: Type,
                                        v: Value)
    requires FragmentsExist(q) && Within(q, d, group) && group != []
    ensures Complete(q, r, d, path, group, ty, v) == Ok(Null) <==> v == Null && !ty.NonNullType?
    decreases ty
  {
    match ty
    case NonNullType(inner) => NullFromNull(q, r, d, path, group, inner, v);
    case ListType(_) =>
    case NamedType(n) => NamedShape(q, r, d, path, group, n, v);
  }

  lemma NamedShape(q: Query, r: Resolver, d: nat, path: Path, group: seq<Selection>, n: Name, v: Value)
    requires FragmentsExist(q) && Within(q, d, group) && group != []
    ensures var c := Complete(q, r, d, path, group, NamedType(n), v);
            && (c == Ok(Null) <==> v == Null)
            && (v != Null && c.Ok? ==> n in q.types)
            && (v != Null && c.Ok? && !q.types[n].ScalarType? && !q.types[n].EnumType? ==> v.Object? && c.value.Object?)
  {
    if v != Null && n in q.types {
      match q.types[n]
      case ObjectType(_, _, _) => MergedShape(q, r, d, path, group, q.types[n], v);
      case ScalarType(_) =>
      case EnumType(_, _) =>
      case InputObjectType(_) =>
      case _ =>
        var ot := r.resolveAbstractType(path, n);
        if ot.Some? && ot.value.ObjectType? { MergedShape(q, r, d, path, group, ot.value, v); }
    }
  }

  lemma MergedShape(q: Query, r: Resolver, d: nat, path: Path, group: seq<Selection>, ot: TypeDefinition, v: Value)
    requires FragmentsExist(q) && Within(q, d, group) && ot.ObjectType?
    ensures var c := ExecuteMerged(q, r, d, path, group, ot, v); c.Ok? ==> v.Object? && c.value.Object?
  {
    SelectionSetsBounded(q, d, group);
    assert Some(v).Some? && Some(v).value == v;
  }

  /** A list comes from a list, and an object from an object. */
  lemma KeepsShape(q: Query, r: Resolver, d: nat, path: Path, group: seq<Selection>, ty: Type, v: Value)
    requires FragmentsExist(q) && Within(q, d, group) && group != [] && v != Null
    ensures ty.ListType? && Complete(q, r, d, path, group, ty, v).Ok? ==>
              v.List? && Complete(q, r, d, path, group, ty, v).value.List?
              && |Complete(q, r, d, path, group, ty, v).value.items| == |v.items|
    ensures ty.NamedType? && Complete(q, r, d, path, group, ty, v).Ok? && ty.name in q.types
            && !q.types[ty.name].ScalarType? && !q.types[ty.name].EnumType? ==>
              v.Object? && Complete(q, r, d, path, group, ty, v).value.Object?
  {
    if ty.NamedType? { NamedShape(q, r, d, path, group, ty.name, v); }
  }

  // ---------- Which errors there are

  function ErrorsOf(c: Completed): seq<Error> {
    match c case Ok(_) => [] case Err(errors) => errors
  }

  /** The errors of all the fields under `keys`, in their order. */
  ghost function AllErrors(q: Query, r: Resolver, d: nat, path: Path, ot: TypeDefinition, fields: seq<Selection>,
                           keys: seq<Name>, data: map<string, Value>): seq<Error>
    requires FragmentsExist(q) && AllFields(fields) && BoundedBelow(q, d, fields) && ot.ObjectType?
  {
    if keys == [] then [] else
    var n := |keys| - 1;
    AllErrors(q, r, d, path, ot, fields, keys[..n], data)
    + ErrorsOf(GroupResult(q, r, d, path, ot, fields, keys[n], data))
  }

  /** Key number `stop` is the first at which the query has run out of time. */
  ghost predicate ExpiresAt(r: Resolver, path: Path, keys: seq<Name>, stop: nat) {
    && stop <= |keys| && (forall i :: 0 <= i < stop ==> !r.expired(path + [Key(keys[i])]))
    && (stop < |keys| ==> r.expired(path + [Key(keys[stop])]))
  }

  /** How the loop over `keys` ends if time runs out at key number `stop`. */
  ghost predicate EndsAt(q: Query, r: Resolver, d: nat, path: Path, ot: TypeDefinition, fields: seq<Selection>,
                         keys: seq<Name>, data: map<string, Value>, stop: nat)
    requires FragmentsExist(q) && AllFields(fields) && BoundedBelow(q, d, fields) && ot.ObjectType? && stop <= |keys|
  {
    var p := ExecuteGroups(q, r, d, path, ot, fields, keys, data);
    && p.stopped == (stop < |keys|)
    && p.errors == AllErrors(q, r, d, path, ot, fields, keys[..stop], data) + if stop < |keys| then [Timeout] else []
  }

  /** The errors of an execution are those of its fields, in their order, up to the first one for which there is no time
      left; after the error for that nothing follows. */
  lemma {:induction false} GroupsErrors(q: Query, r: Resolver, d: nat, path: Path, ot: TypeDefinition,
                                        fields: seq<Selection>, keys: seq<Name>, data: map<string, Value>, stop: nat)
    requires FragmentsExist(q) && AllFields(fields) && BoundedBelow(q, d, fields) && ot.ObjectType?
    requires ExpiresAt(r, path, keys, stop)
    ensures EndsAt(q, r, d, path, ot, fields, keys, data, stop)
    decreases |keys|
  {
    if keys == [] {
      assert keys[..stop] == [];
    } else {
      var n := |keys| - 1;
      if stop < n {
        GroupsErrors(q, r, d, path, ot, fields, keys[..n], data, stop);
        StaysStopped(q, r, d, path, ot, fields, keys, data, stop);
      } else {
        GroupsErrors(q, r, d, path, ot, fields, keys[..n], data, n);
        if stop == n {
          TimesOut(q, r, d, path, ot, fields, keys, data);
        } else {
          LastErrors(q, r, d, path, ot, fields, keys, data);
        }
      }
    }
  }

  lemma StaysStopped(q: Query, r: Resolver, d: nat, path: Path, ot: TypeDefinition, fields: seq<Selection>,
                     keys: seq<Name>, data: map<string, Value>, stop: nat)
    requires FragmentsExist(q) && AllFields(fields) && BoundedBelow(q, d, fields) && ot.ObjectType?
    requires stop < |keys| - 1 && EndsAt(q, r, d, path, ot, fields, keys[..|keys| - 1], data, stop)
    ensures EndsAt(q, r, d, path, ot, fields, keys, data, stop)
  {
    assert keys[..|keys| - 1][..stop] == keys[..stop];
  }

  lemma TimesOut(q: Query, r: Resolver, d: nat, path: Path, ot: TypeDefinition, fields: seq<Selection>,
                 keys: seq<Name>, data: map<string, Value>)
    requires FragmentsExist(q) && AllFields(fields) && BoundedBelow(q, d, fields) && ot.ObjectType? && keys != []
    requires r.expired(path + [Key(keys[|keys| - 1])])
    requires EndsAt(q, r, d, path, ot, fields, keys[..|keys| - 1], data, |keys| - 1)
    ensures EndsAt(q, r, d, path, ot, fields, keys, data, |keys| - 1)
  {
    assert keys[..|keys| - 1][..|keys| - 1] == keys[..|keys| - 1];
  }

  lemma LastErrors(q: Query, r: Resolver, d: nat, path: Path, ot: TypeDefinition, fields: seq<Selection>,
                   keys: seq<Name>, data: map<string, Value>)
    requires FragmentsExist(q) && AllFields(fields) && BoundedBelow(q, d, fields) && ot.ObjectType? && keys != []
    requires !r.expired(path + [Key(keys[|keys| - 1])])
    requires EndsAt(q, r, d, path, ot, fields, keys[..|keys| - 1], data, |keys| - 1)
    ensures EndsAt(q, r, d, path, ot, fields, keys, data, |keys|)
  {
    assert keys[..|keys| - 1][..|keys| - 1] == keys[..|keys| - 1] && keys[..|keys|] == keys;
    GroupsNext(q, r, d, path, ot, fields, keys, data);
  }

  lemma {:induction false} AmongErrors(q: Query, r: Resolver, d: nat, path: Path, ot: TypeDefinition,
                                       fields: seq<Selection>, keys: seq<Name>, data: map<string, Value>, i: nat,
                                       e: Error)
    requires FragmentsExist(q) && AllFields(fields) && BoundedBelow(q, d, fields) && ot.ObjectType? && i < |keys|
    requires e in ErrorsOf(GroupResult(q, r, d, path, ot, fields, keys[i], data))
    ensures e in AllErrors(q, r, d, path, ot, fields, keys, data)
    decreases |keys|
  {
    if i < |keys| - 1 { AmongErrors(q, r, d, path, ot, fields, keys[..|keys| - 1], data, i, e); }
  }

  /** A field with wrong arguments makes the execution fail, with what is wrong among the errors, unless time runs out
      before it is come to. */
  lemma WrongArguments(q: Query, r: Resolver, d: nat, path: Path, ot: TypeDefinition, sels: seq<Selection>,
                       prefetched: Option<Value>, i: nat, e: Error)
    requires FragmentsExist(q) && Bounded(q, d, sels) && ot.ObjectType? && WellSpread(q, sels)
    requires prefetched.Some? ==> prefetched.value.Object?
    requires var fields := Collect(q, ot, sels, {}).fields;
             var keys := FirstKeys(fields);
             && i < |keys| && FieldsFor(fields, keys[i]) != []
             && (forall j :: 0 <= j <= i ==> !r.expired(path + [Key(keys[j])]))
             && var f := FieldsFor(fields, keys[i])[0];
             && GetField(ot, f.name).Some? && e in r.argumentErrors(path + [Key(keys[i])], ot, f)
    ensures Execute(q, r, d, path, ot, sels, prefetched).Err?
    ensures e in Execute(q, r, d, path, ot, sels, prefetched).error
  {
    CollectedBounded(q, d, ot, sels, {});
    var fields, data := Collect(q, ot, sels, {}).fields, DataOf(prefetched);
    var keys := FirstKeys(fields);
    var stop := FirstExpired(r, path, keys);
    GroupWithin(fields, keys[i]);
    assert e in ErrorsOf(GroupResult(q, r, d, path, ot, fields, keys[i], data));
    assert keys[..stop][i] == keys[i];
    AmongErrors(q, r, d, path, ot, fields, keys[..stop], data, i, e);
    GroupsErrors(q, r, d, path, ot, fields, keys, data, stop);
  }

  ghost function FirstExpired(r: Resolver, path: Path, keys: seq<Name>): (stop: nat)
    ensures ExpiresAt(r, path, keys, stop)
  {
    if keys == [] then 0 else
    var n := |keys| - 1;
    var before := FirstExpired(r, path, keys[..n]);
    if before < n then before else if r.expired(path + [Key(keys[n])]) then n else n + 1
  }

  /** The errors of all items of a list, in their order: one that fails does not keep the others from being
      completed. */
  ghost function ItemErrors(q: Query, r: Resolver, d: nat, path: Path, group: seq<Selection>, inner: Type,
                            values: seq<Value>): seq<Error>
    requires FragmentsExist(q) && Within(q, d, group) && group != []
  {
    if values == [] then [] else
    var n := |values| - 1;
    ItemErrors(q, r, d, path, group, inner, values[..n])
    + ErrorsOf(Complete(q, r, d, path + [Item(n)], group, inner, values[n]))
  }

  lemma {:induction false} ItemsErrors(q: Query, r: Resolver, d: nat, path: Path, group: seq<Selection>, inner: Type,
                                       values: seq<Value>)
    requires FragmentsExist(q) && Within(q, d, group) && group != []
    ensures CompleteItems(q, r, d, path, group, inner, values).errors == ItemErrors(q, r, d, path, group, inner, values)
  {
    if values != [] { ItemsErrors(q, r, d, path, group, inner, values[..|values| - 1]); }
  }

  ghost predicate Gathered(q: Query, r: Resolver, d: nat, path: Path, ot: TypeDefinition, fields: seq<Selection>,
                           keys: seq<Name>, data: map<string, Value>, resultMap: map<string, Value>)
    requires FragmentsExist(q) && AllFields(fields) && BoundedBelow(q, d, fields) && ot.ObjectType?
  {
    && (forall k :: k in resultMap ==> k in keys)
    && (forall k :: k in keys ==>
          var c := GroupResult(q, r, d, path, ot, fields, k, data);
          if k in resultMap then c == Ok(resultMap[k]) else c == Err([]))
  }

  ghost predicate ExactGroup(q: Query, r: Resolver, limit: Limit, d: nat, path: Path, ot: TypeDefinition,
                             fields: seq<Selection>, key: Name, data: map<string, Value>)
    requires FragmentsExist(q) && AllFields(fields) && BoundedBelow(q, d, fields) && ot.ObjectType?
  {
    var c, silent := GroupResult(q, r, d, path, ot, fields, key, data),
      SilentGroup(q, r, d, path + [Key(key)], ot, fields, key, data);
    var group := FieldsFor(fields, key);
    && (c == Err([]) ==> silent && ForLeaves(q, ot, group))
    && (c.Ok? ==>
          && FieldConforms(q, Demand(false, limit), TypesOf(r), path + [Key(key)], ot, group, c.value)
          && (FieldConforms(q, Demand(true, limit), TypesOf(r), path + [Key(key)], ot, group, c.value) <==> !silent))
  }

  lemma {:induction false} GroupExact(q: Query, r: Resolver, limit: Limit, d: nat, path: Path, ot: TypeDefinition,
                                      fields: seq<Selection>, key: Name, data: map<string, Value>)
    requires FragmentsExist(q) && AllFields(fields) && BoundedBelow(q, d, fields) && ot.ObjectType? && Trusted(q, r)
             && Keeps(r, limit)
    ensures ExactGroup(q, r, limit, d, path, ot, fields, key, data)
    decreases d, 0, 0
  {
    GroupWithin(fields, key);
    var group, place := FieldsFor(fields, key), path + [Key(key)];
    if group != [] {
      assert group[0] in group;
      var ty := GetField(ot, group[0].name);
      var v := Prefetched(data, key, group[0].name);
      if ty.Some? && r.argumentErrors(place, ot, group[0]) == [] {
        var c := ResolveFieldValue(q, r, place, ot, v, group[0], ty.value);
        if limit.LeaderLimits? { ResolvedShort(q, r, place, ot, v, group[0], ty.value); }
        SilentForLeaves(q, r, place, ot, v, group[0], ty.value);
        if c.Ok? { CompleteExact(q, r, limit, d - 1, place, group, ty.value, c.value); }
      }
    }
  }

  /** All groups have been gone through without errors, with `v` as the object. */
  ghost predicate ExactGroups(q: Query, r: Resolver, limit: Limit, d: nat, path: Path, ot: TypeDefinition,
                              fields: seq<Selection>, data: map<string, Value>, v: Value)
    requires FragmentsExist(q) && AllFields(fields) && BoundedBelow(q, d, fields) && ot.ObjectType? && v.Object?
  {
    && Gathered(q, r, d, path, ot, fields, FirstKeys(fields), data, v.fields)
    && forall k :: k in FirstKeys(fields) ==> ExactGroup(q, r, limit, d, path, ot, fields, k, data)
  }

  lemma ObjectPartial(q: Query, r: Resolver, limit: Limit, d: nat, path: Path, ot: TypeDefinition, sels: seq<Selection>,
                      data: map<string, Value>, v: Value)
    requires FragmentsExist(q) && WellSpread(q, sels) && ot.ObjectType? && v.Object?
    requires BoundedBelow(q, d, Collect(q, ot, sels, {}).fields)
    requires ExactGroups(q, r, limit, d, path, ot, Collect(q, ot, sels, {}).fields, data, v)
    ensures ObjectConforms(q, Demand(false, limit), TypesOf(r), path, ot, sels, v)
  {
    var fields := Collect(q, ot, sels, {}).fields;
    forall k | k in v.fields
      ensures FieldConforms(q, Demand(false, limit), TypesOf(r), path + [Key(k)], ot, FieldsFor(fields, k), v.fields[k])
    {
      assert k in FirstKeys(fields) && ExactGroup(q, r, limit, d, path, ot, fields, k, data);
    }
    forall k | k in FirstKeys(fields) && k !in v.fields
      ensures ForLeaves(q, ot, FieldsFor(fields, k))
    {
      assert ExactGroup(q, r, limit, d, path, ot, fields, k, data);
    }
  }

  lemma ObjectFull(q: Query, r: Resolver, limit: Limit, d: nat, path: Path, ot: TypeDefinition, sels: seq<Selection>,
                   data: map<string, Value>, v: Value)
    requires FragmentsExist(q) && WellSpread(q, sels) && ot.ObjectType? && v.Object?
    requires BoundedBelow(q, d, Collect(q, ot, sels, {}).fields)
    requires ExactGroups(q, r, limit, d, path, ot, Collect(q, ot, sels, {}).fields, data, v)
    ensures var fields := Collect(q, ot, sels, {}).fields;
            ObjectConforms(q, Demand(true, limit), TypesOf(r), path, ot, sels, v)
            <==> forall k :: k in FirstKeys(fields) ==> !SilentGroup(q, r, d, path + [Key(k)], ot, fields, k, data)
  {
    var fields := Collect(q, ot, sels, {}).fields;
    forall k | k in FirstKeys(fields)
      ensures k !in v.fields ==> SilentGroup(q, r, d, path + [Key(k)], ot, fields, k, data)
      ensures k in v.fields ==>
                (FieldConforms(q, Demand(true, limit), TypesOf(r), path + [Key(k)], ot, FieldsFor(fields, k),
                               v.fields[k])
                 <==> !SilentGroup(q, r, d, path + [Key(k)], ot, fields, k, data))
    {
      assert ExactGroup(q, r, limit, d, path, ot, fields, k, data);
    }
  }

  /** Failing to find the scalars or enums of a list comes with an error. */
  ghost predicate Loud(r: Resolver) {
    forall path, ot, f, n, v :: Explained(r.resolveLeaves(path, ot, f, n, v))
  }

  lemma {:induction false} ResolveExplained(q: Query, r: Resolver, path: Path, ot: TypeDefinition, v: Option<Value>,
                                            field: Selection, ty: Type)
    requires Loud(r)
    ensures Explained(ResolveFieldValue(q, r, path, ot, v, field, ty))
    ensures Explained(ResolveList(q, r, path, ot, v, field, ty))
  {
    match ty
    case NonNullType(inner) => ResolveExplained(q, r, path, ot, v, field, inner);
    case NamedType(_) =>
    case ListType(inner) => ResolveExplained(q, r, path, ot, v, field, inner);
  }

  lemma {:induction false} LoudValue(q: Query, r: Resolver, d: nat, path: Path, group: seq<Selection>, ty: Type,
                                     v: Value)
    requires FragmentsExist(q) && Within(q, d, group) && Loud(r)
    ensures !SilentValue(q, r, d, path, group, ty, v)
    decreases d, 3, ty
  {
    match ty
    case NonNullType(inner) => LoudValue(q, r, d, path, group, inner, v);
    case ListType(inner) =>
      if v.List? {
        forall i | 0 <= i < |v.items|
          ensures !SilentValue(q, r, d, path + [Item(i)], group, inner, v.items[i])
        {
          LoudValue(q, r, d, path + [Item(i)], group, inner, v.items[i]);
        }
      }
    case NamedType(n) =>
      SelectionSetsBounded(q, d, group);
      if n in q.types && q.types[n].ObjectType? {
        LoudIsNotSilent(q, r, d, path, q.types[n], Flatten(SelectionSets(group)), Some(v));
      } else if r.resolveAbstractType(path, n).Some? && r.resolveAbstractType(path, n).value.ObjectType? {
        LoudIsNotSilent(q, r, d, path, r.resolveAbstractType(path, n).value, Flatten(SelectionSets(group)), Some(v));
      }
  }

  /** With a loud resolver nothing fails silently, so all successful responses conform. */
  lemma {:induction false} LoudIsNotSilent(q: Query, r: Resolver, d: nat, path: Path, ot: TypeDefinition,
                                           sels: seq<Selection>, prefetched: Option<Value>)
    requires FragmentsExist(q) && Bounded(q, d, sels) && ot.ObjectType? && Loud(r)
    ensures !Silent(q, r, d, path, ot, sels, prefetched)
    decreases d, 1
  {
    BoundedSpreads(q, d, sels);
    CollectedBounded(q, d, ot, sels, {});
    var fields := Collect(q, ot, sels, {}).fields;
    forall k | k in FirstKeys(fields)
      ensures !SilentGroup(q, r, d, path + [Key(k)], ot, fields, k, DataOf(prefetched))
    {
      LoudGroup(q, r, d, path + [Key(k)], ot, fields, k, DataOf(prefetched));
    }
  }

  lemma {:induction false} LoudGroup(q: Query, r: Resolver, d: nat, path: Path, ot: TypeDefinition,
                                     fields: seq<Selection>, key: Name, data: map<string, Value>)
    requires FragmentsExist(q) && AllFields(fields) && BoundedBelow(q, d, fields) && ot.ObjectType? && Loud(r)
    ensures !SilentGroup(q, r, d, path, ot, fields, key, data)
    decreases d, 0
  {
    GroupWithin(fields, key);
    var group := FieldsFor(fields, key);
    if group != [] {
      var ty, v := GetField(ot, group[0].name), Prefetched(data, key, group[0].name);
      if ty.Some? {
        ResolveExplained(q, r, path, ot, v, group[0], ty.value);
        var c := ResolveFieldValue(q, r, path, ot, v, group[0], ty.value);
        if c.Ok? { LoudValue(q, r, d - 1, path, group, ty.value, c.value); }
      }
    }
  }

  // ---------- Execution fails only where something is wrong

  /** `v` can be completed for a field of type `ty`. */
  ghost predicate Shaped(q: Query, r: Resolver, ty: Type, v: Value)
    decreases ty
  {
    match ty
    case NonNullType(inner) => v != Null && Shaped(q, r, inner, v)
    case ListType(inner) => v == Null || (v.List? && forall i :: 0 <= i < |v.items| ==> Shaped(q, r, inner, v.items[i]))
    case NamedType(n) =>
      v == Null ||
      (n in q.types &&
       match q.types[n]
       case ScalarType(name) => CoerceScalar(r, name, v).Some?
       case EnumType(_, values) => CoerceEnum(values, v).Some?
       case InputObjectType(_) => false
       case ObjectType(_, _, _) => v.Object?
       case _ => v.Object? && forall path :: r.resolveAbstractType(path, n).Some?)
  }

  /** Neither unions nor lists of lists can be resolved. */
  predicate Resolvable(q: Query, ty: Type) {
    match ty
    case NonNullType(inner) => Resolvable(q, inner)
    case NamedType(n) => n in q.types && !q.types[n].UnionType? && !q.types[n].InputObjectType?
    case ListType(inner) => ItemsResolvable(q, inner)
  }

  predicate ItemsResolvable(q: Query, ty: Type) {
    match ty
    case NonNullType(inner) => ItemsResolvable(q, inner)
    case NamedType(n) => n in q.types && !q.types[n].UnionType? && !q.types[n].InputObjectType?
    case ListType(_) => false
  }

  /** Time never runs out, arguments are fine, and values of the right shape are found for all fields. */
  ghost predicate Willing(q: Query, r: Resolver) {
    && Trusted(q, r)
    && (forall path :: !r.expired(path))
    && (forall path, ot, f :: r.argumentErrors(path, ot, f) == [])
    && (forall path, ot, v, f, ty :: Resolvable(q, ty) ==>
       Provides(q, r, ty, ResolveFieldValue(q, r, path, ot, v, f, ty)))
  }

  ghost predicate Provides(q: Query, r: Resolver, ty: Type, c: Completed) {
    c.Ok? && Shaped(q, r, ty, c.value)
  }

  /** All that is selected exists and can be resolved, for all types that values may turn out to have. */
  ghost predicate Executable(q: Query, d: nat, ot: TypeDefinition, sels: seq<Selection>)
    decreases d, 1
  {
    ot.ObjectType? && WellSpread(q, sels) &&
    var fields := Collect(q, ot, sels, {}).fields;
    forall k :: k in FirstKeys(fields) ==> GroupExecutable(q, d, ot, FieldsFor(fields, k))
  }

  ghost predicate GroupExecutable(q: Query, d: nat, ot: TypeDefinition, group: seq<Selection>)
    requires AllFields(group)
    decreases d, 0
  {
    group != [] && d > 0 &&
    var ty := GetField(ot, group[0].name);
    ty.Some? && Resolvable(q, ty.value) && BelowExecutable(q, d - 1, ty.value, group)
  }

  ghost predicate BelowExecutable(q: Query, d: nat, ty: Type, group: seq<Selection>)
    requires AllFields(group)
    decreases d, 2
  {
    forall ot :: IsRuntimeType(q, BaseType(ty), ot) ==> Executable(q, d, ot, Flatten(SelectionSets(group)))
  }

  lemma {:induction false} CompleteSucceeds(q: Query, r: Resolver, d: nat, path: Path, group: seq<Selection>,
                                            ty: Type, v: Value)
    requires FragmentsExist(q) && Within(q, d, group) && group != [] && Willing(q, r)
    requires Shaped(q, r, ty, v) && BelowExecutable(q, d, ty, group)
    ensures var c := Complete(q, r, d, path, group, ty, v); c.Ok? && (v != Null ==> c.value != Null)
    decreases d, 3, ty, 0, 0
  {
    match ty
    case NonNullType(inner) => CompleteSucceeds(q, r, d, path, group, inner, v);
    case ListType(inner) =>
      if v.List? { CompleteItemsSucceed(q, r, d, path, group, inner, v.items); }
    case NamedType(n) =>
      if v != Null {
        match q.types[n]
        case ScalarType(_) =>
        case EnumType(_, _) =>
        case InputObjectType(_) =>
        case ObjectType(_, _, _) =>
          assert IsRuntimeType(q, n, q.types[n]);
          ExecuteMergedSucceeds(q, r, d, path, group, q.types[n], v);
        case _ =>
          var ot := r.resolveAbstractType(path, n);
          assert IsRuntimeType(q, n, ot.value);
          ExecuteMergedSucceeds(q, r, d, path, group, ot.value, v);
      }
  }

  lemma {:induction false} CompleteItemsSucceed(q: Query, r: Resolver, d: nat, path: Path, group: seq<Selection>,
                                                inner: Type, values: seq<Value>)
    requires FragmentsExist(q) && Within(q, d, group) && group != [] && Willing(q, r)
    requires BelowExecutable(q, d, inner, group) && forall i :: 0 <= i < |values| ==> Shaped(q, r, inner, values[i])
    ensures CompleteItems(q, r, d, path, group, inner, values).errors == []
    decreases d, 3, inner, 1, |values|
  {
    if values != [] {
      var n := |values| - 1;
      CompleteItemsSucceed(q, r, d, path, group, inner, values[..n]);
      CompleteSucceeds(q, r, d, path + [Item(n)], group, inner, values[n]);
    }
  }

  lemma {:induction false} ExecuteMergedSucceeds(q: Query, r: Resolver, d: nat, path: Path, group: seq<Selection>,
                                                 ot: TypeDefinition, v: Value)
    requires FragmentsExist(q) && Within(q, d, group) && ot.ObjectType? && Willing(q, r)
    requires v.Object? && Executable(q, d, ot, Flatten(SelectionSets(group)))
    ensures var c := ExecuteMerged(q, r, d, path, group, ot, v); c.Ok? && c.value.Object?
    decreases d, 2
  {
    SelectionSetsBounded(q, d, group);
    ExecuteSucceeds(q, r, d, path, ot, Flatten(SelectionSets(group)), Some(v));
  }

  /** With a resolver that has a value of the right shape for every field, execution does not fail. */
  lemma {:induction false} ExecuteSucceeds(q: Query, r: Resolver, d: nat, path: Path, ot: TypeDefinition,
                                           sels: seq<Selection>, prefetched: Option<Value>)
    requires FragmentsExist(q) && Bounded(q, d, sels) && Willing(q, r) && Executable(q, d, ot, sels)
    requires prefetched.Some? ==> prefetched.value.Object?
    ensures var c := Execute(q, r, d, path, ot, sels, prefetched); c.Ok? && c.value.Object?
    decreases d, 1
  {
    CollectedBounded(q, d, ot, sels, {});
    var fields := Collect(q, ot, sels, {}).fields;
    var data := DataOf(prefetched);
    GroupsSucceed(q, r, d, path, ot, fields, FirstKeys(fields), data);
  }

  lemma {:induction false} GroupsSucceed(q: Query, r: Resolver, d: nat, path: Path, ot: TypeDefinition,
                                         fields: seq<Selection>, keys: seq<Name>, data: map<string, Value>)
    requires FragmentsExist(q) && AllFields(fields) && BoundedBelow(q, d, fields) && ot.ObjectType? && Willing(q, r)
    requires forall k :: k in keys ==> GroupExecutable(q, d, ot, FieldsFor(fields, k))
    ensures var p := ExecuteGroups(q, r, d, path, ot, fields, keys, data); p.errors == [] && !p.stopped
    decreases d, 0, |keys|
  {
    if keys != [] {
      var key, before := keys[|keys| - 1], keys[..|keys| - 1];
      assert keys == before + [key];
      GroupsSucceed(q, r, d, path, ot, fields, before, data);
      GroupSucceeds(q, r, d, path, ot, fields, key, data);
      GroupsNext(q, r, d, path, ot, fields, keys, data);
    }
  }

  lemma {:induction false} GroupSucceeds(q: Query, r: Resolver, d: nat, path: Path, ot: TypeDefinition,
                                         fields: seq<Selection>, key: Name, data: map<string, Value>)
    requires FragmentsExist(q) && AllFields(fields) && BoundedBelow(q, d, fields) && ot.ObjectType? && Willing(q, r)
    requires GroupExecutable(q, d, ot, FieldsFor(fields, key))
    ensures GroupResult(q, r, d, path, ot, fields, key, data).Ok?
    decreases d, 0, 0
  {
    GroupWithin(fields, key);
    var group, place := FieldsFor(fields, key), path + [Key(key)];
    var ty, v := GetField(ot, group[0].name).value, Prefetched(data, key, group[0].name);
    var resolved := ResolveFieldValue(q, r, place, ot, v, group[0], ty);
    assert Provides(q, r, ty, resolved);
    CompleteSucceeds(q, r, d - 1, place, group, ty, resolved.value);
  }

  // ---------- What an error without errors does

  /** A list of numbers whose resolution fails without an error, which the source's interface for resolvers allows: the
      field, though not nullable, is missing from a response that counts as successful. */
  lemma SilentFailure(q: Query, r: Resolver, d: nat, path: Path, ot: TypeDefinition, f: Selection)
    requires f.Field? && Selected(q, f) && ot.ObjectType? && FragmentsExist(q) && Bounded(q, d, [f]) && Trusted(q, r)
    requires GetField(ot, f.name) == Some(NonNullType(ListType(NonNullType(NamedType("Int")))))
    requires "Int" in q.types && q.types["Int"] == ScalarType("Int")
    requires !r.expired(path + [Key(ResponseKey(f))]) && r.argumentErrors(path + [Key(ResponseKey(f))], ot, f) == []
    requires r.resolveLeaves(path + [Key(ResponseKey(f))], ot, f, "Int", None) == Err([])
    ensures Execute(q, r, d, path, ot, [f], None) == Ok(Object(map[]))
    ensures !ObjectConforms(q, Demand(true, Unlimited), TypesOf(r), path, ot, [f], Object(map[]))
  {
    BoundedSpreads(q, d, [f]);
    CollectedBounded(q, d, ot, [f], {});
    CollectOne(q, ot, f);
    var key := ResponseKey(f);
    var p := path + [Key(key)];
    assert key in FirstKeys([f]);
    assert [key][..0] == [];
    var items := NonNullType(NamedType("Int"));
    assert ResolveList(q, r, p, ot, None, f, items) == ResolveList(q, r, p, ot, None, f, NamedType("Int")) == Err([]);
    assert ResolveFieldValue(q, r, p, ot, None, f, NonNullType(ListType(items)))
      == ResolveFieldValue(q, r, p, ot, None, f, ListType(items));
    assert Prefetched(map[], key, f.name) == None;
    assert ExecuteField(q, r, d, p, ot, [f], None) == Err([]);
    assert ExecuteGroups(q, r, d, path, ot, [f], [], map[]) == Progress(map[], [], false);
    assert ExecuteGroups(q, r, d, path, ot, [f], [key], map[]) == Progress(map[], [], false);
  }

  lemma CollectOne(q: Query, ot: TypeDefinition, f: Selection)
    requires f.Field? && Selected(q, f) && ot.ObjectType? && WellSpread(q, [f])
    ensures Collect(q, ot, [f], {}).fields == [f] && FirstKeys([f]) == [ResponseKey(f)]
            && FieldsFor([f], ResponseKey(f)) == [f]
  {
    assert [f][1..] == [] && [f][..0] == [];
    assert Collect(q, ot, [], {}).fields == [];
    assert CollectSelection(q, ot, [f][0], {}).fields == [f];
    assert Collect(q, ot, [f], {}).fields == [f] + [];
  }
}
