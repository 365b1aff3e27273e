/** What a response must look like (section 6.4.3 of the GraphQL specification, June 2018): values of the field types at
    every depth, and objects with exactly the collected response keys. */
module Conformance {
  import opened GraphQL
  import opened CollectFields
  import opened SelectedFields

  /** Selections are nested at most `d` deep, and all fragments spread in them exist: what the checks made before
      execution establish. */
  ghost predicate Bounded(q: Query, d: nat, sels: seq<Selection>)
    decreases d, sels
  {
    sels == [] ||
    (d > 0
     && (match sels[0]
         case Field(_, _, _, _, selectionSet) => Bounded(q, d - 1, selectionSet)
         case FragmentSpread(n) => n in q.fragments && Bounded(q, d - 1, q.fragments[n].selectionSet)
         case InlineFragment(_, body) => Bounded(q, d - 1, body))
     && Bounded(q, d, sels[1..]))
  }

  ghost predicate FragmentsExist(q: Query) {
    forall n :: n in q.fragments ==> Spreads(q.fragments[n].selectionSet) <= q.fragments.Keys
  }

  lemma {:induction false} BoundedSpreads(q: Query, d: nat, sels: seq<Selection>)
    requires FragmentsExist(q) && Bounded(q, d, sels)
    ensures WellSpread(q, sels)
    decreases d, sels
  {
    if sels != [] {
      BoundedSpreads(q, d, sels[1..]);
      if sels[0].InlineFragment? { BoundedSpreads(q, d - 1, sels[0].body); }
    }
  }

  lemma {:induction false} BoundedMore(q: Query, d: nat, sels: seq<Selection>)
    requires Bounded(q, d, sels)
    ensures Bounded(q, d + 1, sels)
    decreases d, sels
  {
    if sels != [] {
      BoundedMore(q, d, sels[1..]);
      match sels[0]
      case Field(_, _, _, _, selectionSet) => BoundedMore(q, d - 1, selectionSet);
      case FragmentSpread(n) => BoundedMore(q, d - 1, q.fragments[n].selectionSet);
      case InlineFragment(_, body) => BoundedMore(q, d - 1, body);
    }
  }

  lemma {:induction false} BoundedConcat(q: Query, d: nat, a: seq<Selection>, b: seq<Selection>)
    requires Bounded(q, d, a) && Bounded(q, d, b)
    ensures Bounded(q, d, a + b)
    decreases a
  {
    if a == [] {
      assert a + b == b;
    } else {
      BoundedConcat(q, d, a[1..], b);
      assert (a + b)[1..] == a[1..] + b;
    }
  }

  /** What `fields` select is nested less than `d` deep. */
  ghost predicate BoundedBelow(q: Query, d: nat, fields: seq<Selection>) {
    forall f :: f in fields ==> f.Field? && d > 0 && Bounded(q, d - 1, f.selectionSet)
  }

  lemma BoundedBelowMore(q: Query, d: nat, fields: seq<Selection>)
    requires BoundedBelow(q, d, fields)
    ensures BoundedBelow(q, d + 1, fields)
  {
    forall f | f in fields
      ensures Bounded(q, d, f.selectionSet)
    {
      BoundedMore(q, d - 1, f.selectionSet);
    }
  }

  lemma {:induction false} SelectionBounded(q: Query, d: nat, ot: TypeDefinition, s: Selection, visited: set<Name>)
    requires ot.ObjectType? && FragmentsExist(q) && Bounded(q, d, [s]) && WellSpread(q, [s])
    ensures BoundedBelow(q, d, CollectSelection(q, ot, s, visited).fields)
    decreases d, 0, s
  {
    match s
    case Field(_, _, _, _, _) =>
    case FragmentSpread(n) =>
      var body := q.fragments[n].selectionSet;
      if n !in visited && Applies(q, ot, q.fragments[n].typeCondition) {
        CollectedBounded(q, d - 1, ot, body, visited + {n});
        BoundedBelowMore(q, d - 1, Collect(q, ot, body, visited + {n}).fields);
      }
    case InlineFragment(condition, body) =>
      if InlineApplies(q, ot, condition) {
        assert Spreads(body) <= Spreads([s]);
        CollectedBounded(q, d - 1, ot, body, visited);
        BoundedBelowMore(q, d - 1, Collect(q, ot, body, visited).fields);
      }
  }

  lemma {:induction false} CollectedBounded(q: Query, d: nat, ot: TypeDefinition, sels: seq<Selection>,
                                            visited: set<Name>)
    requires ot.ObjectType? && FragmentsExist(q) && Bounded(q, d, sels) && WellSpread(q, sels)
    ensures BoundedBelow(q, d, Collect(q, ot, sels, visited).fields)
    decreases d, 1, sels
  {
    if sels != [] {
      assert Spreads([sels[0]]) <= Spreads(sels);
      assert Bounded(q, d, [sels[0]]);
      SelectionBounded(q, d, ot, sels[0], visited);
      CollectedBounded(q, d, ot, sels[1..], CollectSelection(q, ot, sels[0], visited).visited);
    }
  }

  lemma {:induction false} GroupWithin(fields: seq<Selection>, key: Name)
    requires AllFields(fields)
    ensures forall f :: f in FieldsFor(fields, key) <==> f in fields && ResponseKey(f) == key
  {
    if fields != [] {
      var n := |fields| - 1;
      GroupWithin(fields[..n], key);
      assert fields == fields[..n] + [fields[n]];
    }
  }

  function SelectionSets(group: seq<Selection>): seq<seq<Selection>>
    requires AllFields(group)
  {
    seq(|group|, i requires 0 <= i < |group| => assert group[i] in group; group[i].selectionSet)
  }

  lemma {:induction false} FlattenBounded(q: Query, d: nat, sets: seq<seq<Selection>>)
    requires forall i :: 0 <= i < |sets| ==> Bounded(q, d, sets[i])
    ensures Bounded(q, d, Flatten(sets))
  {
    if sets != [] {
      FlattenBounded(q, d, sets[..|sets| - 1]);
      BoundedConcat(q, d, Flatten(sets[..|sets| - 1]), sets[|sets| - 1]);
    }
  }

  /** How many items a collection field asks for: its literal `first` argument, or 100. */
  function First(field: Selection): nat
    requires field.Field?
  {
    match ArgumentValue(field.arguments, "first")
    case Some(Int(n)) => if n < 0 then 0 else n
    case _ => 100
  }

  predicate ScalarValue(name: Name, v: Value) {
    if name == "Boolean" then v.Boolean?
    else if name == "Int" then v.Int? && -0x8000_0000 <= v.n < 0x8000_0000
    else name in {"BigDecimal", "String", "ID", "Bytes", "BigInt"} && v.Str?
  }

  /** A place in a response. In one execution, each place is come to at most once. */
  datatype Segment = Key(key: Name) | Item(index: nat)
  type Path = seq<Segment>

  /** What objects there are of which type, where the schema only says that they have a type of that name. */
  type Types = (Path, Name) -> TypeDefinition

  /** How many items a list of entities may have: any number, as many as the first of the fields selecting it asks for,
      or no more than any of these fields asks for. */
  datatype Limit = Unlimited | LeaderLimits | AllLimit

  /** What is asked of a response: whether it must have all keys, even those of lists of scalars or enums, and how many
      items its lists of entities may have. */
  datatype Demand = Demand(allKeys: bool, limit: Limit)

  ghost predicate WithinLimit(limit: Limit, group: seq<Selection>, n: nat)
    requires AllFields(group)
  {
    match limit
    case Unlimited => true
    case LeaderLimits => group != [] && group[0].Field? && n <= First(group[0])
    case AllLimit => forall f :: f in group ==> n <= First(f)
  }

  /** The type of the object at a place where a value of type `n` is. */
  ghost function TypeThere(q: Query, types: Types, path: Path, n: Name): TypeDefinition
    requires n in q.types
  {
    if q.types[n].ObjectType? then q.types[n] else types(path, n)
  }

  /** `v` is a value for a field of type `ty` with the selections `group`. */
  ghost predicate Conforms(q: Query, w: Demand, types: Types, path: Path, ty: Type, group: seq<Selection>, v: Value)
    requires AllFields(group)
    decreases v, 1, ty
  {
    match ty
    case NonNullType(inner) => v != Null && Conforms(q, w, types, path, inner, group, v)
    case ListType(inner) =>
      v == Null ||
      (v.List? && (HoldsEntities(q, inner) ==> WithinLimit(w.limit, group, |v.items|))
       && forall i :: 0 <= i < |v.items| ==> Conforms(q, w, types, path + [Item(i)], inner, group, v.items[i]))
    case NamedType(n) =>
      v == Null ||
      (n in q.types &&
       match q.types[n]
       case ScalarType(name) => ScalarValue(name, v)
       case EnumType(_, values) => v.Enum? && v.value in values
       case _ =>
         && IsRuntimeType(q, n, TypeThere(q, types, path, n))
         && ObjectConforms(q, w, types, path, TypeThere(q, types, path, n), Flatten(SelectionSets(group)), v))
  }

  /** `group` selects a list of scalars or enums. */
  ghost predicate ForLeaves(q: Query, ot: TypeDefinition, group: seq<Selection>)
    requires AllFields(group)
  {
    group != [] && var ty := GetField(ot, group[0].name);
    ty.Some? && HasList(ty.value) && BaseType(ty.value) in q.types && !HoldsEntities(q, ty.value)
  }

  /** `v` is an object of type `ot` with what `sels` selects. */
  ghost predicate ObjectConforms(q: Query, w: Demand, types: Types, path: Path, ot: TypeDefinition,
                                 sels: seq<Selection>, v: Value)
    decreases v, 0
  {
    v.Object? && ot.ObjectType? && WellSpread(q, sels) &&
    var fields := Collect(q, ot, sels, {}).fields;
    && (forall k :: k in v.fields ==> k in FirstKeys(fields))
    && (forall k :: k in FirstKeys(fields) ==> k in v.fields || (!w.allKeys && ForLeaves(q, ot, FieldsFor(fields, k))))
    && forall k :: k in v.fields ==> FieldConforms(q, w, types, path + [Key(k)], ot, FieldsFor(fields, k), v.fields[k])
  }

  /** `v` is a value for the field of `ot` that `group` selects. Where all fields limit, they must be one field. */
  ghost predicate FieldConforms(q: Query, w: Demand, types: Types, path: Path, ot: TypeDefinition,
                                group: seq<Selection>, v: Value)
    requires AllFields(group)
    decreases v, 2
  {
    group != [] && (w.limit.AllLimit? ==> forall f :: f in group ==> f.name == group[0].name) &&
    var ty := GetField(ot, group[0].name); ty.Some? && Conforms(q, w, types, path, ty.value, group, v)
  }

  /** Every object has a type name, without the schema saying so: a response to it alone is a single string. */
  lemma TypenameConforms(q: Query, w: Demand, types: Types, path: Path, ot: TypeDefinition, f: Selection, key: Name,
                         v: Value)
    requires ot.ObjectType? && f.Field? && f.name == "__typename" && WellSpread(q, [f]) && Wanted(q, f)
    requires f.alias.Some? ==> key == f.alias.value
    requires f.alias.None? ==> key == "__typename"
    requires "String" in q.types && q.types["String"] == ScalarType("String")
    ensures ObjectConforms(q, w, types, path, ot, [f], v) <==> exists s :: v == Object(map[key := Str(s)])
  {
    SingleField(q, ot, f, {});
    SingleKey(f);
    OneFieldConforms(q, w, types, path, ot, f, key, v);
    if v.Object? && v.fields.Keys == {key} {
      TypenameField(q, w, types, path + [Key(key)], ot, f, v.fields[key]);
      if v.fields[key].Str? { OneEntry(v.fields, key, v.fields[key].s); }
    }
  }

  lemma OneEntry(fields: map<string, Value>, key: Name, s: string)
    requires fields.Keys == {key} && fields[key] == Str(s)
    ensures fields == map[key := Str(s)]
  {}

  lemma OneFieldConforms(q: Query, w: Demand, types: Types, path: Path, ot: TypeDefinition, f: Selection, key: Name,
                         v: Value)
    requires ot.ObjectType? && f.Field? && WellSpread(q, [f]) && !ForLeaves(q, ot, [f])
    requires Collect(q, ot, [f], {}).fields == [f] && FirstKeys([f]) == [key] && FieldsFor([f], key) == [f]
    ensures ObjectConforms(q, w, types, path, ot, [f], v) <==>
            v.Object? && v.fields.Keys == {key} && FieldConforms(q, w, types, path + [Key(key)], ot, [f], v.fields[key])
  {
    if ObjectConforms(q, w, types, path, ot, [f], v) {
      assert key in [key];
      assert forall k :: k in v.fields.Keys <==> k == key;
    }
  }

  lemma TypenameField(q: Query, w: Demand, types: Types, path: Path, ot: TypeDefinition, f: Selection, v: Value)
    requires ot.ObjectType? && f.Field? && f.name == "__typename"
    requires "String" in q.types && q.types["String"] == ScalarType("String")
    ensures FieldConforms(q, w, types, path, ot, [f], v) <==> v.Str?
  {
    var ty := NamedType("String");
    assert Conforms(q, w, types, path, ty, [f], v) <==> v == Null || v.Str?;
    assert Conforms(q, w, types, path, NonNullType(ty), [f], v)
      <==> v != Null && Conforms(q, w, types, path, ty, [f], v);
  }
}
