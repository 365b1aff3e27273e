/** The entities in a response: what is counted against the complexity of a query. */
module ResponseEntities {
  import opened GraphQL
  import opened CollectFields
  import opened Conformance

  predicate ObjectOrInterface(def: TypeDefinition) {
    def.ObjectType? || def.InterfaceType?
  }

  /** The objects that are items of lists, at any depth. */
  ghost function Entities(v: Value): nat
    decreases v, 1, 0
  {
    match v
    case List(items) => EntitiesIn(v, |items|)
    case Object(fields) => EntitiesUnder(v, fields.Keys)
    case _ => 0
  }

  ghost function EntitiesIn(v: Value, n: nat): nat
    requires v.List? && n <= |v.items|
    decreases v, 0, n
  {
    if n == 0 then 0 else
    EntitiesIn(v, n - 1) + Entities(v.items[n - 1]) + if v.items[n - 1].Object? then 1 else 0
  }

  ghost function EntitiesUnder(v: Value, keys: set<string>): nat
    requires v.Object? && keys <= v.fields.Keys
    decreases v, 0, |keys|
  {
    if keys == {} then 0 else
    var k :| k in keys;
    Entities(v.fields[k]) + EntitiesUnder(v, keys - {k})
  }

  /** Keys can be taken in any order. */
  lemma {:induction false} EntitiesWithout(v: Value, keys: set<string>, k: string)
    requires v.Object? && keys <= v.fields.Keys && k in keys
    ensures EntitiesUnder(v, keys) == Entities(v.fields[k]) + EntitiesUnder(v, keys - {k})
    decreases |keys|
  {
    var j :| j in keys && EntitiesUnder(v, keys) == Entities(v.fields[j]) + EntitiesUnder(v, keys - {j});
    if j != k {
      EntitiesWithout(v, keys - {j}, k);
      EntitiesWithout(v, keys - {k}, j);
      assert keys - {j} - {k} == keys - {k} - {j};
    }
  }

  // ---------- Types of fields and the values they take

  function Strip(ty: Type): Type {
    if ty.NonNullType? then ty.inner else ty
  }

  /** A type that can be resolved: a named type or a list of one, but not a union. */
  predicate Plain(q: Query, ty: Type) {
    var t := Strip(ty);
    && (t.NamedType? || (t.ListType? && Strip(t.inner).NamedType?))
    && BaseType(ty) in q.types && !q.types[BaseType(ty)].UnionType? && !q.types[BaseType(ty)].InputObjectType?
  }

  lemma ItemsConform(q: Query, w: Demand, types: Types, path: Path, ty: Type, group: seq<Selection>, v: Value)
    requires Plain(q, ty) && AllFields(group) && v.List? && Conforms(q, w, types, path, Strip(ty), group, v)
    ensures forall i :: 0 <= i < |v.items| ==>
            Conforms(q, w, types, path + [Item(i)], NamedType(BaseType(ty)), group, v.items[i])
  {
    BaseOfItems(ty);
    forall i | 0 <= i < |v.items|
      ensures Conforms(q, w, types, path + [Item(i)], NamedType(BaseType(ty)), group, v.items[i])
    {
      ConformsNamed(q, w, types, path + [Item(i)], Strip(ty).inner, group, v.items[i]);
    }
  }

  /** Under its non-null marks, a value of a named type is one of that named type. */
  lemma ConformsNamed(q: Query, w: Demand, types: Types, path: Path, ty: Type, group: seq<Selection>, v: Value)
    requires AllFields(group) && Conforms(q, w, types, path, ty, group, v) && Strip(ty).NamedType?
    ensures Conforms(q, w, types, path, NamedType(BaseType(ty)), group, v)
  {
    if ty.NonNullType? { assert Conforms(q, w, types, path, ty.inner, group, v) && BaseType(ty) == BaseType(ty.inner); }
  }

  lemma ListsAreLists(q: Query, w: Demand, types: Types, path: Path, ty: Type, group: seq<Selection>, v: Value)
    requires AllFields(group) && Conforms(q, w, types, path, ty, group, v) && Strip(ty).ListType? && v != Null
    ensures v.List?
  {
    if ty.NonNullType? { assert Conforms(q, w, types, path, ty.inner, group, v); }
  }

  lemma BaseOfStripped(ty: Type)
    ensures BaseType(ty) == BaseType(Strip(ty))
  {}

  lemma BaseOfItems(ty: Type)
    requires Strip(ty).ListType?
    ensures BaseType(ty) == BaseType(Strip(ty).inner)
  {
    assert BaseType(ty) == BaseType(Strip(ty));
  }

  /** Scalars and enums hold no entities, nor do lists of them. */
  lemma LeafBound(q: Query, w: Demand, types: Types, path: Path, ty: Type, group: seq<Selection>, v: Value)
    requires AllFields(group) && Plain(q, ty) && !ObjectOrInterface(q.types[BaseType(ty)])
             && Conforms(q, w, types, path, Strip(ty), group, v)
    ensures Entities(v) == 0
  {
    if v.List? {
      ItemsConform(q, w, types, path, ty, group, v);
      forall i | 0 <= i < |v.items|
        ensures Entities(v.items[i]) == 0 && !v.items[i].Object?
      {
        assert Conforms(q, w, types, path + [Item(i)], NamedType(BaseType(ty)), group, v.items[i]);
      }
      NoneIn(v, |v.items|);
    }
  }

  lemma {:induction false} NoneIn(v: Value, n: nat)
    requires v.List? && n <= |v.items| && forall i :: 0 <= i < |v.items| ==>
             Entities(v.items[i]) == 0 && !v.items[i].Object?
    ensures EntitiesIn(v, n) == 0
  {
    if n > 0 { NoneIn(v, n - 1); }
  }

  // ---------- Arithmetic

  lemma Distribute(n: nat, a: nat, b: nat)
    ensures n * (a + b) == n * a + n * b
  {}

  lemma OneMore(n: nat, c: nat)
    requires n > 0
    ensures n * c == (n - 1) * c + c
  {}
}
