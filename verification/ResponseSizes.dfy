/** The most entities that executing a query can give, whatever is stored, if no field gets more than it asks for; and
    for which queries that is within their complexity. */
module ResponseSizes {
  import opened Common
  import opened GraphQL
  import opened CollectFields
  import opened Conformance
  import opened ResponseEntities
  import opened ComplexityBounds
  import opened QueryComplexity
  import opened PossibleResponses
  import Completion = ValueCompletion

  function RuntimeTypes(q: Query, name: Name): set<TypeDefinition> {
    set ot | ot in q.types.Values && IsRuntimeType(q, name, ot)
  }

  // ---------- The number

  function Plus(a: Option<nat>, b: Option<nat>): Option<nat> {
    if a.Some? && b.Some? then Some(a.value + b.value) else None
  }

  function Larger(a: Option<nat>, b: Option<nat>): Option<nat> {
    if a.Some? && (b.None? || b.value <= a.value) then a else b
  }

  /** The most entities below an object of type `ot`: of fields merged under one key, the first decides how many items
      there are, and each item gets what all of them select. None if no such object can be completed. */
  ghost function MostEntities(q: Query, d: nat, ot: TypeDefinition, sels: seq<Selection>): Option<nat>
    decreases d, 3, 0
  {
    if !ot.ObjectType? || !WellSpread(q, sels) then None else
    var fields := Collect(q, ot, sels, {}).fields;
    Sum(MostByKey(q, d, ot, fields, FirstKeys(fields)))
  }

  ghost function MostByKey(q: Query, d: nat, ot: TypeDefinition, fields: seq<Selection>, keys: seq<Name>)
    : (mosts: seq<Option<nat>>)
    requires AllFields(fields)
    decreases d, 2
  {
    seq(|keys|, i requires 0 <= i < |keys| => MostOfField(q, d, ot, FieldsFor(fields, keys[i])))
  }

  /** None if one is missing. */
  function Sum(mosts: seq<Option<nat>>): Option<nat> {
    if mosts == [] then Some(0) else Plus(Sum(mosts[..|mosts| - 1]), mosts[|mosts| - 1])
  }

  ghost function MostOfField(q: Query, d: nat, ot: TypeDefinition, group: seq<Selection>): Option<nat>
    requires AllFields(group)
    decreases d, 1
  {
    if group == [] || d == 0 then None else
    assert group[0] in group;
    var ty := GetField(ot, group[0].name);
    if ty.None? || BaseType(ty.value) !in q.types then None else
    MostOfType(q, ty.value, First(group[0]), MostBelow(q, d - 1, BaseType(ty.value), group))
  }

  /** The most entities below one value of the named type that is not null. */
  ghost function MostBelow(q: Query, d: nat, name: Name, group: seq<Selection>): Option<nat>
    requires AllFields(group) && name in q.types
    decreases d, 5
  {
    match q.types[name]
    case ScalarType(scalar) => if Known(scalar) then Some(0) else None
    case EnumType(_, values) => if values != {} then Some(0) else None
    case _ => MostOfTypes(q, d, RuntimeTypes(q, name), Flatten(SelectionSets(group)))
  }

  predicate Known(scalar: Name) {
    scalar in {"Boolean", "Int", "BigDecimal", "String", "ID", "Bytes", "BigInt"}
  }

  /** Null is a value without entities, for a type that allows it. */
  function MostOfType(q: Query, ty: Type, first: nat, below: Option<nat>): Option<nat> {
    if ty.NonNullType? then MostNotNull(q, ty.inner, first, below)
    else Larger(Some(0), MostNotNull(q, ty, first, below))
  }

  function MostNotNull(q: Query, ty: Type, first: nat, below: Option<nat>): Option<nat> {
    if !ty.ListType? then below
    else if below.Some? && HoldsEntities(q, ty) then Some(first * (1 + below.value))
    else Some(0)
  }

  ghost function MostOfTypes(q: Query, d: nat, ots: set<TypeDefinition>, sels: seq<Selection>): Option<nat>
    decreases d, 4
  {
    Largest(MostByType(q, d, ots, sels))
  }

  ghost function MostByType(q: Query, d: nat, ots: set<TypeDefinition>, sels: seq<Selection>)
    : map<TypeDefinition, Option<nat>>
    decreases d, 3, 1
  {
    map ot | ot in ots :: MostEntities(q, d, ot, sels)
  }

  ghost function Largest(m: map<TypeDefinition, Option<nat>>): Option<nat> {
    if m == map[] then None else
    var ot :| ot in m;
    Larger(m[ot], Largest(m - {ot}))
  }

  predicate AtMost(n: nat, most: Option<nat>) {
    most.Some? && n <= most.value
  }

  lemma {:induction false} LargestBounds(m: map<TypeDefinition, Option<nat>>, ot: TypeDefinition, n: nat)
    requires ot in m && AtMost(n, m[ot])
    ensures AtMost(n, Largest(m))
    decreases |m|
  {
    var o :| o in m && Largest(m) == Larger(m[o], Largest(m - {o}));
    if o != ot { LargestBounds(m - {o}, ot, n); }
    assert AtMost(n, Larger(m[o], Largest(m - {o})));
  }

  lemma {:induction false} LargestAttained(m: map<TypeDefinition, Option<nat>>)
    requires Largest(m).Some?
    ensures exists ot :: ot in m && m[ot] == Largest(m)
    decreases |m|
  {
    var o :| o in m && Largest(m) == Larger(m[o], Largest(m - {o}));
    assert Largest(m) == Larger(m[o], Largest(m - {o}));
    if m[o] != Largest(m) {
      assert Largest(m) == Largest(m - {o});
      LargestAttained(m - {o});
      var ot :| ot in m - {o} && (m - {o})[ot] == Largest(m - {o});
      assert ot in m && m[ot] == Largest(m);
    }
  }

  // ---------- No response has more

  /** The first field under a key limits its list; keys of lists of scalars or enums may be missing. */
  const LeadLimit := Demand(false, LeaderLimits)

  lemma {:induction false} MostObject(q: Query, types: Types, path: Path, d: nat, ot: TypeDefinition,
                                      sels: seq<Selection>, v: Value)
    requires ValidSchema(q) && FragmentsExist(q) && Bounded(q, d, sels) && ot in q.types.Values
    requires ObjectConforms(q, LeadLimit, types, path, ot, sels, v)
    ensures AtMost(Entities(v), MostEntities(q, d, ot, sels))
    decreases v, 0
  {
    CollectedBounded(q, d, ot, sels, {});
    var fields := Collect(q, ot, sels, {}).fields;
    var keys := FirstKeys(fields);
    forall i | 0 <= i < |keys|
      ensures AtMost(EntitiesAt(v, keys[i]), MostByKey(q, d, ot, fields, keys)[i])
    {
      var k := keys[i];
      assert k in keys;
      GroupWithin(fields, k);
      var group := FieldsFor(fields, k);
      if k in v.fields { MostField(q, types, path + [Key(k)], d, ot, group, v.fields[k]); }
      else { MissingField(q, d, ot, group); }
    }
    UnderBound(MostByKey(q, d, ot, fields, keys), keys, v, v.fields.Keys);
  }

  ghost function EntitiesAt(v: Value, k: Name): nat
    requires v.Object?
  {
    if k in v.fields then Entities(v.fields[k]) else 0
  }

  lemma MissingField(q: Query, d: nat, ot: TypeDefinition, group: seq<Selection>)
    requires ValidSchema(q) && AllFields(group) && BoundedBelow(q, d, group) && ot in q.types.Values
             && ForLeaves(q, ot, group)
    ensures AtMost(0, MostOfField(q, d, ot, group))
  {
    assert group[0] in group;
    var ty := GetField(ot, group[0].name).value;
    assert Plain(q, ty);
    if ty.NonNullType? { assert HasList(ty.inner); }
    BaseOfItems(ty);
  }

  lemma {:induction false} UnderBound(mosts: seq<Option<nat>>, keys: seq<Name>, v: Value, ks: set<string>)
    requires v.Object? && ks <= v.fields.Keys && (forall k :: k in ks ==> k in keys) && |mosts| == |keys|
    requires forall i :: 0 <= i < |keys| ==> AtMost(EntitiesAt(v, keys[i]), mosts[i])
    ensures AtMost(EntitiesUnder(v, ks), Sum(mosts))
    decreases |keys|
  {
    if keys != [] {
      var n := |keys| - 1;
      assert keys == keys[..n] + [keys[n]];
      if keys[n] in ks { EntitiesWithout(v, ks, keys[n]); } else { assert ks - {keys[n]} == ks; }
      UnderBound(mosts[..n], keys[..n], v, ks - {keys[n]});
      assert AtMost(EntitiesAt(v, keys[n]), mosts[n]);
    } else {
      assert ks == {};
    }
  }

  lemma {:induction false} MostField(q: Query, types: Types, path: Path, d: nat, ot: TypeDefinition,
                                     group: seq<Selection>, v: Value)
    requires ValidSchema(q) && FragmentsExist(q) && AllFields(group) && BoundedBelow(q, d, group)
             && ot in q.types.Values
    requires FieldConforms(q, LeadLimit, types, path, ot, group, v)
    ensures AtMost(Entities(v), MostOfField(q, d, ot, group))
    decreases v, 4
  {
    assert group[0] in group;
    var ty := GetField(ot, group[0].name).value;
    assert Plain(q, ty);
    BaseOfStripped(ty);
    if v == Null {
      assert !ty.NonNullType?;
    } else if Strip(ty).ListType? {
      BaseOfItems(ty);
      MostList(q, types, path, d, ty, group, v);
    } else {
      ConformsNamed(q, LeadLimit, types, path, ty, group, v);
      MostNamed(q, types, path, d, BaseType(ty), group, v);
    }
  }

  lemma {:induction false} MostList(q: Query, types: Types, path: Path, d: nat, ty: Type, group: seq<Selection>,
                                    v: Value)
    requires ValidSchema(q) && FragmentsExist(q) && AllFields(group) && group != [] && BoundedBelow(q, d, group)
             && group[0] in group
    requires Plain(q, ty) && Strip(ty).ListType? && v != Null && Conforms(q, LeadLimit, types, path, ty, group, v)
    ensures AtMost(Entities(v), MostNotNull(q, Strip(ty), First(group[0]), MostBelow(q, d - 1, BaseType(ty), group)))
    decreases v, 3
  {
    ItemsOfList(q, types, path, ty, group, v);
    var below := MostBelow(q, d - 1, BaseType(ty), group);
    if !HoldsEntities(q, ty) {
      LeafBound(q, LeadLimit, types, path, ty, group, v);
    } else {
      MostItems(q, types, path, d, BaseType(ty), group, v, |v.items|);
      if below.Some? { Grows(|v.items|, First(group[0]), 1 + below.value); }
    }
  }

  lemma ItemsOfList(q: Query, types: Types, path: Path, ty: Type, group: seq<Selection>, v: Value)
    requires AllFields(group) && group != [] && Plain(q, ty) && Strip(ty).ListType? && v != Null && group[0].Field?
    requires Conforms(q, LeadLimit, types, path, ty, group, v)
    ensures BaseType(ty) == BaseType(Strip(ty)) && v.List? && Conforms(q, LeadLimit, types, path, Strip(ty), group, v)
    ensures HoldsEntities(q, ty) ==> |v.items| <= First(group[0])
    ensures forall i :: 0 <= i < |v.items| ==>
            Conforms(q, LeadLimit, types, path + [Item(i)], NamedType(BaseType(ty)), group, v.items[i])
  {
    BaseOfStripped(ty);
    BaseOfItems(ty);
    ListsAreLists(q, LeadLimit, types, path, ty, group, v);
    if ty.NonNullType? { assert Conforms(q, LeadLimit, types, path, ty.inner, group, v); }
    ItemsConform(q, LeadLimit, types, path, ty, group, v);
  }

  lemma {:induction false} MostItems(q: Query, types: Types, path: Path, d: nat, name: Name, group: seq<Selection>,
                                     v: Value, n: nat)
    requires ValidSchema(q) && FragmentsExist(q) && AllFields(group) && group != [] && BoundedBelow(q, d, group)
             && group[0] in group
    requires name in q.types && v.List? && n <= |v.items|
    requires forall i :: 0 <= i < |v.items| ==>
             Conforms(q, LeadLimit, types, path + [Item(i)], NamedType(name), group, v.items[i])
    ensures var below := MostBelow(q, d - 1, name, group);
            EntitiesIn(v, n) <= if below.Some? then n * (1 + below.value) else 0
    decreases v, 2, n
  {
    if n > 0 {
      var below := MostBelow(q, d - 1, name, group);
      MostItems(q, types, path, d, name, group, v, n - 1);
      if v.items[n - 1] != Null { MostNamed(q, types, path + [Item(n - 1)], d, name, group, v.items[n - 1]); }
      if below.Some? { OneMore(n, 1 + below.value); }
    }
  }

  lemma {:induction false} MostNamed(q: Query, types: Types, path: Path, d: nat, name: Name, group: seq<Selection>,
                                     v: Value)
    requires ValidSchema(q) && FragmentsExist(q) && AllFields(group) && group != [] && BoundedBelow(q, d, group)
             && group[0] in group
    requires name in q.types && v != Null && Conforms(q, LeadLimit, types, path, NamedType(name), group, v)
    ensures AtMost(Entities(v), MostBelow(q, d - 1, name, group))
    decreases v, 1
  {
    match q.types[name]
    case ScalarType(_) =>
    case EnumType(_, values) => assert v.value in values;
    case InputObjectType(_) =>
    case _ =>
      var ot, sub := TypeThere(q, types, path, name), Flatten(SelectionSets(group));
      assert ot in RuntimeTypes(q, name);
      assert Completion.Within(q, d - 1, group);
      Completion.SelectionSetsBounded(q, d - 1, group);
      MostObject(q, types, path, d - 1, ot, sub, v);
      TypesBound(q, d - 1, RuntimeTypes(q, name), sub, ot, Entities(v));
  }

  lemma TypesBound(q: Query, d: nat, ots: set<TypeDefinition>, sels: seq<Selection>, ot: TypeDefinition, n: nat)
    requires ot in ots && AtMost(n, MostEntities(q, d, ot, sels))
    ensures AtMost(n, MostOfTypes(q, d, ots, sels))
  {
    LargestBounds(MostByType(q, d, ots, sels), ot, n);
  }

  // ---------- Some response has as many

  /** A type below which there are the most entities. */
  ghost function BestType(q: Query, d: nat, name: Name, sels: seq<Selection>): (ot: TypeDefinition)
    requires MostOfTypes(q, d, RuntimeTypes(q, name), sels).Some?
    ensures ot in RuntimeTypes(q, name)
            && MostEntities(q, d, ot, sels) == MostOfTypes(q, d, RuntimeTypes(q, name), sels)
  {
    var m := MostByType(q, d, RuntimeTypes(q, name), sels);
    LargestAttained(m);
    var ot :| ot in m && m[ot] == Largest(m);
    ot
  }

  function KnownValue(scalar: Name): Value {
    if scalar == "Boolean" then Boolean(false) else if scalar == "Int" then Int(0) else Str("")
  }

  ghost function BestObject(q: Query, d: nat, ot: TypeDefinition, sels: seq<Selection>): Value
    requires ot.ObjectType? && WellSpread(q, sels)
    decreases d, 3
  {
    var fields := Collect(q, ot, sels, {}).fields;
    Object(map k | k in FirstKeys(fields) :: BestField(q, d, ot, FieldsFor(fields, k)))
  }

  ghost function BestField(q: Query, d: nat, ot: TypeDefinition, group: seq<Selection>): Value
    requires AllFields(group)
    decreases d, 1
  {
    if group == [] || d == 0 then Null else
    assert group[0] in group;
    var ty := GetField(ot, group[0].name);
    if ty.None? || BaseType(ty.value) !in q.types then Null else
    var most := MostBelow(q, d - 1, BaseType(ty.value), group);
    BestOfType(q, ty.value, First(group[0]), most, BestBelow(q, d - 1, BaseType(ty.value), group))
  }

  ghost function BestBelow(q: Query, d: nat, name: Name, group: seq<Selection>): Value
    requires AllFields(group) && name in q.types
    decreases d, 5
  {
    match q.types[name]
    case ScalarType(scalar) => KnownValue(scalar)
    case EnumType(_, values) => if values != {} then (var e :| e in values; Enum(e)) else Null
    case _ =>
      var sub := Flatten(SelectionSets(group));
      if MostOfTypes(q, d, RuntimeTypes(q, name), sub).Some? && WellSpread(q, sub)
      then BestObject(q, d, BestType(q, d, name, sub), sub) else Null
  }

  function BestOfType(q: Query, ty: Type, first: nat, most: Option<nat>, below: Value): Value {
    if Strip(ty).ListType? then
      if most.Some? && HoldsEntities(q, ty) then List(seq(first, i => below)) else List([])
    else if most.Some? then below else Null
  }

  // ---------- with this many entities

  lemma {:induction false} Copies(v: Value, below: Value, n: nat)
    requires v.List? && n <= |v.items| && forall i :: 0 <= i < |v.items| ==> v.items[i] == below
    ensures EntitiesIn(v, n) == n * (Entities(below) + if below.Object? then 1 else 0)
  {
    if n > 0 {
      Copies(v, below, n - 1);
      OneMore(n, Entities(below) + if below.Object? then 1 else 0);
    }
  }

  lemma {:induction false} BestObjectEntities(q: Query, d: nat, ot: TypeDefinition, sels: seq<Selection>)
    requires ValidSchema(q) && FragmentsExist(q) && Bounded(q, d, sels) && ot in q.types.Values && ot.ObjectType?
             && WellSpread(q, sels)
    requires MostEntities(q, d, ot, sels).Some?
    ensures Entities(BestObject(q, d, ot, sels)) == MostEntities(q, d, ot, sels).value
    decreases d, 3
  {
    CollectedBounded(q, d, ot, sels, {});
    var fields := Collect(q, ot, sels, {}).fields;
    FirstKeysMeaning(fields);
    var v := BestObject(q, d, ot, sels);
    var keys := FirstKeys(fields);
    var mosts := MostByKey(q, d, ot, fields, keys);
    AllSome(mosts);
    forall i | 0 <= i < |keys|
      ensures ExactKey(mosts[i], keys[i], v)
    {
      assert keys[i] in keys && mosts[i].Some?;
      GroupWithin(fields, keys[i]);
      BestFieldEntities(q, d, ot, FieldsFor(fields, keys[i]));
    }
    assert v.fields.Keys == ToSet(keys);
    UnderExactly(mosts, keys, v);
  }

  lemma {:induction false} AllSome(mosts: seq<Option<nat>>)
    requires Sum(mosts).Some?
    ensures forall i :: 0 <= i < |mosts| ==> mosts[i].Some?
  {
    if mosts != [] { AllSome(mosts[..|mosts| - 1]); }
  }

  lemma MostOfKey(q: Query, d: nat, ot: TypeDefinition, fields: seq<Selection>, keys: seq<Name>, k: Name)
    requires AllFields(fields) && k in keys && Sum(MostByKey(q, d, ot, fields, keys)).Some?
    ensures FieldsFor(fields, k) != [] && d > 0 && MostOfField(q, d, ot, FieldsFor(fields, k)).Some?
  {
    var mosts := MostByKey(q, d, ot, fields, keys);
    var i :| 0 <= i < |keys| && keys[i] == k;
    AllSome(mosts);
    assert mosts[i].Some?;
  }

  lemma LastKey(keys: seq<Name>)
    requires keys != [] && NoDuplicates(keys)
    ensures var last, before := keys[|keys| - 1], keys[..|keys| - 1];
            last in ToSet(keys) && ToSet(before) == ToSet(keys) - {last} && NoDuplicates(before)
            && forall k :: k in before ==> k in keys
  {
    var last, before := keys[|keys| - 1], keys[..|keys| - 1];
    assert keys == before + [last];
    forall k | k in ToSet(keys) - {last}
      ensures k in ToSet(before)
    {}
    forall k | k in before
      ensures k in ToSet(keys) - {last}
    {}
  }

  lemma UnderSnoc(v: Value, keys: seq<Name>)
    requires v.Object? && keys != [] && ToSet(keys) <= v.fields.Keys && NoDuplicates(keys)
    ensures var last, before := keys[|keys| - 1], keys[..|keys| - 1];
            && last in keys && last in v.fields && NoDuplicates(before) && ToSet(before) <= v.fields.Keys
            && (forall k :: k in before ==> k in keys)
            && EntitiesUnder(v, ToSet(keys)) == Entities(v.fields[last]) + EntitiesUnder(v, ToSet(before))
  {
    LastKey(keys);
    EntitiesWithout(v, ToSet(keys), keys[|keys| - 1]);
  }

  lemma {:induction false} UnderExactly(mosts: seq<Option<nat>>, keys: seq<Name>, v: Value)
    requires v.Object? && ToSet(keys) <= v.fields.Keys && NoDuplicates(keys) && ExactAt(mosts, keys, v)
    ensures Sum(mosts) == Some(EntitiesUnder(v, ToSet(keys)))
    decreases |keys|
  {
    if keys == [] {
      NothingUnder(v);
    } else {
      var n := |keys| - 1;
      UnderSnoc(v, keys);
      ExactBefore(mosts, keys, v);
      UnderExactly(mosts[..n], keys[..n], v);
      assert ExactKey(mosts[n], keys[n], v);
    }
  }

  lemma NothingUnder(v: Value)
    requires v.Object?
    ensures ToSet<Name>([]) == {} && EntitiesUnder(v, {}) == 0
  {}

  lemma ExactBefore(mosts: seq<Option<nat>>, keys: seq<Name>, v: Value)
    requires ExactAt(mosts, keys, v) && keys != []
    ensures ExactAt(mosts[..|keys| - 1], keys[..|keys| - 1], v)
  {
    var mostsBefore, before := mosts[..|keys| - 1], keys[..|keys| - 1];
    forall i | 0 <= i < |before|
      ensures ExactKey(mostsBefore[i], before[i], v)
    {
      assert ExactKey(mosts[i], keys[i], v);
    }
  }

  ghost predicate ExactKey(most: Option<nat>, k: Name, v: Value)
    requires v.Object?
  {
    k in v.fields && most == Some(Entities(v.fields[k]))
  }

  /** Each of `mosts` is the number of entities under its key. */
  ghost predicate ExactAt(mosts: seq<Option<nat>>, keys: seq<Name>, v: Value) {
    v.Object? && |mosts| == |keys| && forall i :: 0 <= i < |keys| ==> ExactKey(mosts[i], keys[i], v)
  }

  lemma {:induction false} BestFieldEntities(q: Query, d: nat, ot: TypeDefinition, group: seq<Selection>)
    requires ValidSchema(q) && FragmentsExist(q) && AllFields(group) && BoundedBelow(q, d, group)
             && ot in q.types.Values
    requires MostOfField(q, d, ot, group).Some?
    ensures MostOfField(q, d, ot, group) == Some(Entities(BestField(q, d, ot, group)))
    decreases d, 1
  {
    assert group[0] in group;
    var ty := GetField(ot, group[0].name).value;
    assert Plain(q, ty);
    BaseOfStripped(ty);
    var name := BaseType(ty);
    var most, below := MostBelow(q, d - 1, name, group), BestBelow(q, d - 1, name, group);
    if most.Some? { BestBelowEntities(q, d, name, group); }
    BestOfTypeEntities(q, ty, First(group[0]), most, below);
  }

  lemma BestOfTypeEntities(q: Query, ty: Type, first: nat, most: Option<nat>, below: Value)
    requires Plain(q, ty) && MostOfType(q, ty, first, most).Some?
    requires most.Some? ==> Entities(below) == most.value && (HoldsEntities(q, ty) ==> below.Object?)
    ensures MostOfType(q, ty, first, most) == Some(Entities(BestOfType(q, ty, first, most, below)))
  {
    BaseOfStripped(ty);
    var v := BestOfType(q, ty, first, most, below);
    if Strip(ty).ListType? {
      if most.Some? && HoldsEntities(q, ty) { Copies(v, below, |v.items|); } else { NoneIn(v, 0); }
    }
  }

  lemma {:induction false} BestBelowEntities(q: Query, d: nat, name: Name, group: seq<Selection>)
    requires ValidSchema(q) && FragmentsExist(q) && AllFields(group) && group != [] && BoundedBelow(q, d, group)
             && d > 0
    requires name in q.types && MostBelow(q, d - 1, name, group).Some? && !q.types[name].InputObjectType?
    ensures var v := BestBelow(q, d - 1, name, group);
            && Entities(v) == MostBelow(q, d - 1, name, group).value && v != Null
            && (HoldsEntities(q, NamedType(name)) ==> v.Object?)
            && (!HoldsEntities(q, NamedType(name)) && !q.types[name].UnionType? && !q.types[name].InputObjectType? ==>
               Entities(v) == 0)
    decreases d - 1, 5
  {
    match q.types[name]
    case ScalarType(_) =>
    case EnumType(_, _) =>
    case InputObjectType(_) =>
    case _ =>
      var sub := Flatten(SelectionSets(group));
      var ot := BestType(q, d - 1, name, sub);
      assert Completion.Within(q, d - 1, group);
      Completion.SelectionSetsBounded(q, d - 1, group);
      BoundedSpreads(q, d - 1, sub);
      BestObjectEntities(q, d - 1, ot, sub);
  }

  // ---------- and it conforms

  /** The type at the place `s` below an object of type `ot` in the best response. */
  ghost function TypeOn(q: Query, d: nat, ot: TypeDefinition, sels: seq<Selection>, s: Path): TypeDefinition
    decreases d, 1, |s|
  {
    if s == [] || !ot.ObjectType? || !WellSpread(q, sels) then ot
    else if s[0].Item? then TypeOn(q, d, ot, sels, s[1..])
    else
      var group := FieldsFor(Collect(q, ot, sels, {}).fields, s[0].key);
      if group == [] || d == 0 then ot else
      assert group[0] in group;
      var ty := GetField(ot, group[0].name);
      if ty.None? then ot else TypeBelow(q, d - 1, BaseType(ty.value), Flatten(SelectionSets(group)), s[1..])
  }

  ghost function TypeBelow(q: Query, d: nat, name: Name, sels: seq<Selection>, s: Path): TypeDefinition
    decreases d, 2, |s|
  {
    if MostOfTypes(q, d, RuntimeTypes(q, name), sels).None? then InputObjectType(name)
    else TypeOn(q, d, BestType(q, d, name, sels), sels, s)
  }

  ghost predicate Follows(q: Query, types: Types, path: Path, d: nat, ot: TypeDefinition, sels: seq<Selection>) {
    forall s, n :: types(path + s, n) == TypeOn(q, d, ot, sels, s)
  }

  ghost predicate FollowsBelow(q: Query, types: Types, path: Path, d: nat, name: Name, sels: seq<Selection>) {
    forall s, n :: types(path + s, n) == TypeBelow(q, d, name, sels, s)
  }

  lemma FollowsField(q: Query, types: Types, path: Path, d: nat, ot: TypeDefinition, sels: seq<Selection>, key: Name)
    requires Follows(q, types, path, d, ot, sels) && ot.ObjectType? && WellSpread(q, sels) && d > 0
    requires var group := FieldsFor(Collect(q, ot, sels, {}).fields, key);
             group != [] && group[0].Field? && GetField(ot, group[0].name).Some?
    ensures var group := FieldsFor(Collect(q, ot, sels, {}).fields, key);
            FollowsBelow(q, types, path + [Key(key)], d - 1, BaseType(GetField(ot, group[0].name).value),
                         Flatten(SelectionSets(group)))
  {
    var group := FieldsFor(Collect(q, ot, sels, {}).fields, key);
    var name, sub := BaseType(GetField(ot, group[0].name).value), Flatten(SelectionSets(group));
    forall s, n
      ensures types(path + [Key(key)] + s, n) == TypeBelow(q, d - 1, name, sub, s)
    {
      assert path + [Key(key)] + s == path + ([Key(key)] + s);
      assert ([Key(key)] + s)[1..] == s;
    }
  }

  lemma FollowsItem(q: Query, types: Types, path: Path, d: nat, name: Name, sels: seq<Selection>, i: nat)
    requires FollowsBelow(q, types, path, d, name, sels)
    ensures FollowsBelow(q, types, path + [Item(i)], d, name, sels)
  {
    forall s, n
      ensures types(path + [Item(i)] + s, n) == TypeBelow(q, d, name, sels, s)
    {
      assert path + [Item(i)] + s == path + ([Item(i)] + s);
      assert ([Item(i)] + s)[1..] == s;
      if MostOfTypes(q, d, RuntimeTypes(q, name), sels).Some? {
        TypeOnItem(q, d, BestType(q, d, name, sels), sels, [Item(i)] + s);
      }
    }
  }

  lemma TypeOnItem(q: Query, d: nat, ot: TypeDefinition, sels: seq<Selection>, s: Path)
    requires s != [] && s[0].Item? && ot.ObjectType?
    ensures WellSpread(q, sels) ==> TypeOn(q, d, ot, sels, s) == TypeOn(q, d, ot, sels, s[1..])
    ensures !WellSpread(q, sels) ==> TypeOn(q, d, ot, sels, s) == ot == TypeOn(q, d, ot, sels, s[1..])
  {}

  /** The best object is one that conforms, with as many items as the first field under each key asks for. */
  lemma {:induction false} BestObjectConforms(q: Query, types: Types, path: Path, d: nat, ot: TypeDefinition,
                                              sels: seq<Selection>)
    requires ValidSchema(q) && FragmentsExist(q) && Bounded(q, d, sels) && ot in q.types.Values && ot.ObjectType?
             && WellSpread(q, sels)
    requires MostEntities(q, d, ot, sels).Some? && Follows(q, types, path, d, ot, sels)
    ensures ObjectConforms(q, Limits, types, path, ot, sels, BestObject(q, d, ot, sels))
    decreases d, 3
  {
    CollectedBounded(q, d, ot, sels, {});
    var fields := Collect(q, ot, sels, {}).fields;
    var v := BestObject(q, d, ot, sels);
    forall k | k in FirstKeys(fields)
      ensures FieldConforms(q, Limits, types, path + [Key(k)], ot, FieldsFor(fields, k), v.fields[k])
    {
      MostOfKey(q, d, ot, fields, FirstKeys(fields), k);
      GroupWithin(fields, k);
      var group := FieldsFor(fields, k);
      assert group[0] in group;
      FollowsField(q, types, path, d, ot, sels, k);
      BestFieldConforms(q, types, path + [Key(k)], d, ot, group);
    }
  }

  lemma {:induction false} BestFieldConforms(q: Query, types: Types, path: Path, d: nat, ot: TypeDefinition,
                                             group: seq<Selection>)
    requires ValidSchema(q) && FragmentsExist(q) && AllFields(group) && BoundedBelow(q, d, group)
             && ot in q.types.Values
    requires MostOfField(q, d, ot, group).Some? && group[0] in group
    requires FollowsBelow(q, types, path, d - 1, BaseType(GetField(ot, group[0].name).value),
                          Flatten(SelectionSets(group)))
    ensures FieldConforms(q, Limits, types, path, ot, group, BestField(q, d, ot, group))
    decreases d, 1
  {
    var ty := GetField(ot, group[0].name).value;
    assert Plain(q, ty);
    BaseOfStripped(ty);
    var name, sub := BaseType(ty), Flatten(SelectionSets(group));
    var most, below := MostBelow(q, d - 1, name, group), BestBelow(q, d - 1, name, group);
    var v := BestField(q, d, ot, group);
    if Strip(ty).ListType? {
      BaseOfItems(ty);
      forall i | 0 <= i < |v.items|
        ensures Conforms(q, Limits, types, path + [Item(i)], NamedType(name), group, v.items[i]) && v.items[i] != Null
      {
        FollowsItem(q, types, path, d - 1, name, sub, i);
        BestBelowConforms(q, types, path + [Item(i)], d, name, group);
      }
      ListTypeConforms(q, types, path, ty, group, v);
    } else if most.Some? {
      BestBelowConforms(q, types, path, d, name, group);
    }
  }

  lemma ListTypeConforms(q: Query, types: Types, path: Path, ty: Type, group: seq<Selection>, v: Value)
    requires AllFields(group) && group != [] && group[0] in group && Plain(q, ty) && Strip(ty).ListType? && v.List?
    requires HoldsEntities(q, ty) ==> |v.items| <= First(group[0])
    requires forall i :: 0 <= i < |v.items| ==>
               Conforms(q, Limits, types, path + [Item(i)], NamedType(BaseType(ty)), group, v.items[i])
                 && v.items[i] != Null
    ensures Conforms(q, Limits, types, path, ty, group, v)
  {
    BaseOfStripped(ty);
    BaseOfItems(ty);
    var inner := Strip(ty).inner;
    BaseOfStripped(inner);
    forall i | 0 <= i < |v.items|
      ensures Conforms(q, Limits, types, path + [Item(i)], inner, group, v.items[i])
    {
      assert Conforms(q, Limits, types, path + [Item(i)], Strip(inner), group, v.items[i]);
    }
    assert Conforms(q, Limits, types, path, Strip(ty), group, v);
  }

  lemma {:induction false} BestBelowConforms(q: Query, types: Types, path: Path, d: nat, name: Name,
                                             group: seq<Selection>)
    requires ValidSchema(q) && FragmentsExist(q) && AllFields(group) && group != [] && BoundedBelow(q, d, group)
             && d > 0
    requires name in q.types && MostBelow(q, d - 1, name, group).Some? && !q.types[name].InputObjectType?
    requires FollowsBelow(q, types, path, d - 1, name, Flatten(SelectionSets(group)))
    ensures var v := BestBelow(q, d - 1, name, group);
            v != Null && Conforms(q, Limits, types, path, NamedType(name), group, v)
    decreases d - 1, 5
  {
    match q.types[name]
    case ScalarType(_) =>
    case EnumType(_, _) =>
    case InputObjectType(_) =>
    case _ =>
      var sub := Flatten(SelectionSets(group));
      var ot := BestType(q, d - 1, name, sub);
      assert Completion.Within(q, d - 1, group);
      Completion.SelectionSetsBounded(q, d - 1, group);
      BoundedSpreads(q, d - 1, sub);
      assert Follows(q, types, path, d - 1, ot, sub);
      BestObjectConforms(q, types, path, d - 1, ot, sub);
      assert path + [] == path;
      assert types(path + [], name) == TypeOn(q, d - 1, ot, sub, []);
      assert TypeThere(q, types, path, name) == ot;
  }

  // ---------- The exact bound

  ghost predicate StaysWithin(q: Query, r: Completion.Resolver, d: nat, root: TypeDefinition, sels: seq<Selection>,
                              c: nat)
    requires FragmentsExist(q) && Bounded(q, d, sels) && root.ObjectType?
  {
    var x := Completion.Execute(q, r, d, [], root, sels, None);
    x.Ok? ==> Entities(x.value) <= c
  }

  /** No execution gives more than `c` entities, whatever the resolver finds, if it gives no field more than it asks
      for. */
  ghost predicate Bounds(q: Query, d: nat, root: TypeDefinition, sels: seq<Selection>, c: nat)
    requires FragmentsExist(q) && Bounded(q, d, sels) && root.ObjectType?
  {
    forall r :: Completion.Trusted(q, r) && Completion.Limiting(r) ==> StaysWithin(q, r, d, root, sels, c)
  }

  /** What the number means: it is the largest number of entities that an execution gives. */
  lemma BoundExact(q: Query, root: TypeDefinition, d: nat, sels: seq<Selection>, c: nat)
    requires ValidSchema(q) && FragmentsExist(q) && Bounded(q, d, sels) && root.ObjectType? && root in q.types.Values
    ensures Bounds(q, d, root, sels, c)
            <==> (MostEntities(q, d, root, sels).Some? ==> MostEntities(q, d, root, sels).value <= c)
  {
    var most := MostEntities(q, d, root, sels);
    if most.Some? && Bounds(q, d, root, sels, c) {
      var r := BestResolver(q, root, d, sels);
      BestExecution(q, root, d, sels);
      assert StaysWithin(q, r, d, root, sels, c);
    }
    if most.Some? ==> most.value <= c {
      forall r | Completion.Trusted(q, r) && Completion.Limiting(r)
        ensures StaysWithin(q, r, d, root, sels, c)
      {
        Completion.ExecuteExact(q, r, LeaderLimits, d, [], root, sels, None);
        var x := Completion.Execute(q, r, d, [], root, sels, None);
        if x.Ok? { MostObject(q, Completion.TypesOf(r), [], d, root, sels, x.value); }
      }
    }
  }

  ghost function BestTypes(q: Query, root: TypeDefinition, d: nat, sels: seq<Selection>): Types {
    (path, n) => TypeOn(q, d, root, sels, path)
  }

  ghost function BestResolver(q: Query, root: TypeDefinition, d: nat, sels: seq<Selection>): Completion.Resolver
    requires root.ObjectType? && WellSpread(q, sels)
  {
    Replay(q, BestObject(q, d, root, sels), BestTypes(q, root, d, sels))
  }

  /** The most entities are attained by an execution. */
  lemma BestExecution(q: Query, root: TypeDefinition, d: nat, sels: seq<Selection>)
    requires ValidSchema(q) && FragmentsExist(q) && Bounded(q, d, sels) && root.ObjectType? && root in q.types.Values
    requires MostEntities(q, d, root, sels).Some?
    ensures var v, r := BestObject(q, d, root, sels), BestResolver(q, root, d, sels);
            && Completion.Trusted(q, r) && Completion.Limiting(r)
            && Completion.Execute(q, r, d, [], root, sels, None) == Ok(v)
            && Entities(v) == MostEntities(q, d, root, sels).value
  {
    BestConforms(q, root, d, sels);
    BestObjectEntities(q, d, root, sels);
    SchemaResolvable(q);
    ReplayProduces(q, d, BestTypes(q, root, d, sels), root, sels, BestObject(q, d, root, sels));
  }

  lemma BestConforms(q: Query, root: TypeDefinition, d: nat, sels: seq<Selection>)
    requires ValidSchema(q) && FragmentsExist(q) && Bounded(q, d, sels) && root.ObjectType? && root in q.types.Values
    requires MostEntities(q, d, root, sels).Some?
    ensures ObjectConforms(q, Limits, BestTypes(q, root, d, sels), [], root, sels, BestObject(q, d, root, sels))
  {
    var types := BestTypes(q, root, d, sels);
    forall s: Path, n: Name
      ensures types([] + s, n) == TypeOn(q, d, root, sels, s)
    {
      assert [] + s == s;
    }
    assert Follows(q, types, [], d, root, sels);
    BestObjectConforms(q, types, [], d, root, sels);
  }

  lemma SchemaResolvable(q: Query)
    requires ValidSchema(q)
    ensures AllResolvable(q)
  {
    forall def, name | def in q.types.Values && GetField(def, name).Some?
      ensures Completion.Resolvable(q, GetField(def, name).value)
    {
      PlainResolvable(q, GetField(def, name).value);
    }
  }

  lemma PlainResolvable(q: Query, ty: Type)
    requires Plain(q, ty)
    ensures Completion.Resolvable(q, ty)
  {
    var t := Strip(ty);
    BaseOfStripped(ty);
    if t.ListType? {
      BaseOfItems(ty);
      BaseOfStripped(t.inner);
      assert Completion.ItemsResolvable(q, Strip(t.inner));
      assert Completion.ItemsResolvable(q, t.inner);
    }
    assert Completion.Resolvable(q, t);
  }

  // ---------- and the complexity

  /** The complexity that is checked bounds all executions exactly if none can give more. An invalid query has
      complexity zero, which is a bound only if it gives no entities at all. */
  lemma ComplexityExact(q: Query, root: TypeDefinition, d: nat, sels: seq<Selection>, maxDepth: nat)
    requires ValidSchema(q) && FragmentsExist(q) && Bounded(q, d, sels) && root.ObjectType? && root in q.types.Values
    requires Complexity(q, root, sels, maxDepth).Ok?
    ensures var c, most := Complexity(q, root, sels, maxDepth).value, MostEntities(q, d, root, sels);
            && (Bounds(q, d, root, sels, c) <==> (most.Some? ==> most.value <= c))
            && (ComplexityInner(q, root, sels, maxDepth, 0) == Err(Invalid) ==>
                  (Bounds(q, d, root, sels, c) <==> (most.Some? ==> most.value == 0)))
  {
    BoundExact(q, root, d, sels, Complexity(q, root, sels, maxDepth).value);
  }

  /** Under each key there are fields of one name, of which the first asks for the fewest items, for all types that
      values may turn out to have. */
  ghost predicate LeaderLeast(q: Query, d: nat, ot: TypeDefinition, sels: seq<Selection>)
    decreases d, 1
  {
    ot.ObjectType? && WellSpread(q, sels) ==>
      (var fields := Collect(q, ot, sels, {}).fields;
       forall k :: k in FirstKeys(fields) ==> GroupLeast(q, d, ot, FieldsFor(fields, k)))
  }

  ghost predicate GroupLeast(q: Query, d: nat, ot: TypeDefinition, group: seq<Selection>)
    requires AllFields(group)
    decreases d, 0
  {
    group != [] && d > 0 && group[0].Field? ==>
      ((forall f :: f in group ==> f.name == group[0].name && First(group[0]) <= First(f))
       && (var ty := GetField(ot, group[0].name);
           ty.Some? ==> BelowLeast(q, d - 1, BaseType(ty.value), group)))
  }

  ghost predicate BelowLeast(q: Query, d: nat, name: Name, group: seq<Selection>)
    requires AllFields(group)
    decreases d, 2
  {
    forall ot :: IsRuntimeType(q, name, ot) ==> LeaderLeast(q, d, ot, Flatten(SelectionSets(group)))
  }

  lemma {:induction false} LeastObject(q: Query, types: Types, path: Path, d: nat, ot: TypeDefinition,
                                       sels: seq<Selection>, v: Value)
    requires FragmentsExist(q) && Bounded(q, d, sels) && LeaderLeast(q, d, ot, sels)
    requires ObjectConforms(q, Limits, types, path, ot, sels, v)
    ensures ObjectConforms(q, EveryLimit, types, path, ot, sels, v)
    decreases v, 0
  {
    CollectedBounded(q, d, ot, sels, {});
    var fields := Collect(q, ot, sels, {}).fields;
    forall k | k in v.fields
      ensures FieldConforms(q, EveryLimit, types, path + [Key(k)], ot, FieldsFor(fields, k), v.fields[k])
    {
      GroupWithin(fields, k);
      var group := FieldsFor(fields, k);
      assert group[0] in group;
      LeastValue(q, types, path + [Key(k)], d, GetField(ot, group[0].name).value, group, v.fields[k]);
    }
  }

  lemma {:induction false} LeastValue(q: Query, types: Types, path: Path, d: nat, ty: Type, group: seq<Selection>,
                                      v: Value)
    requires FragmentsExist(q) && AllFields(group) && group != [] && group[0] in group && d > 0
             && BoundedBelow(q, d, group)
    requires (forall f :: f in group ==> First(group[0]) <= First(f)) && BelowLeast(q, d - 1, BaseType(ty), group)
    requires Conforms(q, Limits, types, path, ty, group, v)
    ensures Conforms(q, EveryLimit, types, path, ty, group, v)
    decreases v, 1, ty
  {
    match ty
    case NonNullType(inner) => LeastValue(q, types, path, d, inner, group, v);
    case ListType(inner) =>
      if v != Null {
        forall i | 0 <= i < |v.items|
          ensures Conforms(q, EveryLimit, types, path + [Item(i)], inner, group, v.items[i])
        {
          LeastValue(q, types, path + [Item(i)], d, inner, group, v.items[i]);
        }
      }
    case NamedType(n) =>
      if v != Null && !q.types[n].ScalarType? && !q.types[n].EnumType? {
        assert Completion.Within(q, d - 1, group);
        Completion.SelectionSetsBounded(q, d - 1, group);
        LeastObject(q, types, path, d - 1, TypeThere(q, types, path, n), Flatten(SelectionSets(group)), v);
      }
  }

  /** For a validated query whose merged fields are led by the one that asks for least, the complexity is a bound if it
      fits into 64 bits. */
  lemma LeastWithinComplexity(q: Query, root: TypeDefinition, sels: seq<Selection>, maxDepth: nat)
    requires ValidSchema(q) && FragmentsExist(q) && root.ObjectType? && root in q.types.Values
    requires Validated(q, root, maxDepth, sels) && ComplexityInner(q, root, sels, maxDepth, 0).Ok?
    requires LeaderLeast(q, maxDepth, root, sels) && Cost(q, root, maxDepth, sels) < U64
    ensures Bounded(q, maxDepth, sels)
    ensures Bounds(q, maxDepth, root, sels, Complexity(q, root, sels, maxDepth).value)
  {
    ComputedIsBounded(q, root, sels, maxDepth);
    InnerIsCost(q, root, sels, maxDepth, 0);
    MostWithinCost(q, root, maxDepth, sels);
    BoundExact(q, root, maxDepth, sels, Complexity(q, root, sels, maxDepth).value);
  }

  lemma MostWithinCost(q: Query, root: TypeDefinition, d: nat, sels: seq<Selection>)
    requires ValidSchema(q) && FragmentsExist(q) && root.ObjectType? && root in q.types.Values && Bounded(q, d, sels)
    requires Validated(q, root, d, sels) && LeaderLeast(q, d, root, sels)
    ensures MostEntities(q, d, root, sels).Some? ==> MostEntities(q, d, root, sels).value <= Cost(q, root, d, sels)
  {
    if MostEntities(q, d, root, sels).Some? {
      var types, v := BestTypes(q, root, d, sels), BestObject(q, d, root, sels);
      BestConforms(q, root, d, sels);
      BestObjectEntities(q, d, root, sels);
      LeastObject(q, types, [], d, root, sels, v);
      EntitiesWithinCost(q, types, root, d, sels, v);
    }
  }
}
