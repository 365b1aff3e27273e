/** Execution and value completion in the source's own steps: groups one after the other, list slots in place. */
module SelectionSetExecution {
  import opened Common
  import opened GraphQL
  import opened CollectFields
  import opened Conformance
  import opened ValueCompletion

  lemma PrefetchedWithout(data: map<string, Value>, x: string, key: Name, name: FieldName)
    requires x != "prefetch:" + key && x != name
    ensures Prefetched(data - {x}, key, name) == Prefetched(data, key, name)
  {}

  lemma PrefetchKeysDiffer(a: Name, b: Name, name: FieldName)
    ensures "prefetch:" + a != name
    ensures a != b ==> "prefetch:" + a != "prefetch:" + b
  {
    assert ("prefetch:" + a)[8] == ':';
    assert a == ("prefetch:" + a)[9..] && b == ("prefetch:" + b)[9..];
  }

  /** The fields of groups as one list. */
  function AllOf(groups: map<Name, seq<Selection>>, order: seq<Name>): seq<Selection>
    requires forall k :: k in order ==> k in groups
  {
    if order == [] then [] else
    AllOf(groups, order[..|order| - 1]) + groups[order[|order| - 1]]
  }

  /** The name of the field that decides for a group. */
  function HeadName(groups: map<Name, seq<Selection>>, key: Name): FieldName {
    if key in groups && groups[key] != [] && groups[key][0].Field? then groups[key][0].name else ""
  }

  ghost predicate Headed(groups: map<Name, seq<Selection>>, order: seq<Name>) {
    forall i :: 0 <= i < |order| ==> order[i] in groups && groups[order[i]] != [] && groups[order[i]][0].Field?
  }

  predicate OccursTwice(fields: seq<Selection>, name: Name) {
    exists i, j :: 0 <= i < j < |fields| && fields[i].Field? && fields[j].Field? && fields[i].name == name
      && fields[j].name == name
  }

  ghost predicate AreMultiple(names: set<Name>, fields: seq<Selection>) {
    forall name :: name in names <==> OccursTwice(fields, name)
  }

  lemma {:induction false} AllOfHas(groups: map<Name, seq<Selection>>, order: seq<Name>, i: nat)
    requires (forall k :: k in order ==> k in groups) && Headed(groups, order) && i < |order|
    ensures exists p :: 0 <= p < |AllOf(groups, order)| && AllOf(groups, order)[p] == groups[order[i]][0]
  {
    var n := |order| - 1;
    var before := AllOf(groups, order[..n]);
    if i == n {
      assert AllOf(groups, order)[|before|] == groups[order[i]][0];
    } else {
      AllOfHas(groups, order[..n], i);
      var p :| 0 <= p < |before| && before[p] == groups[order[..n][i]][0];
      assert AllOf(groups, order)[p] == groups[order[i]][0];
    }
  }

  /** Fields that come first in different groups and have the same name occur twice. */
  lemma {:induction false} FirstsOccurTwice(groups: map<Name, seq<Selection>>, order: seq<Name>, i: nat, j: nat)
    requires (forall k :: k in order ==> k in groups) && Headed(groups, order) && i < j < |order|
    requires HeadName(groups, order[i]) == HeadName(groups, order[j])
    ensures OccursTwice(AllOf(groups, order), HeadName(groups, order[i]))
  {
    var n := |order| - 1;
    var before := AllOf(groups, order[..n]);
    var all := AllOf(groups, order);
    var name := HeadName(groups, order[i]);
    if j == n {
      AllOfHas(groups, order[..n], i);
      var p :| 0 <= p < |before| && before[p] == groups[order[..n][i]][0];
      assert all[p] == groups[order[i]][0] && all[|before|] == groups[order[j]][0];
    } else {
      FirstsOccurTwice(groups, order[..n], i, j);
      var p, r :| 0 <= p < r < |before| && before[p].Field? && before[r].Field? && before[p].name == name
        && before[r].name == name;
      assert all[p] == before[p] && all[r] == before[r];
    }
  }

  /** The names that several of the fields have. */
  method MultipleNames(fields: seq<Selection>) returns (multiple: set<Name>)
    requires AllFields(fields)
    ensures AreMultiple(multiple, fields)
  {
    multiple := {};
    var seen: set<Name> := {};
    for i := 0 to |fields|
      invariant forall name :: name in seen <==> exists p :: 0 <= p < i && fields[p].Field? && fields[p].name == name
      invariant AreMultiple(multiple, fields[..i])
    {
      assert fields[i] in fields;
      var name := fields[i].name;
      forall other
        ensures OccursTwice(fields[..i + 1], other)
                <==> OccursTwice(fields[..i], other) || (other == name && name in seen)
      {
        OccursTwiceNext(fields, i, other);
      }
      if name in seen { multiple := multiple + {name}; }
      seen := seen + {name};
    }
    assert fields[..|fields|] == fields;
  }

  lemma OccursTwiceNext(fields: seq<Selection>, i: nat, name: Name)
    requires AllFields(fields) && i < |fields| && fields[i] in fields
    ensures OccursTwice(fields[..i + 1], name) <==>
              OccursTwice(fields[..i], name)
              || (name == fields[i].name && exists p :: 0 <= p < i && fields[p].Field? && fields[p].name == name)
  {
    var before, after := fields[..i], fields[..i + 1];
    if OccursTwice(after, name) {
      var a, b :| 0 <= a < b < |after| && after[a].Field? && after[b].Field? && after[a].name == name
        && after[b].name == name;
      if b < i { assert before[a] == after[a] && before[b] == after[b]; } else { assert fields[a] == after[a]; }
    }
    if OccursTwice(before, name) {
      var a, b :| 0 <= a < b < |before| && before[a].Field? && before[b].Field? && before[a].name == name
        && before[b].name == name;
      assert before[a] == after[a] && before[b] == after[b];
    }
    if p :| 0 <= p < i && fields[p].Field? && fields[p].name == name && name == fields[i].name {
      assert after[p] == fields[p] && after[i] == fields[i];
    }
  }

  /** `complete_value` */
  method CompleteValue(q: Query, r: Resolver, ghost d: nat, path: Path, group: seq<Selection>, ty: Type, v: Value)
    returns (c: Completed)
    requires FragmentsExist(q) && Within(q, d, group) && group != []
    ensures c == Complete(q, r, d, path, group, ty, v)
    decreases d, 3, ty, 0, 0
  {
    var name := group[0].name;
    match ty {
      case NonNullType(inner) =>
        c := CompleteValue(q, r, d, path, group, inner, v);
        if c == Ok(Null) { c := Err([NonNullError(name)]); }
      case ListType(inner) =>
        if v == Null { return Ok(Null); }
        if !v.List? { return Err([ListValueError(name)]); }
        var slots := new Value[|v.items|](i requires 0 <= i < |v.items| => v.items[i]);
        assert slots[..] == v.items;
        var errors := CompleteSlots(q, r, d, path, group, inner, slots);
        c := if errors == [] then Ok(List(slots[..])) else Err(errors);
      case NamedType(n) =>
        if v == Null { return Ok(Null); }
        if n !in q.types { return Err([Panic]); }
        match q.types[n] {
          case ScalarType(scalar) =>
            var w := CoerceScalar(r, scalar, v);
            c := if w.Some? then Ok(w.value) else Err([ScalarCoercionError(name, v, scalar)]);
          case EnumType(enum, values) =>
            var w := CoerceEnum(values, v);
            c := if w.Some? then Ok(w.value) else Err([EnumCoercionError(name, v, enum)]);
          case InputObjectType(_) => c := Err([Panic]);
          case ObjectType(_, _, _) =>
            SelectionSetsBounded(q, d, group);
            c := ExecuteSelectionSet(q, r, d, path, SelectionSets(group), q.types[n], Some(v));
          case _ =>
            var ot := r.resolveAbstractType(path, n);
            if ot.None? { return Err([AbstractTypeError(q.types[n].name)]); }
            if !ot.value.ObjectType? { return Err([Panic]); }
            SelectionSetsBounded(q, d, group);
            c := ExecuteSelectionSet(q, r, d, path, SelectionSets(group), ot.value, Some(v));
        }
    }
  }

  /** The loop that completes the values of a list in place, with a placeholder in each slot until it is done. */
  method CompleteSlots(q: Query, r: Resolver, ghost d: nat, path: Path, group: seq<Selection>, inner: Type,
                       slots: array<Value>)
    returns (errors: seq<Error>)
    requires FragmentsExist(q) && Within(q, d, group) && group != []
    modifies slots
    ensures Slots(slots[..], errors) == CompleteItems(q, r, d, path, group, inner, old(slots[..]))
    decreases d, 3, inner, 1, slots.Length
  {
    errors := [];
    ghost var values := slots[..];
    var i := 0;
    while i < slots.Length
      invariant 0 <= i <= slots.Length
      invariant slots[i..] == values[i..]
      invariant Slots(slots[..i], errors) == CompleteItems(q, r, d, path, group, inner, values[..i])
    {
      assert values[..i + 1][..i] == values[..i];
      assert slots[i] == slots[i..][0] == values[i];
      var v := slots[i];
      slots[i] := Null;
      ghost var done := slots[..i];
      var c := CompleteValue(q, r, d, path + [Item(i)], group, inner, v);
      match c {
        case Ok(w) => slots[i] := w;
        case Err(more) => errors := errors + more;
      }
      i := i + 1;
      assert slots[..i] == done + [if c.Ok? then c.value else Null];
    }
    assert values[..i] == values && slots[..i] == slots[..];
  }

  method ExecuteSelectionSet(q: Query, r: Resolver, ghost d: nat, path: Path, sets: seq<seq<Selection>>,
                             ot: TypeDefinition, prefetched: Option<Value>)
    returns (c: Completed)
    requires FragmentsExist(q) && Bounded(q, d, Flatten(sets)) && ot.ObjectType?
    requires forall s :: s in sets ==> Bounded(q, d, s)
    ensures c == Execute(q, r, d, path, ot, Flatten(sets), prefetched)
    decreases d, 1
  {
    if prefetched.Some? && !prefetched.value.Object? { return Err([Panic]); }
    var data := if prefetched.Some? then prefetched.value.fields else map[];
    var result := ExecuteSelectionSetToMap(q, r, d, path, sets, ot, data);
    c := match result case Ok(m) => Ok(Object(m)) case Err(errors) => Err(errors);
  }

  /** What the loop over the groups relies on: the groups of the collected fields, in the order of their keys. */
  ghost predicate Groups(q: Query, d: nat, fields: seq<Selection>, order: seq<Name>,
                         groups: map<Name, seq<Selection>>) {
    && AllFields(fields) && BoundedBelow(q, d, fields) && NoDuplicates(order) && Headed(groups, order)
    && (forall k :: k in order ==> k in groups)
    && (forall k :: k in groups ==>
          groups[k] == FieldsFor(fields, k) && AllFields(groups[k]) && BoundedBelow(q, d, groups[k]))
  }

  lemma GroupsOf(q: Query, d: nat, fields: seq<Selection>, order: seq<Name>, groups: map<Name, seq<Selection>>)
    requires AllFields(fields) && BoundedBelow(q, d, fields) && order == FirstKeys(fields)
             && (forall k :: k in groups <==> k in order)
    requires forall k :: k in groups ==> groups[k] == FieldsFor(fields, k)
    ensures Groups(q, d, fields, order, groups)
  {
    FirstKeysMeaning(fields);
    forall k | k in groups
      ensures AllFields(groups[k]) && BoundedBelow(q, d, groups[k])
    {
      GroupWithin(fields, k);
    }
    forall i | 0 <= i < |order|
      ensures order[i] in groups && groups[order[i]] != [] && groups[order[i]][0].Field?
    {
      var k := order[i];
      assert k in ToSet(order);
      GroupWithin(fields, k);
      var f :| f in fields && ResponseKey(f) == k;
      assert f in groups[k] && groups[k][0] in groups[k];
    }
  }

  /** Values of groups yet to come are still there to be found. */
  ghost predicate Untouched(data: map<string, Value>, left: map<string, Value>, order: seq<Name>,
                            groups: map<Name, seq<Selection>>, i: nat) {
    forall j :: i <= j < |order| ==>
      Prefetched(left, order[j], HeadName(groups, order[j])) == Prefetched(data, order[j], HeadName(groups, order[j]))
  }

  /** Takes the value for a group out of the prefetched object, except for a name that another group may look up. */
  method TakePrefetched(data: map<string, Value>, key: Name, name: FieldName, multiple: set<Name>)
    returns (value: Option<Value>, left: map<string, Value>)
    ensures value == Prefetched(data, key, name)
    ensures left == data || left == data - {"prefetch:" + key} || (left == data - {name} && name !in multiple)
  {
    left := data;
    if "prefetch:" + key in data {
      value := Some(data["prefetch:" + key]);
      left := left - {"prefetch:" + key};
    } else if name in multiple {
      value := Lookup(data, name);
    } else {
      value := Lookup(data, name);
      left := left - {name};
    }
  }

  lemma UntouchedNext(data: map<string, Value>, left: map<string, Value>, left': map<string, Value>,
                      order: seq<Name>, groups: map<Name, seq<Selection>>, i: nat)
    requires Headed(groups, order) && NoDuplicates(order) && (forall k :: k in order ==> k in groups)
    requires i < |order| && Untouched(data, left, order, groups, i)
    requires || left' == left || left' == left - {"prefetch:" + order[i]}
             || (left' == left - {HeadName(groups, order[i])}
                && !OccursTwice(AllOf(groups, order), HeadName(groups, order[i])))
    ensures Untouched(data, left', order, groups, i + 1)
  {
    forall j | i + 1 <= j < |order|
      ensures Prefetched(left', order[j], HeadName(groups, order[j]))
              == Prefetched(data, order[j], HeadName(groups, order[j]))
    {
      var name, mine := HeadName(groups, order[j]), HeadName(groups, order[i]);
      PrefetchKeysDiffer(order[i], order[j], name);
      PrefetchKeysDiffer(order[j], order[i], mine);
      if left' == left - {"prefetch:" + order[i]} {
        PrefetchedWithout(left, "prefetch:" + order[i], order[j], name);
      } else if left' != left {
        if mine == name { FirstsOccurTwice(groups, order, i, j); }
        PrefetchedWithout(left, mine, order[j], name);
      }
    }
  }

  /** `execute_selection_set_to_map` */
  method ExecuteSelectionSetToMap(q: Query, r: Resolver, ghost d: nat, path: Path, sets: seq<seq<Selection>>,
                                  ot: TypeDefinition, prefetched: map<string, Value>)
    returns (result: Result<map<string, Value>, seq<Error>>)
    requires FragmentsExist(q) && Bounded(q, d, Flatten(sets)) && ot.ObjectType?
    requires forall s :: s in sets ==> Bounded(q, d, s)
    ensures var c := Execute(q, r, d, path, ot, Flatten(sets), Some(Object(prefetched)));
            result == match c case Ok(v) => Ok(v.fields) case Err(errors) => Err(errors)
    decreases d, 0, 3
  {
    forall s | s in sets
      ensures WellSpread(q, s)
    {
      BoundedSpreads(q, d, s);
    }
    BoundedSpreads(q, d, []);
    var grouped := new Grouped();
    grouped.CollectFields(q, ot, sets);
    CollectedBounded(q, d, ot, Flatten(sets), {});
    GroupsOf(q, d, grouped.fields, grouped.order, grouped.groups);
    AllOfFields(grouped.groups, grouped.order);
    var multiple := MultipleNames(AllOf(grouped.groups, grouped.order));
    result := ExecuteInOrder(q, r, d, path, ot, grouped.fields, grouped.order, grouped.groups, multiple, prefetched);
  }

  /** Its loop: leaves in the prefetched object what another response key may still need. */
  method ExecuteInOrder(q: Query, r: Resolver, ghost d: nat, path: Path, ot: TypeDefinition,
                        ghost fields: seq<Selection>, order: seq<Name>, groups: map<Name, seq<Selection>>,
                        multiple: set<Name>, prefetched: map<string, Value>)
    returns (result: Result<map<string, Value>, seq<Error>>)
    requires FragmentsExist(q) && Groups(q, d, fields, order, groups) && ot.ObjectType?
    requires AreMultiple(multiple, AllOf(groups, order))
    ensures var p := ExecuteGroups(q, r, d, path, ot, fields, order, prefetched);
            result == if p.errors == [] then Ok(p.resultMap) else Err(p.errors)
    decreases d, 0, 2
  {
    var data := prefetched;
    var errors: seq<Error>, resultMap := [], map[];
    var i := 0;
    while i < |order|
      invariant 0 <= i <= |order|
      invariant Untouched(prefetched, data, order, groups, i)
      invariant ExecuteGroups(q, r, d, path, ot, fields, order[..i], prefetched) == Progress(resultMap, errors, false)
    {
      if r.expired(path + [Key(order[i])]) {
        ExpiredStep(q, r, d, path, ot, fields, order, i, prefetched);
        return Err(errors + [Timeout]);
      }
      var c;
      c, data := ExecuteNext(q, r, d, path, ot, fields, order, i, groups, multiple, prefetched, data);
      match c {
        case Ok(v) => resultMap := resultMap[order[i] := v];
        case Err(more) => errors := errors + more;
      }
      i := i + 1;
    }
    assert order[..i] == order;
    result := if errors == [] then Ok(resultMap) else Err(errors);
  }

  /** Takes the prefetched value of the next group and executes its field. */
  method ExecuteNext(q: Query, r: Resolver, ghost d: nat, path: Path, ot: TypeDefinition,
                     ghost fields: seq<Selection>, order: seq<Name>, i: nat, groups: map<Name, seq<Selection>>,
                     multiple: set<Name>, ghost prefetched: map<string, Value>, data: map<string, Value>)
    returns (c: Completed, left: map<string, Value>)
    requires FragmentsExist(q) && Groups(q, d, fields, order, groups) && ot.ObjectType? && i < |order|
    requires Untouched(prefetched, data, order, groups, i)
    requires AreMultiple(multiple, AllOf(groups, order))
    requires !ExecuteGroups(q, r, d, path, ot, fields, order[..i], prefetched).stopped
             && !r.expired(path + [Key(order[i])])
    ensures ExecuteGroups(q, r, d, path, ot, fields, order[..i + 1], prefetched) ==
            ExecuteGroups(q, r, d, path, ot, fields, order[..i], prefetched).With(order[i], c)
    ensures Untouched(prefetched, left, order, groups, i + 1)
    decreases d, 0, 1
  {
    var key := order[i];
    var value;
    value, left := TakePrefetched(data, key, HeadName(groups, key), multiple);
    UntouchedNext(prefetched, data, left, order, groups, i);
    c := ExecuteOneField(q, r, d, path + [Key(key)], ot, groups[key], value);
    GroupsStep(q, r, d, path, ot, fields, order, i, groups, prefetched);
  }

  /** `execute_field` */
  method ExecuteOneField(q: Query, r: Resolver, ghost d: nat, path: Path, ot: TypeDefinition, group: seq<Selection>,
                         v: Option<Value>)
    returns (c: Completed)
    requires FragmentsExist(q) && AllFields(group) && group != [] && group[0] in group && BoundedBelow(q, d, group)
             && ot.ObjectType?
    ensures c == ExecuteField(q, r, d, path, ot, group, v)
    decreases d, 0, 0
  {
    var ty := GetField(ot, group[0].name);
    if ty.None? { return Err([Panic]); }
    var argumentErrors := r.argumentErrors(path, ot, group[0]);
    if argumentErrors != [] { return Err(argumentErrors); }
    var resolved := ResolveFieldValue(q, r, path, ot, v, group[0], ty.value);
    if resolved.Err? { return resolved; }
    c := CompleteValue(q, r, d - 1, path, group, ty.value, resolved.value);
  }

  lemma {:induction false} AllOfFields(groups: map<Name, seq<Selection>>, order: seq<Name>)
    requires forall k :: k in order ==> k in groups && AllFields(groups[k])
    ensures AllFields(AllOf(groups, order))
  {
    if order != [] { AllOfFields(groups, order[..|order| - 1]); }
  }

  lemma GroupsStep(q: Query, r: Resolver, d: nat, path: Path, ot: TypeDefinition, fields: seq<Selection>,
                   order: seq<Name>, i: nat, groups: map<Name, seq<Selection>>, data: map<string, Value>)
    requires FragmentsExist(q) && Groups(q, d, fields, order, groups) && ot.ObjectType? && i < |order|
    requires !ExecuteGroups(q, r, d, path, ot, fields, order[..i], data).stopped && !r.expired(path + [Key(order[i])])
    ensures var key := order[i];
            ExecuteGroups(q, r, d, path, ot, fields, order[..i + 1], data) ==
            ExecuteGroups(q, r, d, path, ot, fields, order[..i], data).With(key,
              ExecuteField(q, r, d, path + [Key(key)], ot, groups[key], Prefetched(data, key, HeadName(groups, key))))
  {
    assert order[..i + 1][..i] == order[..i];
    assert groups[order[i]] == FieldsFor(fields, order[i]);
  }

  lemma ExpiredStep(q: Query, r: Resolver, d: nat, path: Path, ot: TypeDefinition, fields: seq<Selection>,
                    order: seq<Name>, i: nat, data: map<string, Value>)
    requires FragmentsExist(q) && AllFields(fields) && BoundedBelow(q, d, fields) && ot.ObjectType? && i < |order|
    requires !ExecuteGroups(q, r, d, path, ot, fields, order[..i], data).stopped && r.expired(path + [Key(order[i])])
    ensures ExecuteGroups(q, r, d, path, ot, fields, order, data).errors ==
            ExecuteGroups(q, r, d, path, ot, fields, order[..i], data).errors + [Timeout]
  {
    assert order[..i + 1][..i] == order[..i];
    StoppedStays(q, r, d, path, ot, fields, order, i + 1, data);
  }

  lemma {:induction false} StoppedStays(q: Query, r: Resolver, d: nat, path: Path, ot: TypeDefinition,
                                        fields: seq<Selection>, keys: seq<Name>, i: nat, data: map<string, Value>)
    requires FragmentsExist(q) && AllFields(fields) && BoundedBelow(q, d, fields) && ot.ObjectType? && i <= |keys|
    requires ExecuteGroups(q, r, d, path, ot, fields, keys[..i], data).stopped
    ensures ExecuteGroups(q, r, d, path, ot, fields, keys, data)
            == ExecuteGroups(q, r, d, path, ot, fields, keys[..i], data)
    decreases |keys| - i
  {
    if i < |keys| {
      assert keys[..i + 1][..i] == keys[..i];
      StoppedStays(q, r, d, path, ot, fields, keys, i + 1, data);
    } else {
      assert keys[..i] == keys;
    }
  }
}
