/** What the complexity of a query is a bound for: the entities in the collections of any response that has at most
    `first` items in each. */
module ComplexityBounds {
  import opened Common
  import opened GraphQL
  import opened CollectFields
  import opened Conformance
  import opened ResponseEntities
  import opened QueryComplexity

  /** `validate_fields_inner` finds nothing wrong, looking `d` levels deep: fields exist, and where they are objects
      something is selected from them. */
  ghost predicate Validated(q: Query, ty: TypeDefinition, d: nat, sels: seq<Selection>)
    decreases d, 2
  {
    sels != [] && ValidatedAll(q, ty, d, sels)
  }

  ghost predicate ValidatedAll(q: Query, ty: TypeDefinition, d: nat, sels: seq<Selection>)
    decreases d, 1, sels
  {
    sels == [] || (ValidatedOne(q, ty, d, sels[0]) && ValidatedAll(q, ty, d, sels[1..]))
  }

  ghost predicate ValidatedOne(q: Query, ty: TypeDefinition, d: nat, s: Selection)
    decreases d, 0
  {
    d > 0 &&
    match s
    case Field(_, name, _, _, selectionSet) =>
      (var fieldType := GetField(ty, name);
       fieldType.Some? && BaseType(fieldType.value) in q.types
       && (var base := q.types[BaseType(fieldType.value)];
           ObjectOrInterface(base) ==> Validated(q, base, d - 1, selectionSet)))
    case FragmentSpread(n) =>
      n in q.fragments && q.fragments[n].typeCondition in q.types
      && ObjectOrInterface(q.types[q.fragments[n].typeCondition])
      && Validated(q, q.types[q.fragments[n].typeCondition], d - 1, q.fragments[n].selectionSet)
    case InlineFragment(None, body) => Validated(q, ty, d - 1, body)
    case InlineFragment(Some(condition), body) =>
      condition in q.types && ObjectOrInterface(q.types[condition]) && Validated(q, q.types[condition], d - 1, body)
  }

  // ---------- Collected fields with the types they were selected from

  /** A field, the type that its selection is from, and the levels left for it. */
  datatype Typed = Typed(ty: TypeDefinition, d: nat, field: Selection)

  /** A selection set with its type and levels. */
  datatype Job = Job(ty: TypeDefinition, d: nat, sels: seq<Selection>)

  /** Objects of type `ot` are looked at as ones of `ty`. */
  predicate Stands(q: Query, ty: TypeDefinition, ot: TypeDefinition) {
    ty in q.types.Values && ot in q.types.Values && ot.ObjectType? && ObjectOrInterface(ty) &&
    (ty.ObjectType? ==> ty == ot) && (ty.InterfaceType? ==> ty.name in ot.implementsInterfaces)
  }

  ghost predicate GoodJob(q: Query, ot: TypeDefinition, j: Job) {
    Stands(q, j.ty, ot) && ValidatedAll(q, j.ty, j.d, j.sels)
  }

  ghost predicate GoodField(q: Query, ot: TypeDefinition, t: Typed) {
    Stands(q, t.ty, ot) && t.field.Field? && t.d > 0 && ValidatedOne(q, t.ty, t.d, t.field)
  }

  function FieldsOf(ts: seq<Typed>): seq<Selection> {
    seq(|ts|, i requires 0 <= i < |ts| => ts[i].field)
  }

  ghost function CostOf(q: Query, ts: seq<Typed>): nat {
    if ts == [] then 0 else
    var t := ts[|ts| - 1];
    CostOf(q, ts[..|ts| - 1]) + CostOfOne(q, t)
  }

  ghost function CostOfOne(q: Query, t: Typed): nat {
    if t.field.Field? && t.d > 0 then FieldCost(q, t.ty, t.d, t.field) else 0
  }

  lemma CostOfSnoc(q: Query, ts: seq<Typed>, t: Typed)
    ensures CostOf(q, ts + [t]) == CostOf(q, ts) + CostOfOne(q, t)
  {
    assert (ts + [t])[..|ts|] == ts;
  }

  lemma {:induction false} CostOfConcat(q: Query, a: seq<Typed>, b: seq<Typed>)
    ensures CostOf(q, a + b) == CostOf(q, a) + CostOf(q, b)
  {
    if b == [] {
      assert a + b == a;
    } else {
      var n := |b| - 1;
      assert (a + b)[..|a + b| - 1] == a + b[..n];
      CostOfConcat(q, a, b[..n]);
    }
  }

  ghost predicate AllGood(q: Query, ot: TypeDefinition, ts: seq<Typed>) {
    forall t :: t in ts ==> GoodField(q, ot, t)
  }

  /** The fields found by `CollectSelection`, with their types. */
  ghost function TypedSelection(q: Query, ot: TypeDefinition, ty: TypeDefinition, d: nat, s: Selection,
                                visited: set<Name>): seq<Typed>
    requires ot.ObjectType? && WellSpread(q, [s])
    decreases q.fragments.Keys - visited, s
  {
    match s
    case Field(_, _, _, _, _) => if Selected(q, s) then [Typed(ty, d, s)] else []
    case FragmentSpread(n) =>
      assert n in Spreads([s]);
      if d == 0 || n in visited || !Applies(q, ot, q.fragments[n].typeCondition) then []
      else TypedFields(q, ot, q.types[q.fragments[n].typeCondition], d - 1, q.fragments[n].selectionSet, visited + {n})
    case InlineFragment(condition, body) =>
      assert Spreads(body) <= Spreads([s]);
      if d == 0 || !InlineApplies(q, ot, condition) then []
      else TypedFields(q, ot, if condition.Some? then q.types[condition.value] else ty, d - 1, body, visited)
  }

  ghost function TypedFields(q: Query, ot: TypeDefinition, ty: TypeDefinition, d: nat, sels: seq<Selection>,
                             visited: set<Name>): seq<Typed>
    requires ot.ObjectType? && WellSpread(q, sels)
    decreases q.fragments.Keys - visited, sels
  {
    if sels == [] then [] else
    assert Spreads([sels[0]]) <= Spreads(sels);
    TypedSelection(q, ot, ty, d, sels[0], visited)
    + TypedFields(q, ot, ty, d, sels[1..], CollectSelection(q, ot, sels[0], visited).visited)
  }

  /** The typed fields are the collected ones, and cost no more than all that is selected. */
  ghost predicate Types(q: Query, ot: TypeDefinition, ts: seq<Typed>, fields: seq<Selection>, cost: nat) {
    FieldsOf(ts) == fields && AllGood(q, ot, ts) && CostOf(q, ts) <= cost
  }

  lemma TypesConcat(q: Query, ot: TypeDefinition, a: seq<Typed>, b: seq<Typed>, f: seq<Selection>, g: seq<Selection>,
                    m: nat, n: nat)
    requires Types(q, ot, a, f, m) && Types(q, ot, b, g, n)
    ensures Types(q, ot, a + b, f + g, m + n)
  {
    assert FieldsOf(a + b) == FieldsOf(a) + FieldsOf(b);
    CostOfConcat(q, a, b);
  }

  lemma {:induction false} TypedSelectionRight(q: Query, ot: TypeDefinition, ty: TypeDefinition, d: nat, s: Selection,
                                               visited: set<Name>)
    requires ot.ObjectType? && WellSpread(q, [s]) && Stands(q, ty, ot) && ValidatedOne(q, ty, d, s)
    ensures Types(q, ot, TypedSelection(q, ot, ty, d, s, visited), CollectSelection(q, ot, s, visited).fields,
                  SelectionCost(q, ty, d, s))
    decreases q.fragments.Keys - visited, s
  {
    match s
    case Field(_, _, _, _, _) =>
      var ts := TypedSelection(q, ot, ty, d, s, visited);
      if Selected(q, s) { assert ts == [Typed(ty, d, s)] && ts[..0] == []; }
    case FragmentSpread(n) =>
      assert n in Spreads([s]);
      if n !in visited && Applies(q, ot, q.fragments[n].typeCondition) {
        TypedFieldsRight(q, ot, q.types[q.fragments[n].typeCondition], d - 1, q.fragments[n].selectionSet,
                         visited + {n});
      }
    case InlineFragment(condition, body) =>
      assert Spreads(body) <= Spreads([s]);
      if InlineApplies(q, ot, condition) {
        TypedFieldsRight(q, ot, if condition.Some? then q.types[condition.value] else ty, d - 1, body, visited);
      }
  }

  lemma {:induction false} TypedFieldsRight(q: Query, ot: TypeDefinition, ty: TypeDefinition, d: nat,
                                            sels: seq<Selection>, visited: set<Name>)
    requires ot.ObjectType? && WellSpread(q, sels) && GoodJob(q, ot, Job(ty, d, sels))
    ensures Types(q, ot, TypedFields(q, ot, ty, d, sels, visited), Collect(q, ot, sels, visited).fields,
                  Cost(q, ty, d, sels))
    decreases q.fragments.Keys - visited, sels
  {
    if sels != [] {
      assert Spreads([sels[0]]) <= Spreads(sels);
      var next := CollectSelection(q, ot, sels[0], visited).visited;
      TypedSelectionRight(q, ot, ty, d, sels[0], visited);
      TypedFieldsRight(q, ot, ty, d, sels[1..], next);
      TypesConcat(q, ot, TypedSelection(q, ot, ty, d, sels[0], visited), TypedFields(q, ot, ty, d, sels[1..], next),
                  CollectSelection(q, ot, sels[0], visited).fields, Collect(q, ot, sels[1..], next).fields,
                  SelectionCost(q, ty, d, sels[0]), Cost(q, ty, d, sels[1..]));
    }
  }

  function SelsOf(jobs: seq<Job>): seq<seq<Selection>> {
    seq(|jobs|, i requires 0 <= i < |jobs| => jobs[i].sels)
  }

  ghost function JobsCost(q: Query, jobs: seq<Job>): nat {
    if jobs == [] then 0 else
    var j := jobs[|jobs| - 1];
    JobsCost(q, jobs[..|jobs| - 1]) + Cost(q, j.ty, j.d, j.sels)
  }

  /** Selection sets that are executed together, as one. */
  ghost function Merged(jobs: seq<Job>): seq<Selection> {
    Flatten(SelsOf(jobs))
  }

  ghost function TypedJobs(q: Query, ot: TypeDefinition, jobs: seq<Job>): seq<Typed>
    requires ot.ObjectType? && WellSpread(q, Merged(jobs))
  {
    if jobs == [] then [] else
    var before, j := jobs[..|jobs| - 1], jobs[|jobs| - 1];
    MergedSplit(q, jobs);
    TypedJobs(q, ot, before) + TypedFields(q, ot, j.ty, j.d, j.sels, Collect(q, ot, Merged(before), {}).visited)
  }

  lemma MergedSplit(q: Query, jobs: seq<Job>)
    requires jobs != [] && WellSpread(q, Merged(jobs))
    ensures Merged(jobs) == Merged(jobs[..|jobs| - 1]) + jobs[|jobs| - 1].sels
    ensures WellSpread(q, Merged(jobs[..|jobs| - 1])) && WellSpread(q, jobs[|jobs| - 1].sels)
  {
    var n := |jobs| - 1;
    assert SelsOf(jobs)[..n] == SelsOf(jobs[..n]);
    SpreadsConcat(Merged(jobs[..n]), jobs[n].sels);
  }

  lemma {:induction false} TypedJobsRight(q: Query, ot: TypeDefinition, jobs: seq<Job>)
    requires ot.ObjectType? && WellSpread(q, Merged(jobs)) && forall j :: j in jobs ==> GoodJob(q, ot, j)
    ensures Types(q, ot, TypedJobs(q, ot, jobs), Collect(q, ot, Merged(jobs), {}).fields, JobsCost(q, jobs))
  {
    if jobs != [] {
      var before, j := jobs[..|jobs| - 1], jobs[|jobs| - 1];
      MergedSplit(q, jobs);
      TypedJobsRight(q, ot, before);
      var visited := Collect(q, ot, Merged(before), {}).visited;
      assert j == Job(j.ty, j.d, j.sels);
      TypedFieldsRight(q, ot, j.ty, j.d, j.sels, visited);
      CollectConcat(q, ot, Merged(before), j.sels, {});
      TypesConcat(q, ot, TypedJobs(q, ot, before), TypedFields(q, ot, j.ty, j.d, j.sels, visited),
                  Collect(q, ot, Merged(before), {}).fields, Collect(q, ot, j.sels, visited).fields,
                  JobsCost(q, before), Cost(q, j.ty, j.d, j.sels));
    }
  }

  // ---------- By response key

  ghost function TypedFor(ts: seq<Typed>, key: Name): seq<Typed> {
    if ts == [] then [] else
    var rest, last := TypedFor(ts[..|ts| - 1], key), ts[|ts| - 1];
    if last.field.Field? && ResponseKey(last.field) == key then rest + [last] else rest
  }

  ghost function TypedWithout(ts: seq<Typed>, key: Name): seq<Typed> {
    if ts == [] then [] else
    var rest, last := TypedWithout(ts[..|ts| - 1], key), ts[|ts| - 1];
    if last.field.Field? && ResponseKey(last.field) == key then rest else rest + [last]
  }

  lemma {:induction false} TypedForFields(ts: seq<Typed>, key: Name)
    requires AllFields(FieldsOf(ts))
    ensures FieldsOf(TypedFor(ts, key)) == FieldsFor(FieldsOf(ts), key)
    ensures forall t :: t in TypedFor(ts, key) ==> t in ts
  {
    if ts != [] {
      var n := |ts| - 1;
      assert FieldsOf(ts)[..n] == FieldsOf(ts[..n]);
      assert ts[n].field == FieldsOf(ts)[n] && FieldsOf(ts)[n] in FieldsOf(ts);
      TypedForFields(ts[..n], key);
      assert FieldsOf(TypedFor(ts[..n], key) + [ts[n]]) == FieldsOf(TypedFor(ts[..n], key)) + [ts[n].field];
    }
  }

  lemma {:induction false} CostByKey(q: Query, ts: seq<Typed>, key: Name)
    ensures CostOf(q, ts) == CostOf(q, TypedFor(ts, key)) + CostOf(q, TypedWithout(ts, key))
  {
    if ts != [] {
      var rest, last := ts[..|ts| - 1], ts[|ts| - 1];
      CostByKey(q, rest, key);
      CostOfSnoc(q, TypedFor(rest, key), last);
      CostOfSnoc(q, TypedWithout(rest, key), last);
    }
  }

  lemma {:induction false} ForWithout(ts: seq<Typed>, key: Name, other: Name)
    requires key != other
    ensures TypedFor(TypedWithout(ts, key), other) == TypedFor(ts, other)
  {
    if ts != [] {
      var rest, last := ts[..|ts| - 1], ts[|ts| - 1];
      ForWithout(rest, key, other);
      var w := TypedWithout(rest, key);
      assert (w + [last])[..|w|] == w;
    }
  }

  /** If what is under each key is within the cost of its fields, all together is within the cost of all. */
  lemma {:induction false} BoundByKey(q: Query, v: Value, keys: set<string>, ts: seq<Typed>)
    requires v.Object? && keys <= v.fields.Keys
    requires forall k :: k in keys ==> Entities(v.fields[k]) <= CostOf(q, TypedFor(ts, k))
    ensures EntitiesUnder(v, keys) <= CostOf(q, ts)
    decreases |keys|
  {
    if keys != {} {
      var k :| k in keys && EntitiesUnder(v, keys) == Entities(v.fields[k]) + EntitiesUnder(v, keys - {k});
      forall j | j in keys - {k}
        ensures Entities(v.fields[j]) <= CostOf(q, TypedFor(TypedWithout(ts, k), j))
      {
        ForWithout(ts, k, j);
      }
      BoundByKey(q, v, keys - {k}, TypedWithout(ts, k));
      CostByKey(q, ts, k);
    }
  }

  // ---------- The bound

  /** A field of type `b` can stand where the selection was made on one of type `a`. */
  ghost predicate Covers(q: Query, a: Type, b: Type) {
    && IsListOrNonNullList(a) == IsListOrNonNullList(b)
    && BaseType(a) in q.types && BaseType(b) in q.types
    && (ObjectOrInterface(q.types[BaseType(b)]) ==> ObjectOrInterface(q.types[BaseType(a)]))
    && (forall ot :: IsRuntimeType(q, BaseType(b), ot) ==> IsRuntimeType(q, BaseType(a), ot))
  }

  /** A valid schema: fields have types that can be resolved, and objects have the fields of their interfaces. */
  ghost predicate ValidSchema(q: Query) {
    && (forall def, name :: def in q.types.Values && GetField(def, name).Some? ==> Plain(q, GetField(def, name).value))
    && (forall i, ot, name :: i in q.types.Values && i.InterfaceType? && ot in q.types.Values && ot.ObjectType?
          && i.name in ot.implementsInterfaces && GetField(i, name).Some?
          ==> GetField(ot, name).Some? && Covers(q, GetField(i, name).value, GetField(ot, name).value))
  }

  /** The static type of a field that was collected for an object. */
  ghost predicate TypedAs(q: Query, t: Typed, ty: Type) {
    t.field.Field? && GetField(t.ty, t.field.name).Some? && Covers(q, GetField(t.ty, t.field.name).value, ty)
  }

  lemma StaticType(q: Query, ot: TypeDefinition, t: Typed, ty: Type)
    requires ValidSchema(q) && GoodField(q, ot, t) && GetField(ot, t.field.name) == Some(ty)
    ensures TypedAs(q, t, ty) && Plain(q, ty)
  {}

  /** What is executed below fields of one group. */
  ghost function Below(q: Query, ts: seq<Typed>): seq<Job>
    requires forall t :: t in ts ==> JobExists(q, t)
  {
    seq(|ts|, i requires 0 <= i < |ts| => assert ts[i] in ts; BelowOne(q, ts[i]))
  }

  ghost predicate JobExists(q: Query, t: Typed) {
    t.field.Field? && t.d > 0 && GetField(t.ty, t.field.name).Some?
      && BaseType(GetField(t.ty, t.field.name).value) in q.types
  }

  ghost function BelowOne(q: Query, t: Typed): Job
    requires JobExists(q, t)
  {
    Job(q.types[BaseType(GetField(t.ty, t.field.name).value)], t.d - 1, t.field.selectionSet)
  }

  lemma BelowIsGood(q: Query, ot: TypeDefinition, t: Typed, ty: Type, runtime: TypeDefinition)
    requires GoodField(q, ot, t) && TypedAs(q, t, ty) && ObjectOrInterface(q.types[BaseType(ty)])
             && IsRuntimeType(q, BaseType(ty), runtime)
    ensures JobExists(q, t) && GoodJob(q, runtime, BelowOne(q, t))
  {
    var base := BaseType(GetField(t.ty, t.field.name).value);
    assert IsRuntimeType(q, base, runtime);
    assert ObjectOrInterface(q.types[base]);
    assert Validated(q, q.types[base], t.d - 1, t.field.selectionSet);
  }

  lemma MemberCost(q: Query, t: Typed, ty: Type)
    requires JobExists(q, t) && TypedAs(q, t, ty) && t.field.selectionSet != []
    ensures var j := BelowOne(q, t); var c := Cost(q, j.ty, j.d, j.sels);
            FieldCost(q, t.ty, t.d, t.field) == if IsListOrNonNullList(ty) then MaxEntities(t.field) * (1 + c) else c
  {}

  /** The members of a group, each with the cost of what is below it. */
  lemma {:induction false} GroupCost(q: Query, ts: seq<Typed>, ty: Type, n: nat)
    requires forall t :: t in ts ==> JobExists(q, t) && TypedAs(q, t, ty) && t.field.selectionSet != []
    requires forall t :: t in ts ==> t.field.Field? && n <= First(t.field)
    ensures CostOf(q, ts) >= if IsListOrNonNullList(ty) then n * (|ts| + JobsCost(q, Below(q, ts)))
            else JobsCost(q, Below(q, ts))
  {
    if ts != [] {
      var rest, t := ts[..|ts| - 1], ts[|ts| - 1];
      GroupCost(q, rest, ty, n);
      LastMember(q, rest, t, ty, n);
      assert rest + [t] == ts;
    }
  }

  lemma LastMember(q: Query, rest: seq<Typed>, t: Typed, ty: Type, n: nat)
    requires forall u :: u in rest ==> JobExists(q, u)
    requires JobExists(q, t) && TypedAs(q, t, ty) && t.field.selectionSet != [] && n <= First(t.field)
    requires CostOf(q, rest)
             >= if IsListOrNonNullList(ty) then n * (|rest| + JobsCost(q, Below(q, rest)))
               else JobsCost(q, Below(q, rest))
    ensures var ts := rest + [t];
            CostOf(q, ts) >= if IsListOrNonNullList(ty) then n * (|ts| + JobsCost(q, Below(q, ts)))
              else JobsCost(q, Below(q, ts))
  {
    var ts := rest + [t];
    CostOfSnoc(q, rest, t);
    assert Below(q, ts)[..|rest|] == Below(q, rest);
    var j := BelowOne(q, t);
    var c := Cost(q, j.ty, j.d, j.sels);
    MemberCost(q, t, ty);
    Grows(n, MaxEntities(t.field), 1 + c);
    Distribute(n, |rest| + JobsCost(q, Below(q, rest)), 1 + c);
  }

  lemma Grows(n: nat, m: nat, c: nat)
    requires n <= m
    ensures n * c <= m * c
  {}

  /** Every field limits its list; keys may be missing. */
  const EveryLimit := Demand(false, AllLimit)

  lemma {:induction false} ObjectBound(q: Query, types: Types, path: Path, ot: TypeDefinition, jobs: seq<Job>, v: Value)
    requires ValidSchema(q) && (forall j :: j in jobs ==> GoodJob(q, ot, j))
    requires ObjectConforms(q, EveryLimit, types, path, ot, Merged(jobs), v)
    ensures Entities(v) <= JobsCost(q, jobs)
    decreases v, 0
  {
    var ts := TypedJobs(q, ot, jobs);
    TypedJobsRight(q, ot, jobs);
    var fields := Collect(q, ot, Merged(jobs), {}).fields;
    forall k | k in v.fields.Keys
      ensures Entities(v.fields[k]) <= CostOf(q, TypedFor(ts, k))
    {
      TypedForFields(ts, k);
      FieldBound(q, types, path + [Key(k)], ot, TypedFor(ts, k), v.fields[k]);
    }
    BoundByKey(q, v, v.fields.Keys, ts);
  }

  lemma {:induction false} FieldBound(q: Query, types: Types, path: Path, ot: TypeDefinition, ts: seq<Typed>, v: Value)
    requires ValidSchema(q) && AllGood(q, ot, ts) && AllFields(FieldsOf(ts))
             && FieldConforms(q, EveryLimit, types, path, ot, FieldsOf(ts), v)
    ensures Entities(v) <= CostOf(q, ts)
    decreases v, 3
  {
    var ty := GetField(ot, FieldsOf(ts)[0].name).value;
    forall t | t in ts
      ensures TypedAs(q, t, ty) && Plain(q, ty)
    {
      var i :| 0 <= i < |ts| && ts[i] == t;
      assert FieldsOf(ts)[i] in FieldsOf(ts);
      StaticType(q, ot, t, ty);
    }
    assert ts[0] in ts;
    if v == Null {
    } else if !ObjectOrInterface(q.types[BaseType(ty)]) {
      LeafBound(q, EveryLimit, types, path, ty, FieldsOf(ts), v);
    } else if Strip(ty).ListType? {
      SelectedBelow(q, ot, ts, ty);
      ListsAreLists(q, EveryLimit, types, path, ty, FieldsOf(ts), v);
      ListBound(q, types, path, ot, ts, ty, v);
    } else {
      SelectedBelow(q, ot, ts, ty);
      ConformsNamed(q, EveryLimit, types, path, ty, FieldsOf(ts), v);
      NamedBound(q, types, path, ot, ts, ty, v);
      GroupCost(q, ts, ty, 0);
    }
  }

  lemma {:induction false} ListBound(q: Query, types: Types, path: Path, ot: TypeDefinition, ts: seq<Typed>, ty: Type,
                                     v: Value)
    requires ValidSchema(q) && AllGood(q, ot, ts) && AllFields(FieldsOf(ts)) && Plain(q, ty) && ts != []
    requires ObjectOrInterface(q.types[BaseType(ty)]) && v.List?
             && Conforms(q, EveryLimit, types, path, Strip(ty), FieldsOf(ts), v)
    requires forall t :: t in ts ==> TypedAs(q, t, ty) && JobExists(q, t) && t.field.selectionSet != []
    ensures Entities(v) <= CostOf(q, ts)
    decreases v, 2
  {
    var n, c := |v.items|, JobsCost(q, Below(q, ts));
    ItemsConform(q, EveryLimit, types, path, ty, FieldsOf(ts), v);
    ItemsBound(q, types, path, ot, ts, ty, v, n);
    BaseOfItems(ty);
    WithinFirst(q, types, path, ty, ts, v);
    ListCost(q, ts, ty, n);
  }

  lemma ListCost(q: Query, ts: seq<Typed>, ty: Type, n: nat)
    requires IsListOrNonNullList(ty) && ts != [] && forall t :: t in ts ==> t.field.Field? && n <= First(t.field)
    requires forall t :: t in ts ==> JobExists(q, t) && TypedAs(q, t, ty) && t.field.selectionSet != []
    ensures n * (1 + JobsCost(q, Below(q, ts))) <= CostOf(q, ts)
  {
    GroupCost(q, ts, ty, n);
    MoreMembers(n, |ts|, JobsCost(q, Below(q, ts)));
  }

  lemma MoreMembers(n: nat, members: nat, c: nat)
    requires members >= 1
    ensures n * (1 + c) <= n * (members + c)
  {}

  lemma WithinFirst(q: Query, types: Types, path: Path, ty: Type, ts: seq<Typed>, v: Value)
    requires Plain(q, ty) && AllFields(FieldsOf(ts)) && v.List?
             && Conforms(q, EveryLimit, types, path, Strip(ty), FieldsOf(ts), v)
    requires Strip(ty).ListType? && HoldsEntities(q, Strip(ty).inner)
    ensures forall t :: t in ts ==> t.field.Field? && |v.items| <= First(t.field)
  {
    forall t | t in ts
      ensures t.field.Field? && |v.items| <= First(t.field)
    {
      var i :| 0 <= i < |ts| && ts[i] == t;
      assert FieldsOf(ts)[i] in FieldsOf(ts);
    }
  }

  lemma SelectedBelow(q: Query, ot: TypeDefinition, ts: seq<Typed>, ty: Type)
    requires AllGood(q, ot, ts) && BaseType(ty) in q.types && ObjectOrInterface(q.types[BaseType(ty)])
    requires forall t :: t in ts ==> TypedAs(q, t, ty)
    ensures forall t :: t in ts ==> JobExists(q, t) && t.field.selectionSet != []
  {
    forall t | t in ts
      ensures JobExists(q, t) && t.field.selectionSet != []
    {
      assert GoodField(q, ot, t);
      var base := BaseType(GetField(t.ty, t.field.name).value);
      assert Validated(q, q.types[base], t.d - 1, t.field.selectionSet);
    }
  }

  lemma {:induction false} NamedBound(q: Query, types: Types, path: Path, ot: TypeDefinition, ts: seq<Typed>,
                                      ty: Type, v: Value)
    requires ValidSchema(q) && AllGood(q, ot, ts) && AllFields(FieldsOf(ts)) && BaseType(ty) in q.types
    requires ObjectOrInterface(q.types[BaseType(ty)]) && forall t :: t in ts ==> TypedAs(q, t, ty) && JobExists(q, t)
    requires Conforms(q, EveryLimit, types, path, NamedType(BaseType(ty)), FieldsOf(ts), v)
    ensures Entities(v) <= JobsCost(q, Below(q, ts))
    decreases v, 1, 0
  {
    if v != Null {
      var jobs := Below(q, ts);
      var runtime := TypeThere(q, types, path, BaseType(ty));
      assert SelsOf(jobs) == SelectionSets(FieldsOf(ts));
      forall j | j in jobs
        ensures GoodJob(q, runtime, j)
      {
        var i :| 0 <= i < |jobs| && jobs[i] == j;
        assert ts[i] in ts;
        BelowIsGood(q, ot, ts[i], ty, runtime);
      }
      ObjectBound(q, types, path, runtime, jobs, v);
    }
  }

  lemma {:induction false} ItemsBound(q: Query, types: Types, path: Path, ot: TypeDefinition, ts: seq<Typed>,
                                      ty: Type, v: Value, n: nat)
    requires ValidSchema(q) && AllGood(q, ot, ts) && AllFields(FieldsOf(ts)) && BaseType(ty) in q.types
    requires ObjectOrInterface(q.types[BaseType(ty)]) && forall t :: t in ts ==> TypedAs(q, t, ty) && JobExists(q, t)
    requires v.List? && n <= |v.items|
    requires forall i :: 0 <= i < |v.items| ==>
             Conforms(q, EveryLimit, types, path + [Item(i)], NamedType(BaseType(ty)), FieldsOf(ts), v.items[i])
    ensures EntitiesIn(v, n) <= n * (1 + JobsCost(q, Below(q, ts)))
    decreases v, 1, n
  {
    if n > 0 {
      ItemsBound(q, types, path, ot, ts, ty, v, n - 1);
      NamedBound(q, types, path + [Item(n - 1)], ot, ts, ty, v.items[n - 1]);
      ItemMore(v, n, JobsCost(q, Below(q, ts)));
    }
  }

  /** One more item, with at most `c` entities below it. */
  lemma ItemMore(v: Value, n: nat, c: nat)
    requires v.List? && 0 < n <= |v.items| && EntitiesIn(v, n - 1) <= (n - 1) * (1 + c) && Entities(v.items[n - 1]) <= c
    ensures EntitiesIn(v, n) <= n * (1 + c)
  {
    OneMore(n, 1 + c);
  }

  /** No response whose collections have at most `first` items each has more collection entities than the complexity
      of its query in unbounded numbers. */
  lemma EntitiesWithinCost(q: Query, types: Types, root: TypeDefinition, d: nat, sels: seq<Selection>, v: Value)
    requires ValidSchema(q) && root.ObjectType? && root in q.types.Values
    requires Validated(q, root, d, sels) && ObjectConforms(q, EveryLimit, types, [], root, sels, v)
    ensures Entities(v) <= Cost(q, root, d, sels)
  {
    var j := Job(root, d, sels);
    JobAlone(q, j);
    assert GoodJob(q, root, j);
    ObjectBound(q, types, [], root, [j], v);
  }

  /** So it is with the computed complexity, unless an addition wrapped: it is the unbounded one, modulo 2^64. */
  lemma BoundsEntities(q: Query, types: Types, root: TypeDefinition, sels: seq<Selection>, maxDepth: nat, v: Value)
    requires ValidSchema(q) && root.ObjectType? && root in q.types.Values
    requires Validated(q, root, maxDepth, sels) && ComplexityInner(q, root, sels, maxDepth, 0).Ok?
    requires ObjectConforms(q, EveryLimit, types, [], root, sels, v)
    ensures var c := ComplexityInner(q, root, sels, maxDepth, 0).value;
            && (c == Cost(q, root, maxDepth, sels) <==> Cost(q, root, maxDepth, sels) < U64)
            && (Cost(q, root, maxDepth, sels) < U64 ==> Entities(v) <= c)
  {
    InnerIsCost(q, root, sels, maxDepth, 0);
    EntitiesWithinCost(q, types, root, maxDepth, sels, v);
  }

  lemma JobAlone(q: Query, j: Job)
    ensures Merged([j]) == j.sels && JobsCost(q, [j]) == Cost(q, j.ty, j.d, j.sels)
  {
    assert SelsOf([j]) == [j.sels] && [j.sels][..0] == [] && [j][..0] == [];
    assert Flatten([j.sels]) == Flatten([]) + j.sels;
    assert JobsCost(q, []) == 0;
  }
}
