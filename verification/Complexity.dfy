/** The complexity of a query (packages/graph-node/graphql/src/execution/query.rs), and what it is a bound for: the
    number of entities in collections of any response. */
module QueryComplexity {
  import opened Common
  import opened GraphQL
  import opened Conformance
  import opened SelectedFields

  const U64: nat := 0x1_0000_0000_0000_0000

  /** `Panic` stands for a spread of a fragment that does not exist, which validation rules out. */
  datatype ComplexityError = TooDeep | Overflow | Invalid | Panic

  /** The literal `first` argument as an unsigned number, or 100. */
  function MaxEntities(field: Selection): (m: nat)
    requires field.Field?
    ensures m >= First(field)
  {
    match ArgumentValue(field.arguments, "first")
    case Some(Int(n)) => if n < 0 then n % U64 else n
    case _ => 100
  }

  function CheckedAdd(a: nat, b: nat): Result<nat, ComplexityError> {
    if a + b < U64 then Ok(a + b) else Err(Overflow)
  }

  function AddField(total: nat, isList: bool, m: nat, c: nat): Result<nat, ComplexityError> {
    // This addition is not checked.
    if !isList then Ok((total + c) % U64)
    else if m * c >= U64 || m + m * c >= U64 then Err(Overflow)
    else CheckedAdd(total, m + m * c)
  }

  function TypeNamed(q: Query, name: Name): Result<TypeDefinition, ComplexityError> {
    if name in q.types then Ok(q.types[name]) else Err(Invalid)
  }

  /** `complexity_inner` */
  function ComplexityInner(q: Query, ty: TypeDefinition, sels: seq<Selection>, maxDepth: nat, depth: nat)
    : Result<nat, ComplexityError>
    decreases maxDepth - depth, 1, sels
  {
    if depth >= maxDepth then Err(TooDeep) else Fold(q, ty, sels, maxDepth, depth, 0)
  }

  function Fold(q: Query, ty: TypeDefinition, sels: seq<Selection>, maxDepth: nat, depth: nat, total: nat)
    : Result<nat, ComplexityError>
    requires depth < maxDepth
    decreases maxDepth - depth, 0, sels
  {
    if sels == [] then Ok(total) else
    match AddSelection(q, ty, sels[0], maxDepth, depth, total)
    case Ok(more) => Fold(q, ty, sels[1..], maxDepth, depth, more)
    case Err(e) => Err(e)
  }

  function AddSelection(q: Query, ty: TypeDefinition, s: Selection, maxDepth: nat, depth: nat, total: nat)
    : Result<nat, ComplexityError>
    requires depth < maxDepth
    decreases maxDepth - depth, 0, s
  {
    match s
    case Field(_, name, _, _, selectionSet) =>
      if selectionSet == [] then Ok(total) else
      var fieldType := GetField(ty, name);
      if fieldType.None? then Err(Invalid) else
      (match TypeNamed(q, BaseType(fieldType.value))
       case Err(e) => Err(e)
       case Ok(base) =>
         match ComplexityInner(q, base, selectionSet, maxDepth, depth + 1)
         case Err(e) => Err(e)
         case Ok(c) => AddField(total, IsListOrNonNullList(fieldType.value), MaxEntities(s), c))
    case FragmentSpread(n) =>
      if n !in q.fragments then Err(Panic) else
      (match TypeNamed(q, q.fragments[n].typeCondition)
       case Err(e) => Err(e)
       case Ok(inner) => AddNested(q, inner, q.fragments[n].selectionSet, maxDepth, depth, total))
    case InlineFragment(condition, body) =>
      match (if condition.Some? then TypeNamed(q, condition.value) else Ok(ty))
      case Err(e) => Err(e)
      case Ok(inner) => AddNested(q, inner, body, maxDepth, depth, total)
  }

  function AddNested(q: Query, ty: TypeDefinition, sels: seq<Selection>, maxDepth: nat, depth: nat, total: nat)
    : Result<nat, ComplexityError>
    requires depth < maxDepth
    decreases maxDepth - depth - 1, 2
  {
    match ComplexityInner(q, ty, sels, maxDepth, depth + 1)
    case Ok(c) => CheckedAdd(total, c)
    case Err(e) => Err(e)
  }

  /** `complexity`: an invalid query is let through, for its execution to fail. */
  function Complexity(q: Query, root: TypeDefinition, sels: seq<Selection>, maxDepth: nat)
    : Result<nat, ComplexityError> {
    match ComplexityInner(q, root, sels, maxDepth, 0)
    case Err(Invalid) => Ok(0)
    case other => other
  }

  /** How many items a field asks for: its first `first` argument, if that is a literal number, or else 100. */
  ghost predicate AsksFor(f: Selection, n: nat)
    requires f.Field?
  {
    if exists i, k :: FirstArgument(f.arguments, "first", i) && f.arguments[i].1 == Int(k)
    then exists i :: FirstArgument(f.arguments, "first", i) && f.arguments[i].1 == Int(n)
    else n == 100
  }

  lemma AskedFor(f: Selection, n: nat)
    requires f.Field? && AsksFor(f, n)
    ensures MaxEntities(f) == n && First(f) == n
  {
    FoundArgument(f.arguments, "first");
  }

  ghost predicate IsList(ty: Type) {
    exists inner :: ty == ListType(inner) || ty == NonNullType(ListType(inner))
  }

  lemma OneSelection(q: Query, ty: TypeDefinition, s: Selection, maxDepth: nat, depth: nat)
    requires depth < maxDepth
    ensures ComplexityInner(q, ty, [s], maxDepth, depth) == AddSelection(q, ty, s, maxDepth, depth, 0)
  {
    var rest := [s][1..];
    assert rest == [] && Fold(q, ty, [s], maxDepth, depth, 0) ==
      match AddSelection(q, ty, s, maxDepth, depth, 0)
      case Ok(more) => Fold(q, ty, rest, maxDepth, depth, more)
      case Err(e) => Err(e);
  }

  /** The complexity of one field: nothing if nothing is selected below; otherwise what that costs, and for a list that
      and one more for each item asked for, if it fits. */
  lemma OneFieldComplexity(q: Query, ty: TypeDefinition, f: Selection, maxDepth: nat, depth: nat, fieldType: Type,
                           c: nat, n: nat)
    requires f.Field? && depth < maxDepth && AsksFor(f, n)
    requires (ty.ObjectType? || ty.InterfaceType?) && f.name != "__typename"
    requires f.name in ty.fieldTypes && ty.fieldTypes[f.name] == fieldType && BaseType(fieldType) in q.types
    requires ComplexityInner(q, q.types[BaseType(fieldType)], f.selectionSet, maxDepth, depth + 1) == Ok(c)
    ensures ComplexityInner(q, ty, [f], maxDepth, depth) ==
            if f.selectionSet == [] then Ok(0)
            else if !IsList(fieldType) then Ok(c)
            else if n * (1 + c) < U64 then Ok(n * (1 + c)) else Err(Overflow)
  {
    AskedFor(f, n);
    InnerIsCost(q, q.types[BaseType(fieldType)], f.selectionSet, maxDepth, depth + 1);
    OneSelection(q, ty, f, maxDepth, depth);
    assert n * (1 + c) == n + n * c;
    ListOrNot(fieldType);
  }

  /** What a query is checked for: it is rejected if it is nested too deeply, spreads a fragment that does not exist or
      its complexity is found to be too large; accepted with complexity zero if it is found invalid before that; and
      otherwise accepted with its complexity modulo 2^64, and then nested no deeper than allowed. */
  lemma ComplexityMeaning(q: Query, root: TypeDefinition, sels: seq<Selection>, maxDepth: nat)
    ensures var inner := ComplexityInner(q, root, sels, maxDepth, 0);
            match Complexity(q, root, sels, maxDepth)
            case Err(e) => inner == Err(e) && e != Invalid
            case Ok(c) =>
              (inner == Err(Invalid) && c == 0) ||
              (Accepted(q, root, maxDepth, sels) && c == Cost(q, root, maxDepth, sels) % U64)
  {
    InnerIsCost(q, root, sels, maxDepth, 0);
  }

  /** One selection after others: only for a field that is no list the sum is not checked. */
  lemma ComplexityInTurn(q: Query, ty: TypeDefinition, sels: seq<Selection>, s: Selection, maxDepth: nat, depth: nat,
                         total: nat, c: nat)
    requires depth < maxDepth && ComplexityInner(q, ty, sels, maxDepth, depth) == Ok(total)
    requires ComplexityInner(q, ty, [s], maxDepth, depth) == Ok(c)
    ensures ComplexityInner(q, ty, sels + [s], maxDepth, depth) ==
            if s.Field? && GetField(ty, s.name).Some? && !IsList(GetField(ty, s.name).value) then Ok((total + c) % U64)
            else if total + c < U64 then Ok(total + c) else Err(Overflow)
  {
    InnerIsCost(q, ty, sels, maxDepth, depth);
    OneSelection(q, ty, s, maxDepth, depth);
    FoldSnoc(q, ty, sels, s, maxDepth, depth, 0);
    AddedTo(q, ty, s, maxDepth, depth, total, c);
  }

  lemma {:induction false} FoldSnoc(q: Query, ty: TypeDefinition, sels: seq<Selection>, s: Selection, maxDepth: nat,
                                    depth: nat, total: nat)
    requires depth < maxDepth && Fold(q, ty, sels, maxDepth, depth, total).Ok?
    ensures Fold(q, ty, sels + [s], maxDepth, depth, total)
            == AddSelection(q, ty, s, maxDepth, depth, Fold(q, ty, sels, maxDepth, depth, total).value)
    decreases |sels|
  {
    if sels == [] {
      assert sels + [s] == [s] && [s][1..] == [];
    } else {
      assert (sels + [s])[1..] == sels[1..] + [s];
      FoldSnoc(q, ty, sels[1..], s, maxDepth, depth, AddSelection(q, ty, sels[0], maxDepth, depth, total).value);
    }
  }

  lemma AddedTo(q: Query, ty: TypeDefinition, s: Selection, maxDepth: nat, depth: nat, total: nat, c: nat)
    requires depth < maxDepth && total < U64 && AddSelection(q, ty, s, maxDepth, depth, 0) == Ok(c)
    ensures AddSelection(q, ty, s, maxDepth, depth, total) ==
            if s.Field? && GetField(ty, s.name).Some? && !IsList(GetField(ty, s.name).value) then Ok((total + c) % U64)
            else if total + c < U64 then Ok(total + c) else Err(Overflow)
  {
    match s
    case Field(_, name, _, _, selectionSet) =>
      if selectionSet != [] {
        var fieldType := GetField(ty, name).value;
        var base := q.types[BaseType(fieldType)];
        var x := ComplexityInner(q, base, selectionSet, maxDepth, depth + 1).value;
        ListOrNot(fieldType);
        InnerIsCost(q, base, selectionSet, maxDepth, depth + 1);
        AddFieldFrom(total, IsListOrNonNullList(fieldType), MaxEntities(s), x, c);
      }
    case _ =>
  }

  lemma AddFieldFrom(total: nat, isList: bool, m: nat, x: nat, c: nat)
    requires total < U64 && x < U64 && AddField(0, isList, m, x) == Ok(c)
    ensures AddField(total, isList, m, x) ==
            if !isList then Ok((total + c) % U64) else if total + c < U64 then Ok(total + c) else Err(Overflow)
  {}

  lemma ListOrNot(ty: Type)
    ensures IsListOrNonNullList(ty) <==> IsList(ty)
  {
    if ty.ListType? { assert ty == ListType(ty.inner); }
    if ty.NonNullType? && ty.inner.ListType? { assert ty == NonNullType(ListType(ty.inner.inner)); }
  }

  // ---------- Without 64-bit arithmetic

  /** The complexity in unbounded numbers, following at most `d` levels. */
  ghost function Cost(q: Query, ty: TypeDefinition, d: nat, sels: seq<Selection>): nat
    decreases d, 1, sels
  {
    if sels == [] then 0 else SelectionCost(q, ty, d, sels[0]) + Cost(q, ty, d, sels[1..])
  }

  ghost function SelectionCost(q: Query, ty: TypeDefinition, d: nat, s: Selection): nat
    decreases d, 0
  {
    if d == 0 then 0 else
    match s
    case Field(_, _, _, _, _) => FieldCost(q, ty, d, s)
    case FragmentSpread(n) =>
      if n in q.fragments && q.fragments[n].typeCondition in q.types
      then Cost(q, q.types[q.fragments[n].typeCondition], d - 1, q.fragments[n].selectionSet) else 0
    case InlineFragment(None, body) => Cost(q, ty, d - 1, body)
    case InlineFragment(Some(condition), body) =>
      if condition in q.types then Cost(q, q.types[condition], d - 1, body) else 0
  }

  ghost function FieldCost(q: Query, ty: TypeDefinition, d: nat, f: Selection): nat
    requires f.Field? && d > 0
    decreases d - 1, 2
  {
    if f.selectionSet == [] then 0 else
    var fieldType := GetField(ty, f.name);
    if fieldType.None? || BaseType(fieldType.value) !in q.types then 0 else
    var c := Cost(q, q.types[BaseType(fieldType.value)], d - 1, f.selectionSet);
    if IsListOrNonNullList(fieldType.value) then MaxEntities(f) + MaxEntities(f) * c else c
  }

  /** Nothing stopped the computation of the complexity: all that is selected has a type, `d` levels are enough. */
  ghost predicate Accepted(q: Query, ty: TypeDefinition, d: nat, sels: seq<Selection>)
    decreases d, 1, sels
  {
    d > 0 && (sels == [] || (AcceptedOne(q, ty, d, sels[0]) && Accepted(q, ty, d, sels[1..])))
  }

  ghost predicate AcceptedOne(q: Query, ty: TypeDefinition, d: nat, s: Selection)
    decreases d, 0
  {
    d > 0 &&
    match s
    case Field(_, name, _, _, selectionSet) =>
      selectionSet == [] ||
      (var fieldType := GetField(ty, name);
       fieldType.Some? && BaseType(fieldType.value) in q.types
       && Accepted(q, q.types[BaseType(fieldType.value)], d - 1, selectionSet))
    case FragmentSpread(n) =>
      n in q.fragments && q.fragments[n].typeCondition in q.types
      && Accepted(q, q.types[q.fragments[n].typeCondition], d - 1, q.fragments[n].selectionSet)
    case InlineFragment(None, body) => Accepted(q, ty, d - 1, body)
    case InlineFragment(Some(condition), body) => condition in q.types && Accepted(q, q.types[condition], d - 1, body)
  }

  ghost predicate Computed(q: Query, ty: TypeDefinition, d: nat, sels: seq<Selection>,
                           r: Result<nat, ComplexityError>) {
    r.Ok? ==> Accepted(q, ty, d, sels) && r.value == Cost(q, ty, d, sels) % U64
  }

  lemma {:induction false} InnerIsCost(q: Query, ty: TypeDefinition, sels: seq<Selection>, maxDepth: nat, depth: nat)
    requires depth <= maxDepth
    ensures Computed(q, ty, maxDepth - depth, sels, ComplexityInner(q, ty, sels, maxDepth, depth))
    decreases maxDepth - depth, 1, sels
  {
    if depth < maxDepth { FoldIsCost(q, ty, sels, maxDepth, depth, 0); }
  }

  lemma {:induction false} FoldIsCost(q: Query, ty: TypeDefinition, sels: seq<Selection>, maxDepth: nat, depth: nat,
                                      total: nat)
    requires depth < maxDepth && total < U64
    ensures var r := Fold(q, ty, sels, maxDepth, depth, total);
            r.Ok? ==>
              Accepted(q, ty, maxDepth - depth, sels)
              && r.value == (total + Cost(q, ty, maxDepth - depth, sels)) % U64
    decreases maxDepth - depth, 0, sels
  {
    if sels != [] {
      var d := maxDepth - depth;
      var more := AddSelection(q, ty, sels[0], maxDepth, depth, total);
      AddSelectionIsCost(q, ty, sels[0], maxDepth, depth, total);
      if more.Ok? {
        FoldIsCost(q, ty, sels[1..], maxDepth, depth, more.value);
        var rest := Cost(q, ty, d, sels[1..]);
        AddModulo(total + SelectionCost(q, ty, d, sels[0]), rest);
      }
    }
  }

  lemma MultipleModulo(a: nat, m: nat, c: nat)
    ensures (a + m * (c % U64)) % U64 == (a + m * c) % U64
  {
    var k := c / U64;
    assert m * c == m * (c % U64) + (m * k) * U64;
    Wraps(a + m * (c % U64), m * k);
  }

  lemma {:induction false} Wraps(a: nat, k: nat)
    ensures (a + k * U64) % U64 == a % U64
  {
    if k > 0 { Wraps(a, k - 1); }
  }

  lemma {:induction false} AddFieldIsCost(q: Query, ty: TypeDefinition, s: Selection, maxDepth: nat, depth: nat,
                                          total: nat)
    requires s.Field? && depth < maxDepth && total < U64
    ensures var r := AddSelection(q, ty, s, maxDepth, depth, total);
            r.Ok? ==>
              AcceptedOne(q, ty, maxDepth - depth, s)
              && r.value == (total + FieldCost(q, ty, maxDepth - depth, s)) % U64
    decreases maxDepth - depth, 0, s, 0
  {
    var fieldType := GetField(ty, s.name);
    if s.selectionSet != [] && fieldType.Some? && BaseType(fieldType.value) in q.types {
      var base := q.types[BaseType(fieldType.value)];
      InnerIsCost(q, base, s.selectionSet, maxDepth, depth + 1);
      var c := Cost(q, base, maxDepth - depth - 1, s.selectionSet);
      var m := MaxEntities(s);
      AddFieldModulo(total, IsListOrNonNullList(fieldType.value), m, c);
    }
  }

  lemma AddFieldModulo(total: nat, isList: bool, m: nat, c: nat)
    ensures var r := AddField(total, isList, m, c % U64);
            r.Ok? ==> r.value == (total + if isList then m + m * c else c) % U64
  {
    if !isList {
      MultipleModulo(total, 1, c);
    } else if AddField(total, isList, m, c % U64).Ok? {
      MultipleModulo(total + m, m, c);
      SmallModulo(total + m + m * (c % U64));
    }
  }

  lemma SmallModulo(n: nat)
    requires n < U64
    ensures n % U64 == n
  {}

  lemma AddModulo(a: nat, b: nat)
    ensures (a % U64 + b) % U64 == (a + b) % U64
  {}

  lemma {:induction false} AddSelectionIsCost(q: Query, ty: TypeDefinition, s: Selection, maxDepth: nat, depth: nat,
                                              total: nat)
    requires depth < maxDepth && total < U64
    ensures var r := AddSelection(q, ty, s, maxDepth, depth, total);
            r.Ok? ==>
              AcceptedOne(q, ty, maxDepth - depth, s)
              && r.value == (total + SelectionCost(q, ty, maxDepth - depth, s)) % U64
    decreases maxDepth - depth, 0, s, 1
  {
    match s
    case Field(_, _, _, _, _) => AddFieldIsCost(q, ty, s, maxDepth, depth, total);
    case FragmentSpread(n) =>
      if n in q.fragments && q.fragments[n].typeCondition in q.types {
        AddNestedIsCost(q, q.types[q.fragments[n].typeCondition], q.fragments[n].selectionSet, maxDepth, depth, total);
      }
    case InlineFragment(None, body) => AddNestedIsCost(q, ty, body, maxDepth, depth, total);
    case InlineFragment(Some(condition), body) =>
      if condition in q.types { AddNestedIsCost(q, q.types[condition], body, maxDepth, depth, total); }
  }

  lemma {:induction false} AddNestedIsCost(q: Query, ty: TypeDefinition, sels: seq<Selection>, maxDepth: nat,
                                           depth: nat, total: nat)
    requires depth < maxDepth && total < U64
    ensures var r, d := AddNested(q, ty, sels, maxDepth, depth, total), maxDepth - depth - 1;
            r.Ok? ==> Accepted(q, ty, d, sels) && r.value == (total + Cost(q, ty, d, sels)) % U64
    decreases maxDepth - depth - 1, 2
  {
    InnerIsCost(q, ty, sels, maxDepth, depth + 1);
    AddModulo(Cost(q, ty, maxDepth - depth - 1, sels), total);
  }

  /** No selection set below costs more than 64 bits can hold. */
  ghost predicate Small(q: Query, ty: TypeDefinition, d: nat, sels: seq<Selection>)
    requires Accepted(q, ty, d, sels)
    decreases d, 1, sels
  {
    Cost(q, ty, d, sels) < U64 && (sels == [] || (SmallOne(q, ty, d, sels[0]) && Small(q, ty, d, sels[1..])))
  }

  ghost predicate SmallOne(q: Query, ty: TypeDefinition, d: nat, s: Selection)
    requires AcceptedOne(q, ty, d, s)
    decreases d, 0
  {
    match s
    case Field(_, name, _, _, selectionSet) =>
      selectionSet == [] || Small(q, q.types[BaseType(GetField(ty, name).value)], d - 1, selectionSet)
    case FragmentSpread(n) => Small(q, q.types[q.fragments[n].typeCondition], d - 1, q.fragments[n].selectionSet)
    case InlineFragment(None, body) => Small(q, ty, d - 1, body)
    case InlineFragment(Some(condition), body) => Small(q, q.types[condition], d - 1, body)
  }

  /** The computation only stops on a type or fragment that is missing, too deep a nesting, or too large a number: a
      query without those has its complexity, and that is the one in unbounded numbers. */
  lemma {:induction false} CostIsComputed(q: Query, ty: TypeDefinition, sels: seq<Selection>, maxDepth: nat, depth: nat)
    requires depth <= maxDepth && Accepted(q, ty, maxDepth - depth, sels) && Small(q, ty, maxDepth - depth, sels)
    ensures ComplexityInner(q, ty, sels, maxDepth, depth) == Ok(Cost(q, ty, maxDepth - depth, sels))
    decreases maxDepth - depth, 1, sels
  {
    FoldComputes(q, ty, sels, maxDepth, depth, 0);
  }

  lemma {:induction false} FoldComputes(q: Query, ty: TypeDefinition, sels: seq<Selection>, maxDepth: nat, depth: nat,
                                        total: nat)
    requires depth < maxDepth && Accepted(q, ty, maxDepth - depth, sels) && Small(q, ty, maxDepth - depth, sels)
    requires total + Cost(q, ty, maxDepth - depth, sels) < U64
    ensures Fold(q, ty, sels, maxDepth, depth, total) == Ok(total + Cost(q, ty, maxDepth - depth, sels))
    decreases maxDepth - depth, 0, sels
  {
    if sels != [] {
      AddSelectionComputes(q, ty, sels[0], maxDepth, depth, total);
      FoldComputes(q, ty, sels[1..], maxDepth, depth, total + SelectionCost(q, ty, maxDepth - depth, sels[0]));
    }
  }

  lemma {:induction false} AddSelectionComputes(q: Query, ty: TypeDefinition, s: Selection, maxDepth: nat, depth: nat,
                                                total: nat)
    requires depth < maxDepth && AcceptedOne(q, ty, maxDepth - depth, s) && SmallOne(q, ty, maxDepth - depth, s)
    requires total + SelectionCost(q, ty, maxDepth - depth, s) < U64
    ensures AddSelection(q, ty, s, maxDepth, depth, total) == Ok(total + SelectionCost(q, ty, maxDepth - depth, s))
    decreases maxDepth - depth, 0, s, 1
  {
    match s
    case Field(_, _, _, _, _) => AddFieldComputes(q, ty, s, maxDepth, depth, total);
    case FragmentSpread(n) =>
      CostIsComputed(q, q.types[q.fragments[n].typeCondition], q.fragments[n].selectionSet, maxDepth, depth + 1);
    case InlineFragment(condition, body) =>
      CostIsComputed(q, if condition.Some? then q.types[condition.value] else ty, body, maxDepth, depth + 1);
  }

  lemma {:induction false} AddFieldComputes(q: Query, ty: TypeDefinition, s: Selection, maxDepth: nat, depth: nat,
                                            total: nat)
    requires s.Field? && depth < maxDepth && AcceptedOne(q, ty, maxDepth - depth, s)
             && SmallOne(q, ty, maxDepth - depth, s)
    requires total + FieldCost(q, ty, maxDepth - depth, s) < U64
    ensures AddSelection(q, ty, s, maxDepth, depth, total) == Ok(total + FieldCost(q, ty, maxDepth - depth, s))
    decreases maxDepth - depth, 0, s, 0
  {
    if s.selectionSet != [] {
      var fieldType := GetField(ty, s.name).value;
      var base := q.types[BaseType(fieldType)];
      CostIsComputed(q, base, s.selectionSet, maxDepth, depth + 1);
      AddFieldFits(total, IsListOrNonNullList(fieldType), MaxEntities(s),
                   Cost(q, base, maxDepth - depth - 1, s.selectionSet));
    }
  }

  lemma AddFieldFits(total: nat, isList: bool, m: nat, c: nat)
    requires total + (if isList then m + m * c else c) < U64
    ensures AddField(total, isList, m, c) == Ok(total + if isList then m + m * c else c)
  {}

  /** A query whose complexity could be computed is nested within the depth allowed, whatever its fragments do, and
      spreads only fragments that exist: it can be executed. */
  lemma {:induction false} AcceptedIsBounded(q: Query, ty: TypeDefinition, d: nat, sels: seq<Selection>)
    requires Accepted(q, ty, d, sels)
    ensures Bounded(q, d, sels)
    decreases d, 1, sels
  {
    if sels != [] {
      AcceptedOneIsBounded(q, ty, d, sels[0]);
      AcceptedIsBounded(q, ty, d, sels[1..]);
      assert Bounded(q, d, [sels[0]]);
    }
  }

  lemma {:induction false} AcceptedOneIsBounded(q: Query, ty: TypeDefinition, d: nat, s: Selection)
    requires AcceptedOne(q, ty, d, s)
    ensures Bounded(q, d, [s])
    decreases d, 0
  {
    assert [s][0] == s && [s][1..] == [] && Bounded(q, d, []);
    match s
    case Field(_, name, _, _, selectionSet) =>
      if selectionSet != [] { AcceptedIsBounded(q, q.types[BaseType(GetField(ty, name).value)], d - 1, selectionSet); }
    case FragmentSpread(n) => AcceptedIsBounded(q, q.types[q.fragments[n].typeCondition], d - 1,
                                                q.fragments[n].selectionSet);
    case InlineFragment(condition, body) =>
      AcceptedIsBounded(q, if condition.Some? then q.types[condition.value] else ty, d - 1, body);
  }

  lemma ComputedIsBounded(q: Query, ty: TypeDefinition, sels: seq<Selection>, maxDepth: nat)
    requires ComplexityInner(q, ty, sels, maxDepth, 0).Ok?
    ensures Bounded(q, maxDepth, sels)
  {
    InnerIsCost(q, ty, sels, maxDepth, 0);
    AcceptedIsBounded(q, ty, maxDepth, sels);
  }
}
