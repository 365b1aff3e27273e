/** What a single selection gives when fields are collected: which directives drop a field, which type conditions let a
    fragment through, and under which key a field appears (packages/graph-node/graphql/src/query/ast.rs). */
module SelectedFields {
  import opened Common
  import opened GraphQL
  import opened CollectFields

  /** Directive number `i` is the first of this name. */
  ghost predicate FirstNamed(directives: seq<Directive>, name: Name, i: int) {
    && 0 <= i < |directives| && directives[i].name == name
    && forall j :: 0 <= j < i ==> directives[j].name != name
  }

  /** Argument number `i` is the first of this name. */
  ghost predicate FirstArgument(arguments: seq<(Name, Value)>, name: Name, i: int) {
    && 0 <= i < |arguments| && arguments[i].0 == name
    && forall j :: 0 <= j < i ==> arguments[j].0 != name
  }

  /** A value that is true, given the variables of the query; one that is missing is not. */
  ghost predicate IsTrue(q: Query, v: Value) {
    v == Boolean(true) || exists x :: v == Variable(x) && Lookup(q.variables, x) == Some(Boolean(true))
  }

  /** The directive has no `if`, or one that is true. */
  ghost predicate Holds(q: Query, d: Directive) {
    forall i :: FirstArgument(d.arguments, "if", i) ==> IsTrue(q, d.arguments[i].1)
  }

  /** There is no `skip` that holds, and no `include` that does not. */
  ghost predicate Wanted(q: Query, f: Selection)
    requires f.Field?
  {
    && (forall i :: FirstNamed(f.directives, "skip", i) ==> !Holds(q, f.directives[i]))
    && (forall i :: FirstNamed(f.directives, "include", i) ==> Holds(q, f.directives[i]))
  }

  lemma {:induction false} FoundDirective(directives: seq<Directive>, name: Name)
    ensures match FindDirective(directives, name)
            case None => forall i :: !FirstNamed(directives, name, i)
            case Some(d) => exists i :: FirstNamed(directives, name, i) && directives[i] == d
    ensures forall i, j :: FirstNamed(directives, name, i) && FirstNamed(directives, name, j) ==> i == j
  {
    if directives != [] {
      var rest := directives[1..];
      FoundDirective(rest, name);
      if directives[0].name == name {
        assert FirstNamed(directives, name, 0);
      } else {
        forall i | FirstNamed(directives, name, i)
          ensures i > 0 && FirstNamed(rest, name, i - 1)
        {}
        if i :| FirstNamed(rest, name, i) {
          assert FirstNamed(directives, name, i + 1) && directives[i + 1] == rest[i];
        }
      }
    }
  }

  lemma {:induction false} FoundArgument(arguments: seq<(Name, Value)>, name: Name)
    ensures match ArgumentValue(arguments, name)
            case None => forall i :: !FirstArgument(arguments, name, i)
            case Some(v) => exists i :: FirstArgument(arguments, name, i) && arguments[i].1 == v
    ensures forall i, j :: FirstArgument(arguments, name, i) && FirstArgument(arguments, name, j) ==> i == j
  {
    if arguments != [] {
      var rest := arguments[1..];
      FoundArgument(rest, name);
      if arguments[0].0 == name {
        assert FirstArgument(arguments, name, 0);
      } else {
        forall i | FirstArgument(arguments, name, i)
          ensures i > 0 && FirstArgument(rest, name, i - 1)
        {}
        if i :| FirstArgument(rest, name, i) {
          assert FirstArgument(arguments, name, i + 1) && arguments[i + 1] == rest[i];
        }
      }
    }
  }

  lemma ConditionHolds(q: Query, d: Directive)
    ensures Condition(q, d) <==> Holds(q, d)
  {
    FoundArgument(d.arguments, "if");
  }

  lemma SelectedWanted(q: Query, f: Selection)
    requires f.Field?
    ensures Selected(q, f) <==> Wanted(q, f)
  {
    FoundDirective(f.directives, "skip");
    FoundDirective(f.directives, "include");
    forall d
      ensures Condition(q, d) <==> Holds(q, d)
    {
      ConditionHolds(q, d);
    }
  }

  /** A field is collected exactly if no `skip` directive holds for it and no `include` directive fails to. */
  lemma SingleField(q: Query, ot: TypeDefinition, f: Selection, visited: set<Name>)
    requires ot.ObjectType? && f.Field? && WellSpread(q, [f])
    ensures Collect(q, ot, [f], visited) == Collection(if Wanted(q, f) then [f] else [], visited, [])
  {
    SelectedWanted(q, f);
    assert [f] == [f] + [];
    CollectCons(q, ot, f, [], visited);
  }

  /** Whatever is collected, no field that is not wanted is. */
  lemma {:induction false} OnlyWanted(q: Query, ot: TypeDefinition, sels: seq<Selection>, visited: set<Name>,
                                      f: Selection)
    requires ot.ObjectType? && WellSpread(q, sels) && f in Collect(q, ot, sels, visited).fields
    ensures f.Field? && Wanted(q, f)
    decreases q.fragments.Keys - visited, sels
  {
    if sels != [] {
      var s := sels[0];
      assert Spreads([s]) <= Spreads(sels);
      var first := CollectSelection(q, ot, s, visited);
      if f in first.fields {
        match s
        case Field(_, _, _, _, _) => SelectedWanted(q, s);
        case FragmentSpread(n) =>
          assert n in Spreads([s]);
          OnlyWanted(q, ot, q.fragments[n].selectionSet, visited + {n}, f);
        case InlineFragment(_, body) =>
          assert Spreads(body) <= Spreads([s]);
          OnlyWanted(q, ot, body, visited, f);
      } else {
        OnlyWanted(q, ot, sels[1..], first.visited, f);
      }
    }
  }

  /** The named type is that of the object, an interface it implements, or a union it is in. */
  ghost predicate HasType(q: Query, ot: TypeDefinition, name: Name)
    requires ot.ObjectType?
  {
    || Lookup(q.types, name) == Some(ot)
    || (exists n, fields :: Lookup(q.types, name) == Some(InterfaceType(n, fields)) && n in ot.implementsInterfaces)
    || exists n, members :: Lookup(q.types, name) == Some(UnionType(n, members)) && ot.name in members
  }

  lemma AppliesMeaning(q: Query, ot: TypeDefinition, name: Name)
    requires ot.ObjectType?
    ensures Applies(q, ot, name) <==> HasType(q, ot, name)
  {
    if name in q.types {
      match q.types[name]
      case InterfaceType(n, fields) => assert Lookup(q.types, name) == Some(InterfaceType(n, fields));
      case UnionType(n, members) => assert Lookup(q.types, name) == Some(UnionType(n, members));
      case _ =>
    }
  }

  /** An inline fragment gives what its body gives, or nothing if it has a condition the object does not meet. */
  lemma SingleInline(q: Query, ot: TypeDefinition, condition: Option<Name>, body: seq<Selection>, visited: set<Name>)
    requires ot.ObjectType? && WellSpread(q, [InlineFragment(condition, body)])
    ensures WellSpread(q, body)
    ensures Collect(q, ot, [InlineFragment(condition, body)], visited) ==
            if forall name :: condition == Some(name) ==> HasType(q, ot, name) then Collect(q, ot, body, visited)
            else Collection([], visited, [])
  {
    var s := InlineFragment(condition, body);
    if condition.Some? { AppliesMeaning(q, ot, condition.value); }
    assert Spreads(body) <= Spreads([s]);
    assert [s] == [s] + [];
    CollectCons(q, ot, s, [], visited);
  }

  /** A fragment spread gives what the fragment gives the first time it is come to, if the object meets its
      condition. */
  lemma SingleSpread(q: Query, ot: TypeDefinition, n: Name, visited: set<Name>)
    requires ot.ObjectType? && WellSpread(q, [FragmentSpread(n)])
    ensures n in q.fragments && WellSpread(q, q.fragments[n].selectionSet)
    ensures var body := Collect(q, ot, q.fragments[n].selectionSet, visited + {n});
            Collect(q, ot, [FragmentSpread(n)], visited) ==
            if n in visited then Collection([], visited, [])
            else if !HasType(q, ot, q.fragments[n].typeCondition) then Collection([], visited + {n}, [n])
            else Collection(body.fields, body.visited, [n] + body.expanded)
  {
    var s := FragmentSpread(n);
    assert n in Spreads([s]);
    AppliesMeaning(q, ot, q.fragments[n].typeCondition);
    assert [s] == [s] + [];
    CollectCons(q, ot, s, [], visited);
  }

  /** A field appears under its alias, or under its name if it has none. */
  lemma SingleKey(f: Selection)
    requires f.Field?
    ensures f.alias.Some? ==> FirstKeys([f]) == [f.alias.value] && FieldsFor([f], f.alias.value) == [f]
    ensures f.alias.None? ==> FirstKeys([f]) == [f.name] && FieldsFor([f], f.name) == [f]
  {
    assert [f][..0] == [];
  }
}
