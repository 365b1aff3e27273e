/** Field collection of packages/graph-node/graphql/src/execution/execution.rs (section 6.3.2 of the GraphQL
    specification, June 2018): fragments are followed at most once each, so cycles among them do no harm. */
module CollectFields {
  import opened Common
  import opened GraphQL

  /** The named fragments spread in `sels`, at any depth of inline fragments. */
  function Spreads(sels: seq<Selection>): set<Name> {
    if sels == [] then {} else
    Spreads(sels[1..]) +
    match sels[0]
    case Field(_, _, _, _, _) => {}
    case FragmentSpread(n) => {n}
    case InlineFragment(_, body) => Spreads(body)
  }

  /** Every fragment that is spread exists, as query validation makes sure. */
  ghost predicate WellSpread(q: Query, sels: seq<Selection>) {
    Spreads(sels) <= q.fragments.Keys
    && forall n :: n in q.fragments ==> Spreads(q.fragments[n].selectionSet) <= q.fragments.Keys
  }

  predicate InlineApplies(q: Query, ot: TypeDefinition, condition: Option<Name>)
    requires ot.ObjectType?
  {
    condition.Some? ==> Applies(q, ot, condition.value)
  }

  /** The selected fields of `sels` in order, going into inline fragments that apply but not into named ones. */
  function DirectFields(q: Query, ot: TypeDefinition, sels: seq<Selection>): (fields: seq<Selection>)
    requires ot.ObjectType?
    ensures forall f :: f in fields ==> f.Field?
  {
    if sels == [] then [] else
    (match sels[0]
     case Field(_, _, _, _, _) => if Selected(q, sels[0]) then [sels[0]] else []
     case FragmentSpread(_) => []
     case InlineFragment(condition, body) => if InlineApplies(q, ot, condition) then DirectFields(q, ot, body) else [])
    + DirectFields(q, ot, sels[1..])
  }

  /** The named fragments that are spread in `sels` where inline fragments apply. */
  function DirectSpreads(q: Query, ot: TypeDefinition, sels: seq<Selection>): (names: set<Name>)
    requires ot.ObjectType?
    ensures names <= Spreads(sels)
  {
    if sels == [] then {} else
    (match sels[0]
     case Field(_, _, _, _, _) => {}
     case FragmentSpread(n) => {n}
     case InlineFragment(condition, body) => if InlineApplies(q, ot, condition) then DirectSpreads(q, ot, body) else {})
    + DirectSpreads(q, ot, sels[1..])
  }

  /** What fragment `n` itself adds to the fields of an object of type `ot`: nothing, if it does not apply. */
  function Contribution(q: Query, ot: TypeDefinition, n: Name): (fields: seq<Selection>)
    requires ot.ObjectType? && n in q.fragments
    ensures forall f :: f in fields ==> f.Field?
  {
    if Applies(q, ot, q.fragments[n].typeCondition) then DirectFields(q, ot, q.fragments[n].selectionSet) else []
  }

  /** The fragments that following fragment `n` leads to directly. */
  function Onward(q: Query, ot: TypeDefinition, n: Name): set<Name>
    requires ot.ObjectType? && n in q.fragments
  {
    if Applies(q, ot, q.fragments[n].typeCondition) then DirectSpreads(q, ot, q.fragments[n].selectionSet) else {}
  }

  /** The fields found, the fragments visited so far, and the ones newly visited in the order of their visits. */
  datatype Collection = Collection(fields: seq<Selection>, visited: set<Name>, expanded: seq<Name>)

  /** The body of the loop in `collect_fields_inner`. */
  function CollectSelection(q: Query, ot: TypeDefinition, s: Selection, visited: set<Name>): (c: Collection)
    requires ot.ObjectType? && WellSpread(q, [s])
    ensures visited <= c.visited <= visited + q.fragments.Keys
    ensures forall f :: f in c.fields ==> f.Field?
    decreases q.fragments.Keys - visited, s
  {
    match s
    case Field(_, _, _, _, _) => Collection(if Selected(q, s) then [s] else [], visited, [])
    case FragmentSpread(n) =>
      assert n in Spreads([s]);
      if n in visited then Collection([], visited, [])
      else if !Applies(q, ot, q.fragments[n].typeCondition) then Collection([], visited + {n}, [n])
      else
        var inner := Collect(q, ot, q.fragments[n].selectionSet, visited + {n});
        Collection(inner.fields, inner.visited, [n] + inner.expanded)
    case InlineFragment(condition, body) =>
      assert Spreads(body) <= Spreads([s]);
      if InlineApplies(q, ot, condition) then Collect(q, ot, body, visited) else Collection([], visited, [])
  }

  /** The recursion of `collect_fields_inner` over one selection set. */
  function Collect(q: Query, ot: TypeDefinition, sels: seq<Selection>, visited: set<Name>): (c: Collection)
    requires ot.ObjectType? && WellSpread(q, sels)
    ensures visited <= c.visited <= visited + q.fragments.Keys
    ensures forall f :: f in c.fields ==> f.Field?
    decreases q.fragments.Keys - visited, sels
  {
    if sels == [] then Collection([], visited, []) else
    assert Spreads([sels[0]]) <= Spreads(sels);
    var first := CollectSelection(q, ot, sels[0], visited);
    var rest := Collect(q, ot, sels[1..], first.visited);
    Collection(first.fields + rest.fields, rest.visited, first.expanded + rest.expanded)
  }

  // ---------- Each reachable fragment once, and nothing else

  /** `path` leads from one of the fragments `start` through fragments that apply. */
  ghost predicate IsPath(q: Query, ot: TypeDefinition, start: set<Name>, path: seq<Name>)
    requires ot.ObjectType?
  {
    && path != [] && path[0] in start
    && (forall i :: 0 <= i < |path| ==> path[i] in q.fragments)
    && (forall i :: 0 <= i < |path| - 1 ==> path[i + 1] in Onward(q, ot, path[i]))
  }

  ghost predicate Reachable(q: Query, ot: TypeDefinition, start: set<Name>, n: Name)
    requires ot.ObjectType?
  {
    exists path :: IsPath(q, ot, start, path) && path[|path| - 1] == n
  }

  lemma ReachableDirectly(q: Query, ot: TypeDefinition, start: set<Name>, n: Name)
    requires ot.ObjectType? && n in start && n in q.fragments
    ensures Reachable(q, ot, start, n)
  {
    assert IsPath(q, ot, start, [n]);
  }

  lemma ReachableThrough(q: Query, ot: TypeDefinition, start: set<Name>, m: Name, n: Name)
    requires ot.ObjectType? && m in start && m in q.fragments && Reachable(q, ot, Onward(q, ot, m), n)
    ensures Reachable(q, ot, start, n)
  {
    var path :| IsPath(q, ot, Onward(q, ot, m), path) && path[|path| - 1] == n;
    assert IsPath(q, ot, start, [m] + path);
  }

  lemma ReachableMonotone(q: Query, ot: TypeDefinition, start: set<Name>, larger: set<Name>, n: Name)
    requires ot.ObjectType? && start <= larger && Reachable(q, ot, start, n)
    ensures Reachable(q, ot, larger, n)
  {
    var path :| IsPath(q, ot, start, path) && path[|path| - 1] == n;
    assert IsPath(q, ot, larger, path);
  }

  /** A set of fragments that is closed under following them contains everything reachable from it. */
  lemma {:induction false} ClosedContainsPath(q: Query, ot: TypeDefinition, closed: set<Name>, path: seq<Name>, i: nat)
    requires ot.ObjectType? && IsPath(q, ot, closed, path) && i < |path|
    requires forall n :: n in closed && n in q.fragments ==> Onward(q, ot, n) <= closed
    ensures path[i] in closed
  {
    if i > 0 { ClosedContainsPath(q, ot, closed, path, i - 1); }
  }

  /** From `start`, a call has visited everything, and nothing else; where it went it left nothing out. */
  ghost predicate Closed(q: Query, ot: TypeDefinition, start: set<Name>, visited: set<Name>, visited': set<Name>)
    requires ot.ObjectType?
  {
    && start <= visited'
    && forall n :: n in visited' && n !in visited ==>
         n in q.fragments && Onward(q, ot, n) <= visited' && Reachable(q, ot, start, n)
  }

  /** One call after another. */
  lemma ClosedInTurn(q: Query, ot: TypeDefinition, a: set<Name>, b: set<Name>, v0: set<Name>, v1: set<Name>,
                     v2: set<Name>)
    requires ot.ObjectType? && v0 <= v1 <= v2 && Closed(q, ot, a, v0, v1) && Closed(q, ot, b, v1, v2)
    ensures Closed(q, ot, a + b, v0, v2)
  {
    forall n | n in v2 && n !in v0
      ensures Reachable(q, ot, a + b, n)
    {
      if n in v1 { ReachableMonotone(q, ot, a, a + b, n); } else { ReachableMonotone(q, ot, b, a + b, n); }
    }
  }

  /** Following one fragment. */
  lemma ClosedFragment(q: Query, ot: TypeDefinition, n: Name, visited: set<Name>, visited': set<Name>)
    requires ot.ObjectType? && n in q.fragments && n !in visited
    requires n in visited' && Closed(q, ot, Onward(q, ot, n), visited + {n}, visited')
    ensures Closed(q, ot, {n}, visited, visited')
  {
    ReachableDirectly(q, ot, {n}, n);
    forall m | m in visited' && m !in visited && m != n
      ensures Reachable(q, ot, {n}, m)
    {
      ReachableThrough(q, ot, {n}, n, m);
    }
  }

  lemma {:induction false} SelectionClosed(q: Query, ot: TypeDefinition, s: Selection, visited: set<Name>)
    requires ot.ObjectType? && WellSpread(q, [s])
    ensures Closed(q, ot, DirectSpreads(q, ot, [s]), visited, CollectSelection(q, ot, s, visited).visited)
    decreases q.fragments.Keys - visited, s
  {
    match s {
      case Field(_, _, _, _, _) =>
      case FragmentSpread(n) =>
        assert n in Spreads([s]);
        if n !in visited {
          if Applies(q, ot, q.fragments[n].typeCondition) {
            CollectClosed(q, ot, q.fragments[n].selectionSet, visited + {n});
          }
          ClosedFragment(q, ot, n, visited, CollectSelection(q, ot, s, visited).visited);
        }
      case InlineFragment(condition, body) =>
        assert Spreads(body) <= Spreads([s]);
        if InlineApplies(q, ot, condition) {
          CollectClosed(q, ot, body, visited);
        }
    }
  }

  lemma {:induction false} CollectClosed(q: Query, ot: TypeDefinition, sels: seq<Selection>, visited: set<Name>)
    requires ot.ObjectType? && WellSpread(q, sels)
    ensures Closed(q, ot, DirectSpreads(q, ot, sels), visited, Collect(q, ot, sels, visited).visited)
    decreases q.fragments.Keys - visited, sels
  {
    if sels != [] {
      assert Spreads([sels[0]]) <= Spreads(sels);
      var first := CollectSelection(q, ot, sels[0], visited);
      SelectionClosed(q, ot, sels[0], visited);
      CollectClosed(q, ot, sels[1..], first.visited);
      ClosedInTurn(q, ot, DirectSpreads(q, ot, [sels[0]]), DirectSpreads(q, ot, sels[1..]),
                   visited, first.visited, Collect(q, ot, sels, visited).visited);
      assert DirectSpreads(q, ot, sels) == DirectSpreads(q, ot, [sels[0]]) + DirectSpreads(q, ot, sels[1..]);
    }
  }

  /** From nothing visited, exactly the reachable fragments are visited: cycles neither cut anything off nor loop. */
  lemma CollectVisitsReachable(q: Query, ot: TypeDefinition, sels: seq<Selection>, n: Name)
    requires ot.ObjectType? && WellSpread(q, sels)
    ensures n in Collect(q, ot, sels, {}).visited <==> Reachable(q, ot, DirectSpreads(q, ot, sels), n)
  {
    CollectClosed(q, ot, sels, {});
    if Reachable(q, ot, DirectSpreads(q, ot, sels), n) {
      ReachableVisited(q, ot, DirectSpreads(q, ot, sels), Collect(q, ot, sels, {}).visited, n);
    }
  }

  lemma ReachableVisited(q: Query, ot: TypeDefinition, roots: set<Name>, visited: set<Name>, n: Name)
    requires ot.ObjectType? && Closed(q, ot, roots, {}, visited) && Reachable(q, ot, roots, n)
    ensures n in visited
  {
    var path :| IsPath(q, ot, roots, path) && path[|path| - 1] == n;
    assert IsPath(q, ot, visited, path);
    ClosedContainsPath(q, ot, visited, path, |path| - 1);
  }

  /** The visits of one call are distinct, and are the fragments that were added. */
  ghost predicate Fresh(visited: set<Name>, c: Collection) {
    ToSet(c.expanded) == c.visited - visited && NoDuplicates(c.expanded)
  }

  lemma {:induction false} SelectionExpanded(q: Query, ot: TypeDefinition, s: Selection, visited: set<Name>)
    requires ot.ObjectType? && WellSpread(q, [s])
    ensures Fresh(visited, CollectSelection(q, ot, s, visited))
    decreases q.fragments.Keys - visited, s
  {
    match s {
      case Field(_, _, _, _, _) =>
      case FragmentSpread(n) =>
        assert n in Spreads([s]);
        if n !in visited && Applies(q, ot, q.fragments[n].typeCondition) {
          CollectExpanded(q, ot, q.fragments[n].selectionSet, visited + {n});
          var inner := Collect(q, ot, q.fragments[n].selectionSet, visited + {n});
          ToSetConcat([n], inner.expanded);
          NoDuplicatesConcat([n], inner.expanded);
        }
      case InlineFragment(condition, body) =>
        assert Spreads(body) <= Spreads([s]);
        if InlineApplies(q, ot, condition) { CollectExpanded(q, ot, body, visited); }
    }
  }

  lemma {:induction false} CollectExpanded(q: Query, ot: TypeDefinition, sels: seq<Selection>, visited: set<Name>)
    requires ot.ObjectType? && WellSpread(q, sels)
    ensures Fresh(visited, Collect(q, ot, sels, visited))
    decreases q.fragments.Keys - visited, sels
  {
    if sels != [] {
      assert Spreads([sels[0]]) <= Spreads(sels);
      var first := CollectSelection(q, ot, sels[0], visited);
      var rest := Collect(q, ot, sels[1..], first.visited);
      SelectionExpanded(q, ot, sels[0], visited);
      CollectExpanded(q, ot, sels[1..], first.visited);
      ToSetConcat(first.expanded, rest.expanded);
      NoDuplicatesConcat(first.expanded, rest.expanded);
    }
  }

  /** What the fragments of a list add, taken together. */
  ghost function Contributions(q: Query, ot: TypeDefinition, names: seq<Name>): multiset<Selection>
    requires ot.ObjectType? && ToSet(names) <= q.fragments.Keys
  {
    if names == [] then multiset{} else
    assert names == [names[0]] + names[1..];
    multiset(Contribution(q, ot, names[0])) + Contributions(q, ot, names[1..])
  }

  lemma {:induction false} ContributionsConcat(q: Query, ot: TypeDefinition, a: seq<Name>, b: seq<Name>)
    requires ot.ObjectType? && ToSet(a) <= q.fragments.Keys && ToSet(b) <= q.fragments.Keys
    ensures ToSet(a + b) <= q.fragments.Keys
    ensures Contributions(q, ot, a + b) == Contributions(q, ot, a) + Contributions(q, ot, b)
  {
    ToSetConcat(a, b);
    if a == [] {
      assert a + b == b;
    } else {
      assert a == [a[0]] + a[1..];
      assert (a + b)[1..] == a[1..] + b;
      ContributionsConcat(q, ot, a[1..], b);
    }
  }

  /** The fields collected are the direct ones and those of each fragment visited, each counted once. */
  ghost predicate Counted(q: Query, ot: TypeDefinition, sels: seq<Selection>, c: Collection)
    requires ot.ObjectType?
  {
    ToSet(c.expanded) <= q.fragments.Keys &&
    multiset(c.fields) == multiset(DirectFields(q, ot, sels)) + Contributions(q, ot, c.expanded)
  }

  lemma {:induction false} SelectionCounted(q: Query, ot: TypeDefinition, s: Selection, visited: set<Name>)
    requires ot.ObjectType? && WellSpread(q, [s])
    ensures Counted(q, ot, [s], CollectSelection(q, ot, s, visited))
    decreases q.fragments.Keys - visited, s
  {
    SelectionExpanded(q, ot, s, visited);
    match s {
      case Field(_, _, _, _, _) =>
        assert DirectFields(q, ot, [s]) == if Selected(q, s) then [s] else [];
      case FragmentSpread(n) =>
        assert n in Spreads([s]);
        assert DirectFields(q, ot, [s]) == [];
        if n !in visited {
          if Applies(q, ot, q.fragments[n].typeCondition) {
            CollectCounted(q, ot, q.fragments[n].selectionSet, visited + {n});
            var inner := Collect(q, ot, q.fragments[n].selectionSet, visited + {n});
            ContributionsConcat(q, ot, [n], inner.expanded);
          }
          assert Contributions(q, ot, [n]) == multiset(Contribution(q, ot, n));
        }
      case InlineFragment(condition, body) =>
        assert Spreads(body) <= Spreads([s]);
        assert DirectFields(q, ot, [s]) == if InlineApplies(q, ot, condition) then DirectFields(q, ot, body) else [];
        if InlineApplies(q, ot, condition) { CollectCounted(q, ot, body, visited); }
    }
  }

  lemma {:induction false} CollectCounted(q: Query, ot: TypeDefinition, sels: seq<Selection>, visited: set<Name>)
    requires ot.ObjectType? && WellSpread(q, sels)
    ensures Counted(q, ot, sels, Collect(q, ot, sels, visited))
    decreases q.fragments.Keys - visited, sels
  {
    if sels != [] {
      assert Spreads([sels[0]]) <= Spreads(sels);
      var first := CollectSelection(q, ot, sels[0], visited);
      var rest := Collect(q, ot, sels[1..], first.visited);
      SelectionCounted(q, ot, sels[0], visited);
      CollectCounted(q, ot, sels[1..], first.visited);
      DirectCons(q, ot, sels);
      CountedInTurn(q, ot, [sels[0]], sels[1..], sels, first, rest);
    }
  }

  lemma DirectCons(q: Query, ot: TypeDefinition, sels: seq<Selection>)
    requires ot.ObjectType? && sels != []
    ensures DirectFields(q, ot, sels) == DirectFields(q, ot, [sels[0]]) + DirectFields(q, ot, sels[1..])
  {}

  lemma CountedInTurn(q: Query, ot: TypeDefinition, a: seq<Selection>, b: seq<Selection>, sels: seq<Selection>,
                      first: Collection, rest: Collection)
    requires ot.ObjectType? && Counted(q, ot, a, first) && Counted(q, ot, b, rest)
    requires DirectFields(q, ot, sels) == DirectFields(q, ot, a) + DirectFields(q, ot, b)
    ensures Counted(q, ot, sels, Collection(first.fields + rest.fields, rest.visited, first.expanded + rest.expanded))
  {
    ContributionsConcat(q, ot, first.expanded, rest.expanded);
    assert multiset(first.fields + rest.fields) == multiset(first.fields) + multiset(rest.fields);
  }

  // ---------- Document order

  /** Selections with the named fragments written out in their places: the first spread of each fragment becomes an
      inline fragment, later ones go away. */
  datatype WrittenOut = WrittenOut(sels: seq<Selection>, visited: set<Name>)

  function WriteOutOne(q: Query, ot: TypeDefinition, s: Selection, visited: set<Name>): (w: WrittenOut)
    requires ot.ObjectType? && WellSpread(q, [s])
    ensures visited <= w.visited <= visited + q.fragments.Keys
    decreases q.fragments.Keys - visited, s
  {
    match s
    case Field(_, _, _, _, _) => WrittenOut([s], visited)
    case FragmentSpread(n) =>
      assert n in Spreads([s]);
      if n in visited then WrittenOut([], visited) else
      var fragment := q.fragments[n];
      if !Applies(q, ot, fragment.typeCondition) then WrittenOut([], visited + {n}) else
      var inner := WriteOut(q, ot, fragment.selectionSet, visited + {n});
      WrittenOut([InlineFragment(Some(fragment.typeCondition), inner.sels)], inner.visited)
    case InlineFragment(condition, body) =>
      assert Spreads(body) <= Spreads([s]);
      if !InlineApplies(q, ot, condition) then WrittenOut([], visited) else
      var inner := WriteOut(q, ot, body, visited);
      WrittenOut([InlineFragment(condition, inner.sels)], inner.visited)
  }

  function WriteOut(q: Query, ot: TypeDefinition, sels: seq<Selection>, visited: set<Name>): (w: WrittenOut)
    requires ot.ObjectType? && WellSpread(q, sels)
    ensures visited <= w.visited <= visited + q.fragments.Keys
    decreases q.fragments.Keys - visited, sels
  {
    if sels == [] then WrittenOut([], visited) else
    assert Spreads([sels[0]]) <= Spreads(sels);
    var first := WriteOutOne(q, ot, sels[0], visited);
    var rest := WriteOut(q, ot, sels[1..], first.visited);
    WrittenOut(first.sels + rest.sels, rest.visited)
  }

  lemma DirectConcat(q: Query, ot: TypeDefinition, a: seq<Selection>, b: seq<Selection>)
    requires ot.ObjectType?
    ensures DirectFields(q, ot, a + b) == DirectFields(q, ot, a) + DirectFields(q, ot, b)
    ensures DirectSpreads(q, ot, a + b) == DirectSpreads(q, ot, a) + DirectSpreads(q, ot, b)
  {
    DirectFieldsConcat(q, ot, a, b);
    DirectSpreadsConcat(q, ot, a, b);
  }

  lemma {:induction false} DirectFieldsConcat(q: Query, ot: TypeDefinition, a: seq<Selection>, b: seq<Selection>)
    requires ot.ObjectType?
    ensures DirectFields(q, ot, a + b) == DirectFields(q, ot, a) + DirectFields(q, ot, b)
  {
    if a == [] {
      assert a + b == b;
    } else {
      assert (a + b)[1..] == a[1..] + b;
      DirectFieldsConcat(q, ot, a[1..], b);
    }
  }

  lemma {:induction false} DirectSpreadsConcat(q: Query, ot: TypeDefinition, a: seq<Selection>, b: seq<Selection>)
    requires ot.ObjectType?
    ensures DirectSpreads(q, ot, a + b) == DirectSpreads(q, ot, a) + DirectSpreads(q, ot, b)
  {
    if a == [] {
      assert a + b == b;
    } else {
      assert (a + b)[1..] == a[1..] + b;
      DirectSpreadsConcat(q, ot, a[1..], b);
    }
  }

  lemma {:induction false} WriteOutOneOrder(q: Query, ot: TypeDefinition, s: Selection, visited: set<Name>)
    requires ot.ObjectType? && WellSpread(q, [s])
    ensures var w, c := WriteOutOne(q, ot, s, visited), CollectSelection(q, ot, s, visited);
            w.visited == c.visited && DirectFields(q, ot, w.sels) == c.fields && DirectSpreads(q, ot, w.sels) == {}
    decreases q.fragments.Keys - visited, s
  {
    match s {
      case Field(_, _, _, _, _) =>
        assert DirectFields(q, ot, [s]) == if Selected(q, s) then [s] else [];
      case FragmentSpread(n) =>
        assert n in Spreads([s]);
        if n !in visited && Applies(q, ot, q.fragments[n].typeCondition) {
          WriteOutOrder(q, ot, q.fragments[n].selectionSet, visited + {n});
          DirectInline(q, ot, Some(q.fragments[n].typeCondition),
                       WriteOut(q, ot, q.fragments[n].selectionSet, visited + {n}).sels);
        }
      case InlineFragment(condition, body) =>
        assert Spreads(body) <= Spreads([s]);
        if InlineApplies(q, ot, condition) {
          WriteOutOrder(q, ot, body, visited);
          DirectInline(q, ot, condition, WriteOut(q, ot, body, visited).sels);
        }
    }
  }

  lemma DirectInline(q: Query, ot: TypeDefinition, condition: Option<Name>, body: seq<Selection>)
    requires ot.ObjectType? && InlineApplies(q, ot, condition)
    ensures DirectFields(q, ot, [InlineFragment(condition, body)]) == DirectFields(q, ot, body)
    ensures DirectSpreads(q, ot, [InlineFragment(condition, body)]) == DirectSpreads(q, ot, body)
  {
    var sels := [InlineFragment(condition, body)];
    assert sels[1..] == [];
  }

  /** Collecting gives the fields in the order in which they stand once the fragments are written out. */
  lemma {:induction false} WriteOutOrder(q: Query, ot: TypeDefinition, sels: seq<Selection>, visited: set<Name>)
    requires ot.ObjectType? && WellSpread(q, sels)
    ensures var w, c := WriteOut(q, ot, sels, visited), Collect(q, ot, sels, visited);
            w.visited == c.visited && DirectFields(q, ot, w.sels) == c.fields && DirectSpreads(q, ot, w.sels) == {}
    decreases q.fragments.Keys - visited, sels
  {
    if sels != [] {
      assert Spreads([sels[0]]) <= Spreads(sels);
      var first := WriteOutOne(q, ot, sels[0], visited);
      WriteOutOneOrder(q, ot, sels[0], visited);
      WriteOutOrder(q, ot, sels[1..], first.visited);
      DirectConcat(q, ot, first.sels, WriteOut(q, ot, sels[1..], first.visited).sels);
    }
  }

  // ---------- Grouping by response key

  predicate AllFields(fields: seq<Selection>) {
    forall f :: f in fields ==> f.Field?
  }

  /** The response keys in the order in which they first appear. */
  function FirstKeys(fields: seq<Selection>): seq<Name>
    requires AllFields(fields)
  {
    if fields == [] then [] else
    var keys, key := FirstKeys(fields[..|fields| - 1]), ResponseKey(fields[|fields| - 1]);
    if key in keys then keys else keys + [key]
  }

  function FieldsFor(fields: seq<Selection>, key: Name): (group: seq<Selection>)
    requires AllFields(fields)
    ensures AllFields(group)
  {
    if fields == [] then [] else
    var rest, last := FieldsFor(fields[..|fields| - 1], key), fields[|fields| - 1];
    if ResponseKey(last) == key then rest + [last] else rest
  }

  /** `keys[i]` appears before `keys[j]` does for the first time. */
  ghost predicate AppearsBefore(fields: seq<Selection>, a: Name, b: Name)
    requires AllFields(fields)
  {
    exists p :: 0 <= p < |fields| && ResponseKey(fields[p]) == a &&
      forall r :: 0 <= r <= p ==> ResponseKey(fields[r]) != b
  }

  lemma AppearsBeforeMore(rest: seq<Selection>, last: Selection, a: Name, b: Name)
    requires AllFields(rest) && last.Field? && AppearsBefore(rest, a, b)
    ensures AllFields(rest + [last]) && AppearsBefore(rest + [last], a, b)
  {
    var fields := rest + [last];
    var p :| 0 <= p < |rest| && ResponseKey(rest[p]) == a && forall r :: 0 <= r <= p ==> ResponseKey(rest[r]) != b;
    assert ResponseKey(fields[p]) == a;
    forall r | 0 <= r <= p
      ensures ResponseKey(fields[r]) != b
    {
      assert fields[r] == rest[r];
    }
  }

  lemma {:induction false} FirstKeysMeaning(fields: seq<Selection>)
    requires AllFields(fields)
    ensures var keys := FirstKeys(fields);
            && NoDuplicates(keys)
            && (forall k :: k in keys <==> exists f :: f in fields && ResponseKey(f) == k)
            && (forall i, j :: 0 <= i < j < |keys| ==> AppearsBefore(fields, keys[i], keys[j]))
  {
    if fields != [] {
      var n := |fields| - 1;
      var rest, last := fields[..n], fields[n];
      assert fields == rest + [last];
      FirstKeysMeaning(rest);
      var keys := FirstKeys(fields);
      forall i, j | 0 <= i < j < |keys|
        ensures AppearsBefore(fields, keys[i], keys[j])
      {
        if j < |FirstKeys(rest)| {
          assert AppearsBefore(rest, FirstKeys(rest)[i], FirstKeys(rest)[j]);
          AppearsBeforeMore(rest, last, keys[i], keys[j]);
        } else {
          assert i < |FirstKeys(rest)| && FirstKeys(rest)[i] in FirstKeys(rest);
          var f :| f in rest && ResponseKey(f) == keys[i];
          var p :| 0 <= p < |rest| && rest[p] == f;
          assert ResponseKey(fields[p]) == keys[i];
          forall r | 0 <= r <= p
            ensures ResponseKey(fields[r]) != keys[j]
          {
            assert fields[r] == rest[r] && rest[r] in rest;
          }
        }
      }
    }
  }

  lemma {:induction false} SpreadsConcat(a: seq<Selection>, b: seq<Selection>)
    ensures Spreads(a + b) == Spreads(a) + Spreads(b)
  {
    if a == [] {
      assert a + b == b;
    } else {
      assert (a + b)[1..] == a[1..] + b;
      SpreadsConcat(a[1..], b);
    }
  }

  lemma WellSpreadConcat(q: Query, a: seq<Selection>, b: seq<Selection>)
    ensures WellSpread(q, a + b) <==> WellSpread(q, a) && WellSpread(q, b)
  {
    SpreadsConcat(a, b);
  }

  lemma CollectCons(q: Query, ot: TypeDefinition, s: Selection, tail: seq<Selection>, visited: set<Name>)
    requires ot.ObjectType? && WellSpread(q, [s] + tail)
    ensures WellSpread(q, [s]) && WellSpread(q, tail)
    ensures var first := CollectSelection(q, ot, s, visited);
            var rest := Collect(q, ot, tail, first.visited);
            Collect(q, ot, [s] + tail, visited)
              == Collection(first.fields + rest.fields, rest.visited, first.expanded + rest.expanded)
  {
    WellSpreadConcat(q, [s], tail);
    assert ([s] + tail)[0] == s && ([s] + tail)[1..] == tail;
  }

  /** Two parts of a selection set, one after the other. */
  ghost predicate InParts(whole: Collection, first: Collection, second: Collection) {
    whole.fields == first.fields + second.fields && whole.visited == second.visited
  }

  lemma {:induction false} CollectConcat(q: Query, ot: TypeDefinition, a: seq<Selection>, b: seq<Selection>,
                                         visited: set<Name>)
    requires ot.ObjectType? && WellSpread(q, a) && WellSpread(q, b)
    ensures WellSpread(q, a + b)
    ensures var first := Collect(q, ot, a, visited);
            InParts(Collect(q, ot, a + b, visited), first, Collect(q, ot, b, first.visited))
  {
    WellSpreadConcat(q, a, b);
    if a == [] {
      assert a + b == b;
    } else {
      var s, tail := a[0], a[1..];
      assert a == [s] + tail && a + b == [s] + (tail + b);
      CollectCons(q, ot, s, tail, visited);
      CollectConcat(q, ot, tail, b, CollectSelection(q, ot, s, visited).visited);
      CollectCons(q, ot, s, tail + b, visited);
    }
  }

  lemma CollectSnoc(q: Query, ot: TypeDefinition, sels: seq<Selection>, i: nat, visited: set<Name>)
    requires ot.ObjectType? && WellSpread(q, sels) && i < |sels|
    ensures WellSpread(q, sels[..i]) && WellSpread(q, [sels[i]]) && WellSpread(q, sels[..i + 1])
    ensures var c, c1 := Collect(q, ot, sels[..i + 1], visited), Collect(q, ot, sels[..i], visited);
            var c2 := CollectSelection(q, ot, sels[i], c1.visited);
            c.fields == c1.fields + c2.fields && c.visited == c2.visited
  {
    SpreadsSplit(sels, i);
    assert sels[..i + 1] == sels[..i] + [sels[i]];
    CollectConcat(q, ot, sels[..i], [sels[i]], visited);
    var c2 := CollectSelection(q, ot, sels[i], Collect(q, ot, sels[..i], visited).visited);
    assert [sels[i]] == [sels[i]] + [];
    CollectCons(q, ot, sels[i], [], Collect(q, ot, sels[..i], visited).visited);
  }

  ghost predicate Grouping(fields: seq<Selection>, order: seq<Name>, groups: map<Name, seq<Selection>>) {
    && AllFields(fields) && order == FirstKeys(fields)
    && (forall k :: k in groups <==> k in order)
    && (forall k :: k in groups ==> groups[k] == FieldsFor(fields, k))
  }

  /** Where the collection stands after `sels`, from `fields0` and `visited0` on. */
  ghost predicate CollectedSoFar(q: Query, ot: TypeDefinition, sels: seq<Selection>, fields0: seq<Selection>,
                                 visited0: set<Name>, fields: seq<Selection>, visited: set<Name>)
    requires ot.ObjectType?
  {
    WellSpread(q, sels) && fields == fields0 + Collect(q, ot, sels, visited0).fields
    && visited == Collect(q, ot, sels, visited0).visited
  }

  lemma CollectedNext(q: Query, ot: TypeDefinition, sels: seq<Selection>, i: nat, fields0: seq<Selection>,
                      visited0: set<Name>, fields: seq<Selection>, visited: set<Name>)
    requires ot.ObjectType? && WellSpread(q, sels) && i < |sels|
    requires CollectedSoFar(q, ot, sels[..i], fields0, visited0, fields, visited)
    ensures WellSpread(q, [sels[i]])
    ensures var c := CollectSelection(q, ot, sels[i], visited);
            CollectedSoFar(q, ot, sels[..i + 1], fields0, visited0, fields + c.fields, c.visited)
  {
    CollectSnoc(q, ot, sels, i, visited0);
    var before := Collect(q, ot, sels[..i], visited0);
    assert fields0 + before.fields + CollectSelection(q, ot, sels[i], visited).fields
        == fields0 + (before.fields + CollectSelection(q, ot, sels[i], visited).fields);
  }

  lemma PushKeeps(fields: seq<Selection>, order: seq<Name>, groups: map<Name, seq<Selection>>, field: Selection)
    requires Grouping(fields, order, groups) && field.Field?
    ensures var key := ResponseKey(field);
            Grouping(fields + [field], if key in groups then order else order + [key],
                     groups[key := (if key in groups then groups[key] else []) + [field]])
  {
    var key := ResponseKey(field);
    var groups' := groups[key := (if key in groups then groups[key] else []) + [field]];
    PushOrder(fields, field);
    if key !in groups { NoneFor(fields, key); }
    forall k | k in groups'
      ensures groups'[k] == FieldsFor(fields + [field], k)
    {
      PushFor(fields, field, k);
    }
  }

  lemma PushOrder(fields: seq<Selection>, field: Selection)
    requires AllFields(fields) && field.Field?
    ensures AllFields(fields + [field])
    ensures var key := ResponseKey(field);
            FirstKeys(fields + [field]) == FirstKeys(fields) + if key in FirstKeys(fields) then [] else [key]
  {
    assert (fields + [field])[..|fields|] == fields;
  }

  lemma PushFor(fields: seq<Selection>, field: Selection, k: Name)
    requires AllFields(fields) && field.Field?
    ensures FieldsFor(fields + [field], k)
            == FieldsFor(fields, k) + if ResponseKey(field) == k then [field] else []
  {
    assert (fields + [field])[..|fields|] == fields;
  }

  /** The selection sets merged into one. */
  function Flatten(sets: seq<seq<Selection>>): seq<Selection> {
    if sets == [] then [] else Flatten(sets[..|sets| - 1]) + sets[|sets| - 1]
  }

  /** The fragments visited, and the fields grouped by response key, as one call fills them. */
  class Grouped {
    var visited: set<Name>
    var order: seq<Name>
    var groups: map<Name, seq<Selection>>
    /** All fields so far, in the order in which they were pushed. */
    ghost var fields: seq<Selection>

    ghost predicate Valid()
      reads this
    {
      Grouping(fields, order, groups)
    }

    constructor ()
      ensures Valid() && visited == {} && fields == []
    {
      visited, order, groups, fields := {}, [], map[], [];
    }

    method Push(field: Selection)
      requires Valid() && field.Field?
      modifies this
      ensures Valid() && fields == old(fields) + [field] && visited == old(visited)
    {
      PushKeeps(fields, order, groups, field);
      var key := ResponseKey(field);
      order, groups := if key in groups then order else order + [key],
                       groups[key := (if key in groups then groups[key] else []) + [field]];
      fields := fields + [field];
    }

    /** `collect_fields_inner` on one selection set. */
    method CollectFieldsInner(q: Query, ot: TypeDefinition, sels: seq<Selection>)
      requires Valid() && ot.ObjectType? && WellSpread(q, sels)
      modifies this
      ensures Valid()
      ensures fields == old(fields) + Collect(q, ot, sels, old(visited)).fields
      ensures visited == Collect(q, ot, sels, old(visited)).visited
      decreases q.fragments.Keys - visited, sels
    {
      var i := 0;
      while i < |sels|
        invariant i <= |sels| && Valid() && old(visited) <= visited
        invariant CollectedSoFar(q, ot, sels[..i], old(fields), old(visited), fields, visited)
        decreases |sels| - i
      {
        CollectedNext(q, ot, sels, i, old(fields), old(visited), fields, visited);
        CollectSelectionInto(q, ot, sels[i]);
        i := i + 1;
      }
      assert sels[..i] == sels;
    }

    /** The body of its loop. */
    method CollectSelectionInto(q: Query, ot: TypeDefinition, s: Selection)
      requires Valid() && ot.ObjectType? && WellSpread(q, [s])
      modifies this
      ensures Valid()
      ensures fields == old(fields) + CollectSelection(q, ot, s, old(visited)).fields
      ensures visited == CollectSelection(q, ot, s, old(visited)).visited
      decreases q.fragments.Keys - visited, s
    {
      match s {
        case Field(_, _, _, _, _) =>
          if Selected(q, s) { Push(s); }
        case FragmentSpread(n) =>
          assert n in Spreads([s]);
          if n !in visited {
            visited := visited + {n};
            var fragment := q.fragments[n];
            if Applies(q, ot, fragment.typeCondition) {
              CollectFieldsInner(q, ot, fragment.selectionSet);
            }
          }
        case InlineFragment(condition, body) =>
          assert Spreads(body) <= Spreads([s]);
          if InlineApplies(q, ot, condition) {
            CollectFieldsInner(q, ot, body);
          }
      }
    }

    /** `collect_fields`: all selection sets share what was visited. */
    method CollectFields(q: Query, ot: TypeDefinition, sets: seq<seq<Selection>>)
      requires Valid() && visited == {} && fields == [] && ot.ObjectType?
      requires WellSpread(q, []) && forall s :: s in sets ==> WellSpread(q, s)
      modifies this
      ensures Valid() && WellSpread(q, Flatten(sets))
      ensures fields == Collect(q, ot, Flatten(sets), {}).fields
      ensures visited == Collect(q, ot, Flatten(sets), {}).visited
    {
      for i := 0 to |sets|
        invariant Valid() && WellSpread(q, Flatten(sets[..i]))
        invariant fields == Collect(q, ot, Flatten(sets[..i]), {}).fields
        invariant visited == Collect(q, ot, Flatten(sets[..i]), {}).visited
      {
        assert sets[..i + 1][..i] == sets[..i];
        CollectConcat(q, ot, Flatten(sets[..i]), sets[i], {});
        CollectFieldsInner(q, ot, sets[i]);
      }
      assert sets[..|sets|] == sets;
    }
  }

  lemma {:induction false} NoneFor(fields: seq<Selection>, key: Name)
    requires AllFields(fields) && key !in FirstKeys(fields)
    ensures FieldsFor(fields, key) == []
  {
    if fields != [] { NoneFor(fields[..|fields| - 1], key); }
  }

  lemma SpreadsSplit(sels: seq<Selection>, i: nat)
    requires i < |sels|
    ensures Spreads(sels[..i]) <= Spreads(sels) && Spreads([sels[i]]) <= Spreads(sels)
  {
    var before, s, after := sels[..i], [sels[i]], sels[i + 1..];
    SpreadsConcat(before, s);
    SpreadsConcat(before + s, after);
    assert sels == before + s + after;
  }
}
