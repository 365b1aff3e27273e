/** Resolving the schemas that a subgraph's schema imports, directly and through other schemas
    (packages/graph-node/graph/src/data/schema.rs): a graph search with a visit log. */
module SchemaImports {
  import opened Common

  datatype SchemaReference = SchemaReference(subgraph: string)

  datatype Schema = Schema(id: SchemaReference, importedSchemas: seq<SchemaReference>)

  type Store = map<SchemaReference, Schema>

  /** The store finds a schema under its own id. */
  ghost predicate Indexed(store: Store) {
    forall r :: r in store ==> store[r].id == r
  }

  /** The visit log after the search, and the references that could not be resolved. */
  datatype Search = Search(visited: set<SchemaReference>, errors: seq<SchemaReference>)

  /** The body of the fold in `resolve_import_graph`. */
  function FollowOne(store: Store, r: SchemaReference, visited: set<SchemaReference>): (s: Search)
    ensures visited <= s.visited <= visited + store.Keys
    decreases store.Keys - visited, 0
  {
    if r !in store then Search(visited, [r])
    else if r in visited then Search(visited, [])
    else Follow(store, store[r].importedSchemas, visited + {r})
  }

  /** The fold over the references `refs`. */
  function Follow(store: Store, refs: seq<SchemaReference>, visited: set<SchemaReference>): (s: Search)
    ensures visited <= s.visited <= visited + store.Keys
    decreases store.Keys - visited, 1, |refs|
  {
    if refs == [] then Search(visited, []) else
    var first := FollowOne(store, refs[0], visited);
    var rest := Follow(store, refs[1..], first.visited);
    Search(rest.visited, first.errors + rest.errors)
  }

  /** A chain of imports that starts with one of `refs`; all but its last reference can be resolved. */
  ghost predicate IsImportChain(store: Store, refs: set<SchemaReference>, chain: seq<SchemaReference>) {
    && chain != [] && chain[0] in refs
    && forall i :: 0 <= i < |chain| - 1 ==> chain[i] in store && chain[i + 1] in store[chain[i]].importedSchemas
  }

  ghost predicate Imported(store: Store, refs: set<SchemaReference>, r: SchemaReference) {
    exists chain :: IsImportChain(store, refs, chain) && chain[|chain| - 1] == r
  }

  lemma ImportedDirectly(store: Store, refs: set<SchemaReference>, r: SchemaReference)
    requires r in refs
    ensures Imported(store, refs, r)
  {
    assert IsImportChain(store, refs, [r]);
  }

  lemma ImportedThrough(store: Store, refs: set<SchemaReference>, m: SchemaReference, r: SchemaReference)
    requires m in refs && m in store && Imported(store, ToSet(store[m].importedSchemas), r)
    ensures Imported(store, refs, r)
  {
    var chain :| IsImportChain(store, ToSet(store[m].importedSchemas), chain) && chain[|chain| - 1] == r;
    assert IsImportChain(store, refs, [m] + chain);
  }

  lemma ImportedMonotone(store: Store, refs: set<SchemaReference>, more: set<SchemaReference>, r: SchemaReference)
    requires refs <= more && Imported(store, refs, r)
    ensures Imported(store, more, r)
  {
    var chain :| IsImportChain(store, refs, chain) && chain[|chain| - 1] == r;
    assert IsImportChain(store, more, chain);
  }

  /** A reference has been dealt with: visited if it can be resolved, reported if not. */
  predicate Handled(store: Store, s: Search, r: SchemaReference) {
    if r in store then r in s.visited else r in s.errors
  }

  /** What one call has achieved, starting with `refs` and the log `visited`. */
  ghost predicate Complete(store: Store, refs: set<SchemaReference>, visited: set<SchemaReference>, s: Search) {
    && (forall r :: r in refs ==> Handled(store, s, r))
    && (forall m, r :: m in s.visited && m !in visited && m in store && r in store[m].importedSchemas ==>
       Handled(store, s, r))
    && (forall m :: m in s.visited && m !in visited ==> Imported(store, refs, m))
    && (forall r :: r in s.errors ==> r !in store && Imported(store, refs, r))
  }

  lemma CompleteInTurn(store: Store, a: set<SchemaReference>, b: set<SchemaReference>, visited: set<SchemaReference>,
                       first: Search, rest: Search)
    requires visited <= first.visited <= rest.visited
    requires Complete(store, a, visited, first) && Complete(store, b, first.visited, rest)
    ensures Complete(store, a + b, visited, Search(rest.visited, first.errors + rest.errors))
  {
    HandledInTurn(store, first, rest);
    ImportedByEither(store, a, b);
  }

  lemma HandledInTurn(store: Store, first: Search, rest: Search)
    requires first.visited <= rest.visited
    ensures var s := Search(rest.visited, first.errors + rest.errors);
            forall r :: Handled(store, first, r) || Handled(store, rest, r) ==> Handled(store, s, r)
  {}

  lemma ImportedByEither(store: Store, a: set<SchemaReference>, b: set<SchemaReference>)
    ensures forall r :: Imported(store, a, r) || Imported(store, b, r) ==> Imported(store, a + b, r)
  {
    forall r | Imported(store, a, r) || Imported(store, b, r)
      ensures Imported(store, a + b, r)
    {
      ImportedMonotone(store, if Imported(store, a, r) then a else b, a + b, r);
    }
  }

  lemma CompleteOne(store: Store, r: SchemaReference, visited: set<SchemaReference>, s: Search)
    requires r in store && r !in visited && r in s.visited
    requires Complete(store, ToSet(store[r].importedSchemas), visited + {r}, s)
    ensures Complete(store, {r}, visited, s)
  {
    ImportedDirectly(store, {r}, r);
    forall m | Imported(store, ToSet(store[r].importedSchemas), m)
      ensures Imported(store, {r}, m)
    {
      ImportedThrough(store, {r}, r, m);
    }
  }

  lemma {:induction false} FollowOneComplete(store: Store, r: SchemaReference, visited: set<SchemaReference>)
    ensures Complete(store, {r}, visited, FollowOne(store, r, visited))
    decreases store.Keys - visited, 0
  {
    if r in store && r !in visited {
      FollowComplete(store, store[r].importedSchemas, visited + {r});
      CompleteOne(store, r, visited, FollowOne(store, r, visited));
    } else {
      ImportedDirectly(store, {r}, r);
    }
  }

  lemma {:induction false} FollowComplete(store: Store, refs: seq<SchemaReference>, visited: set<SchemaReference>)
    ensures Complete(store, ToSet(refs), visited, Follow(store, refs, visited))
    decreases store.Keys - visited, 1, |refs|
  {
    if refs != [] {
      var first := FollowOne(store, refs[0], visited);
      FollowOneComplete(store, refs[0], visited);
      FollowComplete(store, refs[1..], first.visited);
      CompleteInTurn(store, {refs[0]}, ToSet(refs[1..]), visited, first, Follow(store, refs[1..], first.visited));
      FirstAndRest(refs);
    } else {
      NothingToFollow(store, visited);
    }
  }

  lemma FirstAndRest(refs: seq<SchemaReference>)
    requires refs != []
    ensures ToSet(refs) == {refs[0]} + ToSet(refs[1..])
  {
    assert refs == [refs[0]] + refs[1..];
  }

  lemma NothingToFollow(store: Store, visited: set<SchemaReference>)
    ensures Complete(store, ToSet([]), visited, Search(visited, []))
  {}

  lemma {:induction false} ChainHandled(store: Store, refs: set<SchemaReference>, s: Search,
                                        chain: seq<SchemaReference>, i: nat)
    requires Complete(store, refs, {}, s) && IsImportChain(store, refs, chain) && i < |chain|
    ensures Handled(store, s, chain[i])
  {
    if i > 0 { ChainHandled(store, refs, s, chain, i - 1); }
  }

  /** Resolving the imports of a schema, cyclic or not, finds exactly the resolvable references it imports directly or
      through others, and reports exactly the unresolvable ones. */
  lemma ResolvesExactlyImported(store: Store, refs: seq<SchemaReference>, r: SchemaReference)
    ensures var s := Follow(store, refs, {});
            && (r in s.visited <==> r in store && Imported(store, ToSet(refs), r))
            && (r in s.errors <==> r !in store && Imported(store, ToSet(refs), r))
  {
    var s := Follow(store, refs, {});
    FollowComplete(store, refs, {});
    if Imported(store, ToSet(refs), r) {
      var chain :| IsImportChain(store, ToSet(refs), chain) && chain[|chain| - 1] == r;
      ChainHandled(store, ToSet(refs), s, chain, |chain| - 1);
    }
  }

  /** The map of schemas and the visit log that the recursion passes along. */
  class ImportResolver {
    const store: Store
    var schemas: map<SchemaReference, Schema>
    var visitLog: set<SchemaReference>

    /** Everything visited has been put into the map, and nothing else. */
    ghost predicate Valid()
      reads this
    {
      Indexed(store) && schemas.Keys == visitLog && forall r :: r in schemas ==> r in store && schemas[r] == store[r]
    }

    constructor (store: Store)
      requires Indexed(store)
      ensures Valid() && schemas == map[] && visitLog == {} && this.store == store
    {
      this.store, schemas, visitLog := store, map[], {};
    }

    method ResolveImportGraph(schema: Schema) returns (errors: seq<SchemaReference>)
      requires Valid()
      modifies this
      ensures Valid()
      ensures Search(visitLog, errors) == Follow(store, schema.importedSchemas, old(visitLog))
      decreases store.Keys - visitLog, 1
    {
      var refs := schema.importedSchemas;
      errors := [];
      for i := 0 to |refs|
        invariant Valid() && old(visitLog) <= visitLog
        invariant Search(visitLog, errors) == Follow(store, refs[..i], old(visitLog))
      {
        FollowSnoc(store, refs[..i], refs[i], old(visitLog));
        assert refs[..i + 1] == refs[..i] + [refs[i]];
        var more := ResolveReference(refs[i]);
        errors := errors + more;
      }
      assert refs[..|refs|] == refs;
    }

    /** The body of its fold. */
    method ResolveReference(r: SchemaReference) returns (errors: seq<SchemaReference>)
      requires Valid()
      modifies this
      ensures Valid()
      ensures Search(visitLog, errors) == FollowOne(store, r, old(visitLog))
      decreases store.Keys - visitLog, 0
    {
      if r !in store { return [r]; }
      var imported := store[r];
      schemas := schemas[r := imported];
      if imported.id in visitLog { return []; }
      visitLog := visitLog + {imported.id};
      errors := ResolveImportGraph(imported);
    }

    /** `resolve_schema_references`. */
    method ResolveSchemaReferences(schema: Schema) returns (errors: seq<SchemaReference>)
      requires Valid() && schemas == map[] && visitLog == {}
      modifies this
      ensures forall r :: Lookup(schemas, r) ==
                if Imported(store, ToSet(schema.importedSchemas), r) then Lookup(store, r) else None
      ensures forall r :: r in errors <==> r !in store && Imported(store, ToSet(schema.importedSchemas), r)
    {
      errors := ResolveImportGraph(schema);
      forall r
        ensures Lookup(schemas, r) == if Imported(store, ToSet(schema.importedSchemas), r) then Lookup(store, r)
                else None
        ensures r in errors <==> r !in store && Imported(store, ToSet(schema.importedSchemas), r)
      {
        ResolvesExactlyImported(store, schema.importedSchemas, r);
      }
    }
  }

  lemma {:induction false} FollowSnoc(store: Store, refs: seq<SchemaReference>, r: SchemaReference,
                                      visited: set<SchemaReference>)
    ensures var before := Follow(store, refs, visited);
            var last := FollowOne(store, r, before.visited);
            Follow(store, refs + [r], visited) == Search(last.visited, before.errors + last.errors)
    decreases |refs|
  {
    if refs == [] {
      var last := FollowOne(store, r, visited);
      assert refs + [r] == [r] && [r][1..] == [];
      assert last.errors + [] == last.errors && [] + last.errors == last.errors;
    } else {
      var first := FollowOne(store, refs[0], visited);
      assert (refs + [r])[1..] == refs[1..] + [r] && (refs + [r])[0] == refs[0];
      FollowSnoc(store, refs[1..], r, first.visited);
      var rest := Follow(store, refs[1..], first.visited);
      var last := FollowOne(store, r, rest.visited);
      assert first.errors + (rest.errors + last.errors) == (first.errors + rest.errors) + last.errors;
    }
  }
}
