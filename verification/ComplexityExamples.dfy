/** Queries whose complexity is not a bound, each failing one condition of `ResponseSizes.LeastWithinComplexity`. */
module ComplexityExamples {
  import opened Common
  import opened GraphQL
  import opened CollectFields
  import opened Conformance
  import opened QueryComplexity
  import opened ComplexityBounds
  import opened ResponseEntities
  import opened PossibleResponses
  import opened ResponseSizes

  function Select(name: FieldName, arguments: seq<(Name, Value)>, selectionSet: seq<Selection>): Selection {
    Field(None, name, arguments, [], selectionSet)
  }

  const ItemType: TypeDefinition := ObjectType("Item", {},
                                               map["id" := NamedType("Int"), "item" := NamedType("Item"),
                                                   "items" := ListType(NamedType("Item"))])

  const Schema: Query := Query(map[], map[],
                               map["Item" := ItemType, "Int" := ScalarType("Int"), "String" := ScalarType("String")])

  /** There is only one type that objects can have. */
  ghost const AnyTypes: Types := (path, n) => ItemType

  lemma SchemaIsValid()
    ensures ValidSchema(Schema) && ItemType in Schema.types.Values && IsRuntimeType(Schema, "Item", ItemType)
  {
    assert Schema.types["Item"] == ItemType;
  }

  lemma OneField(f: Selection)
    requires f.Field? && f.directives == []
    ensures WellSpread(Schema, [f]) && Collect(Schema, ItemType, [f], {}).fields == [f]
    ensures FirstKeys([f]) == [ResponseKey(f)] && FieldsFor([f], ResponseKey(f)) == [f]
  {
    assert [f][1..] == [] && [f][..0] == [];
    assert Collect(Schema, ItemType, [], {}).fields == [];
    assert CollectSelection(Schema, ItemType, [f][0], {}).fields == [f];
    assert Collect(Schema, ItemType, [f], {}).fields == [f] + [];
  }

  lemma TwoFields(f: Selection, g: Selection)
    requires f.Field? && f.directives == [] && g.Field? && g.directives == []
    ensures WellSpread(Schema, [f, g]) && Collect(Schema, ItemType, [f, g], {}).fields == [f, g]
    ensures FirstKeys([f, g]) == if ResponseKey(f) == ResponseKey(g) then [ResponseKey(f)]
            else [ResponseKey(f), ResponseKey(g)]
    ensures FieldsFor([f, g], ResponseKey(f)) == if ResponseKey(f) == ResponseKey(g) then [f, g] else [f]
    ensures ResponseKey(f) != ResponseKey(g) ==> FieldsFor([f, g], ResponseKey(g)) == [g]
  {
    OneField(f);
    OneField(g);
    assert [f, g] == [f] + [g] && [f, g][..1] == [f] && [f][..0] == [];
    CollectConcat(Schema, ItemType, [f], [g], {});
    assert Collect(Schema, ItemType, [f], {}).visited == {} by { assert [f][1..] == []; }
  }

  lemma OneFieldConforms(path: Path, f: Selection, v: Value)
    requires f.Field? && f.directives == [] && v.Object? && v.fields.Keys == {ResponseKey(f)}
    requires FieldConforms(Schema, Limits, AnyTypes, path + [Key(ResponseKey(f))], ItemType, [f],
                           v.fields[ResponseKey(f)])
    ensures ObjectConforms(Schema, Limits, AnyTypes, path, ItemType, [f], v)
  {
    OneField(f);
    assert ToSet([ResponseKey(f)]) == {ResponseKey(f)};
  }

  lemma TwoFieldsConform(path: Path, f: Selection, g: Selection, v: Value)
    requires f.Field? && f.directives == [] && g.Field? && g.directives == [] && ResponseKey(f) != ResponseKey(g)
    requires v.Object? && v.fields.Keys == {ResponseKey(f), ResponseKey(g)}
    requires FieldConforms(Schema, Limits, AnyTypes, path + [Key(ResponseKey(f))], ItemType, [f],
                           v.fields[ResponseKey(f)])
    requires FieldConforms(Schema, Limits, AnyTypes, path + [Key(ResponseKey(g))], ItemType, [g],
                           v.fields[ResponseKey(g)])
    ensures ObjectConforms(Schema, Limits, AnyTypes, path, ItemType, [f, g], v)
  {
    TwoFields(f, g);
    assert ToSet([ResponseKey(f), ResponseKey(g)]) == {ResponseKey(f), ResponseKey(g)};
  }

  lemma MergedFieldsConform(path: Path, f: Selection, g: Selection, v: Value)
    requires f.Field? && f.directives == [] && g.Field? && g.directives == [] && ResponseKey(f) == ResponseKey(g)
    requires v.Object? && v.fields.Keys == {ResponseKey(f)}
    requires FieldConforms(Schema, Limits, AnyTypes, path + [Key(ResponseKey(f))], ItemType, [f, g],
                           v.fields[ResponseKey(f)])
    ensures ObjectConforms(Schema, Limits, AnyTypes, path, ItemType, [f, g], v)
  {
    TwoFields(f, g);
    assert ToSet([ResponseKey(f)]) == {ResponseKey(f)};
  }

  lemma NullConforms(path: Path, f: Selection)
    requires f.Field? && f.name == "id"
    ensures FieldConforms(Schema, Limits, AnyTypes, path, ItemType, [f], Null)
  {
    assert GetField(ItemType, "id") == Some(NamedType("Int"));
  }

  /** An item with a null id. */
  lemma LeafConforms(path: Path)
    ensures ObjectConforms(Schema, Limits, AnyTypes, path, ItemType, [Select("id", [], [])], Object(map["id" := Null]))
  {
    NullConforms(path + [Key("id")], Select("id", [], []));
    OneFieldConforms(path, Select("id", [], []), Object(map["id" := Null]));
  }

  lemma OneStep(key: Name)
    ensures [] + [Key(key)] == [Key(key)]
  {}

  /** A list of items, each conforming to what the group selects below. */
  lemma ListConforms(path: Path, group: seq<Selection>, items: seq<Value>)
    requires AllFields(group) && group != [] && forall f :: f in group ==> f.name == "items"
    requires WithinLimit(LeaderLimits, group, |items|)
    requires forall i :: 0 <= i < |items| ==>
             ObjectConforms(Schema, Limits, AnyTypes, path + [Item(i)], ItemType, Flatten(SelectionSets(group)),
                            items[i])
    ensures FieldConforms(Schema, Limits, AnyTypes, path, ItemType, group, List(items))
  {
    SchemaIsValid();
    assert group[0] in group;
    assert GetField(ItemType, "items") == Some(ListType(NamedType("Item")));
    forall i | 0 <= i < |items|
      ensures Conforms(Schema, Limits, AnyTypes, path + [Item(i)], NamedType("Item"), group, items[i])
    {
      assert TypeThere(Schema, AnyTypes, path + [Item(i)], "Item") == ItemType;
    }
  }

  lemma FlattenOne(f: Selection)
    requires f.Field?
    ensures Flatten(SelectionSets([f])) == f.selectionSet
  {
    assert SelectionSets([f]) == [f.selectionSet] && [f.selectionSet][..0] == [];
    assert Flatten([f.selectionSet]) == Flatten([]) + f.selectionSet;
  }

  lemma OneItem(v: Value)
    ensures Entities(List([v])) == Entities(v) + if v.Object? then 1 else 0
  {
    var l := List([v]);
    assert EntitiesIn(l, 0) == 0 && l.items[0] == v;
    assert EntitiesIn(l, 1) == EntitiesIn(l, 0) + Entities(v) + if v.Object? then 1 else 0;
  }

  lemma OneKey(v: Value, k: string)
    requires v.Object? && v.fields.Keys == {k}
    ensures Entities(v) == Entities(v.fields[k])
  {
    assert {k} - {k} == {};
    assert EntitiesUnder(v, {}) == 0;
    var j :| j in {k} && EntitiesUnder(v, {k}) == Entities(v.fields[j]) + EntitiesUnder(v, {k} - {j});
    assert j == k;
  }

  lemma TwoKeys(v: Value, a: string, b: string)
    requires v.Object? && v.fields.Keys == {a, b} && a != b
    ensures Entities(v) == Entities(v.fields[a]) + Entities(v.fields[b])
  {
    var j :| j in {a, b} && EntitiesUnder(v, {a, b}) == Entities(v.fields[j]) + EntitiesUnder(v, {a, b} - {j});
    var k := if j == a then b else a;
    assert {a, b} - {j} == {k} && {k} - {k} == {};
    assert EntitiesUnder(v, {}) == 0;
    assert EntitiesUnder(v, {k}) == Entities(v.fields[k]);
  }

  // ---------- Invalid queries are let through

  const Leaf: Selection := Select("id", [], [])
  const OnNumber: Selection := Select("id", [], [Select("x", [], [Select("y", [], [])])])
  const Items: Selection := Select("items", [], [Leaf])
  const NullItem: Value := Object(map["id" := Null])
  const Response: Value := Object(map["id" := Null, "items" := List([NullItem])])

  lemma OnNumberInvalid()
    ensures ComplexityInner(Schema, ItemType, [OnNumber, Items], 3, 0) == Err(Invalid)
  {
    var x := Select("x", [], [Select("y", [], [])]);
    assert [x][0] == x;
    assert AddSelection(Schema, ScalarType("Int"), x, 3, 1, 0) == Err(Invalid);
    assert Fold(Schema, ScalarType("Int"), [x], 3, 1, 0) == Err(Invalid);
    assert AddSelection(Schema, ItemType, OnNumber, 3, 0, 0) == Err(Invalid);
  }

  lemma OnNumberValidated()
    ensures Validated(Schema, ItemType, 3, [OnNumber, Items])
  {
    assert [OnNumber, Items][1..] == [Items] && [Items][1..] == [] && [Leaf][1..] == [];
    assert ValidatedOne(Schema, ItemType, 2, Leaf);
    assert ValidatedAll(Schema, ItemType, 2, [Leaf]);
    assert ValidatedOne(Schema, ItemType, 3, Items);
    assert ValidatedOne(Schema, ItemType, 3, OnNumber);
    assert ValidatedAll(Schema, ItemType, 3, [Items]);
  }

  lemma ItemsFieldConforms()
    ensures FieldConforms(Schema, Limits, AnyTypes, [Key("items")], ItemType, [Items], List([NullItem]))
  {
    LeafConforms([Key("items")] + [Item(0)]);
    FlattenOne(Items);
    assert First(Items) == 100;
    ListConforms([Key("items")], [Items], [NullItem]);
  }

  lemma ResponseConforms()
    ensures ObjectConforms(Schema, Limits, AnyTypes, [], ItemType, [OnNumber, Items], Response)
  {
    ItemsFieldConforms();
    NullConforms([Key("id")], OnNumber);
    OneStep("id");
    OneStep("items");
    TwoFieldsConform([], OnNumber, Items, Response);
  }

  /** A selection on a number makes the complexity invalid, and so zero, though the query passes validation. */
  lemma InvalidIsFree()
    ensures Validated(Schema, ItemType, 3, [OnNumber, Items])
            && Complexity(Schema, ItemType, [OnNumber, Items], 3) == Ok(0)
    ensures Bounded(Schema, 3, [OnNumber, Items]) && FragmentsExist(Schema)
            && !Bounds(Schema, 3, ItemType, [OnNumber, Items], 0)
  {
    OnNumberInvalid();
    OnNumberValidated();
    ResponseConforms();
    OneKey(NullItem, "id");
    OneItem(NullItem);
    TwoKeys(Response, "id", "items");
    OnNumberBounded();
    Exceeds(3, [OnNumber, Items], Response, 0);
  }

  lemma OnNumberBounded()
    ensures Bounded(Schema, 3, [OnNumber, Items])
  {
    assert [OnNumber, Items][1..] == [Items] && [Items][1..] == [] && [Leaf][1..] == [];
    var x, y := Select("x", [], [Select("y", [], [])]), Select("y", [], []);
    assert [x][1..] == [] && [y][1..] == [] && OnNumber.selectionSet == [x] && x.selectionSet == [y];
    assert Bounded(Schema, 0, []) && Bounded(Schema, 1, []);
    assert Bounded(Schema, 1, [y]) && Bounded(Schema, 2, [x]) && Bounded(Schema, 2, [Leaf]);
    assert Bounded(Schema, 3, [Items]);
  }

  /** A response that conforms is one that some execution gives. */
  lemma Exceeds(d: nat, sels: seq<Selection>, v: Value, c: nat)
    requires Bounded(Schema, d, sels) && ObjectConforms(Schema, Limits, AnyTypes, [], ItemType, sels, v)
             && Entities(v) > c
    ensures FragmentsExist(Schema) && !Bounds(Schema, d, ItemType, sels, c)
  {
    SchemaIsValid();
    SchemaResolvable(Schema);
    ReplayProduces(Schema, d, AnyTypes, ItemType, sels, v);
    assert !StaysWithin(Schema, Replay(Schema, v, AnyTypes), d, ItemType, sels, c);
  }

  // ---------- Only one of several merged fields decides how many items there are

  const Three: Selection := Select("items", [("first", Int(3))], [Leaf])
  const Inner: Selection := Select("items", [("first", Int(1))], [Leaf])
  const One: Selection := Select("items", [("first", Int(1))], [Inner])
  const Nested: Value := Object(map["id" := Null, "items" := List([NullItem])])
  const Larger: Value := Object(map["items" := List([Nested, Nested, Nested])])

  lemma InnerOfOne(ty: TypeDefinition, s: Selection, maxDepth: nat, depth: nat)
    requires depth < maxDepth
    ensures ComplexityInner(Schema, ty, [s], maxDepth, depth) == AddSelection(Schema, ty, s, maxDepth, depth, 0)
  {
    FoldOne(ty, s, maxDepth, depth, 0);
  }

  lemma FoldOne(ty: TypeDefinition, s: Selection, maxDepth: nat, depth: nat, total: nat)
    requires depth < maxDepth
    ensures Fold(Schema, ty, [s], maxDepth, depth, total) == AddSelection(Schema, ty, s, maxDepth, depth, total)
  {
    assert [s][0] == s && [s][1..] == [];
    var more := AddSelection(Schema, ty, s, maxDepth, depth, total);
    if more.Ok? { assert Fold(Schema, ty, [], maxDepth, depth, more.value) == more; }
  }

  lemma MergedComplexity()
    ensures ComplexityInner(Schema, ItemType, [Three, One], 4, 0) == Ok(5)
  {
    InnerOfOne(ItemType, Leaf, 4, 1);
    InnerOfOne(ItemType, Leaf, 4, 2);
    InnerOfOne(ItemType, Inner, 4, 1);
    assert [Three, One][1..] == [One] && [One][1..] == [];
    assert AddSelection(Schema, ItemType, Inner, 4, 1, 0) == Ok(1);
    assert AddSelection(Schema, ItemType, Three, 4, 0, 0) == Ok(3);
    assert AddSelection(Schema, ItemType, One, 4, 0, 3) == Ok(5);
    FoldOne(ItemType, One, 4, 0, 3);
    assert [Three, One][0] == Three;
  }

  lemma InnerConforms(path: Path)
    ensures FieldConforms(Schema, Limits, AnyTypes, path, ItemType, [Inner], List([NullItem]))
  {
    LeafConforms(path + [Item(0)]);
    FlattenOne(Inner);
    ListConforms(path, [Inner], [NullItem]);
  }

  lemma NestedConforms(path: Path)
    ensures ObjectConforms(Schema, Limits, AnyTypes, path, ItemType, [Leaf, Inner], Nested)
  {
    InnerConforms(path + [Key("items")]);
    NullConforms(path + [Key("id")], Leaf);
    TwoFieldsConform(path, Leaf, Inner, Nested);
  }

  lemma MergedBelow()
    ensures Flatten(SelectionSets([Three, One])) == [Leaf, Inner]
  {
    assert SelectionSets([Three, One]) == [[Leaf], [Inner]];
    assert [[Leaf], [Inner]][..1] == [[Leaf]] && [[Leaf]][..0] == [];
    assert Flatten([[Leaf]]) == [Leaf];
  }

  lemma SameItemsConform(path: Path, group: seq<Selection>, v: Value)
    requires AllFields(group) && group != [] && (forall f :: f in group ==> f.name == "items")
    requires group[0].Field? && First(group[0]) >= 3
    requires forall i :: 0 <= i < 3 ==> ObjectConforms(Schema, Limits, AnyTypes, path + [Item(i)], ItemType,
                                                       Flatten(SelectionSets(group)), v)
    ensures FieldConforms(Schema, Limits, AnyTypes, path, ItemType, group, List([v, v, v]))
  {
    ListConforms(path, group, [v, v, v]);
  }

  lemma MergedConforms()
    ensures ObjectConforms(Schema, Limits, AnyTypes, [], ItemType, [Three, One], Larger)
  {
    MergedBelow();
    forall i | 0 <= i < 3
      ensures ObjectConforms(Schema, Limits, AnyTypes, [Key("items")] + [Item(i)], ItemType, [Leaf, Inner], Nested)
    {
      NestedConforms([Key("items")] + [Item(i)]);
    }
    SameItemsConform([Key("items")], [Three, One], Nested);
    OneStep("items");
    MergedFieldsConform([], Three, One, Larger);
  }

  /** The list is as long as its first field asks, but longer than its second does: three items with one item below
      each make six entities, where the complexity is five. */
  lemma MergedFieldsExceed()
    ensures ComplexityInner(Schema, ItemType, [Three, One], 4, 0) == Ok(5)
    ensures Bounded(Schema, 4, [Three, One]) && FragmentsExist(Schema) && !Bounds(Schema, 4, ItemType, [Three, One], 5)
  {
    MergedComplexity();
    MergedConforms();
    OneKey(NullItem, "id");
    OneItem(NullItem);
    TwoKeys(Nested, "id", "items");
    var l := List([Nested, Nested, Nested]);
    assert EntitiesIn(l, 0) == 0;
    assert EntitiesIn(l, 1) == 2 && EntitiesIn(l, 2) == 4;
    assert EntitiesIn(l, 3) == 6;
    OneKey(Larger, "items");
    ComputedIsBounded(Schema, ItemType, [Three, One], 4);
    Exceeds(4, [Three, One], Larger, 5);
  }

  // ---------- One addition is not checked

  const Big: Selection := Select("items", [("first", Int(0x7FFF_FFFF_FFFF_FFFF))], [Leaf])
  const A: Selection := Field(Some("a"), "item", [], [], [Big])
  const B: Selection := Field(Some("b"), "item", [], [], [Big])
  const C: Selection := Field(Some("c"), "item", [], [], [Big])

  lemma BigComplexity()
    ensures ComplexityInner(Schema, ItemType, [Big], 3, 1) == Ok(0x7FFF_FFFF_FFFF_FFFF)
    ensures Cost(Schema, ItemType, 2, [Big]) == 0x7FFF_FFFF_FFFF_FFFF
  {
    InnerOfOne(ItemType, Leaf, 3, 2);
    InnerOfOne(ItemType, Big, 3, 1);
    assert [Leaf][1..] == [] && [Big][1..] == [];
    assert Cost(Schema, ItemType, 1, []) == 0 && Cost(Schema, ItemType, 2, []) == 0;
    assert Cost(Schema, ItemType, 1, [Leaf]) == 0;
    assert FieldCost(Schema, ItemType, 2, Big) == 0x7FFF_FFFF_FFFF_FFFF;
  }

  lemma ThreeBig(f: Selection)
    requires f in {A, B, C}
    ensures FieldCost(Schema, ItemType, 3, f) == 0x7FFF_FFFF_FFFF_FFFF
    ensures forall total: nat ::
              AddSelection(Schema, ItemType, f, 3, 0, total) == Ok((total + 0x7FFF_FFFF_FFFF_FFFF) % U64)
  {
    BigComplexity();
    assert GetField(ItemType, "item") == Some(NamedType("Item"));
  }

  /** Three fields that are not lists, each with a list of almost 2^63 items below: their sum wraps around. */
  lemma SumWraps()
    ensures ComplexityInner(Schema, ItemType, [A, B, C], 3, 0) == Ok(0x7FFF_FFFF_FFFF_FFFD)
    ensures Cost(Schema, ItemType, 3, [A, B, C]) == 3 * 0x7FFF_FFFF_FFFF_FFFF
  {
    ThreeBig(A);
    ThreeBig(B);
    ThreeBig(C);
    assert [A, B, C][1..] == [B, C] && [B, C][1..] == [C] && [C][1..] == [];
    assert Cost(Schema, ItemType, 3, []) == 0;
    assert Cost(Schema, ItemType, 3, [C]) == 0x7FFF_FFFF_FFFF_FFFF;
    assert Cost(Schema, ItemType, 3, [B, C]) == 2 * 0x7FFF_FFFF_FFFF_FFFF;
    FoldOne(ItemType, C, 3, 0, 2 * 0x7FFF_FFFF_FFFF_FFFF);
    assert Fold(Schema, ItemType, [B, C], 3, 0, 0x7FFF_FFFF_FFFF_FFFF) == Ok(0x7FFF_FFFF_FFFF_FFFD);
    assert AddSelection(Schema, ItemType, A, 3, 0, 0) == Ok(0x7FFF_FFFF_FFFF_FFFF);
    assert [A, B, C][0] == A;
  }
}
