/** Entity queries and their simplification (packages/graph-node/graph/src/components/store.rs). */
module EntityQueries {
  import opened Common
  import opened Entities

  datatype EntityFilter =
    | And(filters: seq<EntityFilter>)
    | Or(filters: seq<EntityFilter>)
    | Equal(attribute: string, value: Value)
    | Not(attribute: string, value: Value)
    | GreaterThan(attribute: string, value: Value)
    | LessThan(attribute: string, value: Value)
    | GreaterOrEqual(attribute: string, value: Value)
    | LessOrEqual(attribute: string, value: Value)
    | In(attribute: string, values: seq<Value>)
    | NotIn(attribute: string, values: seq<Value>)
    | Contains(attribute: string, value: Value)
    | NotContains(attribute: string, value: Value)
    | StartsWith(attribute: string, value: Value)
    | NotStartsWith(attribute: string, value: Value)
    | EndsWith(attribute: string, value: Value)
    | NotEndsWith(attribute: string, value: Value)

  datatype EntityOrder =
    | Ascending(attribute: string, valueType: string)
    | Descending(attribute: string, valueType: string)
    | Default
    | Unordered

  datatype EntityRange = EntityRange(first: Option<nat>, skip: nat)

  datatype WindowAttribute = Scalar(name: string) | ListOf(name: string)

  datatype ParentLink = ChildIds(lists: seq<seq<string>>) | ChildId(ids: seq<string>)

  datatype ChildMultiplicity = Single | Many

  datatype EntityLink = Direct(childAttribute: WindowAttribute, multiplicity: ChildMultiplicity)
    | Parent(link: ParentLink)

  datatype EntityWindow = EntityWindow(childType: string, ids: seq<string>, link: EntityLink)

  datatype EntityCollection = All(types: seq<string>) | Window(windows: seq<EntityWindow>)

  datatype EntityQuery =
    EntityQuery(collection: EntityCollection, filter: Option<EntityFilter>, order: EntityOrder, range: EntityRange)

  function AndMaybe(f: EntityFilter, other: Option<EntityFilter>): EntityFilter {
    match other
    case None => f
    case Some(g) =>
      match (f, g)
      case (And(fs), And(gs)) => And(fs + gs)
      case (And(fs), g) => And(fs + [g])
      case (f, And(gs)) => And(gs + [f])
      case (f, g) => And([f, g])
  }

  /** With one window, for one parent id, linked by an attribute of the child, a filter does the work of the window. */
  function Simplify(q: EntityQuery): EntityQuery {
    match q.collection
    case All(_) => q
    case Window(windows) =>
      if |windows| != 1 || |windows[0].ids| != 1 || !windows[0].link.Direct? then q else
      var id := windows[0].ids[0];
      var filter := match windows[0].link.childAttribute
        case Scalar(name) => Equal(name, String(id))
        case ListOf(name) => Contains(name, List([String(id)]));
      q.(filter := Some(AndMaybe(filter, q.filter)), collection := All([windows[0].childType]))
  }

  /** A query is simplified to one over a whole type exactly if it has a single window, for a single parent, linked by
      an attribute of the child; the order and the range stay. */
  lemma SimplifiesExactly(q: EntityQuery)
    ensures Simplify(q) != q <==>
            && q.collection.Window? && |q.collection.windows| == 1 && |q.collection.windows[0].ids| == 1
            && q.collection.windows[0].link.Direct?
    ensures Simplify(q) != q ==> Simplify(q).collection == All([q.collection.windows[0].childType])
    ensures Simplify(q).order == q.order && Simplify(q).range == q.range
  {}

  // ---------- What queries mean

  /** An attribute's value; an attribute that is not set is null. */
  function Attr(e: Entity, name: string): Value {
    if name in e then e[name] else Null
  }

  /** `whole` has every element of the list `part`. */
  predicate HasAll(whole: Value, part: Value) {
    whole.List? && part.List? && forall x :: x in part.items ==> x in whole.items
  }

  /** What a store does with a query: how it evaluates filters other than conjunctions, equality and containment, how it
      finds the children of a parent that are linked by the parent, how it sorts, and which entities of each type it
      has. */
  datatype Database = Database(
    compare: (Entity, EntityFilter) -> bool,
    linked: (Entity, EntityWindow, string) -> bool,
    sort: (EntityOrder, seq<Entity>) -> seq<Entity>,
    entities: string -> seq<Entity>)

  predicate Holds(db: Database, e: Entity, f: EntityFilter) {
    match f
    case And(fs) => forall g :: g in fs ==> Holds(db, e, g)
    case Equal(name, value) => Attr(e, name) == value
    case Contains(name, value) => HasAll(Attr(e, name), value)
    case _ => db.compare(e, f)
  }

  predicate HoldsMaybe(db: Database, e: Entity, f: Option<EntityFilter>) {
    f.Some? ==> Holds(db, e, f.value)
  }

  /** The entities of one type that meet a condition, in the order in which they are stored. */
  function Select(entities: seq<Entity>, p: Entity -> bool): seq<Entity> {
    if entities == [] then []
    else Select(entities[..|entities| - 1], p) + if p(entities[|entities| - 1]) then [entities[|entities| - 1]] else []
  }

  function Ranged(entities: seq<Entity>, range: EntityRange): seq<Entity> {
    var rest := if range.skip <= |entities| then entities[range.skip..] else [];
    if range.first.Some? && range.first.value <= |rest| then rest[..range.first.value] else rest
  }

  /** Whether a child belongs to the parent `id` of a window. */
  predicate Linked(db: Database, e: Entity, w: EntityWindow, id: string) {
    match w.link
    case Direct(Scalar(name), _) => Attr(e, name) == String(id)
    case Direct(ListOf(name), _) => Attr(e, name).List? && String(id) in Attr(e, name).items
    case Parent(_) => db.linked(e, w, id)
  }

  function ChildCondition(db: Database, q: EntityQuery, w: EntityWindow, id: string): Entity -> bool {
    e => Linked(db, e, w, id) && HoldsMaybe(db, e, q.filter)
  }

  function FilterCondition(db: Database, q: EntityQuery): Entity -> bool {
    e => HoldsMaybe(db, e, q.filter)
  }

  /** The children of parent `id` in all windows. */
  function Children(db: Database, q: EntityQuery, windows: seq<EntityWindow>, id: string): seq<Entity> {
    if windows == [] then [] else
    var w := windows[0];
    (if id in w.ids then
       Select(db.entities(w.childType), ChildCondition(db, q, w, id))
     else [])
    + Children(db, q, windows[1..], id)
  }

  /** The parents of all windows, each once. */
  function Parents(windows: seq<EntityWindow>): seq<string> {
    if windows == [] then [] else Distinct(Parents(windows[..|windows| - 1]), windows[|windows| - 1].ids)
  }

  function Distinct(known: seq<string>, ids: seq<string>): seq<string>
    decreases |ids|
  {
    if ids == [] then known
    else Distinct(if ids[0] in known then known else known + [ids[0]], ids[1..])
  }

  /** Order and range apply to the children of each parent separately. */
  function Windowed(db: Database, q: EntityQuery, windows: seq<EntityWindow>, ids: seq<string>): seq<Entity> {
    if ids == [] then []
    else Ranged(db.sort(q.order, Children(db, q, windows, ids[0])), q.range) + Windowed(db, q, windows, ids[1..])
  }

  function OfTypes(db: Database, q: EntityQuery, types: seq<string>): seq<Entity> {
    if types == [] then []
    else Select(db.entities(types[0]), FilterCondition(db, q)) + OfTypes(db, q, types[1..])
  }

  function Results(db: Database, q: EntityQuery): seq<Entity> {
    match q.collection
    case All(types) => Ranged(db.sort(q.order, OfTypes(db, q, types)), q.range)
    case Window(windows) => Windowed(db, q, windows, Parents(windows))
  }

  // ---------- Simplification changes nothing

  lemma HoldsAll(db: Database, e: Entity, fs: seq<EntityFilter>, gs: seq<EntityFilter>)
    ensures Holds(db, e, And(fs + gs)) <==> Holds(db, e, And(fs)) && Holds(db, e, And(gs))
  {
    forall f
      ensures f in fs + gs <==> f in fs || f in gs
    {}
  }

  lemma HoldsOne(db: Database, e: Entity, f: EntityFilter)
    ensures Holds(db, e, And([f])) <==> Holds(db, e, f)
  {
    assert f in [f];
  }

  /** Adding a filter means both filters, however they are nested. */
  lemma AndMaybeMeaning(db: Database, e: Entity, f: EntityFilter, other: Option<EntityFilter>)
    ensures Holds(db, e, AndMaybe(f, other)) <==> Holds(db, e, f) && HoldsMaybe(db, e, other)
  {
    if other.Some? {
      var g := other.value;
      HoldsOne(db, e, f);
      HoldsOne(db, e, g);
      if f.And? && g.And? {
        HoldsAll(db, e, f.filters, g.filters);
      } else if f.And? {
        HoldsAll(db, e, f.filters, [g]);
      } else if g.And? {
        HoldsAll(db, e, g.filters, [f]);
      } else {
        assert [f, g] == [f] + [g];
        HoldsAll(db, e, [f], [g]);
      }
    }
  }

  lemma {:induction false} SelectSame(entities: seq<Entity>, p: Entity -> bool, q: Entity -> bool)
    requires forall e :: e in entities ==> p(e) == q(e)
    ensures Select(entities, p) == Select(entities, q)
  {
    if entities != [] { SelectSame(entities[..|entities| - 1], p, q); }
  }

  lemma OneParent(w: EntityWindow)
    requires |w.ids| == 1
    ensures Parents([w]) == w.ids
  {
    assert [w][..0] == [] && Parents([]) == [];
    assert Distinct([], w.ids) == Distinct([] + [w.ids[0]], w.ids[1..]);
    assert w.ids[1..] == [];
  }

  /** Whatever is stored, however values compare and sort: the simplified query has the same results, in the same order
      and range. */
  lemma SimplifyPreservesResults(db: Database, q: EntityQuery)
    ensures Results(db, Simplify(q)) == Results(db, q)
  {
    var q' := Simplify(q);
    if q' != q {
      var w := q.collection.windows[0];
      var id := w.ids[0];
      var windows := q.collection.windows;
      assert windows == [w] && w.ids == [id];
      OneParent(w);
      var entities := db.entities(w.childType);
      var p, p' := ChildCondition(db, q, w, id), FilterCondition(db, q');
      forall e | e in entities
        ensures p(e) == p'(e)
      {
        FilterIsLink(db, q, e);
      }
      SelectSame(entities, p, p');
      assert windows[1..] == [] && w.ids[1..] == [] && [w.childType][1..] == [];
      assert Children(db, q, windows, id) == Select(entities, p) + [] == Select(entities, p);
      var range := Ranged(db.sort(q.order, Select(entities, p)), q.range);
      assert Windowed(db, q, windows, w.ids) == range + [] == range;
      assert OfTypes(db, q', [w.childType]) == Select(entities, p') + [] == Select(entities, p');
    }
  }

  /** The filter of the simplified query holds for the children of the parent that meet the original filter. */
  lemma FilterIsLink(db: Database, q: EntityQuery, e: Entity)
    requires q.collection.Window? && |q.collection.windows| == 1 && |q.collection.windows[0].ids| == 1
    requires q.collection.windows[0].link.Direct?
    ensures var w := q.collection.windows[0];
            HoldsMaybe(db, e, Simplify(q).filter) <==> Linked(db, e, w, w.ids[0]) && HoldsMaybe(db, e, q.filter)
  {
    var w := q.collection.windows[0];
    var filter := match w.link.childAttribute
      case Scalar(name) => Equal(name, String(w.ids[0]))
      case ListOf(name) => Contains(name, List([String(w.ids[0])]));
    AndMaybeMeaning(db, e, filter, q.filter);
    assert forall x :: x in [String(w.ids[0])] <==> x == String(w.ids[0]);
  }

  // ---------- Why it stops at one parent

  /** A child of parent `id`; `i` tells the children apart. */
  function Child(a: WindowAttribute, id: string, i: nat): Entity {
    map[a.name := if a.Scalar? then String(id) else List([String(id)]), a.name + "'" := Int(i)]
  }

  function ChildrenOf(a: WindowAttribute, id: string, n: nat): seq<Entity> {
    seq(n, i requires 0 <= i < n => Child(a, id, i))
  }

  /** A store with `n` children for each of two parents, sorted as they are stored. */
  function TwoFamilies(a: WindowAttribute, id: string, other: string, n: nat): Database {
    Database((e, f) => false, (e, w, id) => false, (order, es) => es,
             childType => ChildrenOf(a, id, n) + ChildrenOf(a, other, n))
  }

  lemma {:induction false} SelectConcat(a: seq<Entity>, b: seq<Entity>, p: Entity -> bool)
    ensures Select(a + b, p) == Select(a, p) + Select(b, p)
  {
    if b == [] {
      assert a + b == a;
    } else {
      assert (a + b)[..|a + b| - 1] == a + b[..|b| - 1];
      SelectConcat(a, b[..|b| - 1], p);
    }
  }

  lemma {:induction false} SelectEvery(es: seq<Entity>, p: Entity -> bool)
    requires forall e :: e in es ==> p(e)
    ensures Select(es, p) == es
  {
    if es != [] { SelectEvery(es[..|es| - 1], p); }
  }

  lemma {:induction false} DistinctHas(known: seq<string>, ids: seq<string>, id: string)
    requires id in known || id in ids
    ensures id in Distinct(known, ids)
    decreases |ids|
  {
    if ids != [] { DistinctHas(if ids[0] in known then known else known + [ids[0]], ids[1..], id); }
  }

  /** Each of the two parents gets as many children as the range allows. */
  lemma FamilyResults(q: EntityQuery, w: EntityWindow, db: Database, id: string, a: WindowAttribute, x: string,
                      y: string, n: nat)
    requires w.link.Direct? && w.link.childAttribute == a && id in w.ids && q.filter.None? && q.range.first.Some?
    requires n == q.range.first.value + q.range.skip && db == TwoFamilies(a, x, y, n) && (id == x || id == y)
    ensures |Ranged(db.sort(q.order, Children(db, q, [w], id)), q.range)| == q.range.first.value
  {
    FamilyFound(q, w, db, id, a, x, y, n);
    var all := Select(db.entities(w.childType), ChildCondition(db, q, w, id));
    assert [w][1..] == [] && Children(db, q, [], id) == [];
    assert Children(db, q, [w], id) == all + [] == all;
  }

  lemma FamilyFound(q: EntityQuery, w: EntityWindow, db: Database, id: string, a: WindowAttribute, x: string,
                    y: string, n: nat)
    requires w.link.Direct? && w.link.childAttribute == a && q.filter.None?
    requires db == TwoFamilies(a, x, y, n) && (id == x || id == y)
    ensures |Select(db.entities(w.childType), ChildCondition(db, q, w, id))| >= n
  {
    var p := ChildCondition(db, q, w, id);
    var xs, ys := ChildrenOf(a, x, n), ChildrenOf(a, y, n);
    SelectConcat(xs, ys, p);
    var family := if id == x then xs else ys;
    forall e | e in family
      ensures p(e)
    {
      var i :| 0 <= i < n && e == Child(a, id, i);
      ChildLinked(q, w, db, a, id, i);
    }
    SelectEvery(family, p);
  }

  lemma ChildLinked(q: EntityQuery, w: EntityWindow, db: Database, a: WindowAttribute, id: string, i: nat)
    requires w.link.Direct? && w.link.childAttribute == a && q.filter.None?
    ensures ChildCondition(db, q, w, id)(Child(a, id, i))
  {
    var e := Child(a, id, i);
    assert a.name != a.name + "'";
    assert Attr(e, a.name) == if a.Scalar? then String(id) else List([String(id)]);
  }

  lemma {:induction false} WindowedHas(db: Database, q: EntityQuery, w: EntityWindow, ids: seq<string>, x: string,
                                       y: string, n: nat)
    requires x != y && y in ids
    requires |Ranged(db.sort(q.order, Children(db, q, [w], x)), q.range)| == n
    requires |Ranged(db.sort(q.order, Children(db, q, [w], y)), q.range)| == n
    ensures |Windowed(db, q, [w], ids)| >= if x in ids then 2 * n else n
    decreases |ids|
  {
    if ids[0] == y {
      if x in ids[1..] { WindowedOne(db, q, w, ids[1..], x, n); }
    } else {
      WindowedHas(db, q, w, ids[1..], x, y, n);
    }
  }

  lemma {:induction false} WindowedOne(db: Database, q: EntityQuery, w: EntityWindow, ids: seq<string>, x: string,
                                       n: nat)
    requires x in ids && |Ranged(db.sort(q.order, Children(db, q, [w], x)), q.range)| == n
    ensures |Windowed(db, q, [w], ids)| >= n
    decreases |ids|
  {
    if ids[0] != x { WindowedOne(db, q, w, ids[1..], x, n); }
  }

  /** The results of `q` on `db` are not those of any query for whole entity types with the same range. */
  ghost predicate NotFiltered(db: Database, q: EntityQuery) {
    forall q': EntityQuery :: q'.collection.All? && q'.range == q.range ==> Results(db, q') != Results(db, q)
  }

  /** With two parents and a limit on the children of each, no filter, whatever the order and the types, does the work
      of the window. */
  lemma WindowNeeded(q: EntityQuery, w: EntityWindow, x: string, y: string)
    requires q.collection == Window([w]) && w.link.Direct? && x in w.ids && y in w.ids && x != y
    requires q.filter.None? && q.range.first.Some? && q.range.first.value > 0
    ensures exists db :: NotFiltered(db, q)
  {
    var a, first := w.link.childAttribute, q.range.first.value;
    var db := TwoFamilies(a, x, y, first + q.range.skip);
    FamilyResults(q, w, db, x, a, x, y, first + q.range.skip);
    FamilyResults(q, w, db, y, a, x, y, first + q.range.skip);
    var ids := Parents([w]);
    assert [w][..0] == [] && Parents([]) == [] && ids == Distinct([], w.ids);
    DistinctHas([], w.ids, x);
    DistinctHas([], w.ids, y);
    WindowedHas(db, q, w, ids, x, y, first);
    forall q': EntityQuery | q'.collection.All? && q'.range == q.range
      ensures Results(db, q') != Results(db, q)
    {
      assert |Results(db, q')| <= first;
    }
    assert NotFiltered(db, q);
  }
}
