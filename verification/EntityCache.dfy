/** Entities, the operations mappings perform on them, and the `EntityCache` that turns those operations
    into store modifications (packages/graph-node/graph/src/components/store.rs). */
module Entities {
  import opened Common

  datatype EntityKey = EntityKey(subgraphId: string, entityType: string, entityId: string)

  datatype Value = Null | Bool(b: bool) | Int(n: int) | String(s: string) | List(items: seq<Value>)

  type Entity = map<string, Value>

  type Rows = map<EntityKey, Entity>

  /** Fields of `update` win. */
  function Merge(entity: Entity, update: Entity): Entity {
    entity + update
  }

  /** Fields of `update` win, and the ones it sets to null go away. */
  function MergeRemoveNulls(entity: Entity, update: Entity): Entity {
    map f | f in entity.Keys + update.Keys && !(f in update && update[f].Null?) ::
      if f in update then update[f] else entity[f]
  }

  /** Merging two updates first and applying them to an entity is applying one after the other. */
  lemma MergeComposes(entity: Entity, first: Entity, second: Entity)
    ensures MergeRemoveNulls(entity, Merge(first, second)) == MergeRemoveNulls(MergeRemoveNulls(entity, first), second)
  {}

  /** An entity as a mapping sees it when null and absent are the same. */
  function Scrub(entity: Entity): Entity {
    map f | f in entity && !entity[f].Null? :: entity[f]
  }

  function ScrubOpt(entity: Option<Entity>): Option<Entity> {
    match entity
    case None => None
    case Some(e) => Some(Scrub(e))
  }

  datatype EntityOperation = Set(key: EntityKey, data: Entity) | Remove(key: EntityKey)

  /** The plain meaning of one operation: what a store without any cache would do. */
  function ApplyOperation(rows: Rows, op: EntityOperation): Rows {
    match op
    case Set(key, data) => rows[key := MergeRemoveNulls(if key in rows then rows[key] else map[], data)]
    case Remove(key) => rows - {key}
  }

  function ApplyOperations(rows: Rows, ops: seq<EntityOperation>): Rows {
    if ops == [] then rows
    else ApplyOperation(ApplyOperations(rows, ops[..|ops| - 1]), ops[|ops| - 1])
  }

  datatype EntityModification =
    | InsertRow(key: EntityKey, data: Entity)
    | OverwriteRow(key: EntityKey, data: Entity)
    | RemoveRow(key: EntityKey)

  function ApplyModification(rows: Rows, m: EntityModification): Rows {
    match m
    case InsertRow(key, data) => rows[key := data]
    case OverwriteRow(key, data) => rows[key := data]
    case RemoveRow(key) => rows - {key}
  }

  function ApplyModifications(rows: Rows, mods: seq<EntityModification>): Rows {
    if mods == [] then rows
    else ApplyModification(ApplyModifications(rows, mods[..|mods| - 1]), mods[|mods| - 1])
  }

  function KeysOf(mods: seq<EntityModification>): set<EntityKey> {
    set m | m in mods :: m.key
  }

  /** `m` is the right kind of modification for going from `rows` to `target`, and changes something. */
  predicate Warranted(rows: Rows, target: Rows, m: EntityModification) {
    match m
    case InsertRow(key, data) => key !in rows && Lookup(target, key) == Some(data)
    case OverwriteRow(key, data) => key in rows && rows[key] != data && Lookup(target, key) == Some(data)
    case RemoveRow(key) => key in rows && key !in target
  }

  /** Every modification is warranted, and no key appears twice. */
  ghost predicate Sound(rows: Rows, target: Rows, mods: seq<EntityModification>) {
    && (forall i :: 0 <= i < |mods| ==> Warranted(rows, target, mods[i]))
    && (forall i, j :: 0 <= i < j < |mods| ==> mods[i].key != mods[j].key)
  }

  /** `mods` is exactly the difference between `rows` and `target`. */
  ghost predicate Delta(rows: Rows, target: Rows, mods: seq<EntityModification>) {
    && Sound(rows, target, mods)
    && forall k :: Lookup(rows, k) != Lookup(target, k) ==> k in KeysOf(mods)
  }

  lemma KeysSnoc(rest: seq<EntityModification>, last: EntityModification)
    ensures KeysOf(rest + [last]) == KeysOf(rest) + {last.key}
  {}

  lemma SoundSnoc(rows: Rows, target: Rows, rest: seq<EntityModification>, last: EntityModification)
    ensures Sound(rows, target, rest + [last]) <==>
            Sound(rows, target, rest) && Warranted(rows, target, last) && last.key !in KeysOf(rest)
  {
    var mods := rest + [last];
    assert mods[|rest|] == last && forall i :: 0 <= i < |rest| ==> mods[i] == rest[i];
    if Sound(rows, target, mods) {
      forall i | 0 <= i < |rest|
        ensures Warranted(rows, target, rest[i]) && rest[i].key != last.key
      {
        assert Warranted(rows, target, mods[i]) && mods[i].key != mods[|rest|].key;
      }
    }
    if Sound(rows, target, rest) && Warranted(rows, target, last) && last.key !in KeysOf(rest) {
      forall i, j | 0 <= i < j < |mods|
        ensures mods[i].key != mods[j].key
      {
        assert rest[i] in rest;
      }
    }
  }

  lemma {:induction false} SoundApplied(rows: Rows, target: Rows, mods: seq<EntityModification>, k: EntityKey)
    requires Sound(rows, target, mods)
    ensures Lookup(ApplyModifications(rows, mods), k) == Lookup(if k in KeysOf(mods) then target else rows, k)
  {
    if mods != [] {
      var rest, last := mods[..|mods| - 1], mods[|mods| - 1];
      assert mods == rest + [last];
      SoundSnoc(rows, target, rest, last);
      KeysSnoc(rest, last);
      SoundApplied(rows, target, rest, k);
    }
  }

  /** Applying the difference gives the target. */
  lemma DeltaApplied(rows: Rows, target: Rows, mods: seq<EntityModification>)
    requires Delta(rows, target, mods)
    ensures ApplyModifications(rows, mods) == target
  {
    forall k
      ensures Lookup(ApplyModifications(rows, mods), k) == Lookup(target, k)
    {
      SoundApplied(rows, target, mods, k);
    }
    MapsEqual(ApplyModifications(rows, mods), target);
  }

  lemma {:induction false} UntouchedKey(rows: Rows, mods: seq<EntityModification>, k: EntityKey)
    requires k !in KeysOf(mods)
    ensures Lookup(ApplyModifications(rows, mods), k) == Lookup(rows, k)
  {
    if mods != [] {
      var rest, last := mods[..|mods| - 1], mods[|mods| - 1];
      assert mods == rest + [last];
      assert last.key in KeysOf(mods) && KeysOf(rest) <= KeysOf(mods);
      UntouchedKey(rows, rest, k);
    }
  }

  lemma {:induction false} KeyCount(mods: seq<EntityModification>)
    ensures |KeysOf(mods)| <= |mods|
    ensures (forall i, j :: 0 <= i < j < |mods| ==> mods[i].key != mods[j].key) ==> |KeysOf(mods)| == |mods|
  {
    if mods != [] {
      var rest, last := mods[..|mods| - 1], mods[|mods| - 1];
      assert mods == rest + [last];
      KeyCount(rest);
      KeysSnoc(rest, last);
    }
  }

  lemma SubsetCount(a: set<EntityKey>, b: set<EntityKey>)
    requires a <= b
    ensures |a| <= |b|
  {
    assert b == a + (b - a);
  }

  /** No list of modifications that reaches the target is shorter than the difference. */
  lemma DeltaMinimal(rows: Rows, target: Rows, mods: seq<EntityModification>, others: seq<EntityModification>)
    requires Delta(rows, target, mods) && ApplyModifications(rows, others) == target
    ensures |mods| <= |others|
  {
    forall k | k in KeysOf(mods)
      ensures k in KeysOf(others)
    {
      var m :| m in mods && m.key == k;
      var i :| 0 <= i < |mods| && mods[i] == m;
      assert Warranted(rows, target, mods[i]);
      if k !in KeysOf(others) { UntouchedKey(rows, others, k); }
    }
    KeyCount(mods);
    KeyCount(others);
    SubsetCount(KeysOf(mods), KeysOf(others));
  }

  /** What an accumulated update means for the stored entity: no update, a removal, or a merge. */
  function Effect(current: Option<Entity>, update: Option<Option<Entity>>): Option<Entity> {
    match update
    case None => current
    case Some(None) => None
    case Some(Some(data)) => Some(MergeRemoveNulls(if current.Some? then current.value else map[], data))
  }

  /** The state of the store once `updates` are applied. */
  ghost function Pending(rows: Rows, updates: map<EntityKey, Option<Entity>>): Rows {
    map k | k in rows.Keys + updates.Keys && Effect(Lookup(rows, k), Lookup(updates, k)).Some? ::
      Effect(Lookup(rows, k), Lookup(updates, k)).value
  }

  lemma PendingLookup(rows: Rows, updates: map<EntityKey, Option<Entity>>, k: EntityKey)
    ensures Lookup(Pending(rows, updates), k) == Effect(Lookup(rows, k), Lookup(updates, k))
  {}

  /** How `EntityCache::get` combines the stored entity and its update. */
  function Combined(current: Option<Entity>, update: Option<Option<Entity>>): Option<Entity> {
    match (current, update)
    case (_, None) => current
    case (_, Some(None)) => None
    case (None, Some(Some(data))) => Some(data)
    case (Some(entity), Some(Some(data))) => Some(MergeRemoveNulls(entity, data))
  }

  ghost predicate HasNull(entity: Entity) {
    exists f :: f in entity && entity[f].Null?
  }

  /** `get` agrees with the operations performed so far up to null fields, and agrees exactly unless the
      entity is not in the store and its update still carries a null. */
  lemma CombinedMeaning(current: Option<Entity>, update: Option<Option<Entity>>)
    ensures ScrubOpt(Combined(current, update)) == ScrubOpt(Effect(current, update))
    ensures Combined(current, update) == Effect(current, update) <==>
            !(current.None? && update.Some? && update.value.Some? && HasNull(update.value.value))
  {
    if current.None? && update.Some? && update.value.Some? {
      var data := update.value.value;
      var merged := MergeRemoveNulls(map[], data);
      assert Scrub(data) == Scrub(merged) == merged;
      if HasNull(data) {
        var f :| f in data && data[f].Null?;
        assert f !in merged;
      } else {
        assert merged == data;
      }
    }
  }

  /** An entity created with a null field is read back with that field, which the store never sees. */
  lemma NullVisibleAfterCreate()
    ensures Combined(None, Some(Some(map["name" := Null]))) != Effect(None, Some(Some(map["name" := Null])))
  {
    var data: Entity := map["name" := Null];
    assert "name" in data && data["name"].Null?;
    CombinedMeaning(None, Some(Some(data)));
  }

  /** A set that follows a removal nulls the fields the stored entity has and the new data lacks. */
  function ClearedBy(current: Option<Entity>, data: Entity): Entity {
    if current.None? then data
    else map f | f in data.Keys + current.value.Keys :: if f in data then data[f] else Null
  }

  lemma ClearedMeaning(current: Option<Entity>, data: Entity)
    ensures Effect(current, Some(Some(ClearedBy(current, data)))) == Some(MergeRemoveNulls(map[], data))
  {
    if current.Some? {
      assert MergeRemoveNulls(current.value, ClearedBy(current, data)) == MergeRemoveNulls(map[], data);
    }
  }

  /** The accumulated update for a key after one more `set`. */
  function Accumulated(current: Option<Entity>, previous: Option<Option<Entity>>, data: Entity): Entity {
    match previous
    case None => data
    case Some(None) => ClearedBy(current, data)
    case Some(Some(update)) => Merge(update, data)
  }

  /** One more operation on the accumulated updates is one more operation on the pending state. */
  lemma PendingSet(rows: Rows, updates: map<EntityKey, Option<Entity>>, key: EntityKey, data: Entity)
    ensures Pending(rows, updates[key := Some(Accumulated(Lookup(rows, key), Lookup(updates, key), data))]) ==
            ApplyOperation(Pending(rows, updates), Set(key, data))
  {
    var updates' := updates[key := Some(Accumulated(Lookup(rows, key), Lookup(updates, key), data))];
    ClearedMeaning(Lookup(rows, key), data);
    if key in updates && updates[key].Some? {
      MergeComposes(if key in rows then rows[key] else map[], updates[key].value, data);
    }
    forall k
      ensures Lookup(Pending(rows, updates'), k) ==
              Lookup(ApplyOperation(Pending(rows, updates), Set(key, data)), k)
    {
      PendingLookup(rows, updates', k);
      PendingLookup(rows, updates, k);
    }
    MapsEqual(Pending(rows, updates'), ApplyOperation(Pending(rows, updates), Set(key, data)));
  }

  lemma PendingRemove(rows: Rows, updates: map<EntityKey, Option<Entity>>, key: EntityKey)
    ensures Pending(rows, updates[key := None]) == ApplyOperation(Pending(rows, updates), Remove(key))
  {}
}

module EntityCaches {
  import opened Common
  import opened Entities
  import opened LfuCaches

  /** A query that the database did not answer. */
  datatype StoreError = QueryFailed

  /** The database, as far as the cache sees it; any query may fail. */
  class Store {
    var rows: Rows
    /** How many queries there were, and which of them, in order, are answered. */
    var queries: nat
    const answers: nat -> bool

    constructor (rows: Rows, answers: nat -> bool)
      ensures this.rows == rows && this.answers == answers && queries == 0
    {
      this.rows, this.answers, this.queries := rows, answers, 0;
    }

    ghost predicate Answered(from: nat, to: nat) {
      forall i :: from <= i < to ==> answers(i)
    }

    method Get(key: EntityKey) returns (r: Result<Option<Entity>, StoreError>)
      modifies this`queries
      ensures queries == old(queries) + 1
      ensures r == if answers(old(queries)) then Ok(Lookup(rows, key)) else Err(QueryFailed)
    {
      r := if answers(queries) then Ok(Lookup(rows, key)) else Err(QueryFailed);
      queries := queries + 1;
    }

    /** Returns the entities that exist, and nothing for the keys that do not. */
    method GetMany(keys: set<EntityKey>) returns (r: Result<Rows, StoreError>)
      modifies this`queries
      ensures queries == old(queries) + 1
      ensures r == if answers(old(queries)) then Ok(map k | k in keys && k in rows :: rows[k]) else Err(QueryFailed)
    {
      r := if answers(queries) then Ok(map k | k in keys && k in rows :: rows[k]) else Err(QueryFailed);
      queries := queries + 1;
    }

    method TransactBlockOperations(mods: seq<EntityModification>)
      modifies this`rows
      ensures rows == ApplyModifications(old(rows), mods)
    {
      rows := ApplyModifications(rows, mods);
    }
  }

  /** Each cached entry is what the store says, with `None` for an entity that is not there. */
  ghost predicate Agrees(contents: map<EntityKey, Option<Entity>>, rows: Rows) {
    forall k :: k in contents ==> contents[k] == Lookup(rows, k)
  }

  /** How far `AsModifications` is when the updates of `todo` remain to be looked at. */
  ghost predicate Progress(rows: Rows, target: Rows, mods: seq<EntityModification>, todo: set<EntityKey>,
                           contents: map<EntityKey, Option<Entity>>) {
    && Sound(rows, target, mods) && KeysOf(mods) !! todo
    && (forall k :: Lookup(rows, k) != Lookup(target, k) ==> k in KeysOf(mods) || k in todo)
    && (forall k :: k in contents ==> contents[k] == Lookup(if k in todo then rows else target, k))
    && (forall k :: k in todo && k in rows ==> k in contents)
  }

  /** The modification one key needs, if any. */
  function Needed(key: EntityKey, before: Option<Entity>, after: Option<Entity>): Option<EntityModification> {
    match (before, after)
    case (None, None) => None
    case (None, Some(data)) => Some(InsertRow(key, data))
    case (Some(_), None) => Some(RemoveRow(key))
    case (Some(entity), Some(data)) => if entity != data then Some(OverwriteRow(key, data)) else None
  }

  lemma ProgressStep(rows: Rows, target: Rows, mods: seq<EntityModification>, todo: set<EntityKey>, key: EntityKey,
                     contents: map<EntityKey, Option<Entity>>, contents': map<EntityKey, Option<Entity>>)
    requires Progress(rows, target, mods, todo, contents) && key in todo
    requires forall k :: k != key ==> Lookup(contents', k) == Lookup(contents, k)
    requires key in contents' ==> contents'[key] == Lookup(target, key)
    ensures var m := Needed(key, Lookup(rows, key), Lookup(target, key));
            Progress(rows, target, if m.Some? then mods + [m.value] else mods, todo - {key}, contents')
  {
    var m := Needed(key, Lookup(rows, key), Lookup(target, key));
    if m.Some? {
      SoundSnoc(rows, target, mods, m.value);
      KeysSnoc(mods, m.value);
    }
    forall k | k in contents'
      ensures contents'[k] == Lookup(if k in todo - {key} then rows else target, k)
    {
      if k != key { assert Lookup(contents', k) == Lookup(contents, k); }
    }
    forall k | k in todo - {key} && k in rows
      ensures k in contents'
    {
      assert Lookup(contents', k) == Lookup(contents, k);
    }
  }

  class EntityCache {
    const store: Store
    const current: LfuCache<EntityKey, Option<Entity>>
    var updates: map<EntityKey, Option<Entity>>

    ghost predicate Valid()
      reads this, current, store`rows
    {
      current.Valid() && Agrees(current.Contents(), store.rows)
    }

    /** The store as it will be once the accumulated updates are written. */
    ghost function View(): Rows
      reads this, store`rows
    {
      Pending(store.rows, updates)
    }

    constructor WithCurrent(store: Store, current: LfuCache<EntityKey, Option<Entity>>)
      requires current.Valid() && Agrees(current.Contents(), store.rows)
      ensures this.store == store && this.current == current && updates == map[]
      ensures Valid() && View() == store.rows
    {
      this.store, this.current, this.updates := store, current, map[];
    }

    /** Cached lookup of the stored entity. */
    method GetEntity(key: EntityKey) returns (r: Result<Option<Entity>, StoreError>)
      requires Valid()
      modifies current, store`queries
      ensures Valid() && (r.Ok? ==> r.value == Lookup(store.rows, key) && key in current.Contents())
      ensures store.queries == old(store.queries) + if key in old(current.Contents()) then 0 else 1
      ensures r.Ok? <==> store.Answered(old(store.queries), store.queries)
      ensures r.Err? ==> current.Contents() == old(current.Contents())
    {
      var cached := current.Get(key);
      match cached {
        case Some(entity) => r := Ok(entity);
        case None =>
          r := store.Get(key);
          if r.Ok? { current.Insert(key, r.value); }
      }
    }

    method Get(key: EntityKey) returns (r: Result<Option<Entity>, StoreError>)
      requires Valid()
      modifies current, store`queries
      ensures Valid()
      ensures store.queries == old(store.queries) + if key in old(current.Contents()) then 0 else 1
      ensures r.Ok? <==> store.Answered(old(store.queries), store.queries)
      ensures r.Ok? ==> r.value == Combined(Lookup(store.rows, key), Lookup(updates, key))
      ensures r.Ok? ==> ScrubOpt(r.value) == ScrubOpt(Lookup(View(), key))
      ensures r.Ok? ==> key in current.Contents()
      ensures r.Err? ==> current.Contents() == old(current.Contents())
    {
      r := GetEntity(key);
      if r.Err? { return r; }
      var entity := r.value;
      CombinedMeaning(entity, Lookup(updates, key));
      PendingLookup(store.rows, updates, key);
      if key !in updates {
        r := Ok(entity);
      } else if updates[key].None? {
        r := Ok(None);
      } else if entity.None? {
        r := Ok(updates[key]);
      } else {
        r := Ok(Some(MergeRemoveNulls(entity.value, updates[key].value)));
      }
    }

    method Remove(key: EntityKey)
      requires Valid()
      modifies this`updates
      ensures Valid() && View() == ApplyOperation(old(View()), EntityOperation.Remove(key))
    {
      PendingRemove(store.rows, updates, key);
      updates := updates[key := None];
    }

    /** Only after a removal is there something to read, and to fail; then nothing is set. */
    method Set(key: EntityKey, data: Entity) returns (r: Result<(), StoreError>)
      requires Valid()
      modifies this`updates, current, store`queries
      ensures Valid() && store.queries >= old(store.queries)
      ensures r.Ok? <==> store.Answered(old(store.queries), store.queries)
      ensures r.Ok? ==> View() == ApplyOperation(old(View()), EntityOperation.Set(key, data))
      ensures r.Err? ==> Lookup(updates, key) == Some(None) && updates == old(updates)
    {
      PendingSet(store.rows, updates, key, data);
      r := Ok(());
      if key !in updates {
        updates := updates[key := Some(data)];
      } else if updates[key].Some? {
        updates := updates[key := Some(Merge(updates[key].value, data))];
      } else {
        var stored := GetEntity(key);
        if stored.Err? { return Err(stored.error); }
        updates := updates[key := Some(ClearedBy(stored.value, data))];
      }
    }

    /** Stops at the first operation that fails, with the ones before it performed. */
    method Append(operations: seq<EntityOperation>) returns (r: Result<(), StoreError>, ghost performed: nat)
      requires Valid()
      modifies this`updates, current, store`queries
      ensures Valid() && performed <= |operations| && (r.Ok? <==> performed == |operations|)
      ensures store.queries >= old(store.queries) && (r.Ok? <==> store.Answered(old(store.queries), store.queries))
      ensures View() == ApplyOperations(old(View()), operations[..performed])
    {
      performed := 0;
      for i := 0 to |operations|
        invariant Valid() && View() == ApplyOperations(old(View()), operations[..i])
        invariant store.rows == old(store.rows) && performed == i
        invariant store.queries >= old(store.queries) && store.Answered(old(store.queries), store.queries)
      {
        assert operations[..i + 1][..i] == operations[..i];
        match operations[i] {
          case Set(key, data) =>
            r := Set(key, data);
            if r.Err? { return r, i; }
          case Remove(key) => Remove(key);
        }
        performed := performed + 1;
      }
      r := Ok(());
    }

    /** Puts every stored entity that is about to change into `current`, with one query per subgraph. */
    method LoadMissing() returns (r: Result<(), StoreError>)
      requires Valid()
      modifies current, store`queries
      ensures Valid() && store.queries >= old(store.queries)
      ensures r.Ok? <==> store.Answered(old(store.queries), store.queries)
      ensures r.Ok? ==> forall k :: k in updates && k in store.rows ==> k in current.Contents()
      ensures updates.Keys <= old(current.Contents()).Keys ==> store.queries == old(store.queries)
    {
      var missing := set k | k in updates && !current.Contains(k);
      var subgraphs := set k | k in missing :: k.subgraphId;
      while subgraphs != {}
        invariant Valid() && store.queries >= old(store.queries) && store.Answered(old(store.queries), store.queries)
        invariant old(current.Contents()).Keys <= current.Contents().Keys
        invariant forall k :: k in missing && k in store.rows ==> k in current.Contents() || k.subgraphId in subgraphs
        invariant missing == {} ==> store.queries == old(store.queries)
        decreases subgraphs
      {
        var s :| s in subgraphs;
        r := LoadMany(set k | k in missing && k.subgraphId == s);
        if r.Err? { return; }
        subgraphs := subgraphs - {s};
      }
      r := Ok(());
    }

    method LoadMany(keys: set<EntityKey>) returns (r: Result<(), StoreError>)
      requires Valid()
      modifies current, store`queries
      ensures Valid() && store.queries == old(store.queries) + 1 && (r.Ok? <==> store.answers(old(store.queries)))
      ensures old(current.Contents()).Keys <= current.Contents().Keys
      ensures r.Ok? ==> forall k :: k in keys && k in store.rows ==> k in current.Contents()
    {
      var read := store.GetMany(keys);
      if read.Err? { return Err(read.error); }
      var found := read.value;
      var todo := found.Keys;
      while todo != {}
        invariant Valid() && todo <= found.Keys && store.queries == old(store.queries) + 1
        invariant old(current.Contents()).Keys <= current.Contents().Keys
        invariant forall k :: k in found ==> k in current.Contents() || k in todo
        decreases todo
      {
        var k :| k in todo;
        current.Insert(k, Some(found[k]));
        todo := todo - {k};
      }
      r := Ok(());
    }

    /** The modification needed for one updated key, which also brings `current` up to date for it. */
    method ModificationFor(key: EntityKey, update: Option<Entity>, ghost rows: Rows)
      returns (m: Option<EntityModification>)
      requires current.Valid()
      requires if key in current.Contents() then current.Contents()[key] == Lookup(rows, key) else key !in rows
      modifies current
      ensures current.Valid()
      ensures forall k :: k != key ==> Lookup(current.Contents(), k) == Lookup(old(current.Contents()), k)
      ensures key in current.Contents() ==> current.Contents()[key] == Effect(Lookup(rows, key), Some(update))
      ensures m == Needed(key, Lookup(rows, key), Effect(Lookup(rows, key), Some(update)))
    {
      var removed := current.Remove(key);
      var entity := if removed.Some? then removed.value else None;
      match (entity, update) {
        case (None, Some(updates)) =>
          var data := MergeRemoveNulls(map[], updates);
          current.Insert(key, Some(data));
          m := Some(InsertRow(key, data));
        case (Some(stored), Some(updates)) =>
          var data := MergeRemoveNulls(stored, updates);
          current.Insert(key, Some(data));
          m := if stored != data then Some(OverwriteRow(key, data)) else None;
        case (Some(_), None) =>
          current.Insert(key, None);
          m := Some(RemoveRow(key));
        case (None, None) =>
          m := None;
      }
    }

    /** The changes made through `Set` and `Remove`, as the smallest list of modifications; `current`
        is left agreeing with the store as it will be after they are applied. */
    method AsModifications() returns (r: Result<seq<EntityModification>, StoreError>)
      requires Valid()
      modifies current, store`queries
      ensures store.queries >= old(store.queries) && (r.Ok? <==> store.Answered(old(store.queries), store.queries))
      ensures updates.Keys <= old(current.Contents()).Keys ==> store.queries == old(store.queries)
      ensures r.Ok? ==> Delta(store.rows, View(), r.value) && ApplyModifications(store.rows, r.value) == View()
      ensures current.Valid() && Agrees(current.Contents(), if r.Ok? then View() else store.rows)
    {
      var loaded := LoadMissing();
      if loaded.Err? { return Err(loaded.error); }
      var mods := Modifications();
      DeltaApplied(store.rows, View(), mods);
      r := Ok(mods);
    }

    method Modifications() returns (mods: seq<EntityModification>)
      requires Valid() && forall k :: k in updates && k in store.rows ==> k in current.Contents()
      modifies current
      ensures Delta(store.rows, View(), mods)
      ensures current.Valid() && Agrees(current.Contents(), View())
    {
      mods := [];
      var todo := updates.Keys;
      forall k
        ensures Lookup(View(), k) == Effect(Lookup(store.rows, k), Lookup(updates, k))
      {
        PendingLookup(store.rows, updates, k);
      }
      while todo != {}
        invariant todo <= updates.Keys && current.Valid()
        invariant Progress(store.rows, View(), mods, todo, current.Contents())
        decreases todo
      {
        var key :| key in todo;
        PendingLookup(store.rows, updates, key);
        ghost var contents := current.Contents();
        var m := ModificationFor(key, updates[key], store.rows);
        ProgressStep(store.rows, View(), mods, todo, key, contents, current.Contents());
        todo := todo - {key};
        if m.Some? { mods := mods + [m.value]; }
      }
    }
  }
}
