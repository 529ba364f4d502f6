/**
 * The local record store: ten auto-increment tables, the forward-only list of schema
 * versions that declares them, and the seed-on-empty bootstrap of the exercise catalog.
 *
 * A table is modelled by its rows in primary-key order (which is the order the engine
 * iterates them) together with the next key it will hand out. `TableState` is that
 * value; the class `Store` holds one per table and its methods are proved against the
 * functions on `TableState` below.
 */
module Db {
  import opened Wrappers

  /** Audio or image bytes, opaque to the store. */
  type Blob = seq<bv8>

  // ---------------------------------------------------------------------------
  // Records

  datatype Exercise = Exercise(name: string, muscle: string, equipment: string, category: string,
                               image: Option<string>)

  datatype WorkoutStatus = Active | Completed

  datatype Workout = Workout(name: string, startTime: int, endTime: Option<int>, status: WorkoutStatus,
                             volume: Option<int>)

  datatype SetLog = SetLog(workoutId: nat, exerciseId: nat, weight: int, reps: int, rpe: Option<int>,
                           timestamp: int, isWarmup: bool)

  datatype RoutineExercise = RoutineExercise(exerciseId: nat, order: nat, targetSets: Option<int>,
                                             targetReps: Option<int>)

  datatype Routine = Routine(name: string, exercises: seq<RoutineExercise>, updatedAt: int)

  /** One row per calendar day; `date` is the day number that the source writes as `yyyy-MM-dd`. */
  datatype DailyLog = DailyLog(date: int, sleepHours: Option<int>, sleepQuality: Option<int>,
                               mood: Option<int>, energy: Option<int>, soreness: Option<seq<string>>,
                               notes: Option<string>, habitsCompleted: Option<seq<nat>>)

  datatype Frequency = Daily | Weekly

  datatype Habit = Habit(name: string, icon: Option<string>, frequency: Frequency, targetCount: Option<int>,
                         streak: int, archived: Option<bool>)

  datatype NoteType = Text | Voice | Image | Video

  datatype Note = Note(title: string, content: string, kind: NoteType, date: int, tags: Option<seq<string>>)

  datatype Media = Media(noteId: nat, blob: Blob)

  datatype Measurement = Measurement(date: int, weight: Option<int>, bodyFat: Option<int>, chest: Option<int>,
                                     waist: Option<int>, arms: Option<int>, legs: Option<int>,
                                     notes: Option<string>)

  datatype MealType = Breakfast | Lunch | Dinner | Snack

  datatype NutritionLog = NutritionLog(date: int, name: string, mealType: MealType, calories: int,
                                       protein: int, carbs: int, fat: int)

  // ---------------------------------------------------------------------------
  // Tables as values

  datatype Row<T> = Row(id: nat, value: T)

  datatype TableState<T> = TableState(rows: seq<Row<T>>, nextId: nat)

  /** A fresh `++id` table: no rows, and the first key handed out is 1. */
  function EmptyTable<T>(): TableState<T>
  {
    TableState([], 1)
  }

  /** Keys are positive, strictly ascending in table order, and all below the next key. */
  predicate Keyed<T>(t: TableState<T>)
  {
    && 1 <= t.nextId
    && (forall i :: 0 <= i < |t.rows| ==> 1 <= t.rows[i].id < t.nextId)
    && (forall i, j :: 0 <= i < j < |t.rows| ==> t.rows[i].id < t.rows[j].id)
  }

  /** `table.get(id)`. */
  function Get<T>(rows: seq<Row<T>>, id: nat): Option<T>
  {
    if rows == [] then None
    else if rows[0].id == id then Some(rows[0].value)
    else Get(rows[1..], id)
  }

  /** `table.toArray()`: the records in key order. */
  function Values<T>(rows: seq<Row<T>>): (r: seq<T>)
    ensures |r| == |rows|
    ensures forall i :: 0 <= i < |rows| ==> r[i] == rows[i].value
  {
    if rows == [] then [] else Values(rows[..|rows| - 1]) + [rows[|rows| - 1].value]
  }

  /** `table.add(v)`: the new row takes the next key. */
  function Added<T>(t: TableState<T>, v: T): TableState<T>
  {
    TableState(t.rows + [Row(t.nextId, v)], t.nextId + 1)
  }

  /** `table.bulkAdd(vs)`: the records added one after the other. */
  function AddedAll<T>(t: TableState<T>, vs: seq<T>): TableState<T>
  {
    if vs == [] then t else Added(AddedAll(t, vs[..|vs| - 1]), vs[|vs| - 1])
  }

  /** `table.update(id, changes)`: the row holding `id`, if any, has `change` applied. */
  function Changed<T>(t: TableState<T>, id: nat, change: T -> T): TableState<T>
  {
    TableState(ChangedRows(t.rows, id, change), t.nextId)
  }

  function ChangedRows<T>(rows: seq<Row<T>>, id: nat, change: T -> T): (r: seq<Row<T>>)
    ensures |r| == |rows|
    ensures forall i :: 0 <= i < |rows| ==> r[i].id == rows[i].id
    ensures forall i :: 0 <= i < |rows| ==>
      r[i].value == if rows[i].id == id then change(rows[i].value) else rows[i].value
  {
    if rows == [] then []
    else
      var rest := ChangedRows(rows[1..], id, change);
      assert forall i :: 1 <= i < |rows| ==> rows[i] == rows[1..][i - 1];
      [if rows[0].id == id then Row(id, change(rows[0].value)) else rows[0]] + rest
  }

  /** `where(field).equals(x).first()`: the first row, in key order, whose record satisfies `p`. */
  function FirstWhere<T>(rows: seq<Row<T>>, p: T -> bool): (r: Option<Row<T>>)
    ensures r.Some? ==> r.value in rows && p(r.value.value)
    ensures r.None? <==> forall i :: 0 <= i < |rows| ==> !p(rows[i].value)
  {
    if rows == [] then None
    else if p(rows[0].value) then Some(rows[0])
    else
      var r := FirstWhere(rows[1..], p);
      assert forall i :: 1 <= i < |rows| ==> rows[i] == rows[1..][i - 1];
      r
  }

  // ---------------------------------------------------------------------------
  // What the engine promises about keys

  /** Looking a key up after appending a row. */
  lemma {:induction false} GetAppend<T>(rows: seq<Row<T>>, r: Row<T>, id: nat)
    ensures Get(rows + [r], id) ==
      if Get(rows, id).Some? then Get(rows, id) else if r.id == id then Some(r.value) else None
  {
    if rows != [] {
      assert (rows + [r])[1..] == rows[1..] + [r];
      GetAppend(rows[1..], r, id);
    }
  }

  /** A key no row holds looks up to nothing; in a keyed table, that is every key from `nextId` on. */
  lemma {:induction false} GetAbsent<T>(rows: seq<Row<T>>, id: nat)
    requires forall i :: 0 <= i < |rows| ==> rows[i].id != id
    ensures Get(rows, id) == None
  {
    if rows != [] {
      GetAbsent(rows[1..], id);
    }
  }

  /** The row at position `i` of a keyed table is the one `Get` finds for its key. */
  lemma {:induction false} GetAt<T>(t: TableState<T>, i: nat)
    requires Keyed(t) && i < |t.rows|
    ensures Get(t.rows, t.rows[i].id) == Some(t.rows[i].value)
    decreases i
  {
    if i > 0 {
      var t' := TableState(t.rows[1..], t.nextId);
      assert t'.rows[i - 1] == t.rows[i];
      assert t.rows[0].id < t.rows[i].id;
      GetAt(t', i - 1);
    }
  }

  /**
   * Inserting into a keyed table: the new key was held by no row, the table stays keyed,
   * the new key looks up to the inserted record and every other key to what it did before.
   */
  lemma AddedIsFreshAndKeepsRows<T>(t: TableState<T>, v: T)
    requires Keyed(t)
    ensures Get(t.rows, t.nextId) == None
    ensures Keyed(Added(t, v))
    ensures Get(Added(t, v).rows, t.nextId) == Some(v)
    ensures forall id :: id != t.nextId ==> Get(Added(t, v).rows, id) == Get(t.rows, id)
    ensures t.nextId < Added(t, v).nextId
  {
    GetAbsent(t.rows, t.nextId);
    GetAppend(t.rows, Row(t.nextId, v), t.nextId);
    forall id | id != t.nextId
      ensures Get(Added(t, v).rows, id) == Get(t.rows, id)
    {
      GetAppend(t.rows, Row(t.nextId, v), id);
      if Get(t.rows, id).None? {
        assert Get(t.rows, id) == None;
      }
    }
  }

  /** Updating keeps every key and every other row; the updated key sees `change` applied. */
  lemma ChangedKeepsOtherRows<T>(t: TableState<T>, id: nat, change: T -> T)
    requires Keyed(t)
    ensures Keyed(Changed(t, id, change))
    ensures |Changed(t, id, change).rows| == |t.rows|
    ensures Get(Changed(t, id, change).rows, id) ==
      if Get(t.rows, id).Some? then Some(change(Get(t.rows, id).value)) else None
    ensures forall other :: other != id ==> Get(Changed(t, id, change).rows, other) == Get(t.rows, other)
  {
    var c := Changed(t, id, change);
    forall k: nat ensures Get(c.rows, k) == if k == id && Get(t.rows, k).Some? then Some(change(Get(t.rows, k).value)) else Get(t.rows, k) {
      GetChangedRows(t.rows, id, change, k);
    }
  }

  lemma {:induction false} GetChangedRows<T>(rows: seq<Row<T>>, id: nat, change: T -> T, k: nat)
    ensures Get(ChangedRows(rows, id, change), k) ==
      if k == id && Get(rows, k).Some? then Some(change(Get(rows, k).value)) else Get(rows, k)
  {
    if rows != [] {
      GetChangedRows(rows[1..], id, change, k);
    }
  }

  /** Appending a row does not move the first match; it is the new row only when nothing matched before. */
  lemma {:induction false} FirstWhereAppend<T>(rows: seq<Row<T>>, r: Row<T>, p: T -> bool)
    ensures FirstWhere(rows + [r], p) ==
      if FirstWhere(rows, p).Some? then FirstWhere(rows, p) else if p(r.value) then Some(r) else None
  {
    if rows != [] {
      assert (rows + [r])[1..] == rows[1..] + [r];
      FirstWhereAppend(rows[1..], r, p);
    }
  }

  /** An update that keeps `p` true or false on every record finds the same first match, updated. */
  lemma {:induction false} FirstWhereChanged<T>(rows: seq<Row<T>>, id: nat, change: T -> T, p: T -> bool)
    requires forall x :: p(change(x)) == p(x)
    ensures FirstWhere(ChangedRows(rows, id, change), p) ==
      match FirstWhere(rows, p)
      case None => None
      case Some(r) => Some(if r.id == id then Row(id, change(r.value)) else r)
  {
    if rows != [] {
      FirstWhereChanged(rows[1..], id, change, p);
    }
  }

  lemma AddedKeyed<T>(t: TableState<T>, v: T)
    requires Keyed(t)
    ensures Keyed(Added(t, v))
  {
  }

  lemma ValuesSnoc<T>(rows: seq<Row<T>>, r: Row<T>)
    ensures Values(rows + [r]) == Values(rows) + [r.value]
  {
    assert (rows + [r])[..|rows|] == rows;
  }

  /** Inserting appends the record to the table's contents. */
  lemma ValuesAdded<T>(t: TableState<T>, v: T)
    ensures Values(Added(t, v).rows) == Values(t.rows) + [v]
  {
    ValuesSnoc(t.rows, Row(t.nextId, v));
  }

  /** Bulk-adding keeps a table keyed and advances the next key by the number of records. */
  lemma {:induction false} AddedAllKeyed<T>(t: TableState<T>, vs: seq<T>)
    requires Keyed(t)
    ensures Keyed(AddedAll(t, vs))
    ensures AddedAll(t, vs).nextId == t.nextId + |vs|
    ensures |AddedAll(t, vs).rows| == |t.rows| + |vs|
  {
    if vs != [] {
      AddedAllKeyed(t, vs[..|vs| - 1]);
      AddedKeyed(AddedAll(t, vs[..|vs| - 1]), vs[|vs| - 1]);
    }
  }

  /** Bulk-adding appends the records, in order, after the existing ones. */
  lemma {:induction false} AddedAllAppends<T>(t: TableState<T>, vs: seq<T>)
    ensures Values(AddedAll(t, vs).rows) == Values(t.rows) + vs
  {
    if vs != [] {
      var vs', last := vs[..|vs| - 1], vs[|vs| - 1];
      var t' := AddedAll(t, vs');
      AddedAllAppends(t, vs');
      ValuesSnoc(t'.rows, Row(t'.nextId, last));
      assert vs == vs' + [last];
    }
  }

  // ---------------------------------------------------------------------------
  // Schema versions

  /** One `stores()` entry: the table, its primary key (`++id` is auto-increment) and its indexes. */
  datatype TableSchema = TableSchema(table: string, primaryKey: string, indexes: seq<string>)

  datatype Version = Version(number: nat, stores: seq<TableSchema>)

  const V1: Version := Version(1, [
    TableSchema("exercises", "++id", ["name", "muscle", "category"]),
    TableSchema("workouts", "++id", ["startTime", "status"]),
    TableSchema("sets", "++id", ["workoutId", "exerciseId", "timestamp"])])
  const V2: Version := Version(2, [TableSchema("routines", "++id", ["name", "updatedAt"])])
  const V3: Version := Version(3, [
    TableSchema("daily_logs", "++id", ["date", "sleepHours", "mood"]),
    TableSchema("habits", "++id", ["name", "frequency", "archived"])])
  const V4: Version := Version(4, [
    TableSchema("notes", "++id", ["title", "content", "type", "date"]),
    TableSchema("media", "++id", ["noteId", "blob"])])
  const V5: Version := Version(5, [
    TableSchema("measurements", "++id", ["date", "weight", "bodyFat", "chest", "waist", "arms", "legs"])])
  const V6: Version := Version(6, [
    TableSchema("nutrition_logs", "++id", ["date", "name", "mealType", "calories", "protein", "carbs", "fat"])])
  const V7: Version := Version(7, [TableSchema("exercises", "++id", ["name", "muscle", "category", "image"])])

  /** The versions in the order the store declares them. */
  const Schema: seq<Version> := [V1, V2, V3, V4, V5, V6, V7]

  /** The declaration of `table` in force after `vs`: the last one made. */
  function Declared(vs: seq<Version>, table: string): Option<TableSchema>
  {
    if vs == [] then None
    else match DeclaredIn(vs[|vs| - 1].stores, table)
      case Some(d) => Some(d)
      case None => Declared(vs[..|vs| - 1], table)
  }

  function DeclaredIn(stores: seq<TableSchema>, table: string): Option<TableSchema>
  {
    if stores == [] then None
    else if stores[|stores| - 1].table == table then Some(stores[|stores| - 1])
    else DeclaredIn(stores[..|stores| - 1], table)
  }

  /** Version numbers strictly increase in declaration order. */
  predicate Ascending(vs: seq<Version>)
  {
    forall i, j :: 0 <= i < j < |vs| ==> vs[i].number < vs[j].number
  }

  /** `later` keeps the primary key of `earlier` and every index it declared. */
  predicate Extends(earlier: TableSchema, later: TableSchema)
  {
    earlier.primaryKey == later.primaryKey
    && forall k :: 0 <= k < |earlier.indexes| ==> earlier.indexes[k] in later.indexes
  }

  /** Each version only adds tables, or re-declares one with a superset of its earlier indexes. */
  predicate Additive(vs: seq<Version>)
  {
    forall i, k :: 0 <= i < |vs| && 0 <= k < |vs[i].stores| ==>
      var d := vs[i].stores[k];
      Declared(vs[..i], d.table).Some? ==> Extends(Declared(vs[..i], d.table).value, d)
  }

  /** Every table of every version is keyed by an auto-incremented `id`. */
  predicate AllAutoIncrement(vs: seq<Version>)
  {
    forall i, k :: 0 <= i < |vs| && 0 <= k < |vs[i].stores| ==> vs[i].stores[k].primaryKey == "++id"
  }

  lemma SchemaNumbersAreOneToSeven()
    ensures |Schema| == 7 && Ascending(Schema)
    ensures forall i :: 0 <= i < |Schema| ==> Schema[i].number == i + 1
  {
  }

  lemma SchemaIsAutoIncrement()
    ensures AllAutoIncrement(Schema)
  {
  }

  /** Version 7 re-declares `exercises` as version 1's declaration plus the `image` index. */
  lemma SchemaV7ExtendsExercises()
    ensures Declared(Schema[..6], "exercises") == Some(V1.stores[0])
    ensures Declared(Schema, "exercises") == Some(V7.stores[0])
    ensures V7.stores[0].indexes == V1.stores[0].indexes + ["image"]
  {
    var vs := Schema[..6];
    assert vs == [V1, V2, V3, V4, V5, V6];
    assert vs[..5] == [V1, V2, V3, V4, V5];
    assert vs[..5][..4] == [V1, V2, V3, V4];
    assert vs[..5][..4][..3] == [V1, V2, V3];
    assert vs[..5][..4][..3][..2] == [V1, V2];
    assert vs[..5][..4][..3][..2][..1] == [V1];
    UndeclaredIn(V6.stores, "exercises");
    UndeclaredIn(V5.stores, "exercises");
    UndeclaredIn(V4.stores, "exercises");
    UndeclaredIn(V3.stores, "exercises");
    UndeclaredIn(V2.stores, "exercises");
    assert V1.stores[..2][..1] == [V1.stores[0]];
    assert DeclaredIn(V1.stores, "exercises") == Some(V1.stores[0]);
    assert Declared([V1], "exercises") == Some(V1.stores[0]);
    assert Declared([V1, V2], "exercises") == Some(V1.stores[0]);
    assert Declared([V1, V2, V3], "exercises") == Some(V1.stores[0]);
    assert Declared([V1, V2, V3, V4], "exercises") == Some(V1.stores[0]);
    assert Declared([V1, V2, V3, V4, V5], "exercises") == Some(V1.stores[0]);
  }

  lemma {:induction false} UndeclaredIn(stores: seq<TableSchema>, table: string)
    requires forall k :: 0 <= k < |stores| ==> stores[k].table != table
    ensures DeclaredIn(stores, table) == None
  {
    if stores != [] {
      UndeclaredIn(stores[..|stores| - 1], table);
    }
  }

  lemma {:induction false} Undeclared(vs: seq<Version>, table: string)
    requires forall i, k :: 0 <= i < |vs| && 0 <= k < |vs[i].stores| ==> vs[i].stores[k].table != table
    ensures Declared(vs, table) == None
  {
    if vs != [] {
      UndeclaredIn(vs[|vs| - 1].stores, table);
      Undeclared(vs[..|vs| - 1], table);
    }
  }

  /** `exercises` is the only table declared twice, so the schema is additive. */
  lemma SchemaIsAdditive()
    ensures Additive(Schema)
  {
    forall i, k | 0 <= i < |Schema| && 0 <= k < |Schema[i].stores|
      ensures Declared(Schema[..i], Schema[i].stores[k].table).Some? ==>
        Extends(Declared(Schema[..i], Schema[i].stores[k].table).value, Schema[i].stores[k])
    {
      var d := Schema[i].stores[k];
      if i == 6 {
        SchemaV7ExtendsExercises();
        assert d == V7.stores[0];
        assert Schema[..6] == Schema[..6];
      } else {
        NotYetDeclared(i, k);
      }
    }
  }

  /** Before version 7 no version declares a table that an earlier one already declared. */
  lemma NotYetDeclared(i: nat, k: nat)
    requires i < 6 && k < |Schema[i].stores|
    ensures Declared(Schema[..i], Schema[i].stores[k].table) == None
  {
    var table := Schema[i].stores[k].table;
    var earlier := Schema[..i];
    forall j, m | 0 <= j < |earlier| && 0 <= m < |earlier[j].stores|
      ensures earlier[j].stores[m].table != table
    {
      assert earlier[j] == Schema[j];
    }
    Undeclared(earlier, table);
  }

  // ---------------------------------------------------------------------------
  // Seed catalog

  const Catalog: seq<Exercise> := [
    Exercise("Barbell Squat", "Legs", "Barbell", "Strength",
             Some("https://images.unsplash.com/photo-1574680096141-9c3c601394d1?q=80&w=200&auto=format&fit=crop")),
    Exercise("Bench Press", "Chest", "Barbell", "Strength",
             Some("https://images.unsplash.com/photo-1571019614242-c5c5dee9f50b?q=80&w=200&auto=format&fit=crop")),
    Exercise("Deadlift", "Back", "Barbell", "Strength",
             Some("https://images.unsplash.com/photo-1517836357463-d25dfeac3438?q=80&w=200&auto=format&fit=crop")),
    Exercise("Overhead Press", "Shoulders", "Barbell", "Strength",
             Some("https://images.unsplash.com/photo-1581009146145-b5ef050c2e1e?q=80&w=200&auto=format&fit=crop")),
    Exercise("Pull Up", "Back", "Bodyweight", "Strength",
             Some("https://images.unsplash.com/photo-1598971639058-211a73287db2?q=80&w=200&auto=format&fit=crop")),
    Exercise("Dumbbell Row", "Back", "Dumbbell", "Strength",
             Some("https://images.unsplash.com/photo-1581009146145-b5ef050c2e1e?q=80&w=200&auto=format&fit=crop")),
    Exercise("Lunges", "Legs", "Dumbbell", "Strength",
             Some("https://images.unsplash.com/photo-1574680178050-55c6a6a96e0a?q=80&w=200&auto=format&fit=crop")),
    Exercise("Plank", "Core", "Bodyweight", "Strength",
             Some("https://images.unsplash.com/photo-1571019613454-1cb2f99b2d8b?q=80&w=200&auto=format&fit=crop")),
    Exercise("Running", "Cardio", "None", "Cardio",
             Some("https://images.unsplash.com/photo-1502904550040-7534597429ae?q=80&w=200&auto=format&fit=crop"))]

  /** The catalog holds nine exercises with distinct names, each of category Strength or Cardio. */
  lemma CatalogIsWellFormed()
    ensures |Catalog| == 9
    ensures forall i, j :: 0 <= i < j < |Catalog| ==> Catalog[i].name != Catalog[j].name
    ensures forall i :: 0 <= i < |Catalog| ==> Catalog[i].category in {"Strength", "Cardio"}
  {
  }

  /** What `checkAndSeed` does to the exercises table: bulk-add the catalog iff the table is empty. */
  function Seeded(t: TableState<Exercise>): TableState<Exercise>
  {
    if |t.rows| == 0 then AddedAll(t, Catalog) else t
  }

  /** Seeding an empty table leaves exactly the nine catalog records in it, in catalog order. */
  lemma SeedOnEmptyInsertsCatalog(t: TableState<Exercise>)
    requires Keyed(t) && |t.rows| == 0
    ensures Keyed(Seeded(t))
    ensures Values(Seeded(t).rows) == Catalog
    ensures |Seeded(t).rows| == 9
  {
    AddedAllKeyed(t, Catalog);
    AddedAllAppends(t, Catalog);
    assert Values(t.rows) == [];
  }

  /** Seeding a non-empty table changes nothing, so seeding twice is seeding once. */
  lemma SeedIsIdempotent(t: TableState<Exercise>)
    requires Keyed(t)
    ensures |t.rows| > 0 ==> Seeded(t) == t
    ensures Seeded(Seeded(t)) == Seeded(t)
  {
    if |t.rows| == 0 {
      SeedOnEmptyInsertsCatalog(t);
    }
  }

  // ---------------------------------------------------------------------------
  // The database object

  /** The schema registry that the store's `version(n).stores(...)` calls fill in. */
  class SchemaRegistry {
    var versions: seq<Version>

    /** `VaelDatabase`'s constructor declares versions 1 to 7, in that order. */
    constructor ()
      ensures versions == Schema
    {
      versions := [];
      new;
      DeclareVersion(V1);
      DeclareVersion(V2);
      DeclareVersion(V3);
      DeclareVersion(V4);
      DeclareVersion(V5);
      DeclareVersion(V6);
      DeclareVersion(V7);
      assert versions == [V1, V2, V3, V4, V5, V6, V7];
    }

    /** `version(n).stores({...})`: registers one more version. */
    method DeclareVersion(v: Version)
      modifies this
      ensures versions == old(versions) + [v]
    {
      versions := versions + [v];
    }
  }

  class Store {
    var exercises: TableState<Exercise>
    var workouts: TableState<Workout>
    var sets: TableState<SetLog>
    var routines: TableState<Routine>
    var dailyLogs: TableState<DailyLog>
    var habits: TableState<Habit>
    var notes: TableState<Note>
    var media: TableState<Media>
    var measurements: TableState<Measurement>
    var nutritionLogs: TableState<NutritionLog>

    const registry: SchemaRegistry
    var isOpen: bool

    /** Every table is keyed. */
    ghost predicate Valid()
      reads this
    {
      && Keyed(exercises) && Keyed(workouts) && Keyed(sets) && Keyed(routines) && Keyed(dailyLogs)
      && Keyed(habits) && Keyed(notes) && Keyed(media) && Keyed(measurements) && Keyed(nutritionLogs)
    }

    /** The constructor declares versions 1 to 7 and creates ten empty tables; the store is not yet open. */
    constructor ()
      ensures Valid() && !isOpen
      ensures fresh(registry) && registry.versions == Schema
      ensures exercises == EmptyTable() && workouts == EmptyTable() && sets == EmptyTable()
      ensures routines == EmptyTable() && dailyLogs == EmptyTable() && habits == EmptyTable()
      ensures notes == EmptyTable() && media == EmptyTable() && measurements == EmptyTable()
      ensures nutritionLogs == EmptyTable()
    {
      registry := new SchemaRegistry();
      exercises, workouts, sets, routines, dailyLogs := EmptyTable(), EmptyTable(), EmptyTable(), EmptyTable(), EmptyTable();
      habits, notes, media, measurements, nutritionLogs := EmptyTable(), EmptyTable(), EmptyTable(), EmptyTable(), EmptyTable();
      isOpen := false;
    }

    /** `db.open()`, whose outcome the engine decides. */
    method Open(succeeds: bool) returns (ok: bool)
      modifies this`isOpen
      ensures ok == succeeds
      ensures isOpen == (old(isOpen) || succeeds)
    {
      ok := succeeds;
      if succeeds {
        isOpen := true;
      }
    }

    /**
     * `checkAndSeed`: counts the exercises and bulk-adds the catalog, one row at a time, iff there are
     * none. When the count or the insert fails, the error is only logged and the table is as before.
     */
    method CheckAndSeed(succeeds: bool)
      requires Valid()
      modifies this`exercises
      ensures Valid()
      ensures exercises == if succeeds then Seeded(old(exercises)) else old(exercises)
    {
      if !succeeds {
        return;
      }
      var count := |exercises.rows|;
      if count == 0 {
        ghost var start := exercises;
        var i := 0;
        while i < |Catalog|
          invariant 0 <= i <= |Catalog|
          invariant exercises == AddedAll(start, Catalog[..i])
        {
          assert Catalog[..i + 1][..i] == Catalog[..i];
          exercises := Added(exercises, Catalog[i]);
          i := i + 1;
        }
        assert Catalog[..i] == Catalog;
        AddedAllKeyed(start, Catalog);
      }
    }

    /**
     * The start-up hook: only in a browser, open the database and seed once it has opened.
     * The exercises table is seeded only if the opening and the seeding succeed.
     */
    method Bootstrap(inBrowser: bool, openSucceeds: bool, seedSucceeds: bool)
      requires Valid()
      modifies this`isOpen, this`exercises
      ensures Valid()
      ensures isOpen == (old(isOpen) || (inBrowser && openSucceeds))
      ensures exercises == if inBrowser && openSucceeds && seedSucceeds then Seeded(old(exercises)) else old(exercises)
    {
      if inBrowser {
        var ok := Open(openSucceeds);
        if ok {
          CheckAndSeed(seedSucceeds);
        }
      }
    }
  }
}
