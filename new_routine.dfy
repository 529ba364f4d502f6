/**
 * The new-routine screen: a searchable exercise picker, an ordered selection with removal, custom
 * exercise creation for a search that finds nothing, and saving the selection as a routine.
 */
module NewRoutine {
  import opened Wrappers
  import opened Db
  import Seqs

  const CustomMuscle := "Custom"
  const CustomEquipment := "Other"
  const CustomCategory := "Custom"

  /** `toLowerCase` on the ASCII letters. */
  function ToLower(s: string): (r: string)
    ensures |r| == |s|
    ensures forall i :: 0 <= i < |s| ==> r[i] == if 'A' <= s[i] <= 'Z' then (s[i] as int + 32) as char else s[i]
  {
    if s == [] then []
    else [if 'A' <= s[0] <= 'Z' then (s[0] as int + 32) as char else s[0]] + ToLower(s[1..])
  }

  predicate OccursAt(hay: string, needle: string, i: nat)
  {
    i + |needle| <= |hay| && hay[i..i + |needle|] == needle
  }

  /** `hay.includes(needle)`. */
  predicate Includes(hay: string, needle: string)
  {
    exists i: nat :: i <= |hay| && OccursAt(hay, needle, i)
  }

  /** The picker's test: the query occurs, ignoring case, in the exercise's name or muscle. */
  predicate Matches(e: Exercise, query: string)
  {
    Includes(ToLower(e.name), ToLower(query)) || Includes(ToLower(e.muscle), ToLower(query))
  }

  function Filtered(all: seq<Row<Exercise>>, query: string): seq<Row<Exercise>>
  {
    Seqs.Filter(all, (r: Row<Exercise>) => Matches(r.value, query))
  }

  /** An empty search lists every exercise, in table order. */
  lemma EmptyQueryListsAll(all: seq<Row<Exercise>>)
    ensures Filtered(all, "") == all
  {
    forall i | 0 <= i < |all| ensures Matches(all[i].value, "") {
      assert OccursAt(ToLower(all[i].value.name), ToLower(""), 0);
    }
    Seqs.FilterAll(all, (r: Row<Exercise>) => Matches(r.value, ""));
  }

  /** The offer to create a custom exercise: the list is empty and the search is not. */
  predicate CanCreate(all: seq<Row<Exercise>>, query: string)
  {
    |Filtered(all, query)| == 0 && query != ""
  }

  /** The offer appears exactly when the search is non-empty and no exercise matches it. */
  lemma CanCreateIffNoMatch(all: seq<Row<Exercise>>, query: string)
    ensures CanCreate(all, query) <==> query != "" && forall i :: 0 <= i < |all| ==> !Matches(all[i].value, query)
  {
    var f := Filtered(all, query);
    if |f| > 0 {
      Seqs.FilterMembers(all, (r: Row<Exercise>) => Matches(r.value, query), f[0]);
    }
    forall i | 0 <= i < |all| && Matches(all[i].value, query) ensures |f| > 0 {
      Seqs.FilterMembers(all, (r: Row<Exercise>) => Matches(r.value, query), all[i]);
    }
  }

  function Custom(query: string): Exercise
  {
    Exercise(query, CustomMuscle, CustomEquipment, CustomCategory, None)
  }

  /** A custom exercise is found by the very search that offered to create it. */
  lemma CustomMatchesItsQuery(query: string)
    ensures Matches(Custom(query), query)
  {
    assert OccursAt(ToLower(query), ToLower(query), 0);
  }

  /** `splice(index, 1)` on a copy: drop the entry at `index`; an index past the end removes nothing. */
  function Removed<T>(s: seq<T>, index: nat): (r: seq<T>)
    ensures index < |s| ==> |r| == |s| - 1
    ensures |r| <= |s|
    ensures forall k :: 0 <= k < index && k < |r| ==> r[k] == s[k]
    ensures index < |s| ==> forall k :: index <= k < |r| ==> r[k] == s[k + 1]
    ensures index >= |s| ==> r == s
  {
    if index < |s| then s[..index] + s[index + 1..] else s
  }

  /** Adding an exercise and then removing the last entry restores the selection. */
  lemma RemoveUndoesAdd<T>(s: seq<T>, x: T)
    ensures Removed(s + [x], |s|) == s
  {
    assert (s + [x])[..|s|] == s;
  }

  /** The routine's entries: one per selected exercise, with orders 0, 1, 2, ... */
  function Entries(selected: seq<Row<Exercise>>): (r: seq<RoutineExercise>)
    ensures |r| == |selected|
    ensures forall i :: 0 <= i < |r| ==> r[i].exerciseId == selected[i].id && r[i].order == i
    ensures forall i :: 0 <= i < |r| ==> r[i].targetSets.None? && r[i].targetReps.None?
  {
    seq(|selected|, i requires 0 <= i < |selected| => RoutineExercise(selected[i].id, i, None, None))
  }

  /** The orders of a saved routine are distinct and below n, hence exactly 0 to n - 1. */
  lemma EntriesAreDenselyOrdered(selected: seq<Row<Exercise>>)
    ensures var es := Entries(selected);
      && (forall i, j :: 0 <= i < j < |es| ==> es[i].order != es[j].order)
      && (forall i :: 0 <= i < |es| ==> es[i].order < |es|)
  {
  }

  /** The Save button is enabled only with a name and at least one exercise. */
  predicate CanSave(name: string, selected: seq<Row<Exercise>>)
  {
    name != "" && selected != []
  }

  class Page {
    var name: string
    var selected: seq<Row<Exercise>>
    var isAdding: bool
    var query: string

    constructor ()
      ensures name == "" && selected == [] && !isAdding && query == ""
    {
      name, selected, isAdding, query := "", [], false, "";
    }

    /** `handleAddExercise`: append to the selection, close the picker and clear the search. */
    method AddExercise(e: Row<Exercise>)
      modifies this`selected, this`isAdding, this`query
      ensures selected == old(selected) + [e] && !isAdding && query == ""
    {
      selected := selected + [e];
      isAdding := false;
      query := "";
    }

    /** The "Add Exercise" button opens the picker and its back button closes it; the query is kept. */
    method SetPicker(open: bool)
      modifies this`isAdding
      ensures isAdding == open
    {
      isAdding := open;
    }

    /** `handleRemoveExercise`. */
    method RemoveExercise(index: nat)
      modifies this`selected
      ensures selected == Removed(old(selected), index)
    {
      selected := Removed(selected, index);
    }

    /**
     * `handleSaveRoutine`: without a name or exercises nothing happens; otherwise one routine row
     * is inserted and `saved` says whether the page navigates away.
     */
    method SaveRoutine(db: Store, now: int, succeeds: bool) returns (saved: bool)
      requires Keyed(db.routines)
      modifies db`routines
      ensures Keyed(db.routines)
      ensures saved == (CanSave(name, selected) && succeeds)
      ensures db.routines == if saved then Added(old(db.routines), Routine(name, Entries(selected), now)) else old(db.routines)
    {
      saved := false;
      if !CanSave(name, selected) {
        return;
      }
      if succeeds {
        db.routines := Added(db.routines, Routine(name, Entries(selected), now));
        saved := true;
      }
    }

    /**
     * The "Create" button: offered only in the picker and only when the search finds nothing; it inserts a custom exercise
     * named after the search and adds it to the selection under its new key.
     */
    method CreateCustom(db: Store, succeeds: bool)
      requires Keyed(db.exercises)
      modifies db`exercises, this`selected, this`isAdding, this`query
      ensures Keyed(db.exercises)
      ensures old(isAdding) && CanCreate(old(db.exercises.rows), old(query)) && succeeds ==>
        && db.exercises == Added(old(db.exercises), Custom(old(query)))
        && selected == old(selected) + [Row(old(db.exercises.nextId), Custom(old(query)))]
        && !isAdding && query == ""
      ensures !(old(isAdding) && CanCreate(old(db.exercises.rows), old(query)) && succeeds) ==>
        db.exercises == old(db.exercises) && selected == old(selected)
        && isAdding == old(isAdding) && query == old(query)
    {
      if isAdding && CanCreate(db.exercises.rows, query) && succeeds {
        var id := db.exercises.nextId;
        var e := Custom(query);
        db.exercises := Added(db.exercises, e);
        AddExercise(Row(id, e));
      }
    }
  }
}
