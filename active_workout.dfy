/**
 * The active workout screen: it starts a session, logs sets against it, celebrates a new personal
 * record and completes the session. The React state of the page is the class `Page`; the database
 * is the shared `Db.Store`.
 */
module ActiveWorkout {
  import opened Wrappers
  import opened Db
  import Seqs

  const QuickStartName := "Quick Start Workout"
  const DefaultExerciseId: nat := 1
  const DefaultWeight := 135
  const DefaultReps := 5

  /** `where('workoutId').equals(workoutId || -1)`: with no session, no set matches. */
  function CurrentSets(sets: seq<SetLog>, workoutId: Option<nat>): seq<SetLog>
  {
    Seqs.Filter(sets, (s: SetLog) => workoutId.Some? && s.workoutId == workoutId.value)
  }

  /** `where('exerciseId').equals(exerciseId)`: every set ever logged for the exercise. */
  function HistorySets(sets: seq<SetLog>, exerciseId: nat): seq<SetLog>
  {
    Seqs.Filter(sets, (s: SetLog) => s.exerciseId == exerciseId)
  }

  /** The heaviest weight in `history`, folding from 0; it is 0 for an exercise never logged. */
  function CurrentPR(history: seq<SetLog>): (pr: int)
    ensures pr >= 0
    ensures forall i :: 0 <= i < |history| ==> history[i].weight <= pr
    ensures pr == 0 || exists i :: 0 <= i < |history| && history[i].weight == pr
  {
    if history == [] then 0
    else
      var prior := CurrentPR(history[..|history| - 1]);
      var w := history[|history| - 1].weight;
      if prior >= w then prior else w
  }

  /** Confetti is shown for a weight above the record, and only once a positive record exists. */
  predicate IsNewPR(weight: int, pr: int)
  {
    weight > pr && pr > 0
  }

  /**
   * Read against the logged history: a set celebrates exactly when some earlier set of the exercise
   * had a positive weight and every earlier set was lighter.
   */
  lemma NewPRMeansHeavierThanAll(weight: int, history: seq<SetLog>)
    ensures IsNewPR(weight, CurrentPR(history)) <==>
      (exists i :: 0 <= i < |history| && history[i].weight > 0)
      && (forall i :: 0 <= i < |history| ==> history[i].weight < weight)
  {
    var pr := CurrentPR(history);
    if exists i :: 0 <= i < |history| && history[i].weight > 0 {
      var i :| 0 <= i < |history| && history[i].weight > 0;
      assert pr >= history[i].weight;
    }
  }

  /** The first set ever logged for an exercise never celebrates, whatever its weight. */
  lemma FirstSetNeverCelebrates(weight: int)
    ensures !IsNewPR(weight, CurrentPR([]))
  {
  }

  /** The label "Set N": one more than the sets already logged in this session. */
  function SetNumber(current: seq<SetLog>): (n: nat)
    ensures n >= 1
  {
    |current| + 1
  }

  /** Counts one for each set of session `w`. */
  function InSession(w: nat): SetLog -> int
  {
    (s: SetLog) => if s.workoutId == w then 1 else 0
  }

  /** "Set N" is one more than the number of sets logged in the session, and "Set 1" without a session. */
  lemma {:induction false} SetNumberCountsSessionSets(sets: seq<SetLog>, w: nat)
    ensures SetNumber(CurrentSets(sets, Some(w))) == 1 + Seqs.Sum(sets, InSession(w))
    ensures SetNumber(CurrentSets(sets, None)) == 1
  {
    if sets != [] {
      SetNumberCountsSessionSets(sets[..|sets| - 1], w);
    }
  }

  /** `slice(-3).reverse()`: the last three sets of the session, newest first. */
  function RecentSets(current: seq<SetLog>): (r: seq<SetLog>)
    ensures |r| == if |current| < 3 then |current| else 3
    ensures forall k :: 0 <= k < |r| ==> r[k] == current[|current| - 1 - k]
  {
    Seqs.Reverse(current[if |current| < 3 then 0 else |current| - 3..])
  }

  /**
   * The auto-select effect: once the exercises are loaded and none has the selected id, switch to
   * the first exercise when its id is truthy.
   */
  function SelectedExercise(exercises: seq<Row<Exercise>>, selected: nat): (id: nat)
    ensures id == selected || (exercises != [] && id == exercises[0].id)
    ensures (exists i :: 0 <= i < |exercises| && exercises[i].id == selected) ==> id == selected
    ensures exercises != [] && exercises[0].id != 0 ==> exists i :: 0 <= i < |exercises| && exercises[i].id == id
  {
    if exercises != [] && FirstWhereId(exercises, selected).None? && exercises[0].id != 0 then exercises[0].id
    else selected
  }

  /** `find(e => e.id === id)`. */
  function FirstWhereId(rows: seq<Row<Exercise>>, id: nat): (r: Option<Row<Exercise>>)
    ensures r.Some? ==> r.value in rows && r.value.id == id
    ensures r.None? <==> forall i :: 0 <= i < |rows| ==> rows[i].id != id
  {
    if rows == [] then None
    else if rows[0].id == id then Some(rows[0])
    else FirstWhereId(rows[1..], id)
  }

  /** The row `startSession` inserts. */
  function NewSession(now: int): Workout
  {
    Workout(QuickStartName, now, None, Active, None)
  }

  /** What `update` writes when the session ends. */
  function Finished(now: int): Workout -> Workout
  {
    (w: Workout) => w.(status := WorkoutStatus.Completed, endTime := Some(now))
  }

  /** A logged set is added to its session: the set counter moves up by exactly one. */
  lemma {:induction false} LoggedSetAdvancesCounter(t: TableState<SetLog>, s: SetLog)
    ensures SetNumber(CurrentSets(Values(Added(t, s).rows), Some(s.workoutId)))
         == SetNumber(CurrentSets(Values(t.rows), Some(s.workoutId))) + 1
    ensures RecentSets(CurrentSets(Values(Added(t, s).rows), Some(s.workoutId)))[0] == s
  {
    ValuesAdded(t, s);
    Seqs.FilterAppend(Values(t.rows), [s], (x: SetLog) => Some(s.workoutId).Some? && x.workoutId == Some(s.workoutId).value);
  }

  /** Ending a session completes that row, stamps its end time, and leaves its name, start and every other row alone. */
  lemma EndingCompletesOnlyThatSession(t: TableState<Workout>, id: nat, now: int, k: nat)
    requires Get(t.rows, id).Some?
    ensures Get(Changed(t, id, Finished(now)).rows, id).Some?
    ensures var w := Get(Changed(t, id, Finished(now)).rows, id).value;
      w.status == WorkoutStatus.Completed && w.endTime == Some(now)
      && w.name == Get(t.rows, id).value.name && w.startTime == Get(t.rows, id).value.startTime
    ensures k != id ==> Get(Changed(t, id, Finished(now)).rows, k) == Get(t.rows, k)
    ensures Changed(t, id, Finished(now)).nextId == t.nextId
  {
    GetChangedRows(t.rows, id, Finished(now), id);
    GetChangedRows(t.rows, id, Finished(now), k);
  }

  class Page {
    var workoutId: Option<nat>
    var exerciseId: nat
    var weight: int
    var reps: int
    var isLogging: bool

    constructor ()
      ensures workoutId == None && exerciseId == DefaultExerciseId
      ensures weight == DefaultWeight && reps == DefaultReps && !isLogging
    {
      workoutId := None;
      exerciseId := DefaultExerciseId;
      weight := DefaultWeight;
      reps := DefaultReps;
      isLogging := false;
    }

    /** The auto-select effect, run whenever the exercise list changes. */
    method AutoSelect(db: Store)
      modifies this`exerciseId
      ensures exerciseId == SelectedExercise(db.exercises.rows, old(exerciseId))
    {
      exerciseId := SelectedExercise(db.exercises.rows, exerciseId);
    }

    /**
     * The mount effect: with no session yet, insert a "Quick Start Workout" row and remember its key.
     * A failed insert only logs, so the page keeps no session.
     */
    method StartSession(db: Store, now: int, succeeds: bool)
      requires Keyed(db.workouts)
      modifies this`workoutId, db`workouts
      ensures Keyed(db.workouts)
      ensures old(workoutId).None? && succeeds ==>
        db.workouts == Added(old(db.workouts), NewSession(now)) && workoutId == Some(old(db.workouts.nextId))
      ensures old(workoutId).Some? || !succeeds ==> db.workouts == old(db.workouts) && workoutId == old(workoutId)
    {
      if workoutId.None? && succeeds {
        var id := db.workouts.nextId;
        db.workouts := Added(db.workouts, NewSession(now));
        workoutId := Some(id);
      }
    }

    /**
     * `handleLogSet`: without a session nothing happens. Otherwise the set is inserted (not a warm-up),
     * and confetti is due iff the insert succeeded and the weight beats the record read before it.
     */
    method LogSet(db: Store, now: int, succeeds: bool) returns (celebrate: bool)
      requires Keyed(db.sets)
      modifies db`sets, this`isLogging
      ensures Keyed(db.sets)
      ensures workoutId.None? ==> db.sets == old(db.sets) && isLogging == old(isLogging) && !celebrate
      ensures workoutId.Some? ==> !isLogging
      ensures workoutId.Some? && succeeds ==>
        db.sets == Added(old(db.sets), SetLog(workoutId.value, exerciseId, weight, reps, None, now, false))
      ensures workoutId.Some? && !succeeds ==> db.sets == old(db.sets)
      ensures celebrate == (workoutId.Some? && succeeds
                            && IsNewPR(weight, CurrentPR(HistorySets(Values(old(db.sets).rows), exerciseId))))
    {
      celebrate := false;
      if workoutId.None? {
        return;
      }
      isLogging := true;
      var pr := CurrentPR(HistorySets(Values(db.sets.rows), exerciseId));
      if succeeds {
        AddedKeyed(db.sets, SetLog(workoutId.value, exerciseId, weight, reps, None, now, false));
        db.sets := Added(db.sets, SetLog(workoutId.value, exerciseId, weight, reps, None, now, false));
        celebrate := IsNewPR(weight, pr);
      }
      isLogging := false;
    }

    /**
     * `handleEndWorkout`: with a session, mark its row completed at `now`; without one, change nothing.
     * A rejected update stops the handler (nothing catches it), and the table is as before.
     */
    method EndWorkout(db: Store, now: int, succeeds: bool)
      requires Keyed(db.workouts)
      modifies db`workouts
      ensures Keyed(db.workouts)
      ensures workoutId.Some? && succeeds ==> db.workouts == Changed(old(db.workouts), workoutId.value, Finished(now))
      ensures workoutId.None? || !succeeds ==> db.workouts == old(db.workouts)
    {
      if workoutId.Some? && succeeds {
        ChangedKeepsOtherRows(db.workouts, workoutId.value, Finished(now));
        db.workouts := Changed(db.workouts, workoutId.value, Finished(now));
      }
    }
  }
}
