/** The workout history screen: completed sessions, newest first, and its two counters. */
module History {
  import opened Db
  import Seqs

  predicate IsCompleted(r: Row<Workout>)
  {
    r.value.status == WorkoutStatus.Completed
  }

  function StartOf(r: Row<Workout>): int
  {
    r.value.startTime
  }

  /** `where('status').equals('completed').reverse().sortBy('startTime')`. */
  function History(rows: seq<Row<Workout>>): seq<Row<Workout>>
  {
    Seqs.SortDesc(Seqs.Filter(rows, IsCompleted), StartOf)
  }

  /** The history lists exactly the completed sessions, each as often as stored, newest first. */
  lemma HistoryIsCompletedNewestFirst(rows: seq<Row<Workout>>)
    ensures var h := History(rows);
      && Seqs.SortedDesc(h, StartOf)
      && multiset(h) == multiset(Seqs.Filter(rows, IsCompleted))
      && (forall i :: 0 <= i < |h| ==> h[i] in rows && IsCompleted(h[i]))
      && (forall i :: 0 <= i < |rows| && IsCompleted(rows[i]) ==> rows[i] in h)
  {
    var h := History(rows);
    var c := Seqs.Filter(rows, IsCompleted);
    forall i | 0 <= i < |h| ensures h[i] in rows && IsCompleted(h[i]) {
      assert h[i] in multiset(c);
      Seqs.FilterMembers(rows, IsCompleted, h[i]);
    }
    forall i | 0 <= i < |rows| && IsCompleted(rows[i]) ensures rows[i] in h {
      Seqs.FilterMembers(rows, IsCompleted, rows[i]);
      assert rows[i] in multiset(c);
    }
  }

  /** "Total Workouts": the number of completed sessions. */
  function TotalWorkouts(rows: seq<Row<Workout>>): (n: nat)
    ensures n == |Seqs.Filter(rows, IsCompleted)|
  {
    |History(rows)|
  }

  /** Whether a session started in the month number of `now`, as `monthOf` reads it. */
  function InMonth(monthOf: int -> int, now: int): Row<Workout> -> bool
  {
    (r: Row<Workout>) => monthOf(r.value.startTime) == monthOf(now)
  }

  /**
   * "This Month": history entries whose start falls in the current month number, as `monthOf`
   * reads it (`getMonth`, 0 to 11, in the device's time zone); the year is not compared.
   */
  function ThisMonth(rows: seq<Row<Workout>>, monthOf: int -> int, now: int): nat
  {
    |Seqs.Filter(History(rows), InMonth(monthOf, now))|
  }

  /**
   * The month counter counts the completed sessions in that month number, whatever their order in
   * the history, so a session from the same month of another year counts too; it never exceeds the total.
   */
  lemma ThisMonthCountsMonthNumberOnly(rows: seq<Row<Workout>>, monthOf: int -> int, now: int)
    ensures ThisMonth(rows, monthOf, now) == |Seqs.Filter(Seqs.Filter(rows, IsCompleted), InMonth(monthOf, now))|
    ensures ThisMonth(rows, monthOf, now) <= TotalWorkouts(rows)
  {
    Seqs.FilterSizeByMultiset(History(rows), Seqs.Filter(rows, IsCompleted), InMonth(monthOf, now));
  }
}
