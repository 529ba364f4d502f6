/** The food-logging form: a name, calories, optional macros and a meal type, saved as one nutrition log. */
module FuelLog {
  import opened Wrappers
  import opened Db
  import Seqs
  import Time
  import Fuel

  class Form {
    var name: string
    /** Each number holds the parsed input, or `None` while its text box is empty. */
    var calories: Option<int>
    var protein: Option<int>
    var carbs: Option<int>
    var fat: Option<int>
    var mealType: MealType

    constructor ()
      ensures name == "" && calories.None? && protein.None? && carbs.None? && fat.None?
      ensures mealType == Breakfast
    {
      name, calories, protein, carbs, fat, mealType := "", None, None, None, None, Breakfast;
    }

    /** The Save button is enabled only with a name and a calorie count. */
    predicate CanSave()
      reads this
    {
      name != "" && calories.Some?
    }

    /** The log `handleSave` inserts: empty macros count as 0. */
    function Entry(now: int): NutritionLog
      reads this
      requires CanSave()
    {
      NutritionLog(now, name, mealType, calories.value, protein.GetOr(0), carbs.GetOr(0), fat.GetOr(0))
    }

    /** `handleSave`: nothing without a name or calories; otherwise one log is inserted. */
    method Save(db: Store, now: int, succeeds: bool) returns (saved: bool)
      requires Keyed(db.nutritionLogs)
      modifies db`nutritionLogs
      ensures Keyed(db.nutritionLogs)
      ensures saved == (CanSave() && succeeds)
      ensures saved ==> db.nutritionLogs == Added(old(db.nutritionLogs), Entry(now))
      ensures !saved ==> db.nutritionLogs == old(db.nutritionLogs)
    {
      saved := false;
      if !CanSave() {
        return;
      }
      if succeeds {
        AddedKeyed(db.nutritionLogs, Entry(now));
        db.nutritionLogs := Added(db.nutritionLogs, Entry(now));
        saved := true;
      }
    }
  }

  /** A food saved now is one of today's logs and raises today's totals by exactly its macros. */
  lemma SavedFoodCountsToday(t: TableState<NutritionLog>, l: NutritionLog)
    ensures var day := Time.DayOf(l.date);
      Fuel.TodaysLogs(Values(Added(t, l).rows), day) == Fuel.TodaysLogs(Values(t.rows), day) + [l]
      && Fuel.Fold(Fuel.TodaysLogs(Values(Added(t, l).rows), day)) == Fuel.Plus(Fuel.Fold(Fuel.TodaysLogs(Values(t.rows), day)), l)
  {
    var day := Time.DayOf(l.date);
    ValuesAdded(t, l);
    Seqs.FilterSnoc(Values(t.rows), l, Fuel.IsOn(day));
    var before := Fuel.TodaysLogs(Values(t.rows), day);
    assert (before + [l])[..|before|] == before;
  }
}
