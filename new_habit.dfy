/** The new-habit form: a name, a daily or weekly frequency and, for weekly habits, a target count. */
module NewHabit {
  import opened Wrappers
  import opened Db

  const DefaultTarget := 1
  const TargetChoices: seq<int> := [1, 2, 3, 4, 5]

  /** The habit `handleSave` inserts: a streak of 0, not archived, and a target only for weekly habits. */
  function NewHabit(name: string, frequency: Frequency, target: int): (h: Habit)
    ensures h.name == name && h.frequency == frequency && h.icon.None?
    ensures h.streak == 0 && h.archived == Some(false)
    ensures h.targetCount.Some? <==> frequency == Weekly
    ensures frequency == Weekly ==> h.targetCount == Some(target)
  {
    Habit(name, None, frequency, if frequency == Weekly then Some(target) else None, 0, Some(false))
  }

  class Form {
    var name: string
    var frequency: Frequency
    var targetCount: int

    /** The target is one of the five buttons. */
    ghost predicate Valid()
      reads this
    {
      targetCount in TargetChoices
    }

    constructor ()
      ensures Valid() && name == "" && frequency == Daily && targetCount == DefaultTarget
    {
      name, frequency, targetCount := "", Daily, DefaultTarget;
    }

    method SetTarget(count: int)
      requires count in TargetChoices
      modifies this`targetCount
      ensures Valid() && targetCount == count
    {
      targetCount := count;
    }

    /** `handleSave`: nothing without a name; otherwise insert the habit, and `saved` says whether the page navigates. */
    method Save(db: Store, succeeds: bool) returns (saved: bool)
      requires Keyed(db.habits)
      modifies db`habits
      ensures Keyed(db.habits)
      ensures saved == (name != "" && succeeds)
      ensures db.habits == if saved then Added(old(db.habits), NewHabit(name, frequency, targetCount)) else old(db.habits)
    {
      saved := false;
      if name == "" {
        return;
      }
      if succeeds {
        AddedKeyed(db.habits, NewHabit(name, frequency, targetCount));
        db.habits := Added(db.habits, NewHabit(name, frequency, targetCount));
        saved := true;
      }
    }
  }

  /** A habit saved from a valid form targets 1 to 5 times a week when weekly, and has no target when daily. */
  lemma SavedTargetIsAChoice(name: string, frequency: Frequency, target: int)
    requires target in TargetChoices
    ensures var h := NewHabit(name, frequency, target);
      (h.targetCount.Some? ==> 1 <= h.targetCount.value <= 5) && (frequency == Daily ==> h.targetCount.None?)
  {
  }
}
