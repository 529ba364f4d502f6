/**
 * The daily check-in form: sleep, energy, mood, sore muscles and notes, saved into today's daily
 * log, which is updated when it exists and inserted otherwise.
 */
module CheckIn {
  import opened Wrappers
  import opened Db
  import Seqs
  import Life

  const DefaultSleepHours := 7
  const DefaultEnergy := 5
  const SleepMax := 12
  const EnergyMax := 10
  const DefaultMood := 3
  const MoodChoices: seq<int> := [1, 2, 3, 4, 5]
  const Muscles: seq<string> := ["Legs", "Back", "Chest", "Arms", "Shoulders", "Core"]

  /** `mood || 3`: an unpicked mood (or a zero) is saved as 3. */
  function MoodOrDefault(mood: Option<int>): (r: int)
    ensures r != 0
    ensures mood.Some? && mood.value != 0 ==> r == mood.value
    ensures mood.None? || mood.value == 0 ==> r == DefaultMood
  {
    if mood.None? || mood.value == 0 then DefaultMood else mood.value
  }

  /** Whatever the form holds, a mood picked from the five buttons or none at all saves a mood from 1 to 5. */
  lemma SavedMoodIsAChoice(mood: Option<int>)
    requires mood.None? || mood.value in MoodChoices
    ensures MoodOrDefault(mood) in MoodChoices
    ensures 1 <= MoodOrDefault(mood) <= 5
  {
  }

  /** `toggleSoreness`: drop the muscle if listed, otherwise append it. */
  function ToggledSoreness(s: seq<string>, muscle: string): seq<string>
  {
    if muscle in s then Seqs.Filter(s, (m: string) => m != muscle) else s + [muscle]
  }

  /** A toggle flips that muscle's membership, keeps the others, and never lists a muscle twice. */
  lemma ToggledSorenessFlips(s: seq<string>, muscle: string, other: string)
    requires Seqs.NoDuplicates(s)
    ensures muscle in ToggledSoreness(s, muscle) <==> muscle !in s
    ensures other != muscle ==> (other in ToggledSoreness(s, muscle) <==> other in s)
    ensures Seqs.NoDuplicates(ToggledSoreness(s, muscle))
  {
    if muscle in s {
      Seqs.FilterMembers(s, (m: string) => m != muscle, muscle);
      Seqs.FilterMembers(s, (m: string) => m != muscle, other);
      FilterKeepsDistinct(s, (m: string) => m != muscle);
    } else {
      Seqs.NoDuplicatesAppend(s, muscle);
    }
  }

  lemma {:induction false} FilterKeepsDistinct(s: seq<string>, p: string -> bool)
    requires Seqs.NoDuplicates(s)
    ensures Seqs.NoDuplicates(Seqs.Filter(s, p))
  {
    if s != [] {
      var init := s[..|s| - 1];
      var x := s[|s| - 1];
      assert s == init + [x];
      FilterKeepsDistinct(init, p);
      Seqs.FilterSnoc(init, x, p);
      if p(x) {
        Seqs.FilterMembers(init, p, x);
        Seqs.NoDuplicatesAppend(Seqs.Filter(init, p), x);
      }
    }
  }

  /** Tapping a muscle that was not sore twice gives back exactly the same list. */
  lemma ToggleSorenessTwiceIsIdentity(s: seq<string>, muscle: string)
    requires muscle !in s
    ensures ToggledSoreness(ToggledSoreness(s, muscle), muscle) == s
  {
    Seqs.FilterSnoc(s, muscle, (m: string) => m != muscle);
    forall i | 0 <= i < |s| ensures s[i] != muscle { }
    Seqs.FilterAll(s, (m: string) => m != muscle);
  }

  /** What the check-in saves. */
  datatype Answers = Answers(sleepHours: int, energy: int, mood: Option<int>, soreness: seq<string>, notes: string)

  /** The update applied to an existing log: every answer, with the mood defaulted; date, sleep quality and ticks stay. */
  function Update(a: Answers): DailyLog -> DailyLog
  {
    (l: DailyLog) => l.(sleepHours := Some(a.sleepHours), energy := Some(a.energy),
                        mood := Some(MoodOrDefault(a.mood)), soreness := Some(a.soreness), notes := Some(a.notes))
  }

  /** The log inserted on a day without one: every answer and an empty tick list. */
  function NewLog(today: int, a: Answers): DailyLog
  {
    DailyLog(today, Some(a.sleepHours), None, Some(MoodOrDefault(a.mood)), Some(a.energy),
             Some(a.soreness), Some(a.notes), Some([]))
  }

  /** The daily-log table after `handleSave`. */
  function CheckedIn(t: TableState<DailyLog>, today: int, a: Answers): TableState<DailyLog>
  {
    match Life.TodayLog(t, today)
    case Some(row) => Changed(t, row.id, Update(a))
    case None => Added(t, NewLog(today, a))
  }

  /**
   * Saving a check-in keeps one log per day and adds a row only for a new day. Afterwards today's
   * log holds the answers; an existing log keeps its habit ticks and sleep quality.
   */
  lemma CheckInUpserts(t: TableState<DailyLog>, today: int, a: Answers)
    requires Life.OneLogPerDay(t)
    ensures Life.OneLogPerDay(CheckedIn(t, today, a))
    ensures |CheckedIn(t, today, a).rows| == |t.rows| + (if Life.TodayLog(t, today).None? then 1 else 0)
    ensures var after := Life.TodayLog(CheckedIn(t, today, a), today);
      && after.Some?
      && after.value.value.sleepHours == Some(a.sleepHours) && after.value.value.energy == Some(a.energy)
      && after.value.value.mood == Some(MoodOrDefault(a.mood)) && after.value.value.soreness == Some(a.soreness)
      && after.value.value.notes == Some(a.notes)
      && after.value.value.habitsCompleted == (match Life.TodayLog(t, today)
                                               case Some(row) => row.value.habitsCompleted
                                               case None => Some([]))
  {
    match Life.TodayLog(t, today)
    case Some(row) =>
      Life.ChangedKeepsOneLogPerDay(t, row.id, Update(a));
      FirstWhereChanged(t.rows, row.id, Update(a), Life.OnDate(today));
    case None =>
      Life.AddedKeepsOneLogPerDay(t, NewLog(today, a));
      FirstWhereAppend(t.rows, Row(t.nextId, NewLog(today, a)), Life.OnDate(today));
  }

  class Form {
    var sleepHours: int
    var energy: int
    var mood: Option<int>
    var soreness: seq<string>
    var notes: string

    /** The ranges the sliders and buttons allow. */
    ghost predicate Valid()
      reads this
    {
      && 0 <= sleepHours <= SleepMax && 0 <= energy <= EnergyMax
      && (mood.None? || mood.value in MoodChoices) && Seqs.NoDuplicates(soreness)
    }

    constructor ()
      ensures Valid()
      ensures sleepHours == DefaultSleepHours && energy == DefaultEnergy && mood.None?
      ensures soreness == [] && notes == ""
    {
      sleepHours, energy, mood, soreness, notes := DefaultSleepHours, DefaultEnergy, None, [], "";
    }

    function Current(): Answers
      reads this
    {
      Answers(sleepHours, energy, mood, soreness, notes)
    }

    method SetSleep(hours: int)
      requires Valid() && 0 <= hours <= SleepMax
      modifies this`sleepHours
      ensures Valid() && sleepHours == hours
    {
      sleepHours := hours;
    }

    method SetEnergy(level: int)
      requires Valid() && 0 <= level <= EnergyMax
      modifies this`energy
      ensures Valid() && energy == level
    {
      energy := level;
    }

    method SetMood(level: int)
      requires Valid() && level in MoodChoices
      modifies this`mood
      ensures Valid() && mood == Some(level)
    {
      mood := Some(level);
    }

    method ToggleSoreness(muscle: string)
      requires Valid()
      modifies this`soreness
      ensures Valid() && soreness == ToggledSoreness(old(soreness), muscle)
    {
      ToggledSorenessFlips(soreness, muscle, muscle);
      soreness := ToggledSoreness(soreness, muscle);
    }

    /**
     * `handleSave`: update or insert today's log with the current answers. A failed read or write is
     * only logged, and the table is as before.
     */
    method Save(db: Store, today: int, succeeds: bool)
      requires Keyed(db.dailyLogs)
      modifies db`dailyLogs
      ensures Keyed(db.dailyLogs)
      ensures db.dailyLogs == if succeeds then CheckedIn(old(db.dailyLogs), today, Current()) else old(db.dailyLogs)
    {
      if !succeeds {
        return;
      }
      var existing := Life.TodayLog(db.dailyLogs, today);
      if existing.Some? {
        ChangedKeepsOtherRows(db.dailyLogs, existing.value.id, Update(Current()));
        db.dailyLogs := Changed(db.dailyLogs, existing.value.id, Update(Current()));
      } else {
        AddedKeyed(db.dailyLogs, NewLog(today, Current()));
        db.dailyLogs := Added(db.dailyLogs, NewLog(today, Current()));
      }
    }
  }
}
