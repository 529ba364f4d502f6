/** The nutrition dashboard: today's food logs, their macro totals and the logs grouped by meal. */
module Fuel {
  import opened Wrappers
  import opened Db
  import Seqs
  import Time

  const CalorieGoal := 2500
  const MealOrder: seq<MealType> := [Breakfast, Lunch, Dinner, Snack]

  function IsOn(day: int): NutritionLog -> bool
  {
    (l: NutritionLog) => Time.DayOf(l.date) == day
  }

  /** `nutrition_logs.filter(log => isSameDay(log.date, today))`, in key order. */
  function TodaysLogs(logs: seq<NutritionLog>, today: int): seq<NutritionLog>
  {
    Seqs.Filter(logs, IsOn(today))
  }

  datatype Macros = Macros(calories: int, protein: int, carbs: int, fat: int)

  function Zero(): Macros
  {
    Macros(0, 0, 0, 0)
  }

  /** The reducer: add one log's macros to the running totals. */
  function Plus(acc: Macros, l: NutritionLog): Macros
  {
    Macros(acc.calories + l.calories, acc.protein + l.protein, acc.carbs + l.carbs, acc.fat + l.fat)
  }

  /** `reduce(..., { calories: 0, protein: 0, carbs: 0, fat: 0 })`, folded from the first log. */
  function Fold(logs: seq<NutritionLog>): Macros
  {
    if logs == [] then Zero() else Plus(Fold(logs[..|logs| - 1]), logs[|logs| - 1])
  }

  /** `totals`: zero while the logs are loading. */
  function Totals(logs: Option<seq<NutritionLog>>): Macros
  {
    if logs.None? then Zero() else Fold(logs.value)
  }

  function Calories(l: NutritionLog): int { l.calories }
  function Protein(l: NutritionLog): int { l.protein }
  function Carbs(l: NutritionLog): int { l.carbs }
  function Fat(l: NutritionLog): int { l.fat }

  /** Each total is the sum of that macro over the logs. */
  lemma {:induction false} TotalsAreSums(logs: seq<NutritionLog>)
    ensures Fold(logs) == Macros(Seqs.Sum(logs, Calories), Seqs.Sum(logs, Protein), Seqs.Sum(logs, Carbs), Seqs.Sum(logs, Fat))
  {
    if logs != [] {
      TotalsAreSums(logs[..|logs| - 1]);
    }
  }

  function Add(a: Macros, b: Macros): Macros
  {
    Macros(a.calories + b.calories, a.protein + b.protein, a.carbs + b.carbs, a.fat + b.fat)
  }

  /** The totals of two batches of logs add up. */
  lemma TotalsAppend(a: seq<NutritionLog>, b: seq<NutritionLog>)
    ensures Fold(a + b) == Add(Fold(a), Fold(b))
  {
    TotalsAreSums(a);
    TotalsAreSums(b);
    TotalsAreSums(a + b);
    Seqs.SumAppend(a, b, Calories);
    Seqs.SumAppend(a, b, Protein);
    Seqs.SumAppend(a, b, Carbs);
    Seqs.SumAppend(a, b, Fat);
  }

  /** The calories the ring shows as eaten: capped at the goal. */
  function RingCalories(calories: int): (r: int)
    ensures r <= CalorieGoal
    ensures r == calories || (r == CalorieGoal && calories > CalorieGoal)
  {
    if calories < CalorieGoal then calories else CalorieGoal
  }

  datatype MealGroup = MealGroup(kind: MealType, meals: seq<NutritionLog>)

  function OfKind(kind: MealType): NutritionLog -> bool
  {
    (l: NutritionLog) => l.mealType == kind
  }

  /** The section for one meal kind: absent when that kind has no log. */
  function Section(logs: seq<NutritionLog>, kind: MealType): seq<MealGroup>
  {
    var meals := Seqs.Filter(logs, OfKind(kind));
    if meals == [] then [] else [MealGroup(kind, meals)]
  }

  /** The meal sections for `kinds`, in that order, leaving out each kind with no log. */
  function GroupsOf(logs: seq<NutritionLog>, kinds: seq<MealType>): seq<MealGroup>
  {
    if kinds == [] then [] else Section(logs, kinds[0]) + GroupsOf(logs, kinds[1..])
  }

  /** The meal list: breakfast, lunch, dinner and snack, skipping empty sections; nothing while loading. */
  function MealGroups(logs: Option<seq<NutritionLog>>): seq<MealGroup>
  {
    if logs.None? then [] else GroupsOf(logs.value, MealOrder)
  }

  /** Every section is non-empty, holds only meals of its kind, and comes from `kinds`. */
  lemma {:induction false} GroupsAreHomogeneous(logs: seq<NutritionLog>, kinds: seq<MealType>)
    ensures forall g :: g in GroupsOf(logs, kinds) ==>
      g.kind in kinds && g.meals != [] && forall k :: 0 <= k < |g.meals| ==> g.meals[k].mealType == g.kind
  {
    if kinds != [] {
      GroupsAreHomogeneous(logs, kinds[1..]);
    }
  }

  /** A log of one of `kinds` is listed in the section of its own kind. */
  lemma {:induction false} LogIsInItsSection(logs: seq<NutritionLog>, kinds: seq<MealType>, l: NutritionLog)
    requires l in logs && l.mealType in kinds
    ensures exists g :: g in GroupsOf(logs, kinds) && g.kind == l.mealType && l in g.meals
  {
    if kinds[0] == l.mealType {
      Seqs.FilterMembers(logs, OfKind(kinds[0]), l);
      var g := MealGroup(kinds[0], Seqs.Filter(logs, OfKind(kinds[0])));
      assert g in GroupsOf(logs, kinds);
    } else {
      LogIsInItsSection(logs, kinds[1..], l);
      var g :| g in GroupsOf(logs, kinds[1..]) && g.kind == l.mealType && l in g.meals;
      assert g in GroupsOf(logs, kinds);
    }
  }

  function SectionSizes(groups: seq<MealGroup>): nat
  {
    if groups == [] then 0 else |groups[0].meals| + SectionSizes(groups[1..])
  }

  function KindCount(logs: seq<NutritionLog>, kind: MealType): nat
  {
    |Seqs.Filter(logs, OfKind(kind))|
  }

  function KindCounts(logs: seq<NutritionLog>, kinds: seq<MealType>): nat
  {
    if kinds == [] then 0 else KindCount(logs, kinds[0]) + KindCounts(logs, kinds[1..])
  }

  /** The sections for `kinds` list as many meals as there are logs of those kinds. */
  lemma {:induction false} SectionSizesCountKinds(logs: seq<NutritionLog>, kinds: seq<MealType>)
    ensures SectionSizes(GroupsOf(logs, kinds)) == KindCounts(logs, kinds)
  {
    if kinds != [] {
      SectionSizesCountKinds(logs, kinds[1..]);
      var head := Section(logs, kinds[0]);
      var gs := GroupsOf(logs, kinds);
      if head != [] {
        assert gs[0] == head[0];
        assert gs[1..] == GroupsOf(logs, kinds[1..]);
        assert SectionSizes(gs) == |gs[0].meals| + SectionSizes(gs[1..]);
      } else {
        assert gs == GroupsOf(logs, kinds[1..]);
      }
    }
  }

  /** Every log has exactly one of the four kinds. */
  lemma {:induction false} KindsPartitionLogs(logs: seq<NutritionLog>)
    ensures KindCount(logs, Breakfast) + KindCount(logs, Lunch) + KindCount(logs, Dinner) + KindCount(logs, Snack) == |logs|
  {
    if logs != [] {
      var init := logs[..|logs| - 1];
      var x := logs[|logs| - 1];
      assert logs == init + [x];
      KindsPartitionLogs(init);
      Seqs.FilterSnoc(init, x, OfKind(Breakfast));
      Seqs.FilterSnoc(init, x, OfKind(Lunch));
      Seqs.FilterSnoc(init, x, OfKind(Dinner));
      Seqs.FilterSnoc(init, x, OfKind(Snack));
    }
  }

  /** The sections list every one of today's logs exactly once: their sizes add up to the number of logs. */
  lemma SectionsCoverEveryLogOnce(logs: seq<NutritionLog>)
    ensures SectionSizes(MealGroups(Some(logs))) == |logs|
    ensures forall l :: l in logs ==> exists g :: g in MealGroups(Some(logs)) && g.kind == l.mealType && l in g.meals
  {
    KindsPartitionLogs(logs);
    SectionSizesCountKinds(logs, MealOrder);
    assert KindCounts(logs, [Snack]) == KindCount(logs, Snack) by {
      assert [Snack][1..] == [];
    }
    assert KindCounts(logs, [Dinner, Snack]) == KindCount(logs, Dinner) + KindCount(logs, Snack) by {
      assert [Dinner, Snack][1..] == [Snack];
    }
    assert KindCounts(logs, [Lunch, Dinner, Snack]) == KindCount(logs, Lunch) + KindCount(logs, Dinner) + KindCount(logs, Snack) by {
      assert [Lunch, Dinner, Snack][1..] == [Dinner, Snack];
    }
    assert MealOrder[1..] == [Lunch, Dinner, Snack];
    forall l | l in logs ensures exists g :: g in MealGroups(Some(logs)) && g.kind == l.mealType && l in g.meals {
      LogIsInItsSection(logs, MealOrder, l);
    }
  }

  /** "No food logged today" shows while loading or when today has no log. */
  predicate ShowsEmptyState(logs: Option<seq<NutritionLog>>)
  {
    logs.None? || |logs.value| == 0
  }

  /** The empty message shows exactly when there is no meal section. */
  lemma EmptyStateIffNoSections(logs: Option<seq<NutritionLog>>)
    ensures ShowsEmptyState(logs) <==> MealGroups(logs) == []
  {
    if logs.Some? {
      SectionsCoverEveryLogOnce(logs.value);
      GroupsAreHomogeneous(logs.value, MealOrder);
      var gs := MealGroups(logs);
      if gs != [] {
        assert |gs[0].meals| > 0;
      }
    }
  }
}
