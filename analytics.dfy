/** The progress screen: seven days of training volume and the heaviest set of each exercise. */
module Analytics {
  import opened Wrappers
  import opened Db
  import Seqs
  import Time

  /** The chart covers seven days. */
  function WindowDays(): nat
  {
    7
  }

  /** The volume of one set, `weight * reps`. */
  function Volume(s: SetLog): int
  {
    s.weight * s.reps
  }

  /** The calendar day a set was logged on. */
  function DayOfSet(s: SetLog): int
  {
    Time.DayOf(s.timestamp)
  }

  /** The volume of one day: the sum of `weight * reps` over the sets logged on it (`isSameDay`). */
  function DayVolume(sets: seq<SetLog>, day: int): int
  {
    Seqs.SumAt(sets, DayOfSet, Volume, day)
  }

  /** The first day of the chart: six days before `today`. */
  function FirstDay(today: int): int
  {
    today - (WindowDays() - 1)
  }

  /**
   * `volumeData`: the volumes of the seven days ending today, oldest first; seven zeros while the
   * sets are still loading.
   */
  function VolumeData(sets: Option<seq<SetLog>>, today: int): (r: seq<int>)
    ensures |r| == WindowDays()
    ensures sets.None? ==> forall i :: 0 <= i < |r| ==> r[i] == 0
  {
    match sets
    case None => seq(WindowDays(), _ => 0)
    case Some(s) => Seqs.Series((day: int) => DayVolume(s, day), FirstDay(today), WindowDays())
  }

  /** Bar `i` shows the volume of the day `i` days after the first one, the last bar being today. */
  lemma BarIsDayVolume(sets: seq<SetLog>, today: int, i: nat)
    requires i < WindowDays()
    ensures VolumeData(Some(sets), today)[i] == DayVolume(sets, FirstDay(today) + i)
    ensures FirstDay(today) + (WindowDays() - 1) == today
  {
    Seqs.SeriesAt((day: int) => DayVolume(sets, day), FirstDay(today), WindowDays(), i);
  }

  /** `totalWeeklyVolume`. */
  function TotalWeeklyVolume(volumes: seq<int>): int
  {
    Seqs.Sum(volumes, Seqs.Identity)
  }

  /** The weekly total is the volume of exactly the sets logged from six days ago through today. */
  lemma WeeklyTotalIsWindowVolume(sets: seq<SetLog>, today: int)
    ensures TotalWeeklyVolume(VolumeData(Some(sets), today))
         == Seqs.Sum(Seqs.Filter(sets, Seqs.KeyIn(DayOfSet, FirstDay(today), today + 1)), Volume)
  {
    Seqs.SeriesOfSumsTotal((day: int) => DayVolume(sets, day), sets, DayOfSet, Volume, FirstDay(today), WindowDays());
  }

  /**
   * `reduce((prev, current) => prev.weight > current.weight ? prev : current)`: the position of the
   * heaviest set; among equally heavy sets the later one wins.
   */
  function MaxWeightIndex(s: seq<SetLog>): (k: nat)
    requires |s| > 0
    ensures k < |s|
    ensures forall i :: 0 <= i < |s| ==> s[i].weight <= s[k].weight
    ensures forall j :: k < j < |s| ==> s[j].weight < s[k].weight
  {
    if |s| == 1 then 0
    else
      var k := MaxWeightIndex(s[..|s| - 1]);
      if s[k].weight > s[|s| - 1].weight then k else |s| - 1
  }

  datatype PR = PR(exercise: string, weight: int, date: int)

  function SetsFor(sets: seq<SetLog>, exerciseId: nat): seq<SetLog>
  {
    Seqs.Filter(sets, (s: SetLog) => s.exerciseId == exerciseId)
  }

  /** Every set of exercise `id` after position `i` is strictly lighter than the set at `i`. */
  predicate LighterAfter(sets: seq<SetLog>, id: nat, i: nat)
  {
    i < |sets| && forall j :: i < j < |sets| && sets[j].exerciseId == id ==> sets[j].weight < sets[i].weight
  }

  /** Where the reduce's winner sits among all the sets: every later set of the exercise is strictly lighter. */
  lemma {:induction false} HeaviestSetPosition(sets: seq<SetLog>, id: nat)
    requires SetsFor(sets, id) != []
    ensures exists i: nat :: LighterAfter(sets, id, i) && sets[i] == SetsFor(sets, id)[MaxWeightIndex(SetsFor(sets, id))]
  {
    var init := sets[..|sets| - 1];
    var x := sets[|sets| - 1];
    var own := SetsFor(sets, id);
    var last := |sets| - 1;
    var winner := own[MaxWeightIndex(own)];
    if x.exerciseId != id {
      assert own == SetsFor(init, id);
      HeaviestSetPosition(init, id);
      var i: nat :| LighterAfter(init, id, i) && init[i] == winner;
      LighterAfterSnoc(sets, id, i);
      assert sets[i] == winner;
    } else {
      var own' := SetsFor(init, id);
      assert own == own' + [x];
      if own' != [] && own'[MaxWeightIndex(own')].weight > x.weight {
        assert own[..|own| - 1] == own';
        HeaviestSetPosition(init, id);
        var i: nat :| LighterAfter(init, id, i) && init[i] == own'[MaxWeightIndex(own')];
        LighterAfterSnoc(sets, id, i);
        assert sets[i] == winner;
      } else {
        assert own' != [] ==> own[..|own| - 1] == own';
        assert LighterAfter(sets, id, last) && sets[last] == winner;
      }
    }
  }

  lemma LighterAfterSnoc(sets: seq<SetLog>, id: nat, i: nat)
    requires sets != [] && LighterAfter(sets[..|sets| - 1], id, i)
    requires sets[|sets| - 1].exerciseId == id ==> sets[|sets| - 1].weight < sets[i].weight
    ensures LighterAfter(sets, id, i)
  {
    forall j | i < j < |sets| && sets[j].exerciseId == id
      ensures sets[j].weight < sets[i].weight
    {
      if j < |sets| - 1 {
        assert sets[j] == sets[..|sets| - 1][j];
      }
    }
  }

  /**
   * The record of one exercise that has sets: its name, and the weight and time of its heaviest set,
   * the latest one among equally heavy sets.
   */
  function RecordOf(e: Row<Exercise>, sets: seq<SetLog>): (r: PR)
    requires SetsFor(sets, e.id) != []
    ensures r.exercise == e.value.name
    ensures exists i :: 0 <= i < |sets| && sets[i].exerciseId == e.id
                        && sets[i].weight == r.weight && sets[i].timestamp == r.date
                        && forall j :: i < j < |sets| && sets[j].exerciseId == e.id ==> sets[j].weight < r.weight
    ensures forall i :: 0 <= i < |sets| && sets[i].exerciseId == e.id ==> sets[i].weight <= r.weight
  {
    var own := SetsFor(sets, e.id);
    var k := MaxWeightIndex(own);
    HeaviestSetPosition(sets, e.id);
    forall i | 0 <= i < |sets| && sets[i].exerciseId == e.id ensures sets[i].weight <= own[k].weight {
      Seqs.FilterMembers(sets, (s: SetLog) => s.exerciseId == e.id, sets[i]);
    }
    PR(e.value.name, own[k].weight, own[k].timestamp)
  }

  /** `exercises.map(...)` followed by `filter(Boolean)`: exercises without sets yield no entry. */
  function RecordsOf(exercises: seq<Row<Exercise>>, sets: seq<SetLog>): seq<PR>
  {
    if exercises == [] then []
    else
      var e := exercises[|exercises| - 1];
      RecordsOf(exercises[..|exercises| - 1], sets) + (if SetsFor(sets, e.id) == [] then [] else [RecordOf(e, sets)])
  }

  /** `prs`: empty until both the sets and the exercises have loaded. */
  function PRs(sets: Option<seq<SetLog>>, exercises: Option<seq<Row<Exercise>>>): seq<PR>
  {
    if sets.None? || exercises.None? then [] else RecordsOf(exercises.value, sets.value)
  }

  function HasSets(sets: seq<SetLog>): Row<Exercise> -> bool
  {
    (e: Row<Exercise>) => SetsFor(sets, e.id) != []
  }

  /** The records are, in catalog order, one for each exercise that has at least one set. */
  lemma {:induction false} RecordsFollowCatalog(exercises: seq<Row<Exercise>>, sets: seq<SetLog>)
    ensures var with := Seqs.Filter(exercises, HasSets(sets));
      |RecordsOf(exercises, sets)| == |with|
      && forall i :: 0 <= i < |with| ==> RecordsOf(exercises, sets)[i] == RecordOf(with[i], sets)
  {
    if exercises != [] {
      var init := exercises[..|exercises| - 1];
      var e := exercises[|exercises| - 1];
      assert exercises == init + [e];
      RecordsFollowCatalog(init, sets);
      Seqs.FilterSnoc(init, e, HasSets(sets));
      var before := RecordsOf(init, sets);
      var w := Seqs.Filter(init, HasSets(sets));
      if SetsFor(sets, e.id) != [] {
        assert RecordsOf(exercises, sets) == before + [RecordOf(e, sets)];
        assert Seqs.Filter(exercises, HasSets(sets)) == w + [e];
      } else {
        assert RecordsOf(exercises, sets) == before;
        assert Seqs.Filter(exercises, HasSets(sets)) == w;
      }
    }
  }
}
