/**
 * The life dashboard: today's daily log, found by its date, and the habit checklist whose ticks
 * are stored as a list of habit keys on that log. Dates are calendar day numbers; the source keys
 * the log by the day formatted as `yyyy-MM-dd`, which names each day once.
 */
module Life {
  import opened Wrappers
  import opened Db
  import Seqs

  function OnDate(day: int): DailyLog -> bool
  {
    (l: DailyLog) => l.date == day
  }

  /** `where('date').equals(today).first()`. */
  function TodayLog(t: TableState<DailyLog>, today: int): Option<Row<DailyLog>>
  {
    FirstWhere(t.rows, OnDate(today))
  }

  /** `todayLog?.habitsCompleted || []`. */
  function CompletedIds(log: Option<Row<DailyLog>>): seq<nat>
  {
    if log.None? then [] else log.value.value.habitsCompleted.GetOr([])
  }

  /** `completedHabitIds.includes(habit.id)`. */
  predicate IsCompleted(log: Option<Row<DailyLog>>, habitId: nat)
  {
    habitId in CompletedIds(log)
  }

  /** `Array.from(new Set(s))`: the first occurrence of each key, in order. */
  function Dedup(s: seq<nat>): (r: seq<nat>)
    ensures Seqs.NoDuplicates(r)
  {
    if s == [] then []
    else
      var d := Dedup(s[..|s| - 1]);
      var x := s[|s| - 1];
      if x in d then d else Seqs.NoDuplicatesAppend(d, x); d + [x]
  }

  lemma {:induction false} DedupMembers(s: seq<nat>, x: nat)
    ensures x in Dedup(s) <==> x in s
  {
    if s != [] {
      DedupMembers(s[..|s| - 1], x);
      assert s == s[..|s| - 1] + [s[|s| - 1]];
    }
  }

  /** A list without duplicates passes through the set unchanged. */
  lemma {:induction false} DedupKeepsDistinct(s: seq<nat>)
    requires Seqs.NoDuplicates(s)
    ensures Dedup(s) == s
  {
    if s != [] {
      var init := s[..|s| - 1];
      DedupKeepsDistinct(init);
      DedupMembers(init, s[|s| - 1]);
      assert s == init + [s[|s| - 1]];
    }
  }

  function Without(s: seq<nat>, h: nat): seq<nat>
  {
    Seqs.Filter(s, (x: nat) => x != h)
  }

  /** The list `toggleHabit` writes: `h` deleted from the set if present, otherwise added at the end. */
  function Toggled(s: seq<nat>, h: nat): seq<nat>
  {
    var d := Dedup(s);
    if h in d then Without(d, h) else d + [h]
  }

  /** Toggling flips the habit's own tick, keeps every other tick, and leaves no key twice. */
  lemma ToggledFlipsOnlyThatHabit(s: seq<nat>, h: nat, g: nat)
    ensures h in Toggled(s, h) <==> h !in s
    ensures g != h ==> (g in Toggled(s, h) <==> g in s)
    ensures Seqs.NoDuplicates(Toggled(s, h))
  {
    var d := Dedup(s);
    DedupMembers(s, h);
    DedupMembers(s, g);
    NoDuplicatesWithout(d, h);
    if h in d {
      Seqs.FilterMembers(d, (x: nat) => x != h, h);
      Seqs.FilterMembers(d, (x: nat) => x != h, g);
    } else {
      Seqs.NoDuplicatesAppend(d, h);
    }
  }

  /** On a list without duplicates, an absent habit goes to the end and a present one is filtered out. */
  lemma ToggledOrder(s: seq<nat>, h: nat)
    requires Seqs.NoDuplicates(s)
    ensures h !in s ==> Toggled(s, h) == s + [h]
    ensures h in s ==> Toggled(s, h) == Without(s, h)
  {
    DedupKeepsDistinct(s);
  }

  /** Removing a habit keeps the other habits in their relative order. */
  lemma RemovalKeepsOrder(a: seq<nat>, b: seq<nat>, h: nat)
    requires Seqs.NoDuplicates(a + [h] + b)
    ensures Toggled(a + [h] + b, h) == a + b
  {
    var s := a + [h] + b;
    DedupKeepsDistinct(s);
    assert s[|a|] == h;
    forall i | 0 <= i < |a| ensures a[i] != h {
      assert s[i] == a[i];
    }
    forall i | 0 <= i < |b| ensures b[i] != h {
      assert s[|a| + 1 + i] == b[i];
    }
    Seqs.FilterAppend(a + [h], b, (x: nat) => x != h);
    Seqs.FilterSnoc(a, h, (x: nat) => x != h);
    Seqs.FilterAll(a, (x: nat) => x != h);
    Seqs.FilterAll(b, (x: nat) => x != h);
  }

  lemma {:induction false} NoDuplicatesWithout(s: seq<nat>, h: nat)
    requires Seqs.NoDuplicates(s)
    ensures Seqs.NoDuplicates(Without(s, h))
  {
    if s != [] {
      var init := s[..|s| - 1];
      var x := s[|s| - 1];
      assert s == init + [x];
      NoDuplicatesWithout(init, h);
      Seqs.FilterSnoc(init, x, (y: nat) => y != h);
      if x != h {
        Seqs.FilterMembers(init, (y: nat) => y != h, x);
        Seqs.NoDuplicatesAppend(Without(init, h), x);
      }
    }
  }

  /** Ticking a habit twice restores the original ticks. */
  lemma ToggleTwiceRestores(s: seq<nat>, h: nat, g: nat)
    ensures g in Toggled(Toggled(s, h), h) <==> g in s
  {
    ToggledFlipsOnlyThatHabit(s, h, g);
    ToggledFlipsOnlyThatHabit(Toggled(s, h), h, g);
  }

  /** On a list without duplicates that lacks `h`, a tick and an untick give back exactly that list. */
  lemma ToggleTwiceIsIdentity(s: seq<nat>, h: nat)
    requires Seqs.NoDuplicates(s) && h !in s
    ensures Toggled(Toggled(s, h), h) == s
  {
    DedupKeepsDistinct(s);
    assert Toggled(s, h) == s + [h];
    Seqs.NoDuplicatesAppend(s, h);
    DedupKeepsDistinct(s + [h]);
    Seqs.FilterSnoc(s, h, (x: nat) => x != h);
    forall i | 0 <= i < |s| ensures s[i] != h { }
    Seqs.FilterAll(s, (x: nat) => x != h);
  }

  /** The update `toggleHabit` applies to an existing log: only `habitsCompleted` changes. */
  function SetHabits(ids: seq<nat>): DailyLog -> DailyLog
  {
    (l: DailyLog) => l.(habitsCompleted := Some(ids))
  }

  /** A log created by ticking a habit on a day without one: the date and the ticks, nothing else. */
  function HabitsOnlyLog(today: int, ids: seq<nat>): DailyLog
  {
    DailyLog(today, None, None, None, None, None, None, Some(ids))
  }

  /** The daily-log table after `toggleHabit(h)`: update today's log, or insert one. */
  function HabitToggled(t: TableState<DailyLog>, today: int, h: nat): TableState<DailyLog>
  {
    var log := TodayLog(t, today);
    var ids := Toggled(CompletedIds(log), h);
    match log
    case Some(row) => Changed(t, row.id, SetHabits(ids))
    case None => Added(t, HabitsOnlyLog(today, ids))
  }

  /** After a toggle, today's log exists and shows the habit's tick flipped and every other tick kept. */
  lemma ToggleFlipsTodaysTick(t: TableState<DailyLog>, today: int, h: nat, g: nat)
    ensures TodayLog(HabitToggled(t, today, h), today).Some?
    ensures IsCompleted(TodayLog(HabitToggled(t, today, h), today), h) == !IsCompleted(TodayLog(t, today), h)
    ensures g != h ==> IsCompleted(TodayLog(HabitToggled(t, today, h), today), g) == IsCompleted(TodayLog(t, today), g)
  {
    var log := TodayLog(t, today);
    var ids := Toggled(CompletedIds(log), h);
    ToggledFlipsOnlyThatHabit(CompletedIds(log), h, g);
    match log
    case Some(row) =>
      FirstWhereChanged(t.rows, row.id, SetHabits(ids), OnDate(today));
    case None =>
      FirstWhereAppend(t.rows, Row(t.nextId, HabitsOnlyLog(today, ids)), OnDate(today));
  }

  /** The natural key: no two daily logs share a date. */
  predicate OneLogPerDay(t: TableState<DailyLog>)
  {
    forall i, j :: 0 <= i < j < |t.rows| ==> t.rows[i].value.date != t.rows[j].value.date
  }

  /** An update that keeps every record's date keeps one log per day. */
  lemma ChangedKeepsOneLogPerDay(t: TableState<DailyLog>, id: nat, change: DailyLog -> DailyLog)
    requires OneLogPerDay(t)
    requires forall l :: change(l).date == l.date
    ensures OneLogPerDay(Changed(t, id, change))
  {
    var r := Changed(t, id, change).rows;
    forall i, j | 0 <= i < j < |r| ensures r[i].value.date != r[j].value.date {
      assert r[i].value.date == t.rows[i].value.date;
      assert r[j].value.date == t.rows[j].value.date;
    }
  }

  /** Inserting a log for a day that has none keeps one log per day. */
  lemma AddedKeepsOneLogPerDay(t: TableState<DailyLog>, l: DailyLog)
    requires OneLogPerDay(t)
    requires FirstWhere(t.rows, OnDate(l.date)).None?
    ensures OneLogPerDay(Added(t, l))
  {
    var r := Added(t, l).rows;
    forall i, j | 0 <= i < j < |r| ensures r[i].value.date != r[j].value.date {
      if j == |t.rows| {
        assert !OnDate(l.date)(t.rows[i].value);
      } else {
        assert r[i] == t.rows[i] && r[j] == t.rows[j];
      }
    }
  }

  /** Toggling keeps one log per day; it adds a row only when today had no log. */
  lemma ToggleKeepsOneLogPerDay(t: TableState<DailyLog>, today: int, h: nat)
    requires OneLogPerDay(t)
    ensures OneLogPerDay(HabitToggled(t, today, h))
    ensures |HabitToggled(t, today, h).rows| == |t.rows| + (if TodayLog(t, today).None? then 1 else 0)
  {
    var log := TodayLog(t, today);
    var ids := Toggled(CompletedIds(log), h);
    match log
    case Some(row) =>
      ChangedKeepsOneLogPerDay(t, row.id, SetHabits(ids));
    case None =>
      AddedKeepsOneLogPerDay(t, HabitsOnlyLog(today, ids));
  }

  /**
   * `toggleHabit(habitId)` against today's log. A rejected write stops the handler
   * (nothing catches it), and the logs are as before.
   */
  method ToggleHabit(db: Store, today: int, habitId: nat, succeeds: bool)
    requires Keyed(db.dailyLogs)
    modifies db`dailyLogs
    ensures Keyed(db.dailyLogs)
    ensures db.dailyLogs == if succeeds then HabitToggled(old(db.dailyLogs), today, habitId) else old(db.dailyLogs)
  {
    if !succeeds {
      return;
    }
    var log := TodayLog(db.dailyLogs, today);
    var ids := Toggled(CompletedIds(log), habitId);
    if log.Some? {
      ChangedKeepsOtherRows(db.dailyLogs, log.value.id, SetHabits(ids));
      db.dailyLogs := Changed(db.dailyLogs, log.value.id, SetHabits(ids));
    } else {
      AddedKeyed(db.dailyLogs, HabitsOnlyLog(today, ids));
      db.dailyLogs := Added(db.dailyLogs, HabitsOnlyLog(today, ids));
    }
  }
}
