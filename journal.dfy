/** The journal: the daily logs that carry notes, newest first, each with a mood face. */
module Journal {
  import opened Wrappers
  import opened Db
  import Seqs
  import CheckIn

  /** `!!log.notes && log.notes.length > 0`. */
  predicate HasNotes(r: Row<DailyLog>)
  {
    r.value.notes.Some? && |r.value.notes.value| > 0
  }

  /** `daily_logs.filter(...).reverse()`: the logs with notes, walking the keys downwards. */
  function Entries(rows: seq<Row<DailyLog>>): seq<Row<DailyLog>>
  {
    Seqs.Filter(Seqs.Reverse(rows), HasNotes)
  }

  /** Keys strictly decrease along `s`. */
  predicate KeysDescend(s: seq<Row<DailyLog>>)
  {
    forall i, j :: 0 <= i < j < |s| ==> s[i].id > s[j].id
  }

  lemma {:induction false} FilterKeepsDescent(s: seq<Row<DailyLog>>)
    requires KeysDescend(s)
    ensures KeysDescend(Seqs.Filter(s, HasNotes))
  {
    if s != [] {
      var init := s[..|s| - 1];
      var x := s[|s| - 1];
      assert s == init + [x];
      FilterKeepsDescent(init);
      Seqs.FilterSnoc(init, x, HasNotes);
      var f := Seqs.Filter(init, HasNotes);
      forall i | 0 <= i < |f| ensures f[i].id > x.id {
        Seqs.FilterMembers(init, HasNotes, f[i]);
      }
    }
  }

  /**
   * The journal lists exactly the logs with notes, newest key first: the reverse of the logs with
   * notes in key order.
   */
  lemma EntriesAreNewestFirst(t: TableState<DailyLog>)
    requires Keyed(t)
    ensures Entries(t.rows) == Seqs.Reverse(Seqs.Filter(t.rows, HasNotes))
    ensures KeysDescend(Entries(t.rows))
    ensures forall r :: r in Entries(t.rows) <==> r in t.rows && HasNotes(r)
  {
    Seqs.FilterReverse(t.rows, HasNotes);
    FilterKeepsDescent(Seqs.Reverse(t.rows));
    forall r ensures r in Entries(t.rows) <==> r in t.rows && HasNotes(r) {
      Seqs.FilterMembers(Seqs.Reverse(t.rows), HasNotes, r);
      if r in t.rows {
        var i :| 0 <= i < |t.rows| && t.rows[i] == r;
        assert Seqs.Reverse(t.rows)[|t.rows| - 1 - i] == r;
      }
    }
  }

  /** "Empty Journal" shows exactly when no log has notes (or while loading). */
  predicate ShowsEmptyState(logs: Option<seq<Row<DailyLog>>>)
  {
    logs.None? || Entries(logs.value) == []
  }

  lemma EmptyStateIffNoNotes(rows: seq<Row<DailyLog>>)
    ensures ShowsEmptyState(Some(rows)) <==> forall i :: 0 <= i < |rows| ==> !HasNotes(rows[i])
  {
    forall i | 0 <= i < |rows| ensures HasNotes(rows[i]) ==> Entries(rows) != [] {
      Seqs.FilterMembers(Seqs.Reverse(rows), HasNotes, rows[i]);
      assert Seqs.Reverse(rows)[|rows| - 1 - i] == rows[i];
    }
    if Entries(rows) != [] {
      var e := Entries(rows)[0];
      Seqs.FilterMembers(Seqs.Reverse(rows), HasNotes, e);
      var k :| 0 <= k < |rows| && Seqs.Reverse(rows)[k] == e;
      assert rows[|rows| - 1 - k] == e;
    }
  }

  /** What `{log.mood && ...}` renders: nothing, the bare number 0, or one of three faces. */
  datatype MoodBadge = NoBadge | ZeroText | Frown | Meh | Smile

  function Badge(mood: Option<int>): MoodBadge
  {
    match mood
    case None => NoBadge
    case Some(m) => if m == 0 then ZeroText else if m <= 2 then Frown else if m == 3 then Meh else Smile
  }

  /**
   * The chained choice agrees with the three separate tests the markup makes: a face shows only
   * for a non-zero mood, and then exactly the face whose test holds; a zero mood shows as text.
   */
  lemma BadgeFollowsTheThreeTests(mood: Option<int>)
    ensures Badge(mood) == NoBadge <==> mood.None?
    ensures Badge(mood) == ZeroText <==> mood == Some(0)
    ensures Badge(mood) == Frown <==> mood.Some? && mood.value != 0 && mood.value <= 2
    ensures Badge(mood) == Meh <==> mood.Some? && mood.value == 3
    ensures Badge(mood) == Smile <==> mood.Some? && mood.value >= 4
  {
  }

  /** Every mood a check-in saves is shown as a face: frown for 1 and 2, neutral for 3, smile for 4 and 5. */
  lemma CheckedInMoodShowsAFace(mood: Option<int>)
    requires mood.None? || mood.value in CheckIn.MoodChoices
    ensures var b := Badge(Some(CheckIn.MoodOrDefault(mood)));
      && (b == Frown <==> CheckIn.MoodOrDefault(mood) <= 2)
      && (b == Meh <==> CheckIn.MoodOrDefault(mood) == 3)
      && (b == Smile <==> CheckIn.MoodOrDefault(mood) >= 4)
  {
    CheckIn.SavedMoodIsAChoice(mood);
  }
}
