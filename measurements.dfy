/** The body measurements screen: a form of optional numbers and the history of saved entries. */
module Measurements {
  import opened Wrappers
  import opened Db
  import Seqs

  function DateOf(m: Measurement): int
  {
    m.date
  }

  /** `orderBy('date').reverse()`: the entries, latest first. */
  function History(entries: seq<Measurement>): (r: seq<Measurement>)
    ensures Seqs.SortedDesc(r, DateOf) && multiset(r) == multiset(entries)
  {
    Seqs.SortDesc(entries, DateOf)
  }

  /** An entry dated no earlier than every stored one heads the history once it is saved. */
  lemma LatestEntryLeadsHistory(t: TableState<Measurement>, m: Measurement)
    requires forall i :: 0 <= i < |t.rows| ==> t.rows[i].value.date <= m.date
    ensures History(Values(Added(t, m).rows)) != []
    ensures History(Values(Added(t, m).rows))[0].date == m.date
  {
    var before := Values(t.rows);
    var vs := Values(Added(t, m).rows);
    ValuesAdded(t, m);
    assert vs == before + [m];
    forall i | 0 <= i < |vs| ensures DateOf(vs[i]) <= DateOf(vs[|before|]) {
      if i < |before| {
        assert vs[i] == t.rows[i].value;
      }
    }
    Seqs.SortDescHead(vs, DateOf, |before|);
  }

  class Form {
    /** Each field holds the number typed in, or `None` while its text box is empty. */
    var weight: Option<int>
    var bodyFat: Option<int>
    var chest: Option<int>
    var waist: Option<int>
    var arms: Option<int>
    var legs: Option<int>

    constructor ()
      ensures weight.None? && bodyFat.None? && chest.None? && waist.None? && arms.None? && legs.None?
    {
      weight, bodyFat, chest, waist, arms, legs := None, None, None, None, None, None;
    }

    /** The entry `handleSave` inserts: the weight, the other fields only when filled in, no notes. */
    function Entry(now: int): Measurement
      reads this
    {
      Measurement(now, weight, bodyFat, chest, waist, arms, legs, None)
    }

    /**
     * `handleSave`: nothing happens without a weight. Otherwise one entry is inserted; on success
     * every field is cleared, on failure the form keeps its contents.
     */
    method Save(db: Store, now: int, succeeds: bool)
      requires Keyed(db.measurements)
      modifies db`measurements, this
      ensures Keyed(db.measurements)
      ensures old(weight).Some? && succeeds ==>
        && db.measurements == Added(old(db.measurements), old(Entry(now)))
        && weight.None? && bodyFat.None? && chest.None? && waist.None? && arms.None? && legs.None?
      ensures !(old(weight).Some? && succeeds) ==>
        && db.measurements == old(db.measurements)
        && weight == old(weight) && bodyFat == old(bodyFat) && chest == old(chest)
        && waist == old(waist) && arms == old(arms) && legs == old(legs)
    {
      if weight.None? {
        return;
      }
      if succeeds {
        db.measurements := Added(db.measurements, Entry(now));
        weight, bodyFat, chest, waist, arms, legs := None, None, None, None, None, None;
      }
    }
  }
}
