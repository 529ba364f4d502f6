/**
 * The server's workout sync endpoint: inside one transaction, each incoming workout is
 * inserted or, when its modification time is strictly newer than the stored one, written
 * over the stored row (last write wins); a row that fails is skipped, and the transaction
 * is committed at the end.
 */
module Sync {
  import opened Wrappers

  /** Workout and user ids; their UUID bytes do not matter here. */
  type Uuid = nat

  /** The embedding vector stored with a workout; absent when it could not be generated. */
  type Embedding = Option<seq<int>>

  /** One incoming workout. Instants are integers; the volume is a whole number. */
  datatype WorkoutSync = WorkoutSync(id: Uuid, userId: Uuid, name: string, startTime: int,
                                     endTime: Option<int>, status: string, volumeKg: Option<int>,
                                     lastModified: int)

  /** A row of the server's `workouts` table, keyed by id. */
  datatype ServerWorkout = ServerWorkout(userId: Uuid, name: string, startTime: int, endTime: Option<int>,
                                         status: string, volumeKg: Option<int>, createdAt: int,
                                         embedding: Embedding)

  type WorkoutTable = map<Uuid, ServerWorkout>

  /** The row the `INSERT` writes, its `created_at` taken from the incoming `last_modified`. */
  function Inserted(w: WorkoutSync, e: Embedding): ServerWorkout
  {
    ServerWorkout(w.userId, w.name, w.startTime, w.endTime, w.status, w.volumeKg, w.lastModified, e)
  }

  /** The `DO UPDATE SET` clause: every column but the id and the owner. */
  function Overwritten(stored: ServerWorkout, w: WorkoutSync, e: Embedding): ServerWorkout
  {
    stored.(name := w.name, startTime := w.startTime, endTime := w.endTime, status := w.status,
         volumeKg := w.volumeKg, createdAt := w.lastModified, embedding := e)
  }

  /** `INSERT ... ON CONFLICT (id) DO UPDATE ... WHERE workouts.created_at < EXCLUDED.created_at`. */
  function Upsert(t: WorkoutTable, w: WorkoutSync, e: Embedding): WorkoutTable
  {
    if w.id !in t then t[w.id := Inserted(w, e)]
    else if t[w.id].createdAt < w.lastModified then t[w.id := Overwritten(t[w.id], w, e)]
    else t
  }

  /** A new id is inserted with `created_at` set to the incoming `last_modified`. */
  lemma UpsertInsertsNewId(t: WorkoutTable, w: WorkoutSync, e: Embedding)
    requires w.id !in t
    ensures w.id in Upsert(t, w, e)
    ensures Upsert(t, w, e)[w.id].createdAt == w.lastModified && Upsert(t, w, e)[w.id].userId == w.userId
  {
  }

  /**
   * A stored row is replaced only by a strictly newer write, keeping its owner; an equal or
   * older write leaves it as it was. Every other id is untouched.
   */
  lemma UpsertLastWriteWins(t: WorkoutTable, w: WorkoutSync, e: Embedding)
    requires w.id in t
    ensures var r := Upsert(t, w, e);
      r.Keys == t.Keys
      && (t[w.id].createdAt < w.lastModified ==>
            r[w.id] == ServerWorkout(t[w.id].userId, w.name, w.startTime, w.endTime, w.status, w.volumeKg,
                                     w.lastModified, e))
      && (w.lastModified <= t[w.id].createdAt ==> r[w.id] == t[w.id])
      && forall k :: k in t && k != w.id ==> r[k] == t[k]
  {
  }

  /** The stored `created_at` never decreases, and after the upsert it is at least the incoming time. */
  lemma UpsertKeepsMaxStamp(t: WorkoutTable, w: WorkoutSync, e: Embedding)
    ensures w.id in Upsert(t, w, e)
    ensures w.id in t ==> Upsert(t, w, e)[w.id].createdAt == Max(t[w.id].createdAt, w.lastModified)
    ensures w.id !in t ==> Upsert(t, w, e)[w.id].createdAt == w.lastModified
  {
  }

  function Max(a: int, b: int): int
  {
    if a < b then b else a
  }

  /** The loop: payload rows in order, each upserted unless its statement fails (position in `failing`). */
  function ApplyAll(t: WorkoutTable, ws: seq<WorkoutSync>, embed: WorkoutSync -> Embedding, failing: set<nat>): WorkoutTable
  {
    if ws == [] then t
    else
      var before := ApplyAll(t, ws[..|ws| - 1], embed, failing);
      if |ws| - 1 in failing then before else Upsert(before, ws[|ws| - 1], embed(ws[|ws| - 1]))
  }

  /** The payload rows whose statement succeeds, in payload order. */
  function Kept(ws: seq<WorkoutSync>, failing: set<nat>): (r: seq<WorkoutSync>)
    ensures |r| <= |ws|
  {
    if ws == [] then []
    else Kept(ws[..|ws| - 1], failing) + (if |ws| - 1 in failing then [] else [ws[|ws| - 1]])
  }

  /** Best effort: the outcome is that of the succeeding rows alone, applied in order. */
  lemma {:induction false} FailedRowsAreSkipped(t: WorkoutTable, ws: seq<WorkoutSync>, embed: WorkoutSync -> Embedding, failing: set<nat>)
    ensures ApplyAll(t, ws, embed, failing) == ApplyAll(t, Kept(ws, failing), embed, {})
  {
    if ws != [] {
      var init := ws[..|ws| - 1];
      FailedRowsAreSkipped(t, init, embed, failing);
      var k := Kept(init, failing);
      if |ws| - 1 !in failing {
        var k' := k + [ws[|ws| - 1]];
        assert Kept(ws, failing) == k';
        assert k'[..|k'| - 1] == k;
      } else {
        assert Kept(ws, failing) == k + [];
        assert k + [] == k;
      }
    }
  }

  /** The `last_modified` values the succeeding rows bring for `id`, in payload order. */
  function Stamps(ws: seq<WorkoutSync>, failing: set<nat>, id: Uuid): seq<int>
  {
    if ws == [] then []
    else
      var w := ws[|ws| - 1];
      Stamps(ws[..|ws| - 1], failing, id) + (if |ws| - 1 !in failing && w.id == id then [w.lastModified] else [])
  }

  /** The largest of a prior stamp (if any) and a list of stamps; `None` when there is neither. */
  function MaxStamp(prior: Option<int>, stamps: seq<int>): (r: Option<int>)
    ensures r.None? <==> prior.None? && stamps == []
    ensures r.Some? ==> (prior.Some? ==> prior.value <= r.value) && (forall i :: 0 <= i < |stamps| ==> stamps[i] <= r.value)
    ensures r.Some? ==> (prior == Some(r.value) || exists i :: 0 <= i < |stamps| && stamps[i] == r.value)
  {
    if stamps == [] then prior
    else
      var m := MaxStamp(prior, stamps[..|stamps| - 1]);
      var s := stamps[|stamps| - 1];
      assert forall i :: 0 <= i < |stamps| - 1 ==> stamps[i] == stamps[..|stamps| - 1][i];
      if m.Some? && s <= m.value then m else Some(s)
  }

  function StampOf(t: WorkoutTable, id: Uuid): Option<int>
  {
    if id in t then Some(t[id].createdAt) else None
  }

  /**
   * After the loop, an id's `created_at` is the maximum of its prior value and every
   * `last_modified` a succeeding row brought for it; an id is present iff it was before or
   * some succeeding row brought it.
   */
  lemma {:induction false} FinalStampIsMaximum(t: WorkoutTable, ws: seq<WorkoutSync>, embed: WorkoutSync -> Embedding, failing: set<nat>, id: Uuid)
    ensures StampOf(ApplyAll(t, ws, embed, failing), id) == MaxStamp(StampOf(t, id), Stamps(ws, failing, id))
  {
    if ws != [] {
      var init := ws[..|ws| - 1];
      var w := ws[|ws| - 1];
      var before := ApplyAll(t, init, embed, failing);
      FinalStampIsMaximum(t, init, embed, failing, id);
      var st := Stamps(init, failing, id);
      if |ws| - 1 !in failing {
        if w.id == id {
          UpsertKeepsMaxStamp(before, w, embed(w));
          assert Stamps(ws, failing, id) == st + [w.lastModified];
          assert (st + [w.lastModified])[..|st|] == st;
        } else {
          assert Stamps(ws, failing, id) == st;
        }
      } else {
        assert Stamps(ws, failing, id) == st;
      }
    }
  }

  datatype Body = Plain(text: string) | Synced

  datatype Response = Response(code: int, body: Body)

  const InternalError := 500
  const Ok := 200

  class Server {
    var workouts: WorkoutTable

    constructor (t: WorkoutTable)
      ensures workouts == t
    {
      workouts := t;
    }

    /**
     * `sync_data`: 500 when the transaction cannot begin or commit, leaving the table as it
     * was; otherwise 200, with every payload row upserted in order except the failing ones.
     */
    method SyncData(payload: seq<WorkoutSync>, embed: WorkoutSync -> Embedding, failing: set<nat>,
                    beginOk: bool, commitOk: bool) returns (resp: Response)
      modifies this
      ensures !beginOk ==> resp == Response(InternalError, Plain("Database error")) && workouts == old(workouts)
      ensures beginOk && !commitOk ==> resp == Response(InternalError, Plain("Failed to commit sync")) && workouts == old(workouts)
      ensures beginOk && commitOk ==> resp == Response(Ok, Synced) && workouts == ApplyAll(old(workouts), payload, embed, failing)
    {
      if !beginOk {
        return Response(InternalError, Plain("Database error"));
      }
      var staged := workouts;
      for i := 0 to |payload|
        invariant staged == ApplyAll(workouts, payload[..i], embed, failing)
      {
        assert payload[..i + 1][..i] == payload[..i];
        var w := payload[i];
        if i !in failing {
          staged := Upsert(staged, w, embed(w));
        }
      }
      assert payload[..|payload|] == payload;
      if !commitOk {
        return Response(InternalError, Plain("Failed to commit sync"));
      }
      workouts := staged;
      resp := Response(Ok, Synced);
    }
  }
}
