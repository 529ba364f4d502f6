/**
 * The capture screen: quick text notes, photo uploads and voice memos. A photo or a memo is
 * stored as a note row followed by a media row that points at the note's new key.
 */
module Capture {
  import opened Wrappers
  import opened Db
  import Seqs
  import Text

  const QuickNoteTitle := "Quick Note"
  const PhotoTitle := "Photo Capture"
  const PhotoContent := "Image Log"
  const VoiceTitle := "Voice Memo"
  const VoiceContent := "Audio Recording"
  const RecentLimit: nat := 10

  function QuickNote(content: string, now: int): Note
  {
    Note(QuickNoteTitle, content, Text, now, None)
  }

  function PhotoNote(now: int): Note
  {
    Note(PhotoTitle, PhotoContent, Image, now, None)
  }

  function VoiceNote(now: int): Note
  {
    Note(VoiceTitle, VoiceContent, Voice, now, None)
  }

  /** The audio blob built from the recorded chunks, in arrival order. */
  function Joined(chunks: seq<Blob>): Blob
  {
    if chunks == [] then [] else Joined(chunks[..|chunks| - 1]) + chunks[|chunks| - 1]
  }

  function NonEmpty(b: Blob): bool
  {
    |b| > 0
  }

  /**
   * Dropping the empty chunks the recorder hands over does not change the recording:
   * the kept chunks join to the same bytes as all of them.
   */
  lemma {:induction false} SkippingEmptyChunksKeepsAudio(chunks: seq<Blob>)
    ensures Joined(Seqs.Filter(chunks, NonEmpty)) == Joined(chunks)
  {
    if chunks != [] {
      var init, last := chunks[..|chunks| - 1], chunks[|chunks| - 1];
      SkippingEmptyChunksKeepsAudio(init);
      if NonEmpty(last) {
        var kept := Seqs.Filter(init, NonEmpty) + [last];
        assert kept[..|kept| - 1] == Seqs.Filter(init, NonEmpty);
      } else {
        assert last == [];
      }
    }
  }

  /** Every byte of every chunk lands in the blob, so its size is the sum of the chunk sizes. */
  lemma {:induction false} JoinedSize(chunks: seq<Blob>)
    ensures |Joined(chunks)| == Seqs.Sum(chunks, Size)
  {
    if chunks != [] {
      JoinedSize(chunks[..|chunks| - 1]);
    }
  }

  function Size(b: Blob): int
  {
    |b|
  }

  function DateOf(n: Note): int
  {
    n.date
  }

  /** `notes.orderBy('date').reverse().limit(10)`. */
  function RecentNotes(t: TableState<Note>): seq<Note>
  {
    Seqs.Take(Seqs.SortDesc(Values(t.rows), DateOf), RecentLimit)
  }

  /**
   * The recent list holds at most ten notes, newest first; a note left off the list is no
   * newer than the last one shown, and then the list is full.
   */
  lemma RecentNotesAreTheNewest(t: TableState<Note>, n: Note)
    requires n in Values(t.rows)
    ensures var r := RecentNotes(t);
      |r| <= RecentLimit && Seqs.SortedDesc(r, DateOf)
      && r != [] && (n !in r ==> |r| == RecentLimit && n.date <= r[|r| - 1].date)
  {
    Seqs.TopOfSortedDesc(Values(t.rows), DateOf, RecentLimit, n);
  }

  /** A shown note comes from the table. */
  lemma RecentNotesComeFromTable(t: TableState<Note>, n: Note)
    requires n in RecentNotes(t)
    ensures n in Values(t.rows)
  {
    Seqs.TopOfSortedDescMember(Values(t.rows), DateOf, RecentLimit, n);
  }

  /** After a note and its media row are inserted, the media row's new key holds the note's new key, which holds the note. */
  lemma AttachmentFindsItsNote(notes: TableState<Note>, media: TableState<Media>, note: Note, blob: Blob)
    requires Keyed(notes) && Keyed(media)
    ensures Get(Added(media, Media(notes.nextId, blob)).rows, media.nextId) == Some(Media(notes.nextId, blob))
    ensures Get(Added(notes, note).rows, notes.nextId) == Some(note)
  {
    AddedIsFreshAndKeepsRows(notes, note);
    AddedIsFreshAndKeepsRows(media, Media(notes.nextId, blob));
  }

  /** Every media row points at a note that exists. */
  predicate Linked(notes: TableState<Note>, media: TableState<Media>)
  {
    forall i :: 0 <= i < |media.rows| ==> Get(notes.rows, media.rows[i].value.noteId).Some?
  }

  /** A lone note insert (the media insert failed) keeps every link. */
  lemma NoteInsertKeepsLinks(notes: TableState<Note>, media: TableState<Media>, note: Note)
    requires Keyed(notes) && Linked(notes, media)
    ensures Linked(Added(notes, note), media)
  {
    AddedIsFreshAndKeepsRows(notes, note);
  }

  /** A note then a media row pointing at it keeps every link, the new one included. */
  lemma PairInsertKeepsLinks(notes: TableState<Note>, media: TableState<Media>, note: Note, blob: Blob)
    requires Keyed(notes) && Linked(notes, media)
    ensures Linked(Added(notes, note), Added(media, Media(notes.nextId, blob)))
  {
    AddedIsFreshAndKeepsRows(notes, note);
    var m := Added(media, Media(notes.nextId, blob));
    assert forall i :: 0 <= i < |media.rows| ==> m.rows[i] == media.rows[i];
  }

  class Page {
    var noteContent: string
    var isRecording: bool
    /** Whether a `MediaRecorder` is held. */
    var hasRecorder: bool
    var chunks: seq<Blob>

    /** Recording is on exactly while a recorder is held. */
    ghost predicate Valid()
      reads this
    {
      isRecording == hasRecorder
    }

    constructor ()
      ensures Valid()
      ensures noteContent == "" && !isRecording && !hasRecorder && chunks == []
    {
      noteContent, isRecording, hasRecorder, chunks := "", false, false, [];
    }

    /** `handleSaveNote`: white-space-only input saves nothing; the content is stored untrimmed. */
    method SaveNote(db: Store, now: int, succeeds: bool) returns (saved: bool)
      requires Keyed(db.notes)
      modifies db`notes, this`noteContent
      ensures Keyed(db.notes)
      ensures saved == (!Text.IsBlank(old(noteContent)) && succeeds)
      ensures saved ==> db.notes == Added(old(db.notes), QuickNote(old(noteContent), now)) && noteContent == ""
      ensures !saved ==> db.notes == old(db.notes) && noteContent == old(noteContent)
    {
      saved := false;
      if Text.TrimsToEmpty(noteContent) {
        return;
      }
      if succeeds {
        AddedKeyed(db.notes, QuickNote(noteContent, now));
        db.notes := Added(db.notes, QuickNote(noteContent, now));
        noteContent := "";
        saved := true;
      }
    }

    /**
     * `handleImageUpload`: nothing without a file; otherwise a photo note, then a media row
     * holding the file and the note's key. A failing media insert leaves the note behind.
     */
    method ImageUpload(db: Store, file: Option<Blob>, now: int, noteOk: bool, mediaOk: bool)
      requires Keyed(db.notes) && Keyed(db.media)
      modifies db`notes, db`media
      ensures Keyed(db.notes) && Keyed(db.media)
      ensures file.Some? && noteOk ==> db.notes == Added(old(db.notes), PhotoNote(now))
      ensures !(file.Some? && noteOk) ==> db.notes == old(db.notes)
      ensures file.Some? && noteOk && mediaOk ==> db.media == Added(old(db.media), Media(old(db.notes.nextId), file.value))
      ensures !(file.Some? && noteOk && mediaOk) ==> db.media == old(db.media)
      ensures old(Linked(db.notes, db.media)) ==> Linked(db.notes, db.media)
    {
      if file.None? || !noteOk {
        return;
      }
      var noteId := db.notes.nextId;
      if Linked(db.notes, db.media) {
        NoteInsertKeepsLinks(db.notes, db.media, PhotoNote(now));
        PairInsertKeepsLinks(db.notes, db.media, PhotoNote(now), file.value);
      }
      AddedKeyed(db.notes, PhotoNote(now));
      db.notes := Added(db.notes, PhotoNote(now));
      if mediaOk {
        AddedKeyed(db.media, Media(noteId, file.value));
        db.media := Added(db.media, Media(noteId, file.value));
      }
    }

    /** `startRecording`: with microphone access a recorder is held and recording is on. */
    method StartRecording(granted: bool)
      modifies this`isRecording, this`hasRecorder
      ensures isRecording == (granted || old(isRecording)) && hasRecorder == (granted || old(hasRecorder))
      ensures old(Valid()) ==> Valid()
    {
      if granted {
        hasRecorder, isRecording := true, true;
      }
    }

    /** `ondataavailable`: only non-empty chunks are buffered, in arrival order. */
    method DataAvailable(data: Blob)
      modifies this`chunks
      ensures chunks == if |data| > 0 then old(chunks) + [data] else old(chunks)
      ensures Joined(chunks) == Joined(old(chunks)) + data
    {
      if |data| > 0 {
        chunks := chunks + [data];
        assert chunks[..|chunks| - 1] == old(chunks);
      }
    }

    /**
     * `onstop`: a voice note, then a media row holding the joined chunks and the note's key,
     * then the buffer is emptied. An insert that fails ends the handler there.
     */
    method Stopped(db: Store, now: int, noteOk: bool, mediaOk: bool)
      requires Keyed(db.notes) && Keyed(db.media)
      modifies db`notes, db`media, this`chunks
      ensures Keyed(db.notes) && Keyed(db.media)
      ensures db.notes == if noteOk then Added(old(db.notes), VoiceNote(now)) else old(db.notes)
      ensures db.media == if noteOk && mediaOk then Added(old(db.media), Media(old(db.notes.nextId), Joined(old(chunks))))
                          else old(db.media)
      ensures chunks == if noteOk && mediaOk then [] else old(chunks)
      ensures old(Linked(db.notes, db.media)) ==> Linked(db.notes, db.media)
    {
      if !noteOk {
        return;
      }
      var noteId := db.notes.nextId;
      if Linked(db.notes, db.media) {
        NoteInsertKeepsLinks(db.notes, db.media, VoiceNote(now));
        PairInsertKeepsLinks(db.notes, db.media, VoiceNote(now), Joined(chunks));
      }
      AddedKeyed(db.notes, VoiceNote(now));
      db.notes := Added(db.notes, VoiceNote(now));
      if !mediaOk {
        return;
      }
      AddedKeyed(db.media, Media(noteId, Joined(chunks)));
      db.media := Added(db.media, Media(noteId, Joined(chunks)));
      chunks := [];
    }

    /** `stopRecording`: acts only while recording with a recorder; afterwards recording is off. */
    method StopRecording() returns (stopped: bool)
      modifies this`isRecording, this`hasRecorder
      ensures stopped == (old(hasRecorder) && old(isRecording))
      ensures stopped ==> !isRecording && !hasRecorder
      ensures !stopped ==> isRecording == old(isRecording) && hasRecorder == old(hasRecorder)
      ensures old(Valid()) ==> Valid() && !isRecording
    {
      stopped := hasRecorder && isRecording;
      if stopped {
        isRecording, hasRecorder := false, false;
      }
    }
  }
}
