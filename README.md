# vael-fitness in Dafny

A model of the fitness tracker vael-fitness, with machine-checked proofs about it. The model covers three parts:

- **The browser-side record store.** This is a Dexie database with ten auto-increment tables and seven schema versions. On first load it seeds an exercise catalog.
- **The domain rules of the screens that read and write the store.** These are training, analytics, daily life, nutrition, capture, social and the coach chat.
- **The server's workout sync endpoint.** It performs a last-write-wins upsert inside one transaction.

Each table is a `TableState`, the value of a `++id` table. It holds the rows in key order and the next key the engine will hand out. The class `Db.Store` holds one `TableState` per table. A screen that writes is a class whose fields are the page's component state. Its methods change the store and those fields, and each method's `ensures` ties the new state to a function of the old one. Screens that only compute are functions, with lemmas about them.

Conventions:

- Instants are integer milliseconds and calendar days are integer day numbers (`Time.DayOf`). A `yyyy-MM-dd` date string is its day number.
- A text box that the source parses into a number is an `Option<int>`, with `None` for an empty box.
- Events from the outside are parameters: a clock reading, whether a database write succeeds, a picked file, microphone permission, a recorded chunk and a chat reply.

Modules:

- `Wrappers`: the `Option` type.
- `Seqs`: filter, sum, sort and take helpers.
- `Time`: day arithmetic.
- `Text`: trimming and decimal rendering.
- `Db`: records, tables, schema versions, seeding and the store.
- One module per screen: `ActiveWorkout`, `NewRoutine`, `History`, `Analytics`, `Measurements`, `Life`, `CheckIn`, `NewHabit`, `Journal`, `Fuel`, `FuelLog`, `Capture`, `Social`, `Coach`.
- `Sync`: the server endpoint.

Every enumerated record field is a datatype, so it always stays in its domain:

- workout status: `Active`, `Completed`
- habit frequency: `Daily`, `Weekly`
- note kind: `Text`, `Voice`, `Image`, `Video`
- meal type: `Breakfast`, `Lunch`, `Dinner`, `Snack`

## Model

| member | source | states |
|---|---|---|
| Db.AddedIsFreshAndKeepsRows | vael/src/lib/db.ts:123-151 | An insert into a `++id` table takes a key that no row holds. The table stays keyed, the new key finds the inserted record, and every other key finds what it did before. |
| Db.AddedAllKeyed | vael/src/lib/db.ts:159-169 | `bulkAdd` keeps the table keyed and advances the next key by the number of records. |
| Db.AddedAllAppends | vael/src/lib/db.ts:159-169 | `bulkAdd` appends the records, in order, after the existing ones. |
| Db.ChangedKeepsOtherRows | vael/src/lib/db.ts:106-116 | `update(id, …)` keeps the table keyed and its row count. It applies the change to the row with that key, if there is one, and leaves every other key's record alone. |
| Db.SchemaNumbersAreOneToSeven | vael/src/lib/db.ts:122-152 | Exactly seven versions are declared, numbered 1 to 7 in strictly increasing order. |
| Db.SchemaIsAutoIncrement | vael/src/lib/db.ts:123-151 | Every table in every version has the auto-increment primary key `++id`. |
| Db.SchemaIsAdditive | vael/src/lib/db.ts:122-152 | A later version either adds a table no earlier version declared, or re-declares one with the same key and a superset of its indexes. |
| Db.SchemaV7ExtendsExercises | vael/src/lib/db.ts:123-151 | Up to version 6, `exercises` is as version 1 declared it. Version 7's `exercises` is version 1's plus the `image` index. |
| Db.CatalogIsWellFormed | vael/src/lib/db.ts:160-168 | The seed catalog has nine exercises with pairwise distinct names, and each is in category Strength or Cardio. |
| Db.SeedOnEmptyInsertsCatalog | vael/src/lib/db.ts:157-169 | Seeding an empty keyed exercises table leaves it holding exactly the nine catalog rows, in order, and still keyed. |
| Db.SeedIsIdempotent | vael/src/lib/db.ts:157-158 | Seeding a non-empty table changes nothing, so seeding twice equals seeding once. |
| Db.SchemaRegistry.constructor | vael/src/lib/db.ts:118-153 | The database constructor declares versions 1 to 7 in that order. |
| Db.SchemaRegistry.DeclareVersion | vael/src/lib/db.ts:122 | `version(n).stores(…)` appends one version to the registry. |
| Db.Store.constructor | vael/src/lib/db.ts:106-153 | The store starts closed with ten empty tables and the seven-version schema. |
| Db.Store.Open | vael/src/lib/db.ts:181 | `open()` leaves the store open exactly when it was open already or opening succeeds. |
| Db.Store.CheckAndSeed | vael/src/lib/db.ts:155-175 | The count-then-insert loop leaves the exercises table equal to `Seeded` of the old one. When the count or the insert fails, the error is only logged and the table is unchanged. Every table of the store stays keyed. |
| Db.Store.Bootstrap | vael/src/lib/db.ts:178-182 | Seeding happens only in a browser, only after a successful open, and only when seeding itself succeeds. Otherwise the exercises table is unchanged. Every table of the store stays keyed. |
| ActiveWorkout.CurrentPR | vael/src/app/train/active/page.tsx:41-46 | The PR is at least 0 and at least every logged weight for the exercise. It is either 0 or the weight of one of those sets. |
| ActiveWorkout.NewPRMeansHeavierThanAll | vael/src/app/train/active/page.tsx:80 | The celebration fires iff the exercise has history with a positive best, and the new weight is strictly above every earlier set's. |
| ActiveWorkout.FirstSetNeverCelebrates | vael/src/app/train/active/page.tsx:46-80 | With no earlier sets, no weight celebrates. |
| ActiveWorkout.SetNumberCountsSessionSets | vael/src/app/train/active/page.tsx:35-38 | "Set N" is one more than the number of sets whose workout is the session's, counted over all sets. Without a session it reads "Set 1". |
| ActiveWorkout.RecentSets | vael/src/app/train/active/page.tsx:212 | The recent view holds the last min(3, n) sets of the workout, newest first. |
| ActiveWorkout.LoggedSetAdvancesCounter | vael/src/app/train/active/page.tsx:35-77 | After a set is added, the set counter of its workout is one higher, and the set heads the recent view. |
| ActiveWorkout.SelectedExercise | vael/src/app/train/active/page.tsx:23-32 | A selected id that is in the catalog is kept. Otherwise the selection falls back to the first catalog entry when that entry has a truthy id. |
| ActiveWorkout.FirstWhereId | vael/src/app/train/active/page.tsx:23 | `find(e => e.id === id)` returns a row with that id from the list, and returns none exactly when no row has it. |
| ActiveWorkout.EndingCompletesOnlyThatSession | vael/src/app/train/active/page.tsx:98-101 | Ending a session marks it Completed with the end time, and keeps its name and start time. Every other workout and the next key are unchanged. |
| ActiveWorkout.Page.constructor | vael/src/app/train/active/page.tsx:15-19 | The page starts with no workout, exercise 1, 135 × 5 and not logging. |
| ActiveWorkout.Page.AutoSelect | vael/src/app/train/active/page.tsx:26-32 | The selected exercise becomes `SelectedExercise` of the catalog and the old selection. |
| ActiveWorkout.Page.StartSession | vael/src/app/train/active/page.tsx:49-64 | An active "Quick Start Workout" is inserted and its new key is held, but only when no workout id is held and the insert succeeds. Otherwise nothing changes. |
| ActiveWorkout.Page.LogSet | vael/src/app/train/active/page.tsx:66-94 | With no workout, nothing is written. Otherwise one non-warm-up set with the held ids, weight and reps is appended, and logging ends. It celebrates iff the insert succeeded and the weight beats a positive PR taken over the old history. |
| ActiveWorkout.Page.EndWorkout | vael/src/app/train/active/page.tsx:96-115 | The held workout, if any, is updated to Completed with an end time. A rejected update (nothing catches it) leaves the table unchanged. |
| NewRoutine.ToLower | vael/src/app/train/routines/new/page.tsx:25-26 | Lower-casing maps A–Z to a–z and keeps every other character and the length. |
| NewRoutine.EmptyQueryListsAll | vael/src/app/train/routines/new/page.tsx:24-27 | An empty query keeps every exercise. |
| NewRoutine.CanCreateIffNoMatch | vael/src/app/train/routines/new/page.tsx:92 | "Create" is offered exactly when the query is non-empty and no exercise's lower-cased name or muscle contains the lower-cased query. |
| NewRoutine.CustomMatchesItsQuery | vael/src/app/train/routines/new/page.tsx:100-105 | The custom exercise built from a query passes the filter for that query. |
| NewRoutine.Removed | vael/src/app/train/routines/new/page.tsx:35-39 | `splice(i, 1)` deletes exactly element i and keeps the others in order. An index out of range changes nothing. |
| NewRoutine.RemoveUndoesAdd | vael/src/app/train/routines/new/page.tsx:29-39 | Removing the element just appended restores the selection. |
| NewRoutine.Entries | vael/src/app/train/routines/new/page.tsx:45-51 | The saved entries list the selected exercise ids in selection order, with order values 0..n-1 and no targets. |
| NewRoutine.EntriesAreDenselyOrdered | vael/src/app/train/routines/new/page.tsx:45-51 | The order values are pairwise distinct and all below n. |
| NewRoutine.Page.constructor | vael/src/app/train/routines/new/page.tsx:17-20 | The form starts empty and not adding. |
| NewRoutine.Page.AddExercise | vael/src/app/train/routines/new/page.tsx:29-33 | The exercise is appended to the selection, and the picker closes with its query cleared. |
| NewRoutine.Page.RemoveExercise | vael/src/app/train/routines/new/page.tsx:35-39 | The selection becomes `Removed` of the old one at that index. |
| NewRoutine.Page.SaveRoutine | vael/src/app/train/routines/new/page.tsx:41-57 | A routine is inserted iff the name and the selection are non-empty and the insert succeeds. It holds the name, `Entries` of the selection and the save time. Nothing else changes. |
| NewRoutine.Page.SetPicker | vael/src/app/train/routines/new/page.tsx:59-63 | The picker view closes (its back button) or opens (the "Add Exercise" button at line 194) as asked. |
| NewRoutine.Page.CreateCustom | vael/src/app/train/routines/new/page.tsx:92-117 | When the picker is open, creation is offered and the insert succeeds, the catalog gets one exercise (the query, Custom, Other, Custom), which is appended to the selection. Otherwise nothing changes. |
| History.HistoryIsCompletedNewestFirst | vael/src/app/train/history/page.tsx:13-18 | History holds exactly the completed workouts, in non-increasing start time. |
| History.TotalWorkouts | vael/src/app/train/history/page.tsx:36 | "Total Workouts" counts the completed workouts. |
| History.ThisMonthCountsMonthNumberOnly | vael/src/app/train/history/page.tsx:40 | "This Month" counts the completed workouts whose month number equals the current one, with the year not compared. It never exceeds the total. |
| Analytics.VolumeData | vael/src/app/analytics/page.tsx:22-35 | The series always has seven points, and they are all zero while the sets are loading. |
| Analytics.BarIsDayVolume | vael/src/app/analytics/page.tsx:25-34 | Point i is the sum of weight × reps over the sets on day today-6+i, so the last point is today. |
| Analytics.WeeklyTotalIsWindowVolume | vael/src/app/analytics/page.tsx:37 | The weekly total equals the volume of every set whose day falls in the seven-day window. |
| Analytics.MaxWeightIndex | vael/src/app/analytics/page.tsx:48 | The reduce picks a heaviest set, and every later set is strictly lighter, so ties go to the later set. |
| Analytics.HeaviestSetPosition | vael/src/app/analytics/page.tsx:48 | The set the reduce picks from an exercise's sets sits at a position in the whole set list after which every set of that exercise is strictly lighter. |
| Analytics.RecordOf | vael/src/app/analytics/page.tsx:44-53 | A PR carries the exercise's name. Its weight and date are those of one of its sets after which every set of the exercise is strictly lighter, so among equally heavy sets the latest one's date is shown. No set of the exercise exceeds the weight. |
| Analytics.RecordsFollowCatalog | vael/src/app/analytics/page.tsx:41-55 | There is one PR per exercise that has sets, in exercise-list order. Exercises without sets give none. |
| Measurements.History | vael/src/app/analytics/measurements/page.tsx:23 | History is a permutation of the entries, newest date first. |
| Measurements.LatestEntryLeadsHistory | vael/src/app/analytics/measurements/page.tsx:23-37 | An entry dated no earlier than every stored one heads the history once added. |
| Measurements.Form.constructor | vael/src/app/analytics/measurements/page.tsx:17-21 | All six inputs start empty. |
| Measurements.Form.Save | vael/src/app/analytics/measurements/page.tsx:25-45 | With a weight and a successful insert, one row is added: the weight and each optional field as given, with an empty field stored as absent. All six inputs are then cleared. Otherwise the table and the form are unchanged. |
| Life.Dedup | vael/src/app/life/page.tsx:32 | `Array.from(new Set(…))` has no duplicates (membership: `Life.DedupMembers`). |
| Life.DedupMembers | vael/src/app/life/page.tsx:32 | It has the same members as its input. |
| Life.DedupKeepsDistinct | vael/src/app/life/page.tsx:32 | A duplicate-free list is kept as it is. |
| Life.ToggledFlipsOnlyThatHabit | vael/src/app/life/page.tsx:32-37 | Toggling adds the habit iff it was absent, leaves every other id's membership alone, and yields no duplicates. |
| Life.ToggledOrder | vael/src/app/life/page.tsx:32-39 | On a list without duplicates, an absent habit is appended at the end, and a present one is filtered out. |
| Life.RemovalKeepsOrder | vael/src/app/life/page.tsx:32-39 | Removing a habit leaves the others in their relative order: toggling h in a + [h] + b gives exactly a + b. |
| Life.ToggleTwiceRestores | vael/src/app/life/page.tsx:32-37 | Toggling twice restores every id's membership. |
| Life.ToggleTwiceIsIdentity | vael/src/app/life/page.tsx:32-39 | On a duplicate-free list without the habit, toggling twice gives back the same list in the same order. |
| Life.ToggleFlipsTodaysTick | vael/src/app/life/page.tsx:29-49 | After a toggle, today has a log. The habit shows as completed iff it did not before, and every other habit shows as before. A missing log counts as nothing completed. |
| Life.ChangedKeepsOneLogPerDay | vael/src/app/life/page.tsx:41-43 | An update that keeps dates keeps at most one log per day. |
| Life.AddedKeepsOneLogPerDay | vael/src/app/life/page.tsx:44-47 | Inserting a log for a day that has none keeps at most one log per day. |
| Life.ToggleKeepsOneLogPerDay | vael/src/app/life/page.tsx:31-49 | Toggling keeps at most one log per day. It inserts a row only when today had no log. |
| Life.ToggleHabit | vael/src/app/life/page.tsx:31-49 | The find-then-update-or-insert leaves the daily logs equal to `HabitToggled` of the old ones. A rejected write (nothing catches it) leaves them unchanged. |
| CheckIn.MoodOrDefault | vael/src/app/life/check-in/page.tsx:34-43 | The stored mood is never 0 (falsy). A chosen mood is stored as chosen; no choice stores 3. |
| CheckIn.SavedMoodIsAChoice | vael/src/app/life/check-in/page.tsx:34-137 | A saved mood is always one of 1..5. |
| CheckIn.ToggledSorenessFlips | vael/src/app/life/check-in/page.tsx:55-61 | Toggling a muscle adds it iff absent and keeps every other muscle's membership. The list never gains duplicates. |
| CheckIn.ToggleSorenessTwiceIsIdentity | vael/src/app/life/check-in/page.tsx:55-61 | Toggling an absent muscle twice gives back the same list. |
| CheckIn.CheckInUpserts | vael/src/app/life/check-in/page.tsx:23-53 | Saving keeps at most one log per day and inserts only when today had none. Today's log then holds the answers and the defaulted mood. An existing log keeps its date and habits; a new one has an empty habit list. |
| CheckIn.Form.constructor | vael/src/app/life/check-in/page.tsx:17-21 | The form starts at 7 hours of sleep, energy 5, no mood, no soreness and no notes. |
| CheckIn.Form.SetSleep | vael/src/app/life/check-in/page.tsx:101 | Sleep is set to a value in 0..12. |
| CheckIn.Form.SetEnergy | vael/src/app/life/check-in/page.tsx:122-127 | Energy is set to a value in 0..10. |
| CheckIn.Form.SetMood | vael/src/app/life/check-in/page.tsx:137 | The mood is set to one of 1..5. |
| CheckIn.Form.ToggleSoreness | vael/src/app/life/check-in/page.tsx:55-61 | The soreness list becomes `ToggledSoreness` of the old one. |
| CheckIn.Form.Save | vael/src/app/life/check-in/page.tsx:23-53 | When the read and the write succeed, the daily logs become `CheckedIn` of the old ones with the form's current answers. A failure is only logged and leaves the logs unchanged. |
| NewHabit.NewHabit | vael/src/app/life/habits/new/page.tsx:22-29 | A new habit has the given name and frequency, no icon, streak 0 and archived false. It has a target exactly when it is weekly, and that target is the chosen count. |
| NewHabit.SavedTargetIsAChoice | vael/src/app/life/habits/new/page.tsx:99 | A weekly habit's target is one of 1..5. |
| NewHabit.Form.constructor | vael/src/app/life/habits/new/page.tsx:15-17 | The form starts with no name, daily, and target 1. |
| NewHabit.Form.SetTarget | vael/src/app/life/habits/new/page.tsx:99 | The target is set to one of 1..5. |
| NewHabit.Form.Save | vael/src/app/life/habits/new/page.tsx:19-33 | A habit is inserted iff the name is non-empty and the insert succeeds. Otherwise nothing changes. |
| Journal.EntriesAreNewestFirst | vael/src/app/life/journal/page.tsx:15-20 | The journal lists exactly the logs with non-empty notes, in the reverse of table order (descending keys). |
| Journal.EmptyStateIffNoNotes | vael/src/app/life/journal/page.tsx:64 | The empty state shows iff no log has non-empty notes. |
| Journal.BadgeFollowsTheThreeTests | vael/src/app/life/journal/page.tsx:49-54 | An absent mood shows nothing and a mood of 0 renders as the text "0". For any other mood, exactly one face shows: low for ≤ 2, neutral for 3, happy for ≥ 4. |
| Journal.CheckedInMoodShowsAFace | vael/src/app/life/journal/page.tsx:49-54 | Every mood a check-in can save shows the face of its bucket. |
| Fuel.TotalsAreSums | vael/src/app/fuel/page.tsx:23-27 | Each of the four totals is the sum of that macro over the logs. |
| Fuel.TotalsAppend | vael/src/app/fuel/page.tsx:23-27 | The totals of two batches of logs add up field by field. |
| Fuel.RingCalories | vael/src/app/fuel/page.tsx:30-72 | The calories the ring fills never exceed the 2500 goal. Below the goal they are the calories eaten. |
| Fuel.GroupsAreHomogeneous | vael/src/app/fuel/page.tsx:104-106 | Every meal section is non-empty and holds only meals of its own type. |
| Fuel.LogIsInItsSection | vael/src/app/fuel/page.tsx:104-105 | A log appears in the section of its own meal type. |
| Fuel.SectionsCoverEveryLogOnce | vael/src/app/fuel/page.tsx:104-106 | The sections (breakfast, lunch, dinner, snack; empty ones omitted) list every log, and their sizes add up to the number of logs. |
| Fuel.EmptyStateIffNoSections | vael/src/app/fuel/page.tsx:106-133 | "No food logged today" shows exactly when no meal section shows. |
| FuelLog.Form.constructor | vael/src/app/fuel/log/page.tsx:15-20 | The form starts empty, with meal type breakfast. |
| FuelLog.Form.Save | vael/src/app/fuel/log/page.tsx:22-39 | One log is inserted iff there is a name and a calorie count and the insert succeeds. It holds the name, meal type and calories, with empty protein, carbs and fat stored as 0. |
| FuelLog.SavedFoodCountsToday | vael/src/app/fuel/page.tsx:17-27 | A log saved now becomes the last of today's logs, and raises today's totals by exactly its macros. |
| Capture.SkippingEmptyChunksKeepsAudio | vael/src/app/capture/page.tsx:29-33 | Dropping the empty chunks does not change the joined audio. |
| Capture.JoinedSize | vael/src/app/capture/page.tsx:36 | The audio blob is as long as all chunks together. |
| Capture.RecentNotesAreTheNewest | vael/src/app/capture/page.tsx:20-22 | The recent list holds at most ten notes, newest date first. A note left off it is no newer than the last one shown, and then the list is full. |
| Capture.RecentNotesComeFromTable | vael/src/app/capture/page.tsx:20-22 | Every note on the recent list is in the table. |
| Capture.AttachmentFindsItsNote | vael/src/app/capture/page.tsx:101-112 | After a note and then a media row are inserted, the media row's key holds the note's new key, and that key holds the note. |
| Capture.NoteInsertKeepsLinks | vael/src/app/capture/page.tsx:101-106 | A note inserted alone (the media insert failed) keeps every media row pointing at an existing note. |
| Capture.PairInsertKeepsLinks | vael/src/app/capture/page.tsx:38-112 | A note followed by its media row keeps every media row, the new one included, pointing at an existing note. |
| Capture.Page.constructor | vael/src/app/capture/page.tsx:15-18 | The page starts with no text, not recording, no recorder and no chunks. |
| Capture.Page.SaveNote | vael/src/app/capture/page.tsx:72-86 | A note is saved iff the input has a non-white-space character and the insert succeeds. It is a "Quick Note" of kind text with the untrimmed input, and the input is then cleared. Otherwise nothing changes. |
| Capture.Page.ImageUpload | vael/src/app/capture/page.tsx:95-119 | Without a file nothing happens. Otherwise a "Photo Capture" image note is inserted, then a media row with the file and the note's new key. A failed media insert leaves the note. Media-to-note links are preserved. |
| Capture.Page.StartRecording | vael/src/app/capture/page.tsx:24-62 | With microphone access, recording is on and a recorder is held. |
| Capture.Page.DataAvailable | vael/src/app/capture/page.tsx:29-33 | Only a non-empty chunk is buffered, at the end. The joined audio grows by exactly the chunk's bytes. |
| Capture.Page.Stopped | vael/src/app/capture/page.tsx:35-53 | A "Voice Memo" note is inserted, then a media row with the joined chunks and the note's new key, and then the buffer is emptied. A failing insert ends it there. Links are preserved. |
| Capture.Page.StopRecording | vael/src/app/capture/page.tsx:64-70 | It acts only while a recorder exists and recording is on. Afterwards recording is off and the recorder is released. |
| Social.Seconds | vael/src/app/social/page.tsx:185 | Whole seconds elapsed, rounded down: 1000·s ≤ elapsed ms < 1000·(s+1). |
| Social.AgoOf | vael/src/app/social/page.tsx:183-191 | "Just now" under 60 s. Otherwise whole minutes (1..59) under an hour, whole hours (1..23) under a day, else whole days (≥ 1), each rounded down. |
| Social.LabelsAreDistinct | vael/src/app/social/page.tsx:187-190 | Two different buckets or counts never render the same text. |
| Social.DurationMinutes | vael/src/app/social/page.tsx:19-21 | The duration is the whole minutes from start to end, rounded down, or 0 with no end time. |
| Social.FeedIsRecentLocalPostsThenStatic | vael/src/app/social/page.tsx:16-89 | The feed is at most five local posts, one per recent workout with newest start first, followed by the two fixed posts. |
| Social.LocalPostsAreTheNewest | vael/src/app/social/page.tsx:16 | A workout left out of the feed started no later than the fifth one shown. |
| Social.LocalPostsComeFromTable | vael/src/app/social/page.tsx:16 | Every local post's workout is in the table. |
| Social.Like | vael/src/app/social/page.tsx:119-122 | Liking flips `liked` and moves the count one up when it becomes liked, one down otherwise. |
| Social.LikeTwiceRestores | vael/src/app/social/page.tsx:119-122 | Liking twice restores the flag and the count. |
| Social.PostCard.constructor | vael/src/app/social/page.tsx:116-117 | A card starts unliked with the post's like count. |
| Social.PostCard.HandleLike | vael/src/app/social/page.tsx:119-122 | The card's state becomes `Like` of the old one. The count stays the post's count plus one exactly while liked. |
| Coach.DaysSince | vael/src/app/coach/page.tsx:73 | Whole days since the last start, rounded down. |
| Coach.LatestStart | vael/src/app/coach/page.tsx:31 | The last workout is the latest start time: none without workouts, otherwise attained and at least every start. |
| Coach.ShortSleepOverridesMood | vael/src/app/coach/page.tsx:56-59 | With a positive sleep below 6 hours, the messages do not depend on the mood, and the advice is the recovery advice. |
| Coach.ZeroCountsAsNotGiven | vael/src/app/coach/page.tsx:57-60 | A sleep or mood of 0 gives the same messages as an absent one. |
| Coach.LowMoodBranch | vael/src/app/coach/page.tsx:60-62 | The low-mood branch applies exactly when sleep is not short and a given mood is at most 2. |
| Coach.NoCheckInKeepsDefaultAdvice | vael/src/app/coach/page.tsx:52-69 | Without today's log, the greeting ends with the check-in reminder and the advice starts with the default. |
| Coach.GapSentenceIffOverThreeDays | vael/src/app/coach/page.tsx:72-77 | The advice starts with the branch's advice. It gains the "days since" sentence exactly when more than three whole days have passed since the last start. |
| Coach.Chat.constructor | vael/src/app/coach/page.tsx:23-25 | The chat starts with no input, no messages and not typing. |
| Coach.Chat.Greet | vael/src/app/coach/page.tsx:34-84 | The greeting runs only on an empty, idle chat. It sets exactly the two coach messages, greeting then advice, and typing ends. |
| Coach.Chat.Post | vael/src/app/coach/page.tsx:96-128 | One `setMessages(prev => [...prev, m])` appends exactly that message and nothing else. |
| Coach.Chat.Send | vael/src/app/coach/page.tsx:86-132 | White-space-only input sends nothing. Otherwise the user's text and then the reply (or the one fallback message) are appended, the input is cleared and typing ends. |
| Sync.UpsertInsertsNewId | vael-server/src/api/sync.rs:56-80 | A new id is inserted with `created_at` equal to the incoming `last_modified` and the incoming owner. |
| Sync.UpsertLastWriteWins | vael-server/src/api/sync.rs:60-69 | A stored row is overwritten only by a strictly newer write. The new row keeps its owner and takes the incoming name, start time, end time, status, volume, `created_at` (the incoming `last_modified`) and embedding. An equal or older write leaves it unchanged, and every other id is untouched. |
| Sync.UpsertKeepsMaxStamp | vael-server/src/api/sync.rs:56-82 | After an upsert, the id's `created_at` is the maximum of the stored one (if any) and the incoming one. |
| Sync.FailedRowsAreSkipped | vael-server/src/api/sync.rs:42-88 | A failing row is skipped and later rows are still applied. The outcome equals applying the succeeding rows alone, in order. |
| Sync.MaxStamp | vael-server/src/api/sync.rs:69 | The maximum of a prior stamp and a list of stamps: at least each, attained by one, absent only when both are empty. |
| Sync.FinalStampIsMaximum | vael-server/src/api/sync.rs:42-69 | After the loop, each id's `created_at` is the maximum of its prior value and every `last_modified` that a succeeding row brought for it. An id is present iff it was before or such a row brought it. |
| Sync.Server.SyncData | vael-server/src/api/sync.rs:30-97 | The response is 500 "Database error" when begin fails and 500 "Failed to commit sync" when commit fails, both leaving the table unchanged. Otherwise it is 200 "synced", with the table equal to the payload applied in order, failing rows skipped. |
| Text.TrimIsEmptyIffBlank | vael/src/app/capture/page.tsx:73 | `!s.trim()` holds exactly for text made only of white space. |
| Text.NatToStringRoundTrip | vael/src/app/social/page.tsx:188-190 | Reading the rendered digits of a number back gives the number. |

## Left out

- Rendering: JSX, styling, icons, confetti, router navigation and the `setTimeout` delays. The coach's intermediate "typing" state during the simulated delay is left out too; `Coach.Chat.Greet` goes straight to the final state.
- Navigation and static pages: the bottom navigation, the home page, the rest timer page, the train index page and the photo gallery. They hold static constants or display-only mappings.
- Dexie internals and `useLiveQuery` reactivity. Tables are in-memory values, and a query is a function of the table.
  - Dexie returns rows with equal sort keys in an order the model does not fix. `Seqs.SortDesc` is one particular stable order, and the lemmas about sorted output hold for any order.
  - The upgrade runner that applies schema versions to stored data is not modelled. The version list is.
- Wall-clock time and calendar logic: `new Date()`, `isSameDay`, `subDays`, `format`, `getMonth` and time zones. Instants are parameters.
  - Days are whole multiples of 86,400,000 ms since the epoch, i.e. UTC days.
  - The month of an instant is a function parameter of `History.ThisMonth`.
- Floating point: `parseInt`/`parseFloat` of text inputs (inputs are optional integers), bar heights, the SVG ring offset (`Fuel.RingCalories` models only the capped numerator), the 0.5-hour sleep step (sleep is whole hours), and the server's `f64` volume (a whole number).
- Unicode case mapping: `NewRoutine.ToLower` maps only ASCII A–Z. `Text.IsSpace` is the white-space set that `String.prototype.trim` removes.
- Browser media APIs: `getUserMedia`, `MediaRecorder`, Blob URLs and releasing the microphone tracks. Microphone access, recorded chunks and picked files are parameters.
- Capture.Page.Stopped: the source's stop handler builds the blob from the `chunks` value captured when recording started. It is not the buffer that `ondataavailable` filled, so the stored audio can miss the recorded chunks. The model states the intended pairing, with the joined buffered chunks.
- Social: the post `content` quotes emoji that the source text stores as mis-decoded byte sequences. The model uses the intended emoji characters. Post ids other than the local `local-<id>`, avatars, handles and comment counts beyond the fixed posts are left out.
- Coach: the chat request itself (URL, JSON body, status check) is an outcome parameter, `Replied(text)` or `Failed`. A reply without a `reply` field is not modelled. Message ids and timestamps are left out.
- Sync: embedding generation is a function parameter, the embedding an opaque value. A statement failure is a set of failing payload positions.
  - Postgres transaction semantics are not modelled: a failed statement aborts the rest of the transaction, so later rows would also fail and the commit would roll back. The model follows the code's best-effort intent.
  - JSON decoding, the summary string formatting and logging are not modelled.
- Races between the read and the write of the find-or-create flows (`Life.ToggleHabit`, `CheckIn.Form.Save`): the model is sequential.
- Server code outside the sync handler (chat, authentication, routing, connection pool, health) is not part of this model.
- Error paths that only log (`catch` blocks) are modelled as a failed write that leaves the tables unchanged. So are the writes that nothing catches (`ActiveWorkout.Page.EndWorkout`, `Life.ToggleHabit`), where a rejection ends the handler. The alerts shown and the unhandled-rejection report are left out.
- Db.Store.CheckAndSeed: a failing `bulkAdd` is modelled as adding nothing. Dexie may keep the rows that were added before the failing one, and that partial outcome is not modelled.
