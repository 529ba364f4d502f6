/**
 * The community feed: the five most recent local workouts turned into posts, followed by
 * two fixed posts, with relative timestamps and a per-card like toggle.
 */
module Social {
  import opened Wrappers
  import opened Db
  import Seqs
  import Text
  import Time

  const LocalLimit: nat := 5
  const MyName := "Keshav Mehta"
  const CompletedMark := "\U{1F4AA}"
  const ActiveMark := "\U{1F605}"

  // ---------------------------------------------------------------------------
  // Relative time

  /** `Math.floor((now - at) / 1000)`: whole seconds elapsed, rounded down. */
  function Seconds(now: int, at: int): (r: int)
    ensures Time.MsPerSecond * r <= now - at < Time.MsPerSecond * (r + 1)
  {
    (now - at) / Time.MsPerSecond
  }

  datatype Ago = JustNow | MinutesAgo(minutes: nat) | HoursAgo(hours: nat) | DaysAgo(days: nat)

  /** The bucket `calculateTimeAgo` picks, with the whole number of units it shows. */
  function AgoOf(now: int, at: int): (a: Ago)
    ensures var s := Seconds(now, at);
      match a
      case JustNow => s < 60
      case MinutesAgo(m) => 60 <= s < 3600 && 1 <= m < 60 && 60 * m <= s < 60 * (m + 1)
      case HoursAgo(h) => 3600 <= s < 86400 && 1 <= h < 24 && 3600 * h <= s < 3600 * (h + 1)
      case DaysAgo(d) => 86400 <= s && 1 <= d && 86400 * d <= s < 86400 * (d + 1)
  {
    var s := Seconds(now, at);
    if s < 60 then JustNow
    else if s < 3600 then MinutesAgo(s / 60)
    else if s < 86400 then HoursAgo(s / 3600)
    else DaysAgo(s / 86400)
  }

  function Label(a: Ago): string
  {
    match a
    case JustNow => "Just now"
    case MinutesAgo(m) => Text.NatToString(m) + "m ago"
    case HoursAgo(h) => Text.NatToString(h) + "h ago"
    case DaysAgo(d) => Text.NatToString(d) + "d ago"
  }

  /** `calculateTimeAgo(at)`, read at instant `now`. */
  function TimeAgo(now: int, at: int): string
  {
    Label(AgoOf(now, at))
  }

  lemma NatToStringInjective(m: nat, n: nat)
    requires Text.NatToString(m) == Text.NatToString(n)
    ensures m == n
  {
    Text.NatToStringRoundTrip(m);
    Text.NatToStringRoundTrip(n);
  }

  /** Only "Just now" starts with a letter; every other label starts with a digit. */
  lemma LabelLeadsWithDigitUnlessJustNow(a: Ago)
    ensures Label(a) != [] && (Text.IsDigit(Label(a)[0]) <==> !a.JustNow?)
  {
  }

  /** Different buckets or counts never render the same text, so a label can be read back. */
  lemma LabelsAreDistinct(a: Ago, b: Ago)
    requires Label(a) == Label(b)
    ensures a == b
  {
    var l := Label(a);
    LabelLeadsWithDigitUnlessJustNow(a);
    LabelLeadsWithDigitUnlessJustNow(b);
    if !a.JustNow? {
      var da := match a case MinutesAgo(m) => m case HoursAgo(h) => h case DaysAgo(d) => d;
      var db := match b case MinutesAgo(m) => m case HoursAgo(h) => h case DaysAgo(d) => d;
      var sa, sb := Text.NatToString(da), Text.NatToString(db);
      assert |sa| == |sb| && l[..|sa|] == sa && l[..|sb|] == sb;
      NatToStringInjective(da, db);
      assert l[|sa|] == (match a case MinutesAgo(_) => 'm' case HoursAgo(_) => 'h' case DaysAgo(_) => 'd');
      assert l[|sb|] == (match b case MinutesAgo(_) => 'm' case HoursAgo(_) => 'h' case DaysAgo(_) => 'd');
    }
  }

  // ---------------------------------------------------------------------------
  // Posts

  /** Whole minutes from start to end, rounded down; 0 without an end time. */
  function DurationMinutes(w: Workout): (r: int)
    ensures w.endTime.None? ==> r == 0
    ensures w.endTime.Some? ==> Time.MsPerMinute * r <= w.endTime.value - w.startTime < Time.MsPerMinute * (r + 1)
  {
    if w.endTime.Some? then (w.endTime.value - w.startTime) / Time.MsPerMinute else 0
  }

  function DurationLabel(w: Workout): string
  {
    if w.status == Active then "Active" else Text.IntToString(DurationMinutes(w)) + "m"
  }

  /** A missing or zero volume is shown as "N/A"; JavaScript treats 0 as false. */
  function VolumeLabel(w: Workout): string
  {
    if w.volume.None? || w.volume.value == 0 then "N/A" else Text.IntToString(w.volume.value) + " lbs"
  }

  datatype WorkoutCard = WorkoutCard(name: string, duration: string, volume: string)

  datatype Post = Post(id: string, author: string, content: string, timestamp: string,
                       likes: nat, comments: nat, workout: Option<WorkoutCard>)

  function LocalPost(now: int, r: Row<Workout>): Post
  {
    var w := r.value;
    Post("local-" + Text.NatToString(r.id), MyName,
         "Just crushed a " + w.name + " session! " + (if w.status == Completed then CompletedMark else ActiveMark),
         TimeAgo(now, w.startTime), 0, 0,
         Some(WorkoutCard(w.name, DurationLabel(w), VolumeLabel(w))))
  }

  function StaticPosts(): seq<Post>
  {
    [ Post("static-1", "Sarah Jenkins",
           "Finally hit my 225lb deadlift goal! \U{1F680} The program is working wonders.", "2h ago", 24, 5,
           Some(WorkoutCard("Heavy Lower Body", "1h 15m", "12,450 lbs"))),
      Post("static-2", "Mike Ross", "Rest day vibes. Mobility work and sauna.", "5h ago", 12, 0, None) ]
  }

  function StartOf(r: Row<Workout>): int
  {
    r.value.startTime
  }

  /** `workouts.orderBy('startTime').reverse().limit(5)`. */
  function RecentWorkouts(rows: seq<Row<Workout>>): seq<Row<Workout>>
  {
    Seqs.Take(Seqs.SortDesc(rows, StartOf), LocalLimit)
  }

  function LocalPosts(now: int, ws: seq<Row<Workout>>): (r: seq<Post>)
    ensures |r| == |ws| && forall i :: 0 <= i < |ws| ==> r[i] == LocalPost(now, ws[i])
  {
    seq(|ws|, i requires 0 <= i < |ws| => LocalPost(now, ws[i]))
  }

  /** `[...myPosts, ...staticPosts]`; the sort whose comparator is always 0 keeps that order. */
  function Feed(now: int, rows: Option<seq<Row<Workout>>>): seq<Post>
  {
    (if rows.None? then [] else LocalPosts(now, RecentWorkouts(rows.value))) + StaticPosts()
  }

  /**
   * The feed ends with the two fixed posts; before them come at most five local posts, one
   * per recent workout, newest start first.
   */
  lemma FeedIsRecentLocalPostsThenStatic(now: int, rows: seq<Row<Workout>>)
    ensures var f := Feed(now, Some(rows));
      var ws := RecentWorkouts(rows);
      |f| == |ws| + 2 && |ws| <= LocalLimit
      && f[|ws|..] == StaticPosts()
      && (forall i :: 0 <= i < |ws| ==> f[i] == LocalPost(now, ws[i]))
      && Seqs.SortedDesc(ws, StartOf)
  {
    var ws := RecentWorkouts(rows);
    var local := LocalPosts(now, ws);
    var stat := StaticPosts();
    assert Feed(now, Some(rows)) == local + stat;
    assert (local + stat)[|local|..] == stat;
  }

  /** A local post is made from a stored workout, and a workout left out is no newer than the fifth shown. */
  lemma LocalPostsAreTheNewest(rows: seq<Row<Workout>>, r: Row<Workout>)
    requires r in rows
    ensures var ws := RecentWorkouts(rows);
      ws != [] && (r !in ws ==> |ws| == LocalLimit && r.value.startTime <= ws[LocalLimit - 1].value.startTime)
  {
    Seqs.TopOfSortedDesc(rows, StartOf, LocalLimit, r);
  }

  lemma LocalPostsComeFromTable(rows: seq<Row<Workout>>, r: Row<Workout>)
    requires r in RecentWorkouts(rows)
    ensures r in rows
  {
    Seqs.TopOfSortedDescMember(rows, StartOf, LocalLimit, r);
  }

  /** While the workouts load, the feed is the two fixed posts. */
  lemma LoadingFeedIsStatic(now: int)
    ensures Feed(now, None) == StaticPosts()
  {
  }

  // ---------------------------------------------------------------------------
  // Likes

  datatype Likes = Likes(liked: bool, count: int)

  /** `handleLike`: flip `liked`, then count one more or one fewer. */
  function Like(s: Likes): (r: Likes)
    ensures r.liked == !s.liked
    ensures r.count == s.count + (if r.liked then 1 else -1)
  {
    Likes(!s.liked, if s.liked then s.count - 1 else s.count + 1)
  }

  /** Liking twice restores both the flag and the count. */
  lemma LikeTwiceRestores(s: Likes)
    ensures Like(Like(s)) == s
  {
  }

  class PostCard {
    var liked: bool
    var likeCount: int
    /** The post's own like count, before this viewer's like. */
    ghost const base: int

    /** The count shown is the post's count plus one exactly while liked. */
    ghost predicate Valid()
      reads this
    {
      likeCount == base + (if liked then 1 else 0)
    }

    constructor (post: Post)
      ensures Valid() && !liked && likeCount == post.likes && base == post.likes
    {
      liked, likeCount := false, post.likes;
      base := post.likes;
    }

    method HandleLike()
      requires Valid()
      modifies this
      ensures Valid()
      ensures Likes(liked, likeCount) == Like(old(Likes(liked, likeCount)))
    {
      likeCount := if liked then likeCount - 1 else likeCount + 1;
      liked := !liked;
    }
  }
}
