/**
 * The coach chat: a greeting chosen from today's check-in and the last session, then a message
 * list that grows by the user's text and the coach's reply (or a fallback when the reply fails).
 */
module Coach {
  import opened Wrappers
  import opened Db
  import Text
  import Time
  import Life

  const BaseGreeting := "Good morning, Keshav."
  const DefaultAdvice := "Build your momentum today."
  const RecoveryAdvice := "Let's focus on recovery or light cardio today. Your nervous system needs a break."
  const LowMoodNote := " I noticed your mood is low today."
  const LowMoodAdvice := "Exercise is great for mental health, but don't push too hard. Maybe a walk or yoga?"
  const SolidNote := " Your recovery looks solid."
  const SolidAdvice := "You're primed for a PR attempt today! Let's hit the weights."
  const CheckInReminder := " Don't forget to log your Daily Check-in."
  const FallbackReply := "I'm having trouble connecting to my neural network. Check the backend connection."
  const ShortSleepHours := 6
  const LowMoodMax := 2
  const GapDays := 3

  /** A number field counts as given only when present and non-zero, as JavaScript truthiness has it. */
  predicate Given(v: Option<int>)
  {
    v.Some? && v.value != 0
  }

  datatype Reading = NoCheckIn | ShortSleep(hours: int) | LowMood | Solid

  /** The branch `generateGreeting` takes on today's log. */
  function ReadingOf(log: Option<DailyLog>): Reading
  {
    if log.None? then NoCheckIn
    else if Given(log.value.sleepHours) && log.value.sleepHours.value < ShortSleepHours then ShortSleep(log.value.sleepHours.value)
    else if Given(log.value.mood) && log.value.mood.value <= LowMoodMax then LowMood
    else Solid
  }

  function GreetingText(r: Reading): string
  {
    BaseGreeting + match r
      case NoCheckIn => CheckInReminder
      case ShortSleep(h) => SleepNote(h)
      case LowMood => LowMoodNote
      case Solid => SolidNote
  }

  function SleepNote(hours: int): string
  {
    " I see you only got " + Text.IntToString(hours) + "h of sleep."
  }

  function ReadingAdvice(r: Reading): string
  {
    match r
    case NoCheckIn => DefaultAdvice
    case ShortSleep(_) => RecoveryAdvice
    case LowMood => LowMoodAdvice
    case Solid => SolidAdvice
  }

  /** `Math.floor((now - start) / 86400000)`: whole days since `start`, rounded down. */
  function DaysSince(now: int, start: int): (r: int)
    ensures Time.MsPerDay * r <= now - start < Time.MsPerDay * (r + 1)
  {
    (now - start) / Time.MsPerDay
  }

  function GapSentence(days: int): string
  {
    " It's been " + Text.IntToString(days) + " days since your last session. Time to get back in!"
  }

  /** The advice, followed by the "days since" sentence when the last session started over three days ago. */
  function AdviceText(r: Reading, lastStart: Option<int>, now: int): string
  {
    ReadingAdvice(r) +
      if lastStart.Some? && DaysSince(now, lastStart.value) > GapDays then GapSentence(DaysSince(now, lastStart.value)) else ""
  }

  /** `workouts.orderBy('startTime').reverse().first()`: the latest start, if any workout exists. */
  function LatestStart(ws: seq<Workout>): (r: Option<int>)
    ensures r.None? <==> ws == []
    ensures r.Some? ==> (exists i :: 0 <= i < |ws| && ws[i].startTime == r.value)
                        && forall i :: 0 <= i < |ws| ==> ws[i].startTime <= r.value
  {
    if ws == [] then None
    else
      var rest := LatestStart(ws[..|ws| - 1]);
      var last := ws[|ws| - 1].startTime;
      if rest.Some? && rest.value >= last then
        assert forall i :: 0 <= i < |ws| - 1 ==> ws[i] == ws[..|ws| - 1][i];
        rest
      else
        assert forall i :: 0 <= i < |ws| - 1 ==> ws[i] == ws[..|ws| - 1][i];
        Some(last)
  }

  datatype Sender = FromCoach | FromUser

  datatype Message = Message(sender: Sender, text: string)

  /** The two coach messages `generateGreeting` sets: greeting, then advice. */
  function GreetingMessages(log: Option<DailyLog>, lastStart: Option<int>, now: int): seq<Message>
  {
    var r := ReadingOf(log);
    [Message(FromCoach, GreetingText(r)), Message(FromCoach, AdviceText(r, lastStart, now))]
  }

  /** Short sleep takes precedence: with under six hours logged, the mood does not change the messages. */
  lemma ShortSleepOverridesMood(log: DailyLog, mood: Option<int>, lastStart: Option<int>, now: int)
    requires Given(log.sleepHours) && log.sleepHours.value < ShortSleepHours
    ensures GreetingMessages(Some(log), lastStart, now) == GreetingMessages(Some(log.(mood := mood)), lastStart, now)
    ensures AdviceText(ReadingOf(Some(log)), lastStart, now)[..|RecoveryAdvice|] == RecoveryAdvice
  {
  }

  /** A zero sleep or mood reads exactly like an absent one. */
  lemma ZeroCountsAsNotGiven(log: DailyLog, lastStart: Option<int>, now: int)
    ensures GreetingMessages(Some(log.(sleepHours := Some(0))), lastStart, now) == GreetingMessages(Some(log.(sleepHours := None)), lastStart, now)
    ensures GreetingMessages(Some(log.(mood := Some(0))), lastStart, now) == GreetingMessages(Some(log.(mood := None)), lastStart, now)
  {
  }

  /** The low-mood branch applies exactly when sleep is not short and a given mood is at most 2. */
  lemma LowMoodBranch(log: DailyLog)
    ensures ReadingOf(Some(log)) == LowMood <==>
      !(Given(log.sleepHours) && log.sleepHours.value < ShortSleepHours) && Given(log.mood) && log.mood.value <= LowMoodMax
  {
  }

  /** Without today's log the greeting carries the check-in reminder and the advice starts with the default. */
  lemma NoCheckInKeepsDefaultAdvice(lastStart: Option<int>, now: int)
    ensures GreetingMessages(None, lastStart, now)[0].text == BaseGreeting + CheckInReminder
    ensures GreetingMessages(None, lastStart, now)[1].text[..|DefaultAdvice|] == DefaultAdvice
  {
  }

  /** The advice gains the "days since" sentence exactly when more than three whole days have passed. */
  lemma GapSentenceIffOverThreeDays(r: Reading, lastStart: Option<int>, now: int)
    ensures var a := AdviceText(r, lastStart, now);
      |ReadingAdvice(r)| <= |a| && a[..|ReadingAdvice(r)|] == ReadingAdvice(r)
      && (|a| > |ReadingAdvice(r)| <==> lastStart.Some? && DaysSince(now, lastStart.value) > GapDays)
  {
    var a := AdviceText(r, lastStart, now);
    assert a[..|ReadingAdvice(r)|] == ReadingAdvice(r);
  }

  datatype Outcome = Replied(reply: string) | Failed

  function ReplyText(o: Outcome): string
  {
    if o.Replied? then o.reply else FallbackReply
  }

  class Chat {
    var input: string
    var messages: seq<Message>
    var isTyping: bool

    constructor ()
      ensures input == "" && messages == [] && !isTyping
    {
      input, messages, isTyping := "", [], false;
    }

    /** The greeting effect: fills an empty, idle chat with exactly the two greeting messages. */
    method Greet(log: Option<DailyLog>, lastStart: Option<int>, now: int)
      modifies this`messages, this`isTyping
      ensures old(messages) == [] && !old(isTyping) ==> messages == GreetingMessages(log, lastStart, now) && !isTyping
      ensures !(old(messages) == [] && !old(isTyping)) ==> messages == old(messages) && isTyping == old(isTyping)
    {
      if messages == [] && !isTyping {
        isTyping := true;
        var r := ReadingOf(log);
        var greeting := BaseGreeting;
        var advice := DefaultAdvice;
        match r {
          case NoCheckIn =>
            greeting := greeting + CheckInReminder;
          case ShortSleep(h) =>
            greeting := greeting + SleepNote(h);
            advice := RecoveryAdvice;
          case LowMood =>
            greeting := greeting + LowMoodNote;
            advice := LowMoodAdvice;
          case Solid =>
            greeting := greeting + SolidNote;
            advice := SolidAdvice;
        }
        assert greeting == GreetingText(r) && advice == ReadingAdvice(r);
        if lastStart.Some? && DaysSince(now, lastStart.value) > GapDays {
          advice := advice + GapSentence(DaysSince(now, lastStart.value));
        } else {
          assert advice == ReadingAdvice(r) + "";
        }
        messages := [Message(FromCoach, greeting), Message(FromCoach, advice)];
        isTyping := false;
      }
    }

    /**
     * `handleSendMessage`: white-space-only input sends nothing; otherwise the user's text and
     * then the reply (or the fallback) are appended, the input is cleared and typing ends.
     */
    method Send(outcome: Outcome) returns (sent: bool)
      modifies this`input, this`messages, this`isTyping
      ensures sent == !Text.IsBlank(old(input))
      ensures !sent ==> input == old(input) && messages == old(messages) && isTyping == old(isTyping)
      ensures sent ==> messages == old(messages) + [Message(FromUser, old(input))] + [Message(FromCoach, ReplyText(outcome))]
      ensures sent ==> input == "" && !isTyping
    {
      sent := !Text.TrimsToEmpty(input);
      if sent {
        Post(Message(FromUser, input));
        input := "";
        isTyping := true;
        Post(Message(FromCoach, ReplyText(outcome)));
        isTyping := false;
      }
    }

    /** One `setMessages(prev => [...prev, m])`. */
    method Post(m: Message)
      modifies this`messages
      ensures messages == old(messages) + [m]
    {
      messages := messages + [m];
    }
  }
}
