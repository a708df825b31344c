/** The status registry and the daily schedule (src/config/statuses.ts; status.js holds
    identical copies), with the well-formedness facts the rest of the model relies on. */
module Statuses {
  import opened Types

  // The entries of the status registry.
  const MEETING := SlackStatus("In a Meeting - Back soon", ":spiral_calendar_pad:", true, Away)
  const COFFEE := SlackStatus("Grabbing a cup o' Joe", ":coffee:", true, Away)
  const STANDUP_PREP := SlackStatus("Standup Prep", ":clipboard:", false, Auto)
  const STANDUP := SlackStatus("In Engineering Standup", ":speaking_head_in_silhouette:", true, Auto)
  const STAKEHOLDER := SlackStatus("Stakeholder Communications", ":calendar:", false, Auto)
  const DEEP_FOCUS := SlackStatus("Deep Focus Time - Available after 12:30", ":dart:", true, Away)
  const LUNCH := SlackStatus("Lunch Break", ":rice:", true, Away)
  const CODE_REVIEW := SlackStatus("Code Reviews & Team Support", ":eyes:", false, Auto)
  const ADMIN := SlackStatus("Admin & Learning Time", ":book:", false, Auto)
  const END_OF_DAY := SlackStatus("Done for the day", ":wave:", true, Away)

  /** The status registry (`STATUSES`), keyed by name. */
  const STATUSES: map<string, SlackStatus> := map[
    "MEETING" := MEETING,
    "COFFEE" := COFFEE,
    "STANDUP_PREP" := STANDUP_PREP,
    "STANDUP" := STANDUP,
    "STAKEHOLDER" := STAKEHOLDER,
    "DEEP_FOCUS" := DEEP_FOCUS,
    "LUNCH" := LUNCH,
    "CODE_REVIEW" := CODE_REVIEW,
    "ADMIN" := ADMIN,
    "END_OF_DAY" := END_OF_DAY
  ]

  /** The weekday timeline (`SCHEDULE`): cron expression, registry key, minutes. */
  const SCHEDULE: seq<StatusConfig> := [
    StatusConfig("0 9 * * 1-5", "STANDUP_PREP", 15),
    StatusConfig("15 9 * * 1-5", "STANDUP", 15),
    StatusConfig("30 9 * * 1-5", "STAKEHOLDER", 60),
    StatusConfig("30 10 * * 1-5", "DEEP_FOCUS", 120),
    StatusConfig("30 12 * * 1-5", "LUNCH", 60),
    StatusConfig("30 13 * * 1-5", "CODE_REVIEW", 120),
    StatusConfig("30 15 * * 1-5", "ADMIN", 90),
    StatusConfig("0 17 * * 1-5", "END_OF_DAY", 840)
  ]

  const WORKDAY_START := 9 * 60
  const WORKDAY_END := 17 * 60

  // --- Decoding the minute and hour fields of a cron expression ---

  predicate IsDigit(c: char) { '0' <= c <= '9' }

  function DigitValue(c: char): (d: nat)
    requires IsDigit(c)
    ensures d < 10
  {
    (c as int) - ('0' as int)
  }

  /** The leading numeric field of `s` (one or two digits, then a space) and the text after
      that space; `None` when `s` does not start that way. */
  function Field(s: string): (r: Option<(nat, string)>)
    ensures r.Some? ==> r.value.0 < 100 && |r.value.1| < |s|
  {
    if 2 <= |s| && IsDigit(s[0]) && s[1] == ' ' then
      Some((DigitValue(s[0]), s[2..]))
    else if 3 <= |s| && IsDigit(s[0]) && IsDigit(s[1]) && s[2] == ' ' then
      Some((DigitValue(s[0]) * 10 + DigitValue(s[1]), s[3..]))
    else
      None
  }

  /** Minutes after midnight at which a cron expression "M H ..." fires, when its first two
      fields are numbers within range; the day-of-month, month and weekday fields are not
      decoded. */
  function StartOfDay(cron: string): (r: Option<nat>)
    ensures r.Some? ==> r.value < 24 * 60
  {
    match Field(cron)
    case None => None
    case Some((minute, rest)) =>
      match Field(rest)
      case None => None
      case Some((hour, _)) =>
        if minute < 60 && hour < 24 then Some(hour * 60 + minute) else None
  }

  /** Minutes after midnight at which each schedule row starts, in row order. */
  const SCHEDULE_STARTS: seq<nat> := [540, 555, 570, 630, 750, 810, 930, 1020]

  /** The cron expressions of the schedule, in row order. */
  lemma ScheduleCrons()
    ensures |SCHEDULE| == 8
    ensures SCHEDULE[0].time == "0 9 * * 1-5" && SCHEDULE[1].time == "15 9 * * 1-5"
    ensures SCHEDULE[2].time == "30 9 * * 1-5" && SCHEDULE[3].time == "30 10 * * 1-5"
    ensures SCHEDULE[4].time == "30 12 * * 1-5" && SCHEDULE[5].time == "30 13 * * 1-5"
    ensures SCHEDULE[6].time == "30 15 * * 1-5" && SCHEDULE[7].time == "0 17 * * 1-5"
  {
  }

  // The start of each row, two rows at a time.

  lemma StandupStarts()
    ensures StartOfDay("0 9 * * 1-5") == Some(9 * 60)
    ensures StartOfDay("15 9 * * 1-5") == Some(9 * 60 + 15)
  {
  }

  lemma MorningStarts()
    ensures StartOfDay("30 9 * * 1-5") == Some(9 * 60 + 30)
    ensures StartOfDay("30 10 * * 1-5") == Some(10 * 60 + 30)
  {
  }

  lemma MiddayStarts()
    ensures StartOfDay("30 12 * * 1-5") == Some(12 * 60 + 30)
    ensures StartOfDay("30 13 * * 1-5") == Some(13 * 60 + 30)
  {
  }

  lemma AfternoonStarts()
    ensures StartOfDay("30 15 * * 1-5") == Some(15 * 60 + 30)
    ensures StartOfDay("0 17 * * 1-5") == Some(17 * 60)
  {
  }

  /** Every schedule row's cron expression decodes to the listed start. */
  lemma ScheduleStartTimes()
    ensures |SCHEDULE_STARTS| == |SCHEDULE|
    ensures forall i | 0 <= i < |SCHEDULE| :: StartOfDay(SCHEDULE[i].time) == Some(SCHEDULE_STARTS[i])
  {
    ScheduleCrons();
    StandupStarts();
    MorningStarts();
    MiddayStarts();
    AfternoonStarts();
    forall i | 0 <= i < |SCHEDULE| ensures StartOfDay(SCHEDULE[i].time) == Some(SCHEDULE_STARTS[i]) {
      if i < 4 {
        assert i == 0 || i == 1 || i == 2 || i == 3;
      } else {
        assert i == 4 || i == 5 || i == 6 || i == 7;
      }
    }
  }

  /** Every schedule row names a registered status. */
  lemma ScheduleKeysResolve()
    ensures forall i | 0 <= i < |SCHEDULE| :: SCHEDULE[i].status in STATUSES
  {
  }

  /** Every schedule row lasts a positive number of minutes. */
  lemma ScheduleDurationsPositive()
    ensures forall i | 0 <= i < |SCHEDULE| :: SCHEDULE[i].duration > 0
  {
  }

  /** The rows tile the workday: the first starts at 09:00, each row starts when the
      previous one ends, and the last (end of day) starts at 17:00. */
  lemma ScheduleTilesWorkday()
    ensures forall i | 0 <= i < |SCHEDULE| :: StartOfDay(SCHEDULE[i].time).Some?
    ensures StartOfDay(SCHEDULE[0].time).value == WORKDAY_START
    ensures forall i | 0 <= i < |SCHEDULE| - 1 ::
      StartOfDay(SCHEDULE[i].time).value + SCHEDULE[i].duration == StartOfDay(SCHEDULE[i + 1].time).value
    ensures StartOfDay(SCHEDULE[|SCHEDULE| - 1].time).value == WORKDAY_END
  {
    ScheduleStartTimes();
    StartsTile();
    forall i | 0 <= i < |SCHEDULE| - 1
      ensures StartOfDay(SCHEDULE[i].time).value + SCHEDULE[i].duration == StartOfDay(SCHEDULE[i + 1].time).value
    {
      assert StartOfDay(SCHEDULE[i].time) == Some(SCHEDULE_STARTS[i]);
      assert StartOfDay(SCHEDULE[i + 1].time) == Some(SCHEDULE_STARTS[i + 1]);
    }
  }

  /** The listed starts tile the workday with the row durations. */
  lemma StartsTile()
    ensures |SCHEDULE_STARTS| == |SCHEDULE|
    ensures SCHEDULE_STARTS[0] == WORKDAY_START && SCHEDULE_STARTS[|SCHEDULE| - 1] == WORKDAY_END
    ensures forall i | 0 <= i < |SCHEDULE| - 1 :: SCHEDULE_STARTS[i] + SCHEDULE[i].duration == SCHEDULE_STARTS[i + 1]
  {
    ScheduleDurations();
  }

  /** The schedule's durations, in row order. */
  lemma ScheduleDurations()
    ensures seq(|SCHEDULE|, i requires 0 <= i < |SCHEDULE| => SCHEDULE[i].duration) == [15, 15, 60, 120, 60, 120, 90, 840]
  {
  }

  /** Back-to-back slots of positive length start at strictly increasing times. */
  lemma {:induction false} TiledStartsIncrease(starts: seq<int>, durations: seq<int>, i: nat, j: nat)
    requires |starts| == |durations|
    requires forall k | 0 <= k < |durations| :: durations[k] > 0
    requires forall k | 0 <= k < |starts| - 1 :: starts[k] + durations[k] == starts[k + 1]
    requires i < j < |starts|
    ensures starts[i] < starts[j]
    decreases j - i
  {
    if i + 1 < j {
      TiledStartsIncrease(starts, durations, i + 1, j);
    }
  }

  /** Schedule start times are distinct and strictly increasing in row order. */
  lemma ScheduleStartsIncrease()
    ensures forall i | 0 <= i < |SCHEDULE| :: StartOfDay(SCHEDULE[i].time).Some?
    ensures forall i, j | 0 <= i < j < |SCHEDULE| ::
      StartOfDay(SCHEDULE[i].time).value < StartOfDay(SCHEDULE[j].time).value
  {
    ScheduleTilesWorkday();
    ScheduleDurationsPositive();
    var starts := seq(|SCHEDULE|, i requires 0 <= i < |SCHEDULE| => StartOfDay(SCHEDULE[i].time).value);
    var durations := seq(|SCHEDULE|, i requires 0 <= i < |SCHEDULE| => SCHEDULE[i].duration);
    forall i, j | 0 <= i < j < |SCHEDULE|
      ensures StartOfDay(SCHEDULE[i].time).value < StartOfDay(SCHEDULE[j].time).value
    {
      TiledStartsIncrease(starts, durations, i, j);
    }
  }

  /** Every registered status has non-empty text and emoji. */
  lemma RegistryEntriesNonEmpty()
    ensures forall key | key in STATUSES :: STATUSES[key].statusText != [] && STATUSES[key].statusEmoji != []
  {
  }

  // The letter 'F' of the focus marker appears in no registered text but the focus one.

  lemma NoCapitalF1()
    ensures 'F' !in "In a Meeting - Back soon" && 'F' !in "Grabbing a cup o' Joe" && 'F' !in "Standup Prep"
  {
  }

  lemma NoCapitalF2()
    ensures 'F' !in "In Engineering Standup" && 'F' !in "Stakeholder Communications" && 'F' !in "Lunch Break"
  {
  }

  lemma NoCapitalF3()
    ensures 'F' !in "Code Reviews & Team Support" && 'F' !in "Admin & Learning Time" && 'F' !in "Done for the day"
  {
  }

  lemma OtherTextsLackCapitalF()
    ensures forall key | key in STATUSES && key != "DEEP_FOCUS" :: 'F' !in STATUSES[key].statusText
  {
    NoCapitalF1();
    NoCapitalF2();
    NoCapitalF3();
  }
}
