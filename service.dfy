/** The Slack service (src/services/slack.service.ts): applying and clearing a status,
    focus detection, and the set of scheduled jobs. The Slack Web API is replaced by the
    part of the workspace it changes, a `SlackState` value. */
module Service {
  import opened Types
  import opened Text
  import opened Statuses

  /** Do-not-disturb: no snooze, or snoozed for a number of minutes. */
  datatype Dnd = Ended | Snoozed(minutes: int)

  /** What the service reads and writes in the Slack workspace: profile text and emoji, the
      status expiration (epoch seconds, 0 for none), presence and do-not-disturb. */
  datatype SlackState = SlackState(statusText: string, statusEmoji: string, expiration: int, presence: Presence, dnd: Dnd)

  /** The text that marks the focus status. */
  const FOCUS_MARKER := "Deep Focus"

  /** `setStatus(status, duration)` at epoch second `now`: profile, presence and
      do-not-disturb are all replaced. */
  function SetStatus(status: SlackStatus, duration: int, now: nat): (r: SlackState)
    ensures r.statusText == status.statusText && r.statusEmoji == status.statusEmoji
    ensures r.presence == status.presence
    ensures duration > 0 ==> r.expiration == now + duration
    ensures duration <= 0 ==> r.expiration == 0
    ensures r.expiration == 0 || r.expiration > now
    ensures r.dnd.Snoozed? <==> status.dnd
    ensures r.dnd.Snoozed? ==> r.dnd.minutes * 60 <= duration < r.dnd.minutes * 60 + 60
  {
    SlackState(
      status.statusText,
      status.statusEmoji,
      if duration > 0 then now + duration else 0,
      status.presence,
      if status.dnd then Snoozed(duration / 60) else Ended)
  }

  /** `clearStatus()`: empty text and emoji, presence `auto`, do-not-disturb ended. No
      expiration is sent, so the recorded one is left as it was. */
  function ClearStatus(st: SlackState): (r: SlackState)
    ensures r.statusText == [] && r.statusEmoji == []
    ensures r.presence == Auto && r.dnd == Ended
    ensures r.expiration == st.expiration
  {
    st.(statusText := [], statusEmoji := [], presence := Auto, dnd := Ended)
  }

  /** `isInFocusMode()`: the current status text contains the focus marker. */
  predicate IsInFocusMode(st: SlackState)
  {
    Includes(st.statusText, FOCUS_MARKER)
  }

  // --- Properties of applying and clearing ---

  /** Applying a do-not-disturb status for a whole number `m` of minutes, as every scheduled
      job and every route does, snoozes for exactly `m` minutes; the status expires `m`
      minutes on when `m` is positive. */
  lemma {:induction false} WholeMinutesSnooze(status: SlackStatus, m: int, now: nat)
    requires status.dnd
    ensures SetStatus(status, m * 60, now).dnd == Snoozed(m)
    ensures SetStatus(status, m * 60, now).expiration == if m > 0 then now + m * 60 else 0
  {
    var r := SetStatus(status, m * 60, now);
    var k := r.dnd.minutes;
    assert k * 60 <= m * 60 < k * 60 + 60;
    assert k == m;
  }

  /** Clearing does not depend on the status shown before (apart from the expiration it
      leaves in place), so clearing twice is clearing once. */
  lemma ClearStatusIdempotent(st: SlackState)
    ensures ClearStatus(ClearStatus(st)) == ClearStatus(st)
    ensures forall other: SlackState | other.expiration == st.expiration :: ClearStatus(other) == ClearStatus(st)
  {
  }

  /** The empty text is never taken for focus mode. */
  lemma EmptyTextIsNotFocus(st: SlackState)
    requires st.statusText == []
    ensures !IsInFocusMode(st)
  {
    EmptyIncludesNothing(FOCUS_MARKER);
  }

  /** Focus detection matches the marker anywhere in the text. */
  lemma FocusModeIffMarkerOccurs(st: SlackState)
    ensures IsInFocusMode(st) <==>
      exists i | 0 <= i <= |st.statusText| - |FOCUS_MARKER| :: OccursAt(st.statusText, FOCUS_MARKER, i)
  {
    IncludesIffOccurs(st.statusText, FOCUS_MARKER);
  }

  /** Applying DEEP_FOCUS turns focus detection on. */
  lemma DeepFocusIsFocus(duration: int, now: nat)
    ensures IsInFocusMode(SetStatus(DEEP_FOCUS, duration, now))
  {
    assert FOCUS_MARKER <= DEEP_FOCUS.statusText;
    PrefixIncluded(DEEP_FOCUS.statusText, FOCUS_MARKER);
  }

  /** Of all registered statuses only DEEP_FOCUS carries the marker: applying it turns focus
      detection on, applying any other turns it off. */
  lemma OnlyDeepFocusIsFocus(key: string, duration: int, now: nat)
    requires key in STATUSES
    ensures IsInFocusMode(SetStatus(STATUSES[key], duration, now)) <==> key == "DEEP_FOCUS"
  {
    var text := STATUSES[key].statusText;
    if key == "DEEP_FOCUS" {
      DeepFocusIsFocus(duration, now);
    } else {
      OtherTextsLackCapitalF();
      assert 'F' in FOCUS_MARKER;
      MissingCharExcludes(text, FOCUS_MARKER, 'F');
    }
  }

  // --- Failures of the Slack calls ---

  /** Which repository copy a behaviour belongs to: the typed service (src/) or the
      untyped script (status.js). */
  datatype Variant = Typed | Untyped

  /** The three Web API calls that applying or clearing a status issues. */
  datatype Call = ProfileSet | PresenceSet | DndSet

  /** Whether `setPresence` rejects when the calls in `failed` fail: the typed service logs
      and rethrows, the script logs and swallows. */
  predicate SetPresenceRejects(variant: Variant, failed: set<Call>)
  {
    PresenceSet in failed && variant == Typed
  }

  /** Whether `setStatus` (and `clearStatus`, which issues the same three calls) rejects:
      the joint wait rejects when any of the three does, and the outer handler then rethrows
      (typed) or logs and swallows (script). */
  function SetStatusRejects(variant: Variant, failed: set<Call>): (r: bool)
    ensures r <==> variant == Typed && failed != {}
    ensures variant == Untyped ==> !r
  {
    var joint := ProfileSet in failed || SetPresenceRejects(variant, failed) || DndSet in failed;
    assert failed != {} ==> ProfileSet in failed || PresenceSet in failed || DndSet in failed by {
      if failed != {} {
        var c :| c in failed;
        assert c == ProfileSet || c == PresenceSet || c == DndSet;
      }
    }
    joint && variant == Typed
  }

  // --- Scheduled jobs ---

  /** A job of the scheduling library: when it fires, unless cancelled, it applies `target`
      for `seconds`. The target is the registry entry looked up for the row's key. */
  class Job {
    const time: string
    const target: Option<SlackStatus>
    const seconds: int
    var cancelled: bool

    constructor (time: string, target: Option<SlackStatus>, seconds: int)
      ensures this.time == time && this.target == target && this.seconds == seconds
      ensures !cancelled
    {
      this.time := time;
      this.target := target;
      this.seconds := seconds;
      cancelled := false;
    }

    /** `job.cancel()`. */
    method Cancel()
      modifies this
      ensures cancelled
    {
      cancelled := true;
    }

    /** The effect of one firing on the workspace. A cancelled job never fires; a row whose
        key is not registered fails inside `setStatus` and changes nothing. */
    function Fire(st: SlackState, now: nat): SlackState
      reads this
    {
      if cancelled then st
      else match target
        case None => st
        case Some(status) => SetStatus(status, seconds, now)
    }
  }

  /** The scheduling library's table of registered jobs; a registered job is armed until it
      is cancelled. */
  class JobTable {
    var jobs: seq<Job>

    constructor ()
      ensures jobs == []
    {
      jobs := [];
    }

    /** The jobs that will still fire. */
    function Armed(): set<Job>
      reads this, jobs
    {
      set j | j in jobs && !j.cancelled
    }

    /** `scheduleJob(time, callback)`: registers and returns a new armed job. */
    method ScheduleJob(time: string, target: Option<SlackStatus>, seconds: int) returns (job: Job)
      modifies this
      ensures fresh(job)
      ensures job.time == time && job.target == target && job.seconds == seconds && !job.cancelled
      ensures jobs == old(jobs) + [job]
    {
      job := new Job(time, target, seconds);
      jobs := jobs + [job];
    }
  }

  /** Job `job` is armed and stands for schedule row `row` resolved against `statuses`. */
  predicate BoundTo(job: Job, row: StatusConfig, statuses: map<string, SlackStatus>)
    reads job
  {
    && job.time == row.time
    && job.target == Lookup(statuses, row.status)
    && job.seconds == row.duration * 60
    && !job.cancelled
  }

  /** Firing a job bound to a schedule row applies the row's registry status for the row's
      minutes (a do-not-disturb status snoozes for exactly that many minutes); a row whose
      key is not registered changes nothing. */
  lemma FireBoundJob(job: Job, row: StatusConfig, statuses: map<string, SlackStatus>, st: SlackState, now: nat)
    requires BoundTo(job, row, statuses)
    ensures row.status in statuses ==> job.Fire(st, now) == SetStatus(statuses[row.status], row.duration * 60, now)
    ensures row.status in statuses && statuses[row.status].dnd ==> job.Fire(st, now).dnd == Snoozed(row.duration)
    ensures row.status !in statuses ==> job.Fire(st, now) == st
  {
    if row.status in statuses && statuses[row.status].dnd {
      WholeMinutesSnooze(statuses[row.status], row.duration, now);
    }
  }

  /** No job occurs twice in `jobs`. */
  predicate Distinct(jobs: seq<Job>)
  {
    forall i, k | 0 <= i < k < |jobs| :: jobs[i] != jobs[k]
  }

  lemma {:induction false} DistinctCardinality(jobs: seq<Job>)
    requires Distinct(jobs)
    ensures |set j | j in jobs| == |jobs|
    decreases |jobs|
  {
    if jobs != [] {
      var rest := jobs[1..];
      assert Distinct(rest);
      DistinctCardinality(rest);
      assert (set j | j in jobs) == (set j | j in rest) + {jobs[0]};
      assert jobs[0] !in (set j | j in rest);
    }
  }

  /** Registers one job per row, in row order (`scheduleConfig.map(... scheduleJob ...)`),
      and returns the handles. */
  method RegisterJobs(config: seq<StatusConfig>, statuses: map<string, SlackStatus>, table: JobTable)
    returns (handles: seq<Job>)
    modifies table
    ensures |handles| == |config|
    ensures forall i | 0 <= i < |config| :: fresh(handles[i]) && BoundTo(handles[i], config[i], statuses)
    ensures Distinct(handles)
    ensures table.jobs == old(table.jobs) + handles
    ensures table.Armed() == old(table.Armed()) + set j | j in handles
  {
    handles := [];
    for i := 0 to |config|
      invariant |handles| == i
      invariant forall k | 0 <= k < i :: fresh(handles[k]) && BoundTo(handles[k], config[k], statuses)
      invariant Distinct(handles)
      invariant table.jobs == old(table.jobs) + handles
      invariant forall j | j in old(table.jobs) :: j.cancelled == old(j.cancelled)
    {
      var row := config[i];
      var job := table.ScheduleJob(row.time, Lookup(statuses, row.status), row.duration * 60);
      handles := handles + [job];
    }
  }

  /** The service object; it holds the handles of the jobs of the current schedule. */
  class SlackService {
    var scheduleJobs: seq<Job>

    constructor ()
      ensures scheduleJobs == []
    {
      scheduleJobs := [];
    }

    /** `clearScheduledJobs()`: cancels every held job and drops the handles. */
    method ClearScheduledJobs()
      modifies this, scheduleJobs
      ensures scheduleJobs == []
      ensures forall j | j in old(scheduleJobs) :: j.cancelled
    {
      for i := 0 to |scheduleJobs|
        invariant scheduleJobs == old(scheduleJobs)
        invariant forall k | 0 <= k < i :: scheduleJobs[k].cancelled
      {
        scheduleJobs[i].Cancel();
      }
      scheduleJobs := [];
    }

    /** `scheduleDay(config, statuses)`: cancels the held jobs, then registers and holds
        exactly one job per row. When the held jobs were the only armed ones, the new
        schedule's jobs are exactly the armed ones afterwards. */
    method ScheduleDay(config: seq<StatusConfig>, statuses: map<string, SlackStatus>, table: JobTable)
      modifies this, scheduleJobs, table
      ensures forall j | j in old(scheduleJobs) :: j.cancelled
      ensures |scheduleJobs| == |config|
      ensures forall i | 0 <= i < |config| :: fresh(scheduleJobs[i]) && BoundTo(scheduleJobs[i], config[i], statuses)
      ensures table.jobs == old(table.jobs) + scheduleJobs
      ensures table.Armed() == (old(table.Armed()) - set j | j in old(scheduleJobs)) + set j | j in scheduleJobs
      ensures old(table.Armed()) <= (set j | j in old(scheduleJobs)) ==>
        table.Armed() == (set j | j in scheduleJobs) && |table.Armed()| == |config|
    {
      ghost var armedBefore := table.Armed();
      ghost var held := set j | j in scheduleJobs;
      ClearScheduledJobs();
      ghost var armedCleared := table.Armed();
      assert armedCleared == armedBefore - held by {
        assert table.jobs == old(table.jobs);
        forall j | j in table.jobs
          ensures j.cancelled == (old(j.cancelled) || j in held)
        {
        }
      }
      var handles := RegisterJobs(config, statuses, table);
      ghost var added := set j | j in handles;
      ghost var armedAfter := table.Armed();
      assert armedAfter == armedCleared + added;
      scheduleJobs := handles;
      assert table.Armed() == armedAfter;
      forall i | 0 <= i < |config|
        ensures fresh(scheduleJobs[i]) && BoundTo(scheduleJobs[i], config[i], statuses)
      {
        assert scheduleJobs[i] == handles[i];
      }
      forall j | j in old(scheduleJobs)
        ensures j.cancelled
      {
        assert j in held;
      }
      if armedBefore <= held {
        assert armedCleared == {};
        DistinctCardinality(handles);
      }
    }
  }

}
