/** Where the untyped script (status.js) departs from the typed service: it keeps no job
    handles, and its status calls swallow their errors. Its registry, schedule, toggle and
    routes are the ones modelled in Statuses and App. */
module StatusScript {
  import opened Statuses
  import opened Service

  /** The script's `scheduleDay()`: registers one job per SCHEDULE row and keeps no handle,
      so nothing it armed before is cancelled. */
  method ScheduleDay(table: JobTable)
    modifies table
    ensures |table.jobs| == |old(table.jobs)| + |SCHEDULE|
    ensures table.jobs[..|old(table.jobs)|] == old(table.jobs)
    ensures forall i | 0 <= i < |SCHEDULE| ::
      fresh(table.jobs[|old(table.jobs)| + i]) && BoundTo(table.jobs[|old(table.jobs)| + i], SCHEDULE[i], STATUSES)
    ensures old(table.Armed()) <= table.Armed()
    ensures |table.Armed()| == |old(table.Armed())| + |SCHEDULE|
  {
    ghost var before := table.Armed();
    var handles := RegisterJobs(SCHEDULE, STATUSES, table);
    DistinctCardinality(handles);
    assert before !! set j | j in handles;
    assert table.jobs[..|old(table.jobs)|] == old(table.jobs);
  }

  /** Running the script's `scheduleDay()` twice arms every row twice: two distinct new
      jobs are bound to each row and both stay armed. */
  method ScheduleDayTwice(table: JobTable)
    modifies table
    ensures |table.jobs| == |old(table.jobs)| + 2 * |SCHEDULE|
    ensures forall i | 0 <= i < |SCHEDULE| ::
      && BoundTo(table.jobs[|old(table.jobs)| + i], SCHEDULE[i], STATUSES)
      && BoundTo(table.jobs[|old(table.jobs)| + |SCHEDULE| + i], SCHEDULE[i], STATUSES)
      && table.jobs[|old(table.jobs)| + i] != table.jobs[|old(table.jobs)| + |SCHEDULE| + i]
    ensures |table.Armed()| == |old(table.Armed())| + 2 * |SCHEDULE|
  {
    ghost var n := |table.jobs|;
    ScheduleDay(table);
    ghost var added := table.jobs[n..];
    ghost var armed := table.Armed();
    forall i | 0 <= i < |SCHEDULE|
      ensures added[i] in armed
    {
      assert added[i] == table.jobs[n + i];
      assert BoundTo(table.jobs[n + i], SCHEDULE[i], STATUSES);
      assert table.jobs[n + i] in table.jobs;
    }
    ScheduleDay(table);
    forall i | 0 <= i < |SCHEDULE|
      ensures BoundTo(table.jobs[n + i], SCHEDULE[i], STATUSES)
      ensures table.jobs[n + i] != table.jobs[n + |SCHEDULE| + i]
    {
      assert table.jobs[n + i] == added[i];
      assert added[i] in table.Armed();
      assert BoundTo(table.jobs[n + |SCHEDULE| + i], SCHEDULE[i], STATUSES);
    }
  }

  /** Running the typed `scheduleDay` twice leaves one armed job per row. */
  method TypedScheduleDayTwice(service: SlackService, table: JobTable)
    requires table.Armed() <= set j | j in service.scheduleJobs
    modifies service, service.scheduleJobs, table
    ensures |service.scheduleJobs| == |SCHEDULE|
    ensures forall i | 0 <= i < |SCHEDULE| :: BoundTo(service.scheduleJobs[i], SCHEDULE[i], STATUSES)
    ensures table.Armed() == set j | j in service.scheduleJobs
    ensures |table.Armed()| == |SCHEDULE|
  {
    service.ScheduleDay(SCHEDULE, STATUSES, table);
    service.ScheduleDay(SCHEDULE, STATUSES, table);
  }

  /** The script's `setPresence`, `setStatus` and `clearStatus` never reject, whichever
      Slack calls fail. */
  lemma ScriptSwallowsErrors(failed: set<Call>)
    ensures !SetPresenceRejects(Untyped, failed)
    ensures !SetStatusRejects(Untyped, failed)
    ensures failed != {} ==> SetStatusRejects(Typed, failed)
  {
  }
}
