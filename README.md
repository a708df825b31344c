# Slack status automation — a Dafny model

The system keeps one person's Slack status in step with their working day. A fixed registry
of named statuses (text, emoji, do-not-disturb flag, presence) is applied on a weekday cron
schedule: standup prep at 09:00, standup at 09:15 and so on, up to "Done for the day" at
17:00. Small HTTP routes apply a status on demand: meeting, coffee break, any registry entry,
a coffee preset, or clearing the status. A focus-mode toggle swaps the current status for
"Deep Focus" and later restores what was there before.

There are two copies of the core. The typed service (`src/`) keeps its scheduled jobs so
that it can cancel them, and its Slack helpers rethrow errors. The untyped script
(`status.js`) keeps no job handles and swallows every error in its Slack helpers. Both are
modelled at once. The `Variant` parameter (`Typed` or `Untyped`) selects the behaviour where
the copies differ, and the `StatusScript` module holds the script's own scheduler.

Modules:

- `Types` holds the value types: `SlackStatus`, `StatusConfig` and `CoffeePreset`.
- `Text` models `String.prototype.includes`.
- `Statuses` holds the status registry, the schedule, and the minute and hour fields of its
  cron expressions.
- `Service` covers three things:
  - the workspace state that the Slack calls change (`SlackState`);
  - `setStatus`, `clearStatus` and `isInFocusMode`, with their failure behaviour;
  - the job registry as classes: `Job`, `JobTable` (the scheduler's registry) and
    `SlackService` with its `scheduleJobs` list.
- `App` covers the `/toggle-focus` handler as a class with the one mutable slot
  `previousStatus`. It is specified by the function `ToggleFocus`. It also holds the other
  routes as `Resolve`, `Handle` and `StatusCode`.
- `StatusScript` covers the script's `scheduleDay()` and its error swallowing.

The wall clock (`Date.now() / 1000`) is the parameter `now`, in whole seconds. `Math.floor`
of a non-negative or negative number of seconds divided by 60 is Dafny's `/`, which floors
for a positive divisor.

## Model

| member | source | states |
|---|---|---|
| Text.IncludesIffOccurs | src/services/slack.service.ts:108 | `includes` holds iff the pattern occurs as a contiguous slice at some index |
| Text.MissingCharExcludes | src/services/slack.service.ts:108 | a text lacking one character of the pattern cannot include the pattern |
| Text.PrefixIncluded | src/services/slack.service.ts:108 | a text includes each of its prefixes |
| Text.EmptyIncludesNothing | src/services/slack.service.ts:108 | the empty text includes no non-empty pattern, so a cleared status is never in focus |
| Statuses.DigitValue | src/config/statuses.ts:69-76 | a decimal digit's value is below 10 |
| Statuses.Field | src/config/statuses.ts:69-76 | a cron field of one or two digits before a space decodes to a number below 100, and parsing consumes input |
| Statuses.StartOfDay | src/config/statuses.ts:69-76 | a decoded "minute hour" cron prefix is a minute of the day, below 24*60 |
| Statuses.ScheduleStartTimes | src/config/statuses.ts:68-77 | every row's cron decodes, and row i starts at minute `SCHEDULE_STARTS[i]` of the day |
| Statuses.ScheduleKeysResolve | src/config/statuses.ts:3-77 | every row's status key names a registry entry, so no job fires with an undefined status |
| Statuses.ScheduleDurationsPositive | src/config/statuses.ts:68-77 | every row's duration is positive, so every scheduled status expires |
| Statuses.ScheduleTilesWorkday | src/config/statuses.ts:68-77 | the rows tile the day without gap or overlap: the first starts at 09:00, each ends when the next starts, and the last starts at 17:00 |
| Statuses.StartsTile | src/config/statuses.ts:68-77 | the row start times begin at 09:00, each is the previous start plus the previous row's minutes, and the last is 17:00 |
| Statuses.TiledStartsIncrease | src/config/statuses.ts:68-77 | start times that tile with positive durations increase strictly between any two rows |
| Statuses.ScheduleStartsIncrease | src/config/statuses.ts:68-77 | the schedule's start times are strictly increasing, so no two rows fire at the same minute |
| Statuses.RegistryEntriesNonEmpty | src/config/statuses.ts:3-66 | every registry entry has a non-empty text and emoji |
| Statuses.OtherTextsLackCapitalF | src/config/statuses.ts:3-66 | no registry text other than DEEP_FOCUS contains a capital F |
| Service.SetStatus | src/services/slack.service.ts:23-45 | the profile gets the status's text and emoji and the presence its presence; the expiration is `now + duration` for a positive duration and 0 (none) otherwise, so it never lies in the past; do-not-disturb is snoozed iff the status asks for it, for `floor(duration/60)` minutes, and ended otherwise |
| Service.ClearStatus | src/services/slack.service.ts:54-65 | text and emoji become empty, presence auto, do-not-disturb ended; the expiration is not sent and so is unchanged |
| Service.WholeMinutesSnooze | src/services/slack.service.ts:33-43 | a do-not-disturb status applied for `m*60` seconds snoozes exactly `m` minutes and expires `m` minutes on when `m > 0` |
| Service.ClearStatusIdempotent | src/services/slack.service.ts:54-65 | clearing twice equals clearing once, and the result depends only on the previous expiration |
| Service.EmptyTextIsNotFocus | src/services/slack.service.ts:104-108 | an empty status text is never focus mode |
| Service.FocusModeIffMarkerOccurs | src/services/slack.service.ts:104-108 | focus mode holds iff "Deep Focus" occurs somewhere in the status text |
| Service.DeepFocusIsFocus | src/services/slack.service.ts:108 | applying DEEP_FOCUS, for any duration, is detected as focus mode |
| Service.OnlyDeepFocusIsFocus | src/config/statuses.ts:36-41 | among registry statuses, applying one is detected as focus mode iff it is DEEP_FOCUS |
| Service.SetStatusRejects | src/services/slack.service.ts:13-52 | the typed `setStatus` rejects iff at least one of its three calls fails, because `setPresence` rethrows; the script's copy never rejects |
| Service.Job.constructor | src/services/slack.service.ts:82-84 | a new job holds its cron, its target status and its seconds, and is armed |
| Service.Job.Cancel | src/services/slack.service.ts:91 | cancelling a job disarms it |
| Service.JobTable.constructor | src/services/slack.service.ts:82 | the scheduler registry starts empty |
| Service.JobTable.ScheduleJob | src/services/slack.service.ts:82-84 | registering a job appends a fresh armed job with those fields and changes no other job |
| Service.FireBoundJob | src/services/slack.service.ts:82-84 | firing a job bound to a row applies the row's registry status for `duration*60` seconds (snoozing exactly `duration` minutes); an unknown key leaves the state alone |
| Service.DistinctCardinality | src/services/slack.service.ts:80-85 | a list of distinct jobs has as many members as elements |
| Service.RegisterJobs | src/services/slack.service.ts:80-85 | one fresh, distinct, armed job per row is appended in row order, each bound to its row's cron, status and seconds; existing jobs keep their state |
| Service.SlackService.constructor | src/services/slack.service.ts:7-11 | the service starts with no scheduled jobs |
| Service.SlackService.ClearScheduledJobs | src/services/slack.service.ts:90-93 | every held job is cancelled and the list is emptied |
| Service.SlackService.ScheduleDay | src/services/slack.service.ts:73-88 | the held jobs are cancelled and replaced by one fresh job per row; the armed set loses the old held jobs and gains the new ones; when every armed job was held, exactly one job per row stays armed |
| App.FocusController.constructor | src/index.ts:12-14 | no status is remembered at start |
| App.FocusController.Toggle | src/index.ts:18-68 | one toggle updates the remembered status, the workspace and the reply exactly as `ToggleFocus` says |
| App.ToggleStatusCode | src/index.ts:36-67 | a toggle answers 500 iff it runs in the typed service and one of the Slack calls of its `setStatus` or `clearStatus` fails; the script answers 200 whatever fails |
| App.FailedToggleKeepsSnapshot | src/index.ts:23-67 | a typed toggle that answers 500 has already replaced the remembered status as a successful one would, and the script answers 200 even when every call failed |
| App.SnapshotRule | src/index.ts:23-34 | the remembered status becomes a copy of a non-focus current status with text and emoji, forced to do-not-disturb and away; otherwise it is kept, and it is never cleared |
| App.EnterFocus | src/index.ts:51-58 | outside focus, a toggle applies DEEP_FOCUS for two hours: focus detected, snoozed 120 minutes, away, expiring at `now + 7200`, and the reply names the remembered text or "none" |
| App.ExitFocus | src/index.ts:36-50 | in focus, a toggle restores the remembered status for one hour, or clears the status when nothing is remembered; the remembered status is kept |
| App.RoundTrip | src/index.ts:18-59 | two toggles from a non-focus status with text and emoji give back its text and emoji, away and snoozed 60 minutes, expiring an hour later |
| App.RoundTripFromEmpty | src/index.ts:23-50 | two toggles from an unremembered status, with nothing remembered, end in `clearStatus` |
| App.StaleSnapshotRestored | src/index.ts:28-41 | the remembered status is never reset, so a stale status from an earlier toggle is what leaving focus restores |
| App.RegistryStatusesAreRemembered | src/index.ts:23-34 | any registry status other than DEEP_FOCUS, once applied, is remembered by the next toggle |
| App.PresetFor | src/index.ts:155-156 | a preset name selects its own preset; any other name selects "regular" (15 minutes) |
| App.CoffeeStatus | src/index.ts:158-161 | a coffee status is COFFEE with only its text replaced by the preset message |
| App.StatusCode | src/index.ts:112-131 | a response is 400 iff the request is rejected by validation, 500 iff it is performed by the typed service with a failing call, and 200 otherwise |
| App.DefaultDurations | src/index.ts:79-109 | `/meeting` and `/coffee-break` without a non-zero duration apply MEETING for 30 and COFFEE for 15 minutes, snoozing that long |
| App.RequestedDurations | src/index.ts:79-109 | `/meeting` and `/coffee-break` with a non-zero duration apply MEETING and COFFEE for exactly that many minutes, snoozing that long |
| App.SetStatusValidation | src/index.ts:117-121 | `/set-status/:type` is rejected iff the type is not a registry key; then it answers 400 and changes nothing, otherwise it applies that entry for `duration*60` seconds |
| App.CoffeePresetFallback | src/index.ts:153-163 | an unknown preset applies exactly what "regular" does; every preset applies COFFEE with only the text replaced by its message |
| App.CoffeeIsRemembered | src/index.ts:153-163 | a coffee break is never focus mode and has text and emoji, so the next toggle remembers it |
| App.PresetMessagesLackCapitalF | src/index.ts:138-151 | no preset message contains a capital F |
| App.UntypedNeverFails | status.js:74-128 | the script's status routes never answer 500: a performed request always answers 200 |
| App.InheritedNamePassesTypeGuard | src/index.ts:117 | as written, "constructor" passes the `!STATUSES[type]` guard although it is no registry key |
| App.InheritedNameSkipsPresetFallback | src/index.ts:155-156 | as written, "constructor" yields an inherited member instead of falling back to "regular"; the own-key lookup falls back |
| StatusScript.ScheduleDay | status.js:141-148 | each call appends one fresh armed job per row, bound to the row, and disarms nothing, so the armed set grows by eight |
| StatusScript.ScheduleDayTwice | status.js:141-148 | calling the script's `scheduleDay()` twice binds two distinct new jobs to every row, both armed, and grows the armed set by sixteen |
| StatusScript.TypedScheduleDayTwice | src/services/slack.service.ts:73-93 | calling the typed `scheduleDay` twice leaves the held jobs, one bound to each row, as exactly the armed jobs |
| StatusScript.ScriptSwallowsErrors | status.js:74-110 | the script's `setPresence` and `setStatus` never reject, whatever fails, while the typed `setStatus` rejects on any failure |

## Left out

- The HTTP plumbing is not modelled. Express routing, JSON parsing, response messages and the `endTime` strings are absent; a route is its `Request` value and the HTTP status code.
- The concurrency of the three calls in `Promise.all` is not modelled. `SetStatus` gives the workspace as if all three calls succeeded. A partial failure leaves some of them applied; the model states only whether the call rejects (`SetStatusRejects`, `StatusCode`).
- The remembered status is a single slot updated in sequence. Two overlapping `/toggle-focus` requests interleaving at their `await`s are not modelled.
- Node-schedule's firing semantics (clock, weekdays, time zones) are not modelled. A job's effect when it fires is `Job.Fire`. Cron fields other than minute and hour, and minute or hour fields longer than two digits, are not decoded.
- `Date.now()` is the parameter `now`, in whole seconds.
- The `NaN` arithmetic of `/set-status` without a `duration` is not modelled. `SetStatusRequest` always carries an integer number of minutes. Non-integer durations from the request body are also out.
- App.FocusController.Toggle: gives the workspace and the reply as if its `setStatus` or `clearStatus` calls succeed. When some fail, the typed handler answers 500 and the script still sends its reply; both are stated by `ToggleStatusCode` and `FailedToggleKeepsSnapshot`, but the workspace after a partial failure is not modelled.
- The 500 answer of `/toggle-focus` when reading the profile fails is not modelled. The toggle takes the profile as read.
- The typed toggle reads the profile twice (once inside `isInFocusMode`), while the script reads it once. In a sequential model both reads return the same value, so `ToggleFocus` models both.
- `status.js` repeats the registry, schedule, toggle and routes of the typed copy. The model uses one definition of each. The script builds its presets inside the handler, which gives the same values.
- Loading `.env`, the Slack token and console logging are not modelled.
- `src/types/slack.ts` is represented by the datatypes of `Types`.
- Service.ClearStatus: `clearStatus` sends no `status_expiration`. The model keeps the previous expiration, which assumes Slack leaves an unsent field unchanged.

## Findings

| source | as written | input that shows it | evidently intended | confidence | as-written member | corrected member |
|---|---|---|---|---|---|---|
| src/index.ts:117 (and status.js:246) | `!STATUSES[type]` looks up the route parameter on a plain object, so names inherited from `Object.prototype` are truthy and pass the guard | `POST /set-status/constructor` passes validation, and `setStatus` then receives a function as the status | only registry keys pass; every other type answers 400 | not executed | App.InheritedNamePassesTypeGuard | App.SetStatusValidation |
| src/index.ts:155-156 (and status.js:279) | `COFFEE_PRESETS[name] \|\| COFFEE_PRESETS.regular` yields an inherited member for names such as "constructor", so the fallback to "regular" is skipped | `POST /coffee/constructor` uses `Object`'s constructor as the preset, so the message and duration are undefined | any name that is not a preset falls back to "regular" | not executed | App.InheritedNameSkipsPresetFallback | App.CoffeePresetFallback |
