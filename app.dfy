/** The HTTP handlers (src/index.ts; status.js repeats them): the focus-mode toggle with its
    one remembered status, and the rules that turn a request into a status to apply. */
module App {
  import opened Types
  import opened Text
  import opened Statuses
  import opened Service

  // --- /toggle-focus ---

  const FOCUS_SECONDS := 120 * 60
  const RESTORE_SECONDS := 60 * 60

  /** What the toggle reports: focus entered (with the remembered text, or "none"), focus
      left with the remembered status restored, or focus left with the status cleared. */
  datatype FocusReply = FocusEnabled(previousText: string) | FocusRestored(previousText: string) | FocusDisabled

  /** The remembered status, the workspace and the reply after one toggle. */
  datatype Toggled = Toggled(previous: Option<SlackStatus>, state: SlackState, reply: FocusReply)

  /** The current status is worth remembering: not the focus status, and both text and
      emoji are set. */
  predicate Snapshots(current: SlackState)
  {
    !IsInFocusMode(current) && current.statusText != [] && current.statusEmoji != []
  }

  /** One toggle, given the remembered status and the workspace as read. */
  function ToggleFocus(previous: Option<SlackStatus>, current: SlackState, now: nat): Toggled
  {
    var remembered :=
      if Snapshots(current) then Some(SlackStatus(current.statusText, current.statusEmoji, true, Away))
      else previous;
    if IsInFocusMode(current) then
      match remembered
      case Some(p) => Toggled(remembered, SetStatus(p, RESTORE_SECONDS, now), FocusRestored(p.statusText))
      case None => Toggled(remembered, ClearStatus(current), FocusDisabled)
    else
      Toggled(remembered, SetStatus(DEEP_FOCUS, FOCUS_SECONDS, now),
              FocusEnabled(if remembered.Some? then remembered.value.statusText else "none"))
  }

  /** The application object and its one mutable slot, `previousStatus`. */
  class FocusController {
    var previousStatus: Option<SlackStatus>

    constructor ()
      ensures previousStatus == None
    {
      previousStatus := None;
    }

    /** The `/toggle-focus` handler: `current` is the profile as read, `next` the workspace
        after the handler's calls. */
    method Toggle(current: SlackState, now: nat) returns (next: SlackState, reply: FocusReply)
      modifies this
      ensures Toggled(previousStatus, next, reply) == ToggleFocus(old(previousStatus), current, now)
    {
      var inFocus := IsInFocusMode(current);
      if !inFocus && current.statusText != [] && current.statusEmoji != [] {
        previousStatus := Some(SlackStatus(current.statusText, current.statusEmoji, true, Away));
      }
      if inFocus {
        if previousStatus.Some? {
          next := SetStatus(previousStatus.value, 60 * 60, now);
          reply := FocusRestored(previousStatus.value.statusText);
        } else {
          next := ClearStatus(current);
          reply := FocusDisabled;
        }
      } else {
        next := SetStatus(DEEP_FOCUS, 120 * 60, now);
        reply := FocusEnabled(if previousStatus.Some? then previousStatus.value.statusText else "none");
      }
    }
  }

  /** The HTTP status of a `/toggle-focus` answer when the Slack calls in `failed` fail
      (the profile read itself succeeding): the typed handler answers 500 when the
      `setStatus` or `clearStatus` it awaits rejects; the script's copies never reject, so
      it answers 200 with its reply whatever failed. */
  function ToggleStatusCode(variant: Variant, failed: set<Call>): (code: int)
    ensures code == 500 <==> variant == Typed && failed != {}
    ensures code == 200 <==> !(variant == Typed && failed != {})
  {
    if SetStatusRejects(variant, failed) then 500 else 200
  }

  /** A failing toggle has already stored its snapshot: in the typed copy a toggle that
      answers 500 has replaced the remembered status exactly as a successful one would,
      and in the script every toggle answers 200 with the reply of a successful one. */
  lemma FailedToggleKeepsSnapshot(previous: Option<SlackStatus>, current: SlackState, failed: set<Call>, now: nat)
    requires failed != {}
    ensures ToggleStatusCode(Typed, failed) == 500
    ensures Snapshots(current) ==>
      ToggleFocus(previous, current, now).previous == Some(SlackStatus(current.statusText, current.statusEmoji, true, Away))
    ensures ToggleStatusCode(Untyped, failed) == 200
  {
    SnapshotRule(previous, current, now);
  }

  /** The remembered status changes only to a copy of a non-focus, non-empty current status,
      with do-not-disturb forced on and presence forced to away; once set it is never
      cleared. */
  lemma SnapshotRule(previous: Option<SlackStatus>, current: SlackState, now: nat)
    ensures Snapshots(current) ==>
      ToggleFocus(previous, current, now).previous ==
        Some(SlackStatus(current.statusText, current.statusEmoji, true, Away))
    ensures !Snapshots(current) ==> ToggleFocus(previous, current, now).previous == previous
    ensures previous.Some? ==> ToggleFocus(previous, current, now).previous.Some?
  {
  }

  /** Entering focus applies DEEP_FOCUS for two hours: focus detection turns on,
      do-not-disturb is snoozed for 120 minutes, presence is away, and the reply echoes the
      remembered text or "none". */
  lemma EnterFocus(previous: Option<SlackStatus>, current: SlackState, now: nat)
    requires !IsInFocusMode(current)
    ensures var r := ToggleFocus(previous, current, now);
      && r.state == SetStatus(DEEP_FOCUS, 7200, now)
      && IsInFocusMode(r.state)
      && r.state.dnd == Snoozed(120)
      && r.state.presence == Away
      && r.state.expiration == now + 7200
      && r.reply == FocusEnabled(if r.previous.Some? then r.previous.value.statusText else "none")
  {
    DeepFocusIsFocus(7200, now);
    WholeMinutesSnooze(DEEP_FOCUS, 120, now);
  }

  /** Leaving focus restores the remembered status for one hour, or clears the status when
      nothing is remembered; the remembered status is kept either way. */
  lemma ExitFocus(previous: Option<SlackStatus>, current: SlackState, now: nat)
    requires IsInFocusMode(current)
    ensures var r := ToggleFocus(previous, current, now);
      && r.previous == previous
      && (previous.Some? ==>
            r.state == SetStatus(previous.value, 3600, now) && r.reply == FocusRestored(previous.value.statusText))
      && (previous.None? ==> r.state == ClearStatus(current) && r.reply == FocusDisabled)
  {
  }

  /** Round trip: from a non-focus status with text and emoji, two toggles give back that
      text and emoji, with presence away and do-not-disturb snoozed for 60 minutes. */
  lemma RoundTrip(previous: Option<SlackStatus>, current: SlackState, now1: nat, now2: nat)
    requires Snapshots(current)
    ensures var first := ToggleFocus(previous, current, now1);
      var second := ToggleFocus(first.previous, first.state, now2);
      && second.state.statusText == current.statusText
      && second.state.statusEmoji == current.statusEmoji
      && second.state.presence == Away
      && second.state.dnd == Snoozed(60)
      && second.state.expiration == now2 + 3600
      && second.reply == FocusRestored(current.statusText)
  {
    var first := ToggleFocus(previous, current, now1);
    EnterFocus(previous, current, now1);
    var snap := SlackStatus(current.statusText, current.statusEmoji, true, Away);
    assert first.previous == Some(snap);
    ExitFocus(first.previous, first.state, now2);
    WholeMinutesSnooze(snap, 60, now2);
  }

  /** Two toggles from a status that is not remembered (empty text or emoji) with nothing
      remembered before end in `clearStatus`. */
  lemma RoundTripFromEmpty(current: SlackState, now1: nat, now2: nat)
    requires !IsInFocusMode(current) && !Snapshots(current)
    ensures var first := ToggleFocus(None, current, now1);
      var second := ToggleFocus(first.previous, first.state, now2);
      && second.state == ClearStatus(first.state)
      && second.reply == FocusDisabled
  {
    EnterFocus(None, current, now1);
    var first := ToggleFocus(None, current, now1);
    ExitFocus(first.previous, first.state, now2);
  }

  /** The remembered status is never reset: entering focus from an empty status and leaving
      it again restores whatever an earlier toggle remembered, however stale. */
  lemma StaleSnapshotRestored(stale: SlackStatus, current: SlackState, now1: nat, now2: nat)
    requires !IsInFocusMode(current) && !Snapshots(current)
    ensures var first := ToggleFocus(Some(stale), current, now1);
      var second := ToggleFocus(first.previous, first.state, now2);
      && second.state == SetStatus(stale, 3600, now2)
      && second.reply == FocusRestored(stale.statusText)
  {
    EnterFocus(Some(stale), current, now1);
    var first := ToggleFocus(Some(stale), current, now1);
    ExitFocus(first.previous, first.state, now2);
  }

  /** Any registered status other than DEEP_FOCUS, once applied, is remembered by the next
      toggle. */
  lemma RegistryStatusesAreRemembered(key: string, duration: int, now: nat)
    requires key in STATUSES && key != "DEEP_FOCUS"
    ensures Snapshots(SetStatus(STATUSES[key], duration, now))
  {
    OnlyDeepFocusIsFocus(key, duration, now);
    RegistryEntriesNonEmpty();
  }

  // --- The other routes ---

  const MEETING_DEFAULT_MINUTES := 30
  const COFFEE_BREAK_DEFAULT_MINUTES := 15

  /** `req.body.duration || fallback`: an absent or zero duration takes the fallback. */
  function DurationOr(requested: Option<int>, fallback: int): int
  {
    match requested
    case Some(d) => if d != 0 then d else fallback
    case None => fallback
  }

  /** The coffee presets (`COFFEE_PRESETS`). */
  const QUICK := CoffeePreset(5, "Quick coffee run")
  const REGULAR := CoffeePreset(15, "Grabbing a cup o' Joe")
  const CHAT := CoffeePreset(30, "Coffee & Chat")
  const COFFEE_PRESETS: map<string, CoffeePreset> := map["quick" := QUICK, "regular" := REGULAR, "chat" := CHAT]

  /** `COFFEE_PRESETS[name] || COFFEE_PRESETS.regular`, looking at own keys only. */
  function PresetFor(name: string): (p: CoffeePreset)
    ensures p == QUICK || p == REGULAR || p == CHAT
    ensures name in COFFEE_PRESETS ==> p == COFFEE_PRESETS[name]
    ensures name !in COFFEE_PRESETS ==> p == REGULAR && p == CoffeePreset(15, "Grabbing a cup o' Joe")
  {
    if name in COFFEE_PRESETS then COFFEE_PRESETS[name] else COFFEE_PRESETS["regular"]
  }

  /** `{ ...STATUSES.COFFEE, status_text: preset.message }`. */
  function CoffeeStatus(preset: CoffeePreset): (s: SlackStatus)
    ensures s.statusText == preset.message
    ensures s.(statusText := COFFEE.statusText) == COFFEE
  {
    COFFEE.(statusText := preset.message)
  }

  /** A request to one of the status routes. */
  datatype Request =
    | ClearStatusRequest                              // POST /clear-status
    | MeetingRequest(duration: Option<int>)           // POST /meeting
    | CoffeeBreakRequest(duration: Option<int>)       // POST /coffee-break
    | SetStatusRequest(kind: string, minutes: int)    // POST /set-status/:type
    | CoffeeRequest(preset: string)                   // POST /coffee/:preset

  /** What the handler does to the workspace. */
  datatype Effect = Apply(status: SlackStatus, seconds: int) | Clear

  /** Rejected with HTTP 400 before any Slack call, or an effect to perform. */
  datatype Plan = Reject | Perform(effect: Effect)

  function Resolve(request: Request): Plan
  {
    match request
    case ClearStatusRequest => Perform(Clear)
    case MeetingRequest(d) => Perform(Apply(MEETING, DurationOr(d, MEETING_DEFAULT_MINUTES) * 60))
    case CoffeeBreakRequest(d) => Perform(Apply(COFFEE, DurationOr(d, COFFEE_BREAK_DEFAULT_MINUTES) * 60))
    case SetStatusRequest(kind, d) =>
      if kind in STATUSES then Perform(Apply(STATUSES[kind], d * 60)) else Reject
    case CoffeeRequest(name) =>
      var preset := PresetFor(name);
      Perform(Apply(CoffeeStatus(preset), preset.duration * 60))
  }

  /** The workspace after the handler ran with every Slack call succeeding. */
  function Handle(request: Request, st: SlackState, now: nat): SlackState
  {
    match Resolve(request)
    case Reject => st
    case Perform(Apply(status, seconds)) => SetStatus(status, seconds, now)
    case Perform(Clear) => ClearStatus(st)
  }

  /** The HTTP status of the response when the Slack calls in `failed` fail. */
  function StatusCode(variant: Variant, request: Request, failed: set<Call>): (code: int)
    ensures code == 400 <==> Resolve(request).Reject?
    ensures code == 500 <==> Resolve(request).Perform? && variant == Typed && failed != {}
    ensures code in {200, 400, 500}
  {
    if Resolve(request).Reject? then 400
    else if SetStatusRejects(variant, failed) then 500
    else 200
  }

  /** `/meeting` and `/coffee-break` without a (non-zero) duration apply MEETING for 30
      minutes and COFFEE for 15: do-not-disturb snoozed for exactly that long. */
  lemma DefaultDurations(requested: Option<int>, st: SlackState, now: nat)
    requires requested.None? || requested == Some(0)
    ensures Handle(MeetingRequest(requested), st, now) == SetStatus(MEETING, 30 * 60, now)
    ensures Handle(MeetingRequest(requested), st, now).dnd == Snoozed(30)
    ensures Handle(CoffeeBreakRequest(requested), st, now) == SetStatus(COFFEE, 15 * 60, now)
    ensures Handle(CoffeeBreakRequest(requested), st, now).dnd == Snoozed(15)
  {
    WholeMinutesSnooze(MEETING, 30, now);
    WholeMinutesSnooze(COFFEE, 15, now);
  }

  /** `/meeting` and `/coffee-break` with a non-zero duration apply MEETING and COFFEE for
      exactly that many minutes. */
  lemma RequestedDurations(minutes: int, st: SlackState, now: nat)
    requires minutes != 0
    ensures Handle(MeetingRequest(Some(minutes)), st, now) == SetStatus(MEETING, minutes * 60, now)
    ensures Handle(MeetingRequest(Some(minutes)), st, now).dnd == Snoozed(minutes)
    ensures Handle(CoffeeBreakRequest(Some(minutes)), st, now) == SetStatus(COFFEE, minutes * 60, now)
    ensures Handle(CoffeeBreakRequest(Some(minutes)), st, now).dnd == Snoozed(minutes)
  {
    WholeMinutesSnooze(MEETING, minutes, now);
    WholeMinutesSnooze(COFFEE, minutes, now);
  }

  /** `/set-status/:type` is rejected exactly when the type is not a registry key; then it
      answers 400 and leaves the workspace as it was, whatever would have failed. */
  lemma SetStatusValidation(kind: string, duration: int, variant: Variant, failed: set<Call>, st: SlackState, now: nat)
    ensures Resolve(SetStatusRequest(kind, duration)).Reject? <==> kind !in STATUSES
    ensures kind !in STATUSES ==>
      StatusCode(variant, SetStatusRequest(kind, duration), failed) == 400 &&
      Handle(SetStatusRequest(kind, duration), st, now) == st
    ensures kind in STATUSES ==>
      Handle(SetStatusRequest(kind, duration), st, now) == SetStatus(STATUSES[kind], duration * 60, now)
  {
  }

  /** An unknown coffee preset behaves as "regular": 15 minutes of COFFEE showing
      "Grabbing a cup o' Joe". Every preset applies COFFEE with only its text replaced. */
  lemma CoffeePresetFallback(name: string, st: SlackState, now: nat)
    ensures name !in COFFEE_PRESETS ==>
      Handle(CoffeeRequest(name), st, now) == Handle(CoffeeRequest("regular"), st, now) &&
      Handle(CoffeeRequest(name), st, now) == SetStatus(COFFEE.(statusText := "Grabbing a cup o' Joe"), 900, now)
    ensures Resolve(CoffeeRequest(name)).Perform? && Resolve(CoffeeRequest(name)).effect.Apply?
    ensures var s := Resolve(CoffeeRequest(name)).effect.status;
      s.(statusText := COFFEE.statusText) == COFFEE && s.statusText == PresetFor(name).message
  {
  }

  /** A coffee break never looks like focus mode, so a toggle right after one remembers it. */
  lemma CoffeeIsRemembered(name: string, st: SlackState, now: nat)
    ensures Snapshots(Handle(CoffeeRequest(name), st, now))
  {
    var preset := PresetFor(name);
    var after := Handle(CoffeeRequest(name), st, now);
    assert after == SetStatus(CoffeeStatus(preset), preset.duration * 60, now);
    assert after.statusText == preset.message && after.statusEmoji == ":coffee:";
    PresetMessagesLackCapitalF();
    assert 'F' in FOCUS_MARKER;
    MissingCharExcludes(preset.message, FOCUS_MARKER, 'F');
  }

  lemma PresetMessagesLackCapitalF()
    ensures 'F' !in QUICK.message && 'F' !in REGULAR.message && 'F' !in CHAT.message
  {
    assert 'F' !in "Quick coffee run" && 'F' !in "Grabbing a cup o' Joe" && 'F' !in "Coffee & Chat";
  }

  /** The script's handlers never answer 500 for a failed status call: its `setStatus` and
      `clearStatus` swallow every error. */
  lemma UntypedNeverFails(request: Request, failed: set<Call>)
    ensures StatusCode(Untyped, request, failed) != 500
    ensures Resolve(request).Perform? ==> StatusCode(Untyped, request, failed) == 200
  {
  }

  // --- Findings: inherited members pass the route guards ---

  /** Property names that every plain JavaScript object inherits from `Object.prototype`
      (section 20.1.3 of ECMA-262, plus the annex B accessors). */
  const OBJECT_PROTOTYPE_MEMBERS: set<string> := {
    "constructor", "hasOwnProperty", "isPrototypeOf", "propertyIsEnumerable",
    "toLocaleString", "toString", "valueOf", "__proto__",
    "__defineGetter__", "__defineSetter__", "__lookupGetter__", "__lookupSetter__"
  }

  /** `!STATUSES[type]` as written: an inherited member is a truthy value, so it passes. */
  predicate PassesTypeGuardAsWritten(kind: string)
  {
    kind in STATUSES || kind in OBJECT_PROTOTYPE_MEMBERS
  }

  /** `/set-status/constructor` passes the guard although "constructor" is no status. */
  lemma InheritedNamePassesTypeGuard()
    ensures PassesTypeGuardAsWritten("constructor") && "constructor" !in STATUSES
    ensures Resolve(SetStatusRequest("constructor", 5)).Reject?
  {
  }

  /** What `COFFEE_PRESETS[name] || COFFEE_PRESETS.regular` yields as written. */
  datatype PresetLookup = OwnPreset(preset: CoffeePreset) | InheritedMember(member: string)

  function PresetLookupAsWritten(name: string): PresetLookup
  {
    if name in COFFEE_PRESETS then OwnPreset(COFFEE_PRESETS[name])
    else if name in OBJECT_PROTOTYPE_MEMBERS then InheritedMember(name)
    else OwnPreset(COFFEE_PRESETS["regular"])
  }

  /** `/coffee/constructor` does not fall back to "regular" as written; the corrected
      lookup does. */
  lemma InheritedNameSkipsPresetFallback()
    ensures PresetLookupAsWritten("constructor") == InheritedMember("constructor")
    ensures "constructor" !in COFFEE_PRESETS && PresetFor("constructor") == COFFEE_PRESETS["regular"]
  {
  }
}
