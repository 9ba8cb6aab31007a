/**
 * The navigation/reset scheduler of the content script: a debounce holding at
 * most one pending task, a generation counter that voids in-flight work when
 * the enabled flag is toggled, the once-per-URL policy of `resetToZeroSafely`
 * and the `toastShown` latch of its three triggers.
 *
 * The script is single-threaded but suspends at every `await` and timer, so
 * several reset attempts can be in flight at once. The model is an immutable
 * state and one transition per event; each event is the environment resuming
 * the script, and carries the answer the script receives at that point (a
 * storage read, `location.href`, the outcome of the video poll, whether the
 * `currentTime` assignment threw).
 */
module Scheduler {
  import opened Optional
  import opened JsValues

  /** The storage key of the on/off flag. */
  const StorageKey := "enabled"

  /** Which hook reported the navigation; it is only logged, never branched on. */
  datatype Reason = Initial | PushState | ReplaceState | PopState | NavigateFinish | Mutation

  // ---------------------------------------------------------------------------
  // Inputs: location and storage reads

  /** The parts of a parsed URL that `isWatchUrl` looks at. */
  datatype UrlParts = UrlParts(hostname: string, pathname: string, queryKeys: set<string>)

  /** `location.href`, with what `new URL(href)` makes of it (`None` when it throws). */
  datatype Location = Location(href: string, parsed: Option<UrlParts>)

  /** `isWatchUrl(url)`. */
  function IsWatchUrl(loc: Location): (r: bool)
    ensures loc.parsed.None? ==> !r
    ensures r <==>
      && loc.parsed.Some?
      && loc.parsed.value.hostname == "www.youtube.com"
      && loc.parsed.value.pathname == "/watch"
      && "v" in loc.parsed.value.queryKeys
  {
    match loc.parsed
    case None => false
    case Some(u) => u.hostname == "www.youtube.com" && u.pathname == "/watch" && "v" in u.queryKeys
  }

  /** The outcome of `chrome.storage.sync.get(['enabled'])`: the stored value if any, or a failure. */
  datatype StorageRead = ReadOk(value: Option<JsValue>) | ReadFailed

  /** `getEnabled()`: the stored flag when it is a boolean; on by default and on failure. */
  function GetEnabled(read: StorageRead): (enabled: bool)
    ensures !enabled <==> read == ReadOk(Some(Bool(false)))
    ensures read.ReadOk? && read.value.Some? && read.value.value.Bool? ==> enabled == read.value.value.b
  {
    match read
    case ReadFailed => true
    case ReadOk(v) => if v.Some? && v.value.Bool? then v.value.b else true
  }

  // ---------------------------------------------------------------------------
  // State

  type TimerId = nat
  type AttemptId = nat
  type VideoId = nat

  datatype MediaKind = LoadedMetadata | Playing

  /** The three places `tryReset` is called from. */
  datatype Trigger = Immediate | Listener(kind: MediaKind)

  datatype PendingTask = PendingTask(timer: TimerId, reason: Reason)

  /**
   * Where one run of `resetToZeroSafely` is suspended.
   * - `ReadingEnabled`: awaiting `getEnabled()` at entry.
   * - `WaitingForVideo`: `url` was claimed, `gen` captured; awaiting the poll.
   * - `Armed`: `video` found. `toastShown` is the latch, `listening` the
   *   one-shot listeners still registered, `reading` the `tryReset` calls
   *   that passed the generation check and await `getEnabled()`.
   * - `Finished`: returned; nothing of it can run again.
   */
  datatype Phase =
    | ReadingEnabled(reason: Reason)
    | WaitingForVideo(url: string, gen: nat)
    | Armed(url: string, gen: nat, video: VideoId, toastShown: bool, listening: set<MediaKind>, reading: set<Trigger>)
    | Finished

  /**
   * The module state (`lastHandledUrl`, `pendingTimerId`, `generation`), plus
   * the suspended attempts and fresh-name counters for timers and attempts.
   */
  datatype State = State(
    lastHandledUrl: string,
    pending: Option<PendingTask>,
    generation: nat,
    nextTimer: TimerId,
    attempts: map<AttemptId, Phase>,
    nextAttempt: AttemptId)

  datatype Change = Change(oldValue: JsValue, newValue: JsValue)

  /**
   * What resumes the script.
   * - `Signal`: a navigation hook called `scheduleHandle(reason)`.
   * - `TimerFired`: the debounce timer `timer` ran out.
   * - `StorageChanged`: `chrome.storage.onChanged` with the current location.
   * - `EntryReadDone`: the entry `getEnabled()` of `attempt` resolved; `here` is the location then.
   * - `VideoWaitDone`: the poll of `attempt` ended with an element or, on timeout, none.
   * - `MediaEvent`: `video` dispatched `loadedmetadata` or `playing`.
   * - `TriggerReadDone`: the `getEnabled()` inside a `tryReset` resolved;
   *   `assignOk` is false when `currentTime = 0` threw.
   */
  datatype Event =
    | Signal(reason: Reason)
    | TimerFired(timer: TimerId)
    | StorageChanged(area: string, changes: map<string, Change>, here: Location)
    | EntryReadDone(attempt: AttemptId, read: StorageRead, here: Location)
    | VideoWaitDone(attempt: AttemptId, found: Option<VideoId>)
    | MediaEvent(video: VideoId, kind: MediaKind)
    | TriggerReadDone(attempt: AttemptId, trigger: Trigger, read: StorageRead, assignOk: bool)

  /** What the outside world can observe. */
  datatype Effect =
    | AttemptStarted(attempt: AttemptId, url: string)
    | PositionReset(attempt: AttemptId, video: VideoId)
    | NoticeShown(attempt: AttemptId)

  datatype StepResult = StepResult(state: State, effects: seq<Effect>)

  /** The module state before `init()` runs. */
  function Boot(): State {
    State("", None, 0, 0, map[], 0)
  }

  // ---------------------------------------------------------------------------
  // Debounce

  /** `cancelPending()`. */
  function CancelPending(s: State): (r: State)
    ensures r.pending.None?
    ensures s.pending.None? ==> r == s
    ensures r.(pending := s.pending) == s
  {
    if s.pending.Some? then s.(pending := None) else s
  }

  /** `scheduleHandle(reason)`: cancel the pending task and arm a fresh timer. */
  function ScheduleHandle(s: State, reason: Reason): (r: State)
    ensures r.pending == Some(PendingTask(s.nextTimer, reason))
    ensures r.nextTimer > s.nextTimer
    ensures r.(pending := s.pending, nextTimer := s.nextTimer) == s
  {
    CancelPending(s).(pending := Some(PendingTask(s.nextTimer, reason)), nextTimer := s.nextTimer + 1)
  }

  /** A timer fires: only the pending one runs, and it starts a new attempt. */
  function OnTimerFired(s: State, t: TimerId): (r: State)
    ensures (s.pending.None? || s.pending.value.timer != t) ==> r == s
    ensures s.pending.Some? && s.pending.value.timer == t ==>
      && r.pending.None?
      && r.attempts == s.attempts[s.nextAttempt := ReadingEnabled(s.pending.value.reason)]
      && r.nextAttempt == s.nextAttempt + 1
      && r.lastHandledUrl == s.lastHandledUrl && r.generation == s.generation
      && r.nextTimer == s.nextTimer
    ensures r.(pending := s.pending, attempts := s.attempts, nextAttempt := s.nextAttempt) == s
  {
    if s.pending.Some? && s.pending.value.timer == t then
      s.(pending := None,
         attempts := s.attempts[s.nextAttempt := ReadingEnabled(s.pending.value.reason)],
         nextAttempt := s.nextAttempt + 1)
    else s
  }

  // ---------------------------------------------------------------------------
  // The storage listener

  /** A change the listener reacts to: key `enabled` in area `sync` or `local`. */
  predicate Relevant(area: string, changes: map<string, Change>) {
    (area == "sync" || area == "local") && StorageKey in changes
  }

  function OnStorageChanged(s: State, area: string, changes: map<string, Change>, here: Location): (r: State)
    ensures !Relevant(area, changes) ==> r == s
    ensures Relevant(area, changes) ==>
      && r.generation == s.generation + 1
      && r.attempts == s.attempts && r.nextAttempt == s.nextAttempt && r.nextTimer == s.nextTimer
    ensures Relevant(area, changes) && changes[StorageKey].newValue == Bool(false) ==>
      r.pending.None? && r.lastHandledUrl == s.lastHandledUrl
    ensures Relevant(area, changes) && changes[StorageKey] == Change(Bool(false), Bool(true)) && IsWatchUrl(here) ==>
      r.pending.None? && r.lastHandledUrl == here.href
    ensures Relevant(area, changes) && changes[StorageKey].newValue != Bool(false)
            && !(changes[StorageKey] == Change(Bool(false), Bool(true)) && IsWatchUrl(here)) ==>
      r == s.(generation := s.generation + 1)
  {
    if !Relevant(area, changes) then s
    else
      var change := changes[StorageKey];
      var s1 := s.(generation := s.generation + 1);
      if change.newValue == Bool(false) then CancelPending(s1)
      else if change.oldValue == Bool(false) && change.newValue == Bool(true) && IsWatchUrl(here) then
        CancelPending(s1.(lastHandledUrl := here.href))
      else s1
  }

  // ---------------------------------------------------------------------------
  // resetToZeroSafely

  /** The three early returns of `resetToZeroSafely`, checked in order. */
  predicate ShortCircuits(s: State, read: StorageRead, here: Location) {
    !GetEnabled(read) || !IsWatchUrl(here) || here.href == s.lastHandledUrl
  }

  /** The entry `getEnabled()` of attempt `a` resolved while the page is at `here`. */
  function OnEntryRead(s: State, a: AttemptId, read: StorageRead, here: Location): (r: StepResult)
    ensures !(a in s.attempts && s.attempts[a].ReadingEnabled?) ==> r == StepResult(s, [])
    ensures a in s.attempts && s.attempts[a].ReadingEnabled? && ShortCircuits(s, read, here) ==>
      r == StepResult(s.(attempts := s.attempts[a := Finished]), [])
    ensures a in s.attempts && s.attempts[a].ReadingEnabled? && !ShortCircuits(s, read, here) ==>
      && r.state.lastHandledUrl == here.href != s.lastHandledUrl
      && r.state.attempts == s.attempts[a := WaitingForVideo(here.href, s.generation)]
      && r.state.(lastHandledUrl := s.lastHandledUrl, attempts := s.attempts) == s
      && r.effects == [AttemptStarted(a, here.href)]
  {
    if !(a in s.attempts && s.attempts[a].ReadingEnabled?) then StepResult(s, [])
    else if !GetEnabled(read) then StepResult(s.(attempts := s.attempts[a := Finished]), [])
    else if !IsWatchUrl(here) then StepResult(s.(attempts := s.attempts[a := Finished]), [])
    else if here.href == s.lastHandledUrl then StepResult(s.(attempts := s.attempts[a := Finished]), [])
    else
      StepResult(
        s.(lastHandledUrl := here.href, attempts := s.attempts[a := WaitingForVideo(here.href, s.generation)]),
        [AttemptStarted(a, here.href)])
  }

  /**
   * The poll of attempt `a` ended. With no element the attempt returns. With
   * one, `tryReset('immediate')` runs its generation check at once and both
   * one-shot listeners are registered.
   */
  function OnVideoWaitDone(s: State, a: AttemptId, found: Option<VideoId>): (r: State)
    ensures !(a in s.attempts && s.attempts[a].WaitingForVideo?) ==> r == s
    ensures a in s.attempts && s.attempts[a].WaitingForVideo? && found.None? ==>
      r == s.(attempts := s.attempts[a := Finished])
    ensures a in s.attempts && s.attempts[a].WaitingForVideo? && found.Some? ==>
      var p := s.attempts[a];
      && r.attempts.Keys == s.attempts.Keys
      && r.attempts[a].Armed?
      && r.attempts[a].gen == p.gen && r.attempts[a].video == found.value
      && !r.attempts[a].toastShown
      && r.attempts[a].listening == {LoadedMetadata, Playing}
      && (r.attempts[a].reading == if p.gen == s.generation then {Immediate} else {})
      && r.attempts[a].url == p.url
    ensures forall b :: b in s.attempts && b != a ==> b in r.attempts && r.attempts[b] == s.attempts[b]
    ensures r.(attempts := s.attempts) == s
  {
    if !(a in s.attempts && s.attempts[a].WaitingForVideo?) then s
    else
      var p := s.attempts[a];
      match found
      case None => s.(attempts := s.attempts[a := Finished])
      case Some(v) =>
        var reading := if p.gen == s.generation then {Immediate} else {};
        s.(attempts := s.attempts[a := Armed(p.url, p.gen, v, false, {LoadedMetadata, Playing}, reading)])
  }

  /**
   * `kind` fired on `video`, reaching an attempt's listener if it is armed on
   * that element and still registered: the listener deregisters itself and
   * its `tryReset` proceeds past the generation check only if the captured
   * generation is current.
   */
  function MediaFired(p: Phase, video: VideoId, kind: MediaKind, generation: nat): (q: Phase)
    ensures !(p.Armed? && p.video == video && kind in p.listening) ==> q == p
    ensures p.Armed? && p.video == video && kind in p.listening ==>
      && q.Armed?
      && q == p.(listening := p.listening - {kind}, reading := q.reading)
      && (p.gen == generation ==> q.reading == p.reading + {Listener(kind)})
      && (p.gen != generation ==> q.reading == p.reading)
  {
    if p.Armed? && p.video == video && kind in p.listening then
      p.(listening := p.listening - {kind},
         reading := if p.gen == generation then p.reading + {Listener(kind)} else p.reading)
    else p
  }

  function OnMedia(s: State, video: VideoId, kind: MediaKind): (r: State)
    ensures r.attempts.Keys == s.attempts.Keys
    ensures forall a :: a in s.attempts ==> r.attempts[a] == MediaFired(s.attempts[a], video, kind, s.generation)
    ensures r.(attempts := s.attempts) == s
  {
    s.(attempts := map a | a in s.attempts :: MediaFired(s.attempts[a], video, kind, s.generation))
  }

  /**
   * The `getEnabled()` inside `tryReset(trigger)` of attempt `a` resolved.
   * When it says enabled and the assignment does not throw, the position is
   * reset, and the notice is shown if the latch was still down.
   */
  function OnTriggerRead(s: State, a: AttemptId, t: Trigger, read: StorageRead, assignOk: bool): (r: StepResult)
    ensures !(a in s.attempts && s.attempts[a].Armed? && t in s.attempts[a].reading) ==> r == StepResult(s, [])
    ensures !GetEnabled(read) || !assignOk ==> r.effects == []
    ensures r.effects != [] ==> r.effects[0] == PositionReset(a, s.attempts[a].video)
    ensures a in s.attempts && s.attempts[a].Armed? && t in s.attempts[a].reading && GetEnabled(read) && assignOk ==>
      r.effects == [PositionReset(a, s.attempts[a].video)] + (if s.attempts[a].toastShown then [] else [NoticeShown(a)])
    ensures NoticeShown(a) in r.effects <==>
      a in s.attempts && s.attempts[a].Armed? && t in s.attempts[a].reading && GetEnabled(read) && assignOk
      && !s.attempts[a].toastShown
    ensures a in s.attempts && s.attempts[a].Armed? && t in s.attempts[a].reading ==>
      && a in r.state.attempts && r.state.attempts[a].Armed?
      && r.state == s.(attempts := s.attempts[a := r.state.attempts[a]])
      && r.state.attempts[a] == s.attempts[a].(reading := s.attempts[a].reading - {t}, toastShown := r.state.attempts[a].toastShown)
      && r.state.attempts[a].toastShown == (s.attempts[a].toastShown || r.effects != [])
  {
    if !(a in s.attempts && s.attempts[a].Armed? && t in s.attempts[a].reading) then StepResult(s, [])
    else
      var p := s.attempts[a];
      var p1 := p.(reading := p.reading - {t});
      if GetEnabled(read) && assignOk then
        var notice := if p.toastShown then [] else [NoticeShown(a)];
        StepResult(s.(attempts := s.attempts[a := p1.(toastShown := true)]), [PositionReset(a, p.video)] + notice)
      else
        StepResult(s.(attempts := s.attempts[a := p1]), [])
  }

  // ---------------------------------------------------------------------------
  // Transitions

  function Step(s: State, e: Event): StepResult {
    match e
    case Signal(reason) => StepResult(ScheduleHandle(s, reason), [])
    case TimerFired(t) => StepResult(OnTimerFired(s, t), [])
    case StorageChanged(area, changes, here) => StepResult(OnStorageChanged(s, area, changes, here), [])
    case EntryReadDone(a, read, here) => OnEntryRead(s, a, read, here)
    case VideoWaitDone(a, found) => StepResult(OnVideoWaitDone(s, a, found), [])
    case MediaEvent(video, kind) => StepResult(OnMedia(s, video, kind), [])
    case TriggerReadDone(a, t, read, ok) => OnTriggerRead(s, a, t, read, ok)
  }

  /** The state after `evs` in order, and everything they made observable. */
  function Run(s: State, evs: seq<Event>): StepResult
    decreases |evs|
  {
    if evs == [] then StepResult(s, [])
    else
      var first := Step(s, evs[0]);
      var rest := Run(first.state, evs[1..]);
      StepResult(rest.state, first.effects + rest.effects)
  }

  /** `init()`: hooks are installed (they are the `Signal` events) and one task is scheduled. */
  function Init(): (s: State)
    ensures s.pending == Some(PendingTask(0, Initial)) && s.generation == 0 && s.attempts == map[]
  {
    ScheduleHandle(Boot(), Initial)
  }
}
