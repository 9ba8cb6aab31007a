/**
 * Properties of the scheduler over whole event sequences: the debounce runs
 * only the newest task, the notice latch fires at most once per attempt, a
 * toggle voids attempts still waiting, a timed-out attempt does nothing more,
 * and a URL already handled is never handled again while the page stays on it.
 */
module SchedulerProperties {
  import opened Optional
  import opened JsValues
  import opened Scheduler

  /** Timer and attempt names are fresh, and no attempt captured a future generation. */
  ghost predicate Inv(s: State) {
    && (s.pending.Some? ==> s.pending.value.timer < s.nextTimer)
    && (forall a :: a in s.attempts ==> a < s.nextAttempt)
    && (forall a :: a in s.attempts && (s.attempts[a].WaitingForVideo? || s.attempts[a].Armed?) ==>
          s.attempts[a].gen <= s.generation)
  }

  lemma InitInv()
    ensures Inv(Init())
  {
  }

  lemma StepInv(s: State, e: Event)
    requires Inv(s)
    ensures Inv(Step(s, e).state)
    ensures Step(s, e).state.generation >= s.generation
  {
    match e {
      case MediaEvent(video, kind) =>
        var r := OnMedia(s, video, kind);
        forall a | a in r.attempts && (r.attempts[a].WaitingForVideo? || r.attempts[a].Armed?)
          ensures r.attempts[a].gen <= r.generation
        {
          assert r.attempts[a] == MediaFired(s.attempts[a], video, kind, s.generation);
        }
      case _ =>
    }
  }

  lemma {:induction false} RunInv(s: State, evs: seq<Event>)
    requires Inv(s)
    ensures Inv(Run(s, evs).state)
    ensures Run(s, evs).state.generation >= s.generation
    decreases |evs|
  {
    if evs != [] {
      StepInv(s, evs[0]);
      RunInv(Step(s, evs[0]).state, evs[1..]);
    }
  }

  // ---------------------------------------------------------------------------
  // Debounce

  /** Timer `earlier` was issued before the one now pending, if any: it can no longer be the pending one. */
  ghost predicate Past(s: State, earlier: TimerId) {
    earlier < s.nextTimer && (s.pending.Some? ==> earlier < s.pending.value.timer)
  }

  lemma PastStep(s: State, e: Event, earlier: TimerId)
    requires Past(s, earlier)
    ensures Past(Step(s, e).state, earlier)
  {
  }

  lemma {:induction false} PastRun(s: State, evs: seq<Event>, earlier: TimerId)
    requires Past(s, earlier)
    ensures Past(Run(s, evs).state, earlier)
    decreases |evs|
  {
    if evs != [] {
      PastStep(s, evs[0], earlier);
      PastRun(Step(s, evs[0]).state, evs[1..], earlier);
    }
  }

  /**
   * Once `scheduleHandle` has run, no timer issued before it ever fires again,
   * whatever happens in between: its firing changes nothing and shows nothing.
   */
  lemma SupersededTaskNeverFires(s: State, reason: Reason, earlier: TimerId, evs: seq<Event>)
    requires earlier < s.nextTimer
    ensures var t := Run(ScheduleHandle(s, reason), evs).state;
            Step(t, TimerFired(earlier)) == StepResult(t, [])
  {
    PastRun(ScheduleHandle(s, reason), evs, earlier);
  }

  /** A burst of navigation signals. */
  function Signals(rs: seq<Reason>): (evs: seq<Event>)
    ensures |evs| == |rs|
    ensures forall i :: 0 <= i < |rs| ==> evs[i] == Signal(rs[i])
  {
    seq(|rs|, i requires 0 <= i < |rs| => Signal(rs[i]))
  }

  /** After a burst only the last signal's task is pending, on the newest timer; whatever follows runs from there. */
  lemma {:induction false} BurstRun(s: State, rs: seq<Reason>, rest: seq<Event>)
    requires rs != []
    ensures Run(s, Signals(rs) + rest) ==
      Run(s.(pending := Some(PendingTask(s.nextTimer + |rs| - 1, rs[|rs| - 1])), nextTimer := s.nextTimer + |rs|), rest)
    decreases |rs|
  {
    var s1 := s.(pending := Some(PendingTask(s.nextTimer, rs[0])), nextTimer := s.nextTimer + 1);
    assert Step(s, Signal(rs[0])) == StepResult(s1, []);
    assert Signals(rs) + rest == [Signal(rs[0])] + (Signals(rs[1..]) + rest);
    RunCons(s, Signal(rs[0]), Signals(rs[1..]) + rest);
    var after := Run(s1, Signals(rs[1..]) + rest);
    assert [] + after.effects == after.effects;
    if |rs| == 1 {
      assert Signals(rs[1..]) + rest == rest;
    } else {
      BurstRun(s1, rs[1..], rest);
      assert rs[1..][|rs| - 2] == rs[|rs| - 1];
    }
  }

  predicate AllTimers(fs: seq<Event>) {
    forall i :: 0 <= i < |fs| ==> fs[i].TimerFired?
  }

  /** Timers firing in any order: only the pending one, the first time it fires, does anything. */
  lemma {:induction false} TimersRun(s: State, fs: seq<Event>)
    requires AllTimers(fs)
    ensures Run(s, fs).effects == []
    ensures s.pending.None? ==> Run(s, fs).state == s
    ensures s.pending.Some? ==>
      Run(s, fs).state == if TimerFired(s.pending.value.timer) in fs then OnTimerFired(s, s.pending.value.timer) else s
    decreases |fs|
  {
    if fs != [] {
      var s1 := OnTimerFired(s, fs[0].timer);
      assert AllTimers(fs[1..]) by {
        forall i | 0 <= i < |fs[1..]| ensures fs[1..][i].TimerFired? {
          assert fs[1..][i] == fs[i + 1];
        }
      }
      TimersRun(s1, fs[1..]);
      assert fs == [fs[0]] + fs[1..];
    }
  }

  /**
   * A burst of any number of signals, followed by timers firing in any order,
   * starts exactly one attempt, for the last reason, once the newest timer fires.
   */
  lemma DebounceCoalesces(s: State, rs: seq<Reason>, fs: seq<Event>)
    requires rs != [] && AllTimers(fs)
    requires TimerFired(s.nextTimer + |rs| - 1) in fs
    ensures var out := Run(s, Signals(rs) + fs);
            && out.state.attempts == s.attempts[s.nextAttempt := ReadingEnabled(rs[|rs| - 1])]
            && out.state.nextAttempt == s.nextAttempt + 1
            && out.state.pending.None?
            && out.effects == []
  {
    BurstRun(s, rs, fs);
    TimersRun(s.(pending := Some(PendingTask(s.nextTimer + |rs| - 1, rs[|rs| - 1])), nextTimer := s.nextTimer + |rs|), fs);
  }

  // ---------------------------------------------------------------------------
  // The notice latch

  function NoticeCount(effs: seq<Effect>, a: AttemptId): (n: nat)
    ensures n <= |effs|
  {
    if effs == [] then 0
    else (if effs[0] == NoticeShown(a) then 1 else 0) + NoticeCount(effs[1..], a)
  }

  lemma {:induction false} NoticeCountAppend(x: seq<Effect>, y: seq<Effect>, a: AttemptId)
    ensures NoticeCount(x + y, a) == NoticeCount(x, a) + NoticeCount(y, a)
    decreases |x|
  {
    if x != [] {
      assert (x + y)[0] == x[0];
      assert (x + y)[1..] == x[1..] + y;
      NoticeCountAppend(x[1..], y, a);
    } else {
      assert x + y == y;
    }
  }

  ghost predicate Latched(s: State, a: AttemptId) {
    a in s.attempts && s.attempts[a].Armed? && s.attempts[a].toastShown
  }

  function Bit(b: bool): nat {
    if b then 1 else 0
  }

  /** A notice for `a` is shown exactly when `a`'s latch goes from down to up. */
  lemma NoticeStep(s: State, e: Event, a: AttemptId)
    requires Inv(s)
    ensures NoticeCount(Step(s, e).effects, a) + Bit(Latched(s, a)) == Bit(Latched(Step(s, e).state, a))
  {
    var r := Step(s, e);
    match e {
      case MediaEvent(video, kind) =>
        if a in s.attempts {
          assert r.state.attempts[a] == MediaFired(s.attempts[a], video, kind, s.generation);
        }
      case EntryReadDone(b, read, here) =>
        assert r.effects == [] || r.effects == [AttemptStarted(b, here.href)];
      case TriggerReadDone(b, t, read, ok) =>
        if a in s.attempts && s.attempts[a].Armed? && t in s.attempts[a].reading && a == b
           && GetEnabled(read) && ok && !s.attempts[a].toastShown {
          assert r.effects == [PositionReset(a, s.attempts[a].video), NoticeShown(a)];
        } else if a in s.attempts && s.attempts[a].Armed? && t in s.attempts[a].reading && a == b
           && GetEnabled(read) && ok {
          assert r.effects == [PositionReset(a, s.attempts[a].video)];
        } else if b in s.attempts && s.attempts[b].Armed? && t in s.attempts[b].reading
           && GetEnabled(read) && ok {
          assert r.effects == [PositionReset(b, s.attempts[b].video)] + (if s.attempts[b].toastShown then [] else [NoticeShown(b)]);
        }
      case _ =>
    }
  }

  lemma {:induction false} NoticeRun(s: State, evs: seq<Event>, a: AttemptId)
    requires Inv(s)
    ensures NoticeCount(Run(s, evs).effects, a) + Bit(Latched(s, a)) == Bit(Latched(Run(s, evs).state, a))
    decreases |evs|
  {
    if evs != [] {
      var first := Step(s, evs[0]);
      NoticeStep(s, evs[0], a);
      StepInv(s, evs[0]);
      NoticeRun(first.state, evs[1..], a);
      NoticeCountAppend(first.effects, Run(first.state, evs[1..]).effects, a);
    }
  }

  /** Whatever happens after start-up, each attempt shows the notice at most once. */
  lemma NoticeAtMostOncePerAttempt(evs: seq<Event>, a: AttemptId)
    ensures NoticeCount(Run(Init(), evs).effects, a) <= 1
  {
    InitInv();
    NoticeRun(Init(), evs, a);
  }

  // ---------------------------------------------------------------------------
  // Generation invalidation

  /** `a` can no longer touch the video: it has returned, or its generation is stale and no `tryReset` of it is past the check. */
  ghost predicate Quiet(s: State, a: AttemptId) {
    a in s.attempts &&
    match s.attempts[a]
    case ReadingEnabled(_) => false
    case WaitingForVideo(_, g) => g < s.generation
    case Armed(_, g, _, _, _, reading) => g < s.generation && reading == {}
    case Finished => true
  }

  /** No effect in `effs` resets a position or shows a notice on behalf of `a`. */
  ghost predicate Untouched(effs: seq<Effect>, a: AttemptId) {
    forall i :: 0 <= i < |effs| ==> !(effs[i].PositionReset? && effs[i].attempt == a) && effs[i] != NoticeShown(a)
  }

  lemma QuietStep(s: State, e: Event, a: AttemptId)
    requires Inv(s) && Quiet(s, a)
    ensures Quiet(Step(s, e).state, a)
    ensures Untouched(Step(s, e).effects, a)
  {
    var r := Step(s, e);
    match e {
      case MediaEvent(video, kind) =>
        assert r.state.attempts[a] == MediaFired(s.attempts[a], video, kind, s.generation);
      case TriggerReadDone(b, t, read, ok) =>
        if b in s.attempts && s.attempts[b].Armed? && t in s.attempts[b].reading && GetEnabled(read) && ok {
          assert b != a;
          assert r.effects == [PositionReset(b, s.attempts[b].video)] + (if s.attempts[b].toastShown then [] else [NoticeShown(b)]);
        }
      case EntryReadDone(b, read, here) =>
        assert r.effects == [] || r.effects == [AttemptStarted(b, here.href)];
      case _ =>
    }
  }

  lemma {:induction false} QuietRun(s: State, evs: seq<Event>, a: AttemptId)
    requires Inv(s) && Quiet(s, a)
    ensures Quiet(Run(s, evs).state, a)
    ensures Untouched(Run(s, evs).effects, a)
    decreases |evs|
  {
    if evs != [] {
      var first := Step(s, evs[0]);
      QuietStep(s, evs[0], a);
      StepInv(s, evs[0]);
      QuietRun(first.state, evs[1..], a);
    }
  }

  /**
   * Toggling the flag while an attempt waits for its video voids it: whatever
   * follows, including the video appearing, it never resets nor notifies.
   */
  lemma ToggleVoidsWaitingAttempt(s: State, a: AttemptId, area: string, changes: map<string, Change>, here: Location, evs: seq<Event>)
    requires Inv(s) && a in s.attempts && s.attempts[a].WaitingForVideo?
    requires Relevant(area, changes)
    ensures Untouched(Run(OnStorageChanged(s, area, changes, here), evs).effects, a)
  {
    var s1 := OnStorageChanged(s, area, changes, here);
    StepInv(s, StorageChanged(area, changes, here));
    QuietRun(s1, evs, a);
  }

  /** An attempt whose poll timed out never resets nor notifies afterwards. */
  lemma TimedOutAttemptIsFinal(s: State, a: AttemptId, evs: seq<Event>)
    requires Inv(s) && a in s.attempts && s.attempts[a].WaitingForVideo?
    ensures OnVideoWaitDone(s, a, None).attempts[a] == Finished
    ensures Untouched(Run(OnVideoWaitDone(s, a, None), evs).effects, a)
  {
    StepInv(s, VideoWaitDone(a, None));
    QuietRun(OnVideoWaitDone(s, a, None), evs, a);
  }

  // ---------------------------------------------------------------------------
  // Once per URL

  /** Every location `e` reports is `u`: the page has not navigated elsewhere. */
  predicate StaysAt(e: Event, u: string) {
    match e
    case StorageChanged(_, _, here) => here.href == u
    case EntryReadDone(_, _, here) => here.href == u
    case _ => true
  }

  predicate NoneStarted(effs: seq<Effect>) {
    forall i :: 0 <= i < |effs| ==> !effs[i].AttemptStarted?
  }

  /** While the page stays on the URL last handled, no signal, however repeated, starts another attempt. */
  lemma {:induction false} HandledUrlIsNotHandledAgain(s: State, evs: seq<Event>, u: string)
    requires s.lastHandledUrl == u
    requires forall i :: 0 <= i < |evs| ==> StaysAt(evs[i], u)
    ensures Run(s, evs).state.lastHandledUrl == u
    ensures NoneStarted(Run(s, evs).effects)
    decreases |evs|
  {
    if evs != [] {
      var first := Step(s, evs[0]);
      assert StaysAt(evs[0], u);
      match evs[0] {
        case EntryReadDone(b, read, here) =>
          assert first.effects == [];
        case TriggerReadDone(b, t, read, ok) =>
          assert NoneStarted(first.effects);
        case _ =>
      }
      assert first.state.lastHandledUrl == u;
      assert forall i :: 0 <= i < |evs[1..]| ==> StaysAt(evs[1..][i], u) by {
        forall i | 0 <= i < |evs[1..]| ensures StaysAt(evs[1..][i], u) {
          assert evs[1..][i] == evs[i + 1];
        }
      }
      HandledUrlIsNotHandledAgain(first.state, evs[1..], u);
    }
  }

  /**
   * Switching the feature from off to on while a watch page is displayed marks
   * that page handled: as long as the page stays there, no attempt starts.
   */
  lemma OffToOnSkipsDisplayedVideo(s: State, area: string, here: Location, evs: seq<Event>)
    requires area == "sync" || area == "local"
    requires IsWatchUrl(here)
    requires forall i :: 0 <= i < |evs| ==> StaysAt(evs[i], here.href)
    ensures NoneStarted(Run(OnStorageChanged(s, area, map[StorageKey := Change(Bool(false), Bool(true))], here), evs).effects)
  {
    var s1 := OnStorageChanged(s, area, map[StorageKey := Change(Bool(false), Bool(true))], here);
    HandledUrlIsNotHandledAgain(s1, evs, here.href);
  }

  // ---------------------------------------------------------------------------
  // Two concrete runs from start-up

  lemma RunCons(s: State, e: Event, rest: seq<Event>)
    ensures var first := Step(s, e);
            var after := Run(first.state, rest);
            Run(s, [e] + rest) == StepResult(after.state, first.effects + after.effects)
  {
    assert ([e] + rest)[0] == e;
    assert ([e] + rest)[1..] == rest;
  }

  /** A watch page the script has not handled yet. */
  const WatchPage := Location("https://www.youtube.com/watch?v=abc", Some(UrlParts("www.youtube.com", "/watch", {"v"})))

  /** The state in which a first visit to `WatchPage` has found video 7 and awaits the immediate read. */
  const ArmedOnFirstVisit := State(WatchPage.href, None, 0, 1,
    map[0 := Armed(WatchPage.href, 0, 7, false, {LoadedMetadata, Playing}, {Immediate})], 1)

  /** The three steps of a first visit, one at a time: only the second has an effect. */
  lemma FirstVisitSteps()
    ensures var r1 := Step(Init(), TimerFired(0));
            var r2 := Step(r1.state, EntryReadDone(0, ReadOk(None), WatchPage));
            var r3 := Step(r2.state, VideoWaitDone(0, Some(7)));
            r1.effects == [] && r2.effects == [AttemptStarted(0, WatchPage.href)] &&
            r3.effects == [] && r3.state == ArmedOnFirstVisit
  {
  }

  lemma FirstVisitArms(rest: seq<Event>)
    ensures var out := Run(ArmedOnFirstVisit, rest);
            Run(Init(), [TimerFired(0), EntryReadDone(0, ReadOk(None), WatchPage), VideoWaitDone(0, Some(7))] + rest)
            == StepResult(out.state, [AttemptStarted(0, WatchPage.href)] + out.effects)
  {
    var e1, e2, e3 := TimerFired(0), EntryReadDone(0, ReadOk(None), WatchPage), VideoWaitDone(0, Some(7));
    var r1 := Step(Init(), e1);
    var r2 := Step(r1.state, e2);
    FirstVisitSteps();
    RunCons(r2.state, e3, rest);
    RunCons(r1.state, e2, [e3] + rest);
    RunCons(Init(), e1, [e2, e3] + rest);
    assert [e1] + ([e2] + ([e3] + rest)) == [e1, e2, e3] + rest;
  }

  /**
   * The usual course: the initial task runs, the video appears, the immediate
   * reset shows the notice, and the reset on `loadedmetadata` stays silent.
   */
  lemma FirstVisitResetsOnceWithOneNotice()
    ensures Run(Init(), [
              TimerFired(0),
              EntryReadDone(0, ReadOk(None), WatchPage),
              VideoWaitDone(0, Some(7)),
              TriggerReadDone(0, Immediate, ReadOk(None), true),
              MediaEvent(7, LoadedMetadata),
              TriggerReadDone(0, Listener(LoadedMetadata), ReadOk(None), true)]).effects
            == [AttemptStarted(0, WatchPage.href), PositionReset(0, 7), NoticeShown(0), PositionReset(0, 7)]
  {
    var e4 := TriggerReadDone(0, Immediate, ReadOk(None), true);
    var e5 := MediaEvent(7, LoadedMetadata);
    var e6 := TriggerReadDone(0, Listener(LoadedMetadata), ReadOk(None), true);
    var s3 := ArmedOnFirstVisit;
    var s4 := s3.(attempts := map[0 := Armed(WatchPage.href, 0, 7, true, {LoadedMetadata, Playing}, {})]);
    var s5 := s3.(attempts := map[0 := Armed(WatchPage.href, 0, 7, true, {Playing}, {Listener(LoadedMetadata)})]);
    TriggerSteps();
    RunCons(s5, e6, []);
    RunCons(s4, e5, [e6]);
    RunCons(s3, e4, [e5, e6]);
    FirstVisitArms([e4, e5, e6]);
    assert [TimerFired(0), EntryReadDone(0, ReadOk(None), WatchPage), VideoWaitDone(0, Some(7))] + [e4, e5, e6]
        == [TimerFired(0), EntryReadDone(0, ReadOk(None), WatchPage), VideoWaitDone(0, Some(7)), e4, e5, e6];
  }

  /** The three trigger steps after a first visit, one at a time. */
  lemma TriggerSteps()
    ensures var s3 := ArmedOnFirstVisit;
            var s4 := s3.(attempts := map[0 := Armed(WatchPage.href, 0, 7, true, {LoadedMetadata, Playing}, {})]);
            var s5 := s3.(attempts := map[0 := Armed(WatchPage.href, 0, 7, true, {Playing}, {Listener(LoadedMetadata)})]);
            && Step(s3, TriggerReadDone(0, Immediate, ReadOk(None), true)) == StepResult(s4, [PositionReset(0, 7), NoticeShown(0)])
            && Step(s4, MediaEvent(7, LoadedMetadata)) == StepResult(s5, [])
            && Step(s5, TriggerReadDone(0, Listener(LoadedMetadata), ReadOk(None), true)).effects == [PositionReset(0, 7)]
  {
    var s3 := ArmedOnFirstVisit;
    var s4 := s3.(attempts := map[0 := Armed(WatchPage.href, 0, 7, true, {LoadedMetadata, Playing}, {})]);
    var s5 := s3.(attempts := map[0 := Armed(WatchPage.href, 0, 7, true, {Playing}, {Listener(LoadedMetadata)})]);
    assert {Immediate} - {Immediate} == {};
    assert s3.attempts[0 := s4.attempts[0]] == s4.attempts;
    assert MediaFired(s4.attempts[0], 7, LoadedMetadata, 0) == s5.attempts[0];
    assert OnMedia(s4, 7, LoadedMetadata) == s5;
  }

  /**
   * `tryReset` compares generations before it awaits `getEnabled()`, not
   * after. Switching the feature off and on again while that read is in
   * flight therefore does not stop the reset: the read sees the flag on again.
   */
  lemma ToggleDuringTriggerReadStillResets()
    ensures Run(Init(), [
              TimerFired(0),
              EntryReadDone(0, ReadOk(None), WatchPage),
              VideoWaitDone(0, Some(7)),
              StorageChanged("sync", map[StorageKey := Change(Bool(true), Bool(false))], WatchPage),
              StorageChanged("sync", map[StorageKey := Change(Bool(false), Bool(true))], WatchPage),
              TriggerReadDone(0, Immediate, ReadOk(Some(Bool(true))), true)]).effects
            == [AttemptStarted(0, WatchPage.href), PositionReset(0, 7), NoticeShown(0)]
  {
    var off := StorageChanged("sync", map[StorageKey := Change(Bool(true), Bool(false))], WatchPage);
    var on := StorageChanged("sync", map[StorageKey := Change(Bool(false), Bool(true))], WatchPage);
    var read := TriggerReadDone(0, Immediate, ReadOk(Some(Bool(true))), true);
    var s3 := ArmedOnFirstVisit;
    var r4 := Step(s3, off);
    var r5 := Step(r4.state, on);
    assert r5.state.attempts == s3.attempts && r5.state.generation == 2;
    var r6 := Step(r5.state, read);
    assert r6.effects == [PositionReset(0, 7), NoticeShown(0)];
    RunCons(r5.state, read, []);
    RunCons(r4.state, on, [read]);
    RunCons(s3, off, [on, read]);
    FirstVisitArms([off, on, read]);
    assert [TimerFired(0), EntryReadDone(0, ReadOk(None), WatchPage), VideoWaitDone(0, Some(7))] + [off, on, read]
        == [TimerFired(0), EntryReadDone(0, ReadOk(None), WatchPage), VideoWaitDone(0, Some(7)), off, on, read];
  }
}
