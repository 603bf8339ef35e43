/**
 * The countdown sequencer. One object holds the module state of the source
 * (duration, remaining seconds, the interval handle, the running flag and the
 * current session kind) together with the values it last wrote to the page
 * and the calls it made to the audio module.
 *
 * The browser's one-second interval is explicit: `Start` registers an
 * interval id and `Tick` is what the browser calls while it is registered.
 */
module Timer {
  import opened Wrappers
  import opened JsText
  import opened Storage
  import opened Settings
  import opened Stats
  import opened TimerRules

  /** Calls into the audio module, in the order they were made. */
  datatype SoundCall = PlayFocus | PauseFocus | PlayAlarm

  /**
   * The store writes a completion makes before switching session: `isRunning
   * = false` when it pauses a running timer, then the statistics of a focus
   * session.
   */
  function CompletionWrites(e0: map<string, Raw>, available: bool, full: bool, wasRunning: bool, focus: bool,
                            today: string, focusSeconds: int, total: int): map<string, Raw>
  {
    var e1 := if wasRunning then AfterSet(e0, available, full, "isRunning", Boolean(false)) else e0;
    if focus then Saved(e1, available, full, today, focusSeconds, total) else e1
  }

  /** Those writes change neither the auto-start flag nor the durations the next session reads. */
  lemma CompletionWritesKeepSettings(e0: map<string, Raw>, available: bool, full: bool, wasRunning: bool,
                                     focus: bool, today: string, focusSeconds: int, total: int)
    ensures var e2 := CompletionWrites(e0, available, full, wasRunning, focus, today, focusSeconds, total);
      && Read(e2, available, "autoStart", Boolean(DefaultAutoStart)) == Read(e0, available, "autoStart", Boolean(DefaultAutoStart))
      && DurationsOf(e2, available) == DurationsOf(e0, available)
  {
    var e1 := if wasRunning then AfterSet(e0, available, full, "isRunning", Boolean(false)) else e0;
    GetAfterSetOther(e0, available, full, "isRunning", Boolean(false), "autoStart", Boolean(DefaultAutoStart));
    DurationsAfterOtherSet(e0, available, full, "isRunning", Boolean(false));
    if focus {
      var e1a := AfterSet(e1, available, full, TodayKey(today), Int(focusSeconds));
      TodayKeyIsNoFixedKey(today);
      GetAfterSetOther(e1, available, full, TodayKey(today), Int(focusSeconds), "autoStart", Boolean(DefaultAutoStart));
      GetAfterSetOther(e1a, available, full, "totalSessions", Int(total), "autoStart", Boolean(DefaultAutoStart));
      DurationsAfterOtherSet(e1, available, full, TodayKey(today), Int(focusSeconds));
      DurationsAfterOtherSet(e1a, available, full, "totalSessions", Int(total));
    }
  }

  class Countdown {
    const store: Store
    const stats: Counters
    /** The ring's circumference (`2 * Math.PI * 100` in the source), any positive real here. */
    const circumference: real

    var duration: int
    var remaining: int
    var intervalId: Option<nat>
    var isRunning: bool
    var currentSession: Value

    /** The remaining time the minutes and seconds elements were last rendered from. */
    var shownRemaining: int
    /** The remaining time and duration the ring's offset was last computed from. */
    var ringRemaining: int
    var ringDuration: int

    var sounds: seq<SoundCall>
    /** The id the browser hands out for the next `setInterval`. */
    var nextIntervalId: nat

    /** The collaborators are wired up and exactly one interval is registered while running. */
    ghost predicate Wired()
      reads this, stats
    {
      && stats.store == store
      && circumference > 0.0
      && (isRunning <==> intervalId.Some?)
      && (intervalId.Some? ==> intervalId.value < nextIntervalId)
    }

    /** Also, the remaining time never exceeds the duration nor drops below 0 (unless it equals the duration). */
    ghost predicate Valid()
      reads this, stats
    {
      && Wired()
      && remaining <= duration && (0 <= remaining || remaining == duration)
    }

    /** The texts of the minutes and seconds elements. */
    function MinutesShown(): string
      reads this
    {
      MinutesText(shownRemaining)
    }

    function SecondsShown(): string
      reads this
    {
      SecondsText(shownRemaining)
    }

    /** The ring's stroke offset. */
    function RingShown(): Offset
      reads this
      requires circumference > 0.0
    {
      RingOffset(ringRemaining, ringDuration, circumference)
    }

    /** The page shows the current remaining time and progress. */
    ghost predicate Displayed()
      reads this
    {
      shownRemaining == remaining && ringRemaining == remaining && ringDuration == duration
    }

    /** Between two states, the countdown itself and what the page shows did not change. */
    twostate predicate CountdownKept()
      reads this
    {
      && duration == old(duration) && remaining == old(remaining) && currentSession == old(currentSession)
      && shownRemaining == old(shownRemaining) && ringRemaining == old(ringRemaining)
      && ringDuration == old(ringDuration)
    }

    /** The module's initial state: a 25-minute focus session, not running. */
    constructor (store: Store, stats: Counters, circumference: real)
      requires stats.store == store && circumference > 0.0
      ensures this.store == store && this.stats == stats && this.circumference == circumference
      ensures Valid() && !isRunning && sounds == []
      ensures duration == 25 * 60 && remaining == duration && currentSession == Pomodoro
    {
      this.store, this.stats, this.circumference := store, stats, circumference;
      duration := 25 * 60;
      remaining := duration;
      intervalId, isRunning := None, false;
      currentSession := Pomodoro;
      // Before `Init` renders, the page shows its own markup, taken here to match this state.
      shownRemaining, ringRemaining, ringDuration := remaining, remaining, duration;
      sounds := [];
      nextIntervalId := 1;
    }

    /**
     * Restores the stored session kind with a full duration and always stores
     * `isRunning = false`, so that the bootstrap's later read of that key never
     * resumes, unless the write itself fails on a full store.
     */
    method Init()
      requires Wired()
      modifies this`currentSession, this`duration, this`remaining, this`shownRemaining, this`ringRemaining,
        this`ringDuration, store`entries
      ensures Valid() && Displayed()
      ensures currentSession == old(store.Lookup("currentSession", Pomodoro))
      ensures duration == SessionSeconds(currentSession, old(GetDurations(store))) && remaining == duration
      ensures store.entries == AfterSet(old(store.entries), store.available, store.full, "isRunning", Boolean(false))
      ensures !store.full ==> !Truthy(store.Lookup("isRunning", Boolean(false)))
    {
      currentSession := store.Get("currentSession", Pomodoro);
      Refill();
      GetAfterSet(store.entries, "isRunning", Boolean(false), Boolean(false));
      store.Set("isRunning", Boolean(false));
    }

    method Start()
      requires Wired()
      modifies this, store`entries
      ensures Wired() && CountdownKept()
      ensures old(isRunning) ==> unchanged(this) && store.entries == old(store.entries)
      ensures !old(isRunning) ==>
        && isRunning && intervalId == Some(old(nextIntervalId))
        && store.entries == AfterSet(old(store.entries), store.available, store.full, "isRunning", Boolean(true))
        && sounds == old(sounds) + [PlayFocus]
    {
      if isRunning {
        return;
      }
      isRunning := true;
      store.Set("isRunning", Boolean(true));
      sounds := sounds + [PlayFocus];
      intervalId := Some(nextIntervalId);
      nextIntervalId := nextIntervalId + 1;
    }

    /** Stops the countdown; a second call changes nothing, so pausing is idempotent. */
    method Pause()
      requires Wired()
      modifies this, store`entries
      ensures Wired() && CountdownKept()
      ensures !isRunning && intervalId == None
      ensures !old(isRunning) ==> unchanged(this) && store.entries == old(store.entries)
      ensures old(isRunning) ==>
        && store.entries == AfterSet(old(store.entries), store.available, store.full, "isRunning", Boolean(false))
        && sounds == old(sounds) + [PauseFocus]
      ensures nextIntervalId == old(nextIntervalId)
    {
      if !isRunning {
        return;
      }
      intervalId := None;
      isRunning := false;
      store.Set("isRunning", Boolean(false));
      sounds := sounds + [PauseFocus];
    }

    /** Pauses, then refills the current session's cached duration (settings are not re-read). */
    method Reset()
      requires Valid()
      modifies this, store`entries
      ensures Valid() && Displayed()
      ensures !isRunning && intervalId == None
      ensures remaining == duration && duration == old(duration) && currentSession == old(currentSession)
      ensures store.entries == if old(isRunning)
        then AfterSet(old(store.entries), store.available, store.full, "isRunning", Boolean(false))
        else old(store.entries)
      ensures sounds == old(sounds) + (if old(isRunning) then [PauseFocus] else [])
      ensures nextIntervalId == old(nextIntervalId)
    {
      Pause();
      remaining := duration;
      UpdateDisplay();
      UpdateProgress();
    }

    /** Starts again only when time is left. */
    method Resume()
      requires Valid()
      modifies this, store`entries
      ensures Valid() && CountdownKept()
      ensures old(remaining) <= 0 || old(isRunning) ==> unchanged(this) && store.entries == old(store.entries)
      ensures old(remaining) > 0 && !old(isRunning) ==>
        && isRunning
        && store.entries == AfterSet(old(store.entries), store.available, store.full, "isRunning", Boolean(true))
        && sounds == old(sounds) + [PlayFocus]
    {
      if remaining > 0 {
        Start();
      }
    }

    /**
     * What completing a session does, from the state before it to the state
     * after it: stop, record a finished focus session on `today`, switch to
     * the next kind with its full duration, and start it when auto-start is on.
     */
    twostate predicate Completed(today: string)
      reads this, store, stats
      requires circumference > 0.0
    {
      var focus := old(currentSession) == Pomodoro;
      var autoStart := Truthy(old(store.Lookup("autoStart", Boolean(DefaultAutoStart))));
      var next := NextSession(old(currentSession), LongBreakDue(stats.totalSessions));
      var e2 := CompletionWrites(old(store.entries), store.available, store.full, old(isRunning), focus,
                                 today, stats.todayFocusSeconds, stats.totalSessions);
      var e3 := AfterSet(e2, store.available, store.full, "currentSession", next);
      && stats.todayFocusSeconds == old(stats.todayFocusSeconds) + (if focus then old(duration) else 0)
      && stats.totalSessions == old(stats.totalSessions) + (if focus then 1 else 0)
      && currentSession == next
      && duration == SessionSeconds(next, old(GetDurations(store))) && remaining == duration
      && isRunning == autoStart
      && intervalId == (if autoStart then Some(old(nextIntervalId)) else None)
      && store.entries == (if autoStart
        then AfterSet(e3, store.available, store.full, "isRunning", Boolean(true)) else e3)
      && sounds == old(sounds) + (if old(isRunning) then [PauseFocus] else []) + [PlayAlarm]
                               + (if autoStart then [PlayFocus] else [])
      && Displayed()
      && (focus ==> stats.Rendered())
      && (!focus ==> stats.focusText == old(stats.focusText) && stats.sessionsText == old(stats.sessionsText))
    }

    /** One interval callback: count down a second, or complete the session once none is left. */
    method Tick(today: string)
      requires Valid()
      modifies this, store`entries, stats
      ensures Valid()
      ensures old(remaining) > 0 ==>
        && remaining == old(remaining) - 1 && Displayed()
        && duration == old(duration) && currentSession == old(currentSession)
        && isRunning == old(isRunning) && intervalId == old(intervalId)
        && nextIntervalId == old(nextIntervalId) && sounds == old(sounds)
        && store.entries == old(store.entries) && unchanged(stats)
      ensures old(remaining) <= 0 ==> Completed(today)
    {
      if remaining <= 0 {
        CompleteSession(today);
        return;
      }
      remaining := remaining - 1;
      UpdateDisplay();
      UpdateProgress();
    }

    /**
     * The browser firing the interval `n` times while that much time is left:
     * the countdown falls by exactly `n` and nothing completes. From a full
     * session, `duration` callbacks reach 0 and the next one completes.
     */
    method TickTimes(n: nat, today: string)
      requires Valid() && n <= remaining
      modifies this, store`entries, stats
      ensures Valid() && (n > 0 ==> Displayed())
      ensures remaining == old(remaining) - n
      ensures duration == old(duration) && currentSession == old(currentSession)
      ensures isRunning == old(isRunning) && intervalId == old(intervalId) && sounds == old(sounds)
      ensures store.entries == old(store.entries) && unchanged(stats)
    {
      for k := 0 to n
        invariant Valid() && remaining == old(remaining) - k && (k > 0 ==> Displayed())
        invariant duration == old(duration) && currentSession == old(currentSession)
        invariant isRunning == old(isRunning) && intervalId == old(intervalId) && sounds == old(sounds)
        invariant store.entries == old(store.entries) && unchanged(stats)
      {
        Tick(today);
      }
    }

    /**
     * Completes the session that ran out: stop it, sound the alarm, record a
     * focus session, then move on to the next kind.
     */
    method CompleteSession(today: string)
      requires Valid()
      modifies this, store`entries, stats
      ensures Valid() && Completed(today)
    {
      StopAndRecord(today);
      SwitchSessionAuto();
    }

    /** The first half of a completion: everything before the session switch. */
    method StopAndRecord(today: string)
      requires Valid()
      modifies this, store`entries, stats
      ensures Wired() && !isRunning && intervalId == None && nextIntervalId == old(nextIntervalId)
      ensures currentSession == old(currentSession) && duration == old(duration) && remaining == 0
      ensures shownRemaining == 0 && ringRemaining == 0 && ringDuration == duration
      ensures var focus := currentSession == Pomodoro;
        && stats.todayFocusSeconds == old(stats.todayFocusSeconds) + (if focus then duration else 0)
        && stats.totalSessions == old(stats.totalSessions) + (if focus then 1 else 0)
        && store.entries == CompletionWrites(old(store.entries), store.available, store.full, old(isRunning), focus,
                                             today, stats.todayFocusSeconds, stats.totalSessions)
        && (focus ==> stats.Rendered())
        && (!focus ==> stats.focusText == old(stats.focusText) && stats.sessionsText == old(stats.sessionsText))
      ensures store.Lookup("autoStart", Boolean(DefaultAutoStart)) == old(store.Lookup("autoStart", Boolean(DefaultAutoStart)))
      ensures GetDurations(store) == old(GetDurations(store))
      ensures sounds == old(sounds) + (if old(isRunning) then [PauseFocus] else []) + [PlayAlarm]
    {
      ghost var e0 := store.entries;
      ghost var wasRunning := isRunning;
      Pause();
      remaining := 0;
      UpdateDisplay();
      UpdateProgress();
      sounds := sounds + [PlayAlarm];
      stats.RecordSession(currentSession, duration, today);
      CompletionWritesKeepSettings(e0, store.available, store.full, wasRunning, currentSession == Pomodoro, today,
                                   stats.todayFocusSeconds, stats.totalSessions);
    }

    /** Picks the next session kind, sets it up, and starts it when auto-start is on. */
    method SwitchSessionAuto()
      requires Wired()
      modifies this, store`entries
      ensures Valid() && Displayed()
      ensures var autoStart := Truthy(old(store.Lookup("autoStart", Boolean(DefaultAutoStart))));
        var next := NextSession(old(currentSession), stats.ShouldLongBreak());
        var e1 := AfterSet(old(store.entries), store.available, store.full, "currentSession", next);
        && currentSession == next
        && duration == SessionSeconds(next, old(GetDurations(store))) && remaining == duration
        && isRunning == (old(isRunning) || autoStart)
        && intervalId == (if autoStart && !old(isRunning) then Some(old(nextIntervalId)) else old(intervalId))
        && store.entries == (if autoStart && !old(isRunning)
          then AfterSet(e1, store.available, store.full, "isRunning", Boolean(true)) else e1)
        && sounds == old(sounds) + (if autoStart && !old(isRunning) then [PlayFocus] else [])
    {
      var autoStart := store.Get("autoStart", Boolean(DefaultAutoStart));
      var next := if currentSession == Pomodoro
        then (if stats.ShouldLongBreak() then LongBreak else ShortBreak)
        else Pomodoro;
      SetSession(next);
      if Truthy(autoStart) {
        Start();
      }
    }

    /**
     * Makes `session` current and stores it, then takes that kind's duration
     * from the settings and fills the countdown; a running timer keeps running.
     */
    method SetSession(session: Value)
      requires Wired()
      modifies this`currentSession, this`duration, this`remaining, this`shownRemaining, this`ringRemaining,
        this`ringDuration, store`entries
      ensures Valid() && Displayed()
      ensures currentSession == session
      ensures store.entries == AfterSet(old(store.entries), store.available, store.full, "currentSession", session)
      ensures duration == SessionSeconds(session, old(GetDurations(store))) && remaining == duration
      ensures duration == SessionSeconds(session, GetDurations(store))
    {
      currentSession := session;
      DurationsAfterOtherSet(store.entries, store.available, store.full, "currentSession", session);
      store.Set("currentSession", session);
      Refill();
    }

    /** Takes the current kind's duration from the settings, fills the countdown and renders it. */
    method Refill()
      requires Wired()
      modifies this`duration, this`remaining, this`shownRemaining, this`ringRemaining, this`ringDuration
      ensures Valid() && Displayed()
      ensures duration == SessionSeconds(currentSession, GetDurations(store)) && remaining == duration
    {
      duration := SessionSeconds(currentSession, GetDurations(store));
      remaining := duration;
      UpdateDisplay();
      UpdateProgress();
    }

    /** Writes `MinutesText(remaining)` and `SecondsText(remaining)` to the page. */
    method UpdateDisplay()
      modifies this`shownRemaining
      ensures shownRemaining == remaining
    {
      shownRemaining := remaining;
    }

    /** Writes `RingOffset(remaining, duration, circumference)` to the ring. */
    method UpdateProgress()
      requires circumference > 0.0
      modifies this`ringRemaining, this`ringDuration
      ensures ringRemaining == remaining && ringDuration == duration
    {
      ringRemaining, ringDuration := remaining, duration;
    }
  }

  /**
   * Once rendered, the two texts on the page read back as the minutes and the
   * seconds of the remaining time.
   */
  lemma ShownClockReadsBack(c: Countdown)
    requires c.Displayed() && c.remaining >= 0
    ensures ParseInt(c.MinutesShown()).Some? && ParseInt(c.SecondsShown()).Some?
    ensures ParseInt(c.MinutesShown()).value * 60 + ParseInt(c.SecondsShown()).value == c.remaining
    ensures 0 <= ParseInt(c.SecondsShown()).value < 60
  {
    ClockSplits(c.remaining);
    PaddedReadsBack(Clock(c.remaining).0);
    PaddedReadsBack(Clock(c.remaining).1);
  }

  /** Once rendered, the ring's offset of a session with a positive duration lies within one circumference. */
  lemma ShownRingWithinCircumference(c: Countdown)
    requires c.Valid() && c.Displayed() && c.duration > 0
    ensures c.RingShown().Dash? && 0.0 <= c.RingShown().value <= c.circumference
  {
    RingOffsetBounded(c.remaining, c.remaining, c.duration, c.circumference);
  }
}
