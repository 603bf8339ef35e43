/**
 * The change handlers the settings panel binds: a duration input stores its
 * clamped value and then re-applies the current session, so the countdown
 * picks the new length up at once; the auto-start toggle only stores its flag.
 */
module SettingsEvents {
  import opened Wrappers
  import opened JsText
  import opened Storage
  import opened Settings
  import opened TimerRules
  import opened Timer

  /** The three duration inputs, with the key each saves under and its upper bound in minutes. */
  datatype DurationInput = PomodoroInput | ShortBreakInput | LongBreakInput {
    function Key(): string {
      match this
      case PomodoroInput => "pomodoro"
      case ShortBreakInput => "shortBreak"
      case LongBreakInput => "longBreak"
    }

    function Max(): int {
      match this
      case PomodoroInput => 420
      case ShortBreakInput => 60
      case LongBreakInput => 120
    }

    /** The session kinds whose length this input sets; unknown kinds use the focus length. */
    predicate Governs(session: Value) {
      match this
      case PomodoroInput => session != ShortBreak && session != LongBreak
      case ShortBreakInput => session == ShortBreak
      case LongBreakInput => session == LongBreak
    }
  }

  /** Every input accepts at least one minute. */
  const MinMinutes: int := 1

  /** The durations with the one this input sets replaced by `v`. */
  function WithMinutes(d: Durations, input: DurationInput, v: Value): Durations {
    match input
    case PomodoroInput => d.(pomodoro := v)
    case ShortBreakInput => d.(shortBreak := v)
    case LongBreakInput => d.(longBreak := v)
  }

  /** A successful write under an input's key changes that duration and no other. */
  lemma DurationsAfterInputSet(entries: map<string, Raw>, available: bool, full: bool, input: DurationInput, v: Value)
    ensures DurationsOf(AfterSet(entries, available, full, input.Key(), v), available)
         == if available && !full then WithMinutes(DurationsOf(entries, available), input, v)
            else DurationsOf(entries, available)
  {
    if available && !full {
      var k := input.Key();
      var p, sb, lb := Int(DefaultPomodoro), Int(DefaultShortBreak), Int(DefaultLongBreak);
      match input
      case PomodoroInput =>
        GetAfterSet(entries, k, v, p);
        GetAfterSetOther(entries, available, full, k, v, "shortBreak", sb);
        GetAfterSetOther(entries, available, full, k, v, "longBreak", lb);
      case ShortBreakInput =>
        GetAfterSetOther(entries, available, full, k, v, "pomodoro", p);
        GetAfterSet(entries, k, v, sb);
        GetAfterSetOther(entries, available, full, k, v, "longBreak", lb);
      case LongBreakInput =>
        GetAfterSetOther(entries, available, full, k, v, "pomodoro", p);
        GetAfterSetOther(entries, available, full, k, v, "shortBreak", sb);
        GetAfterSet(entries, k, v, lb);
    }
  }

  /** The length a session takes after an input stored `v`: that input's kinds read `v`, the others keep theirs. */
  lemma SessionSecondsWithMinutes(session: Value, d: Durations, input: DurationInput, v: Value)
    ensures SessionSeconds(session, WithMinutes(d, input, v))
         == if input.Governs(session) then MinutesToSeconds(v) else SessionSeconds(session, d)
  {
  }

  /**
   * Storing a parsable input keeps the settings well formed: the stored value
   * is an integer within the input's bounds.
   */
  lemma ParsableInputKeepsWellFormed(d: Durations, input: DurationInput, text: string)
    requires WellFormed(d) && ParseInt(text).Some?
    ensures WellFormed(WithMinutes(d, input, ClampedValue(text, MinMinutes, input.Max())))
  {
  }

  /**
   * An input without digits stores JSON null (the NaN `clamp` lets through),
   * and every session that input governs then lasts zero seconds.
   */
  lemma UnparsableInputZeroesSession(d: Durations, input: DurationInput, text: string, session: Value)
    requires ParseInt(text).None? && input.Governs(session)
    ensures ClampedValue(text, MinMinutes, input.Max()) == Null
    ensures SessionSeconds(session, WithMinutes(d, input, ClampedValue(text, MinMinutes, input.Max()))) == 0
  {
    SessionSecondsWithMinutes(session, d, input, Null);
  }

  /**
   * A duration input's change event: save the clamped minutes, then set the
   * current session again. The countdown restarts from the session's full
   * length, now read from the new settings; a running timer keeps running.
   */
  method OnDurationChange(timer: Countdown, input: DurationInput, text: string)
    requires timer.Wired()
    modifies timer, timer.store`entries
    ensures timer.Valid() && timer.Displayed()
    ensures var v := ClampedValue(text, MinMinutes, input.Max());
      var e1 := AfterSet(old(timer.store.entries), timer.store.available, timer.store.full, input.Key(), v);
      && timer.store.entries
         == AfterSet(e1, timer.store.available, timer.store.full, "currentSession", old(timer.currentSession))
      && timer.currentSession == old(timer.currentSession)
      && timer.duration == SessionSeconds(timer.currentSession, DurationsOf(e1, timer.store.available))
      && timer.remaining == timer.duration
    ensures timer.store.available && !timer.store.full && input.Governs(timer.currentSession) ==>
      timer.duration == MinutesToSeconds(ClampedValue(text, MinMinutes, input.Max()))
    ensures timer.isRunning == old(timer.isRunning) && timer.intervalId == old(timer.intervalId)
    ensures timer.sounds == old(timer.sounds) && timer.nextIntervalId == old(timer.nextIntervalId)
  {
    ghost var e0 := timer.store.entries;
    var v := ClampedValue(text, MinMinutes, input.Max());
    timer.store.Set(input.Key(), v);
    DurationsAfterInputSet(e0, timer.store.available, timer.store.full, input, v);
    SessionSecondsWithMinutes(timer.currentSession, DurationsOf(e0, timer.store.available), input, v);
    timer.SetSession(timer.currentSession);
  }

  /** The auto-start toggle's change event: only the flag is stored; a completion reads it later. */
  method OnAutoStartChange(store: Store, checked: bool)
    modifies store`entries
    ensures store.entries == AfterSet(old(store.entries), store.available, store.full, "autoStart", Boolean(checked))
    ensures store.available && !store.full ==> Truthy(store.Lookup("autoStart", Boolean(DefaultAutoStart))) == checked
  {
    GetAfterSet(store.entries, "autoStart", Boolean(checked), Boolean(DefaultAutoStart));
    store.Set("autoStart", Boolean(checked));
  }
}
