/**
 * Focus statistics: today's accumulated focus seconds (stored under a key
 * that names the calendar day) and the lifetime count of completed focus
 * sessions, which also decides when a long break is due.
 *
 * The current date is a parameter (`today`, the `YYYY-MM-DD` part of the ISO
 * time stamp the source computes at each load and save).
 */
module Stats {
  import opened JsText
  import opened Storage

  const SessionsBeforeLongBreak: int := 4

  /** The storage key of one day's focus seconds. */
  function TodayKey(date: string): (k: string)
    ensures |k| == 6 + |date| && k[..6] == "focus-" && k[6..] == date
  {
    "focus-" + date
  }

  lemma TodayKeyInjective(d1: string, d2: string)
    ensures TodayKey(d1) == TodayKey(d2) <==> d1 == d2
  {
    if TodayKey(d1) == TodayKey(d2) {
      assert d1 == TodayKey(d1)[6..];
    }
  }

  /** No day key coincides with one of the fixed keys of the application. */
  lemma TodayKeyIsNoFixedKey(date: string)
    ensures TodayKey(date) !in {"totalSessions", "pomodoro", "shortBreak", "longBreak", "autoStart",
                                "currentSession", "isRunning", "volume", "mute"}
  {
    var k := TodayKey(date);
    assert k[0] == 'f' && k[1] == 'o' && k[2] == 'c';
    assert "totalSessions"[0] != 'f' && "pomodoro"[0] != 'f' && "shortBreak"[0] != 'f';
    assert "longBreak"[0] != 'f' && "autoStart"[0] != 'f' && "currentSession"[0] != 'f';
    assert "isRunning"[0] != 'f' && "volume"[0] != 'f' && "mute"[0] != 'f';
  }

  /**
   * `shouldLongBreak()`: `totalSessions % 4 === 0`. JavaScript's `%` truncates
   * where Dafny's is Euclidean, but both are 0 exactly for the multiples of 4.
   * Nothing checks that the count is positive.
   */
  function LongBreakDue(total: int): bool {
    total % SessionsBeforeLongBreak == 0
  }

  /** A long break is due after completions 4, 8, ... and every fourth one after any count. */
  lemma LongBreakPeriodic(total: int)
    ensures LongBreakDue(total + SessionsBeforeLongBreak) == LongBreakDue(total)
    ensures LongBreakDue(total) <==> exists k: int {:trigger 4 * k} :: total == 4 * k
  {
    if LongBreakDue(total) {
      assert total == 4 * (total / 4);
    }
  }

  /** Completions 1..8 give short, short, short, long, short, short, short, long; and 0 counts as due. */
  lemma LongBreakFirstEight()
    ensures seq(8, i => LongBreakDue(i + 1)) == [false, false, false, true, false, false, false, true]
    ensures LongBreakDue(0)
  {
  }

  /**
   * `formatTime`: whole hours `Math.floor(seconds / 3600)` and whole minutes
   * `Math.floor((seconds % 3600) / 60)`, with JavaScript's truncating `%`.
   */
  function HoursMinutes(seconds: int): (int, int) {
    (seconds / 3600, JsRem(seconds, 3600) / 60)
  }

  /** The whole hours and minutes shown are the largest that fit in the seconds, minutes below 60. */
  lemma HoursMinutesBounds(seconds: nat)
    ensures var (h, m) := HoursMinutes(seconds);
      && h >= 0 && 0 <= m < 60
      && h * 3600 + m * 60 <= seconds < h * 3600 + m * 60 + 60
  {
  }

  /** The display text "{hours}h {minutes}m", no padding and no seconds. */
  function FormatTime(seconds: int): string {
    var hm := HoursMinutes(seconds);
    Show(hm.0) + "h " + Show(hm.1) + "m"
  }

  /** How a stored counter is read: the integer stored, 0 for anything else. */
  function CountOf(v: Value): int {
    if v.Int? then v.i else 0
  }

  /** The entries after `saveStats()` for the given day and counter values. */
  function Saved(entries: map<string, Raw>, available: bool, full: bool, today: string, focus: int, total: int): map<string, Raw> {
    AfterSet(AfterSet(entries, available, full, TodayKey(today), Int(focus)), available, full, "totalSessions", Int(total))
  }

  /** After saving, both counters read back as written (when the writes succeed). */
  lemma SavedReadsBack(entries: map<string, Raw>, today: string, focus: int, total: int)
    ensures Read(Saved(entries, true, false, today, focus, total), true, TodayKey(today), Int(0)) == Int(focus)
    ensures Read(Saved(entries, true, false, today, focus, total), true, "totalSessions", Int(0)) == Int(total)
  {
    TodayKeyIsNoFixedKey(today);
    GetAfterSetOther(AfterSet(entries, true, false, TodayKey(today), Int(focus)), true, false, "totalSessions",
                     Int(total), TodayKey(today), Int(0));
  }

  /** Saving on one day leaves every other day's focus seconds as they were. */
  lemma SavedKeepsOtherDays(entries: map<string, Raw>, available: bool, full: bool, today: string,
                            focus: int, total: int, other: string)
    requires other != today
    ensures Read(Saved(entries, available, full, today, focus, total), available, TodayKey(other), Int(0))
         == Read(entries, available, TodayKey(other), Int(0))
  {
    TodayKeyInjective(today, other);
    TodayKeyIsNoFixedKey(other);
    GetAfterSetOther(entries, available, full, TodayKey(today), Int(focus), TodayKey(other), Int(0));
    GetAfterSetOther(AfterSet(entries, available, full, TodayKey(today), Int(focus)), available, full,
                     "totalSessions", Int(total), TodayKey(other), Int(0));
  }

  /** The statistics module's counters and the two texts it renders. */
  class Counters {
    const store: Store
    var todayFocusSeconds: int
    var totalSessions: int
    /** The text of the "today's focus" and "sessions" elements. */
    var focusText: string
    var sessionsText: string

    constructor (store: Store)
      ensures this.store == store && todayFocusSeconds == 0 && totalSessions == 0
      ensures focusText == "" && sessionsText == ""
    {
      this.store := store;
      todayFocusSeconds, totalSessions := 0, 0;
      focusText, sessionsText := "", "";
    }

    ghost predicate Rendered()
      reads this
    {
      focusText == FormatTime(todayFocusSeconds) && sessionsText == Show(totalSessions)
    }

    method Init(today: string)
      modifies this
      ensures todayFocusSeconds == CountOf(store.Lookup(TodayKey(today), Int(0)))
      ensures totalSessions == CountOf(store.Lookup("totalSessions", Int(0)))
      ensures Rendered()
    {
      LoadStats(today);
      Render();
    }

    method LoadStats(today: string)
      modifies this`todayFocusSeconds, this`totalSessions
      ensures todayFocusSeconds == CountOf(store.Lookup(TodayKey(today), Int(0)))
      ensures totalSessions == CountOf(store.Lookup("totalSessions", Int(0)))
    {
      var focus := store.Get(TodayKey(today), Int(0));
      var total := store.Get("totalSessions", Int(0));
      todayFocusSeconds := CountOf(focus);
      totalSessions := CountOf(total);
    }

    method SaveStats(today: string)
      modifies store`entries
      ensures store.entries == Saved(old(store.entries), store.available, store.full, today, todayFocusSeconds, totalSessions)
    {
      store.Set(TodayKey(today), Int(todayFocusSeconds));
      store.Set("totalSessions", Int(totalSessions));
    }

    method Render()
      modifies this`focusText, this`sessionsText
      ensures Rendered()
    {
      focusText := FormatTime(todayFocusSeconds);
      sessionsText := Show(totalSessions);
    }

    /**
     * Only a completed focus session counts: it adds its length to today's
     * seconds and one to the total, then saves and renders both.
     */
    method RecordSession(sessionType: Value, durationSeconds: int, today: string)
      modifies this, store`entries
      ensures sessionType == Text("pomodoro") ==>
        && todayFocusSeconds == old(todayFocusSeconds) + durationSeconds
        && totalSessions == old(totalSessions) + 1
        && store.entries == Saved(old(store.entries), store.available, store.full, today, todayFocusSeconds, totalSessions)
        && Rendered()
      ensures sessionType != Text("pomodoro") ==> unchanged(this) && store.entries == old(store.entries)
      ensures old(todayFocusSeconds) >= 0 && old(totalSessions) >= 0 && durationSeconds >= 0 ==>
        todayFocusSeconds >= 0 && totalSessions >= 0
    {
      if sessionType == Text("pomodoro") {
        todayFocusSeconds := todayFocusSeconds + durationSeconds;
        totalSessions := totalSessions + 1;
        SaveStats(today);
        Render();
      }
    }

    function ShouldLongBreak(): bool
      reads this
    {
      LongBreakDue(totalSessions)
    }
  }
}
