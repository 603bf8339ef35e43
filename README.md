# FocusFlow pomodoro timer, modelled in Dafny

This project models the logic of the FocusFlow browser pomodoro timer.

- **Countdown sequencer** (`Timer.Countdown`). It tracks the duration, the remaining seconds, the interval handle, the running flag and the current session kind ("pomodoro", "shortBreak", "longBreak").
- **Prefixed key-value store** (`Storage.Store`). This is the `localStorage` wrapper, with keys prefixed `focusflow:`. Reads fall back to a default on a miss, and writes fail softly.
- **Settings lookup and clamp** (`Settings`). It reads the duration settings, and its clamp is applied to the duration inputs.
- **Statistics counters** (`Stats.Counters`). They hold today's focus seconds and the lifetime count of focus sessions. The count decides when a long break is due.
- **Settings change handlers** (`SettingsEvents`).
- **Button and tab controller** (`Controls.ControlSurface`).

The JavaScript built-ins the code relies on are written out in `JsText`:

- `String(n)`;
- `parseInt(s, 10)`, which yields NaN as `None`;
- the truncating `%`;
- `padStart(2, "0")`.

How the rest of the environment is represented:

- **The store.** It is a map from prefixed keys to stored JSON text. Stored text is an abstract `Value` (null, boolean, integer, fraction, string) or `Unparsable`. JSON encoding is the identity on `Value`. Two flags say how `localStorage` fails:
  - `available = false`: every access throws (storage disabled).
  - `full = true`: `setItem` throws on a full quota, while reads and removals still work.
- **The browser's one-second interval.** `Start` registers an interval id taken from a counter. `Tick` is the callback the browser makes while that id is registered.
- **Calls into the audio module.** They are appended to the `sounds` log.
- **The page.** It is represented by the values last written to it:
  - the remaining time rendered as minutes and seconds;
  - the remaining time and duration the ring offset was computed from;
  - the button label;
  - the tabs' active flags;
  - the panel's `aria-hidden` attribute.
- **The ring circumference.** It is an arbitrary positive real.
- **The current date.** It is the `today` parameter, the `YYYY-MM-DD` part of the ISO time stamp.

Two behaviours of the code as written differ from what its structure suggests. The model follows the code in both:

- **`reset` does not re-read the settings**, although resetting suggests starting the current kind afresh from the current settings. It refills `remaining` from the cached `duration` of the current session (`Timer.Countdown.Reset`). New settings only take effect through `setSession`, which the duration handlers call.
- **A session can last zero seconds.** A duration input without digits makes `clamp` return NaN, which is stored as JSON `null`. That kind of session then lasts 0 seconds (`SettingsEvents.UnparsableInputZeroesSession`). Because the inputs clamp to at least one minute, one would expect every session to be positive. With parsable input the durations stay within their bounds (`SettingsEvents.ParsableInputKeepsWellFormed`).

Other consequences the contracts make visible:

- **`init` always stores `isRunning = false`** unless the quota is full. So the bootstrap's later "resume if running" branch never fires (`Timer.Countdown.Init`).
- **`recordSession` does not reload the day.** It adds to the in-memory focus counter and writes the sum under the key of the day it is called on. A page left open over midnight therefore carries the previous day's seconds into the new day's entry (`Stats.Counters.RecordSession`).
- **An automatic completion does not update the button label.** Only the control handlers write it, so after a completion without auto-start the button can still read "Pause".

## Model

| member | source | states |
|---|---|---|
| Storage.StorageKey | js/storage.js:9 | every storage key begins with `focusflow:` and continues with the caller's key |
| Storage.StorageKeyInjective | js/storage.js:30 | two keys map to the same prefixed key only if they are equal, so distinct keys never collide |
| Storage.Read | js/storage.js:28-35 | `get` yields either the default or a value actually stored under the prefixed key, and it never fails |
| Storage.Store.Get | js/storage.js:28-35 | the method returns what `Read` gives for the current entries and availability |
| Storage.Store.Set | js/storage.js:37-43 | the entries become the result of one fail-soft write: changed only when storage is accessible and not full |
| Storage.Store.Remove | js/storage.js:45-49 | the entries lose the prefixed key when storage is accessible, and are unchanged otherwise |
| Storage.Store.Init | js/storage.js:14-23 | the probe write and removal leave no `__test__` entry, and change nothing when they throw |
| Storage.SetChangesOnlyItsEntry | js/storage.js:37-43 | a write adds or replaces exactly its prefixed key, keeps every other entry, and changes nothing when it fails |
| Storage.RemoveChangesOnlyItsEntry | js/storage.js:45-49 | a removal deletes exactly its prefixed key, keeps every other entry, and changes nothing when storage is inaccessible |
| Storage.GetAfterSet | js/storage.js:37-40 | `get(k, d)` after a successful `set(k, v)` returns `v` |
| Storage.GetAfterSetOther | js/storage.js:37-40 | a `set` on one key leaves what `get` returns for every other key unchanged |
| Storage.SetTwiceIsSetOnce | js/storage.js:37-43 | writing the same value twice under one key has the effect of writing it once |
| Storage.GetAfterRemove | js/storage.js:45-48 | `get(k, d)` after `remove(k)` returns `d` |
| Storage.GetAfterRemoveOther | js/storage.js:45-48 | a `remove` on one key leaves what `get` returns for every other key unchanged |
| Settings.Clamp | js/settings.js:89-91 | NaN exactly when parseInt finds no digits; otherwise within `[min, max]`, unchanged when already in range, `min` below it and `max` above it |
| Settings.ClampIdempotent | js/settings.js:89-91 | clamping the text of a clamped value gives the same value |
| Settings.ClampTooLarge | js/settings.js:57 | "9999" typed into the focus input is stored as 420 |
| Settings.ClampTooSmall | js/settings.js:57 | "0" and "-5" typed into the focus input are stored as 1 |
| Settings.ClampNotANumber | js/settings.js:89-91 | "" and "abc" are not clamped: the result is NaN |
| Settings.ClampedValue | js/settings.js:48-50 | the value saved is JSON null exactly for NaN, and the clamped integer otherwise |
| Settings.DurationsDefaultIndependently | js/settings.js:96-102 | each duration is its stored value when one is readable and its own default (25, 5, 15) otherwise, whatever the other keys hold |
| Settings.DurationsAfterOtherSet | js/settings.js:96-102 | writing any key other than the three duration keys leaves the durations unchanged |
| Stats.TodayKey | js/stats.js:81-84 | the day key is `focus-` followed by the date |
| Stats.TodayKeyInjective | js/stats.js:81-84 | two days share a key only if they are the same day |
| Stats.TodayKeyIsNoFixedKey | js/stats.js:35-40 | no day key coincides with any fixed key the application stores |
| Stats.LongBreakPeriodic | js/stats.js:58-61 | a long break is due exactly when the count is a multiple of 4, and the rule repeats every 4 completions |
| Stats.LongBreakFirstEight | js/stats.js:58-61 | completions 1..8 give short, short, short, long, short, short, short, long; a count of 0 also counts as due |
| Stats.HoursMinutesBounds | js/stats.js:71-76 | the hours and minutes shown are the largest whole amounts that fit in the seconds, minutes below 60 |
| Stats.SavedReadsBack | js/stats.js:35-40 | after a successful save both counters read back as written |
| Stats.SavedKeepsOtherDays | js/stats.js:35-40 | saving on one day leaves every other day's stored focus seconds as they were |
| Stats.Counters.constructor | js/stats.js:13-15 | both counters start at 0 |
| Stats.Counters.LoadStats | js/stats.js:28-33 | each counter is the stored integer, or 0 when nothing readable is stored |
| Stats.Counters.SaveStats | js/stats.js:35-40 | the store receives today's seconds under the day key, then the session count |
| Stats.Counters.Render | js/stats.js:66-69 | the texts shown are the formatted focus time and the decimal session count |
| Stats.Counters.Init | js/stats.js:20-23 | the counters are loaded from the store and rendered |
| Stats.Counters.RecordSession | js/stats.js:45-53 | a focus session adds its length to today's seconds and exactly 1 to the count, then saves and renders; any other kind changes neither the counters nor the store; counters stay non-negative |
| JsText.ParseIntShow | js/settings.js:90 | parseInt reads back every integer from its decimal text |
| JsText.ParseIntOfDigits | js/settings.js:90 | parseInt of a digit string is that string's decimal value |
| JsText.ParseIntOfNegatedDigits | js/settings.js:90 | parseInt of a minus sign followed by digits is the negated value |
| JsText.JsRem | js/timer.js:159 | the truncating remainder: equal to Dafny's for non-negative operands, non-positive and with the same magnitude for negative ones, always below the divisor in magnitude |
| JsText.PadTwoKeeps | js/timer.js:161-162 | padding gives at least two characters, keeps the original text as its suffix, and adds only zeros |
| TimerRules.SessionSecondsOfWellFormed | js/timer.js:140-152 | with durations in their bounds each kind reads its own minutes times 60, and unknown kinds read focus minutes |
| TimerRules.NullMinutesGiveZeroSeconds | js/timer.js:148-150 | a stored null focus minute value gives a zero-second focus session |
| TimerRules.NextSession | js/timer.js:111-117 | after focus comes a long break exactly when one is due and a short break otherwise; after anything else comes focus |
| TimerRules.NextSessionAlternates | js/timer.js:111-117 | two automatic switches come back to focus exactly when they start from focus |
| TimerRules.ClockSplits | js/timer.js:158-159 | displayed minutes times 60 plus displayed seconds is the remaining time, with seconds below 60 |
| TimerRules.PaddedReadsBack | js/timer.js:161-162 | each displayed part has at least two characters, keeps all its digits and reads back as the number |
| TimerRules.RingOffset | js/timer.js:165-171 | the offset is not finite exactly for a zero duration; it is 0 at a full session and the whole circumference at 0 remaining |
| TimerRules.RingOffsetBounded | js/timer.js:166-167 | within a session the offset stays between 0 and the circumference and grows as the remaining time falls |
| Timer.CompletionWritesKeepSettings | js/timer.js:102-109 | the writes a completion makes before switching leave the auto-start flag and the durations as the switch will read them |
| Timer.Countdown.constructor | js/timer.js:10-14 | a stopped 25-minute focus session with full time left |
| Timer.Countdown.Init | js/timer.js:27-36 | restores the stored kind with its full duration from the settings, renders it, and stores `isRunning = false`, which reads back as not running whenever the write succeeds |
| Timer.Countdown.Start | js/timer.js:41-50 | a no-op when running; otherwise running, `isRunning = true` stored, focus sound played, exactly one fresh interval registered, countdown untouched |
| Timer.Countdown.Pause | js/timer.js:52-61 | afterwards not running and without an interval; a no-op when already stopped (so pausing twice equals once); otherwise `isRunning = false` stored and the focus sound paused |
| Timer.Countdown.Reset | js/timer.js:63-68 | afterwards stopped with `remaining == duration`, same duration and kind, and the invariant kept |
| Timer.Countdown.Resume | js/timer.js:70-74 | starts exactly when time is left and the timer is stopped, otherwise changes nothing |
| Timer.Countdown.Tick | js/timer.js:79-88 | with time left, decrements by exactly 1 and changes nothing else; at 0 performs a whole completion (`Completed`); the invariant is kept: `remaining <= duration`, and `remaining >= 0` unless it equals a negative duration |
| Timer.Countdown.TickTimes | js/timer.js:79-88 | `n` callbacks with at least `n` seconds left lower the countdown by `n` without completing, so a full session reaches 0 after `duration` ticks |
| Timer.Countdown.CompleteSession | js/timer.js:93-106 | records the session once with its kind and duration, picks the next kind from the updated count, stores and sets it up with its full duration, and runs afterwards exactly when auto-start is on; the audio calls and store writes come in source order; the page shows the new full session; for a focus session the stats texts are re-rendered, after a break they are untouched |
| Timer.Countdown.StopAndRecord | js/timer.js:94-102 | stops, zeroes the countdown and renders 0 on the display and the ring, plays the alarm and records the session (stats texts re-rendered for a focus session, untouched otherwise), touching no setting the switch reads |
| Timer.Countdown.SwitchSessionAuto | js/timer.js:108-124 | the next kind follows the rule above, its duration comes from the settings, and the timer is started when the stored auto-start flag is truthy |
| Timer.Countdown.SetSession | js/timer.js:129-138 | the kind is set and stored; duration and remaining are that kind's seconds from the settings; running state and interval unchanged |
| Timer.Countdown.Refill | js/timer.js:133-137 | the countdown is filled with the current kind's full duration and rendered |
| Timer.Countdown.UpdateDisplay | js/timer.js:157-163 | the display now shows the current remaining time |
| Timer.Countdown.UpdateProgress | js/timer.js:165-171 | the ring now shows the current remaining time against the current duration |
| SettingsEvents.DurationsAfterInputSet | js/settings.js:56-69 | a successful write under an input's key replaces that duration and no other; a failed one changes none |
| SettingsEvents.SessionSecondsWithMinutes | js/timer.js:140-152 | after an input stores a value, the kinds that input sets read it and all others keep their length |
| SettingsEvents.ParsableInputKeepsWellFormed | js/settings.js:56-69 | storing a parsable input keeps every duration an integer in 1..420, 1..60 and 1..120 |
| SettingsEvents.UnparsableInputZeroesSession | js/settings.js:89-91 | an input without digits stores null, and every session it sets then lasts 0 seconds |
| SettingsEvents.OnDurationChange | js/settings.js:56-69 | stores the clamped minutes, then sets the current session again, so the countdown restarts from the new length; running state unchanged |
| SettingsEvents.OnAutoStartChange | js/settings.js:81-83 | stores the flag, which then reads back with the same truthiness |
| Controls.LabelFor | js/controls.js:79-81 | the label is "Pause" exactly for a running timer and "Start" exactly for a stopped one |
| Controls.MarkedExactlyOne | js/controls.js:83-86 | with tabs for distinct kinds, activating one tab's kind marks that tab and no other |
| Controls.MarkedNone | js/controls.js:83-86 | activating a kind no tab carries marks no tab |
| Controls.ToggleFlips | js/controls.js:111-114 | the panel is hidden after a toggle exactly when it was not hidden before |
| Controls.ToggleTwiceRestores | js/controls.js:111-114 | toggling twice restores the attribute exactly when it held "true" or "false" |
| Controls.ControlSurface.UpdateStartPauseUi | js/controls.js:79-81 | the button shows the label for the given running state |
| Controls.ControlSurface.HandleStartPause | js/controls.js:50-58 | pauses a running timer and starts a stopped one, storing the new flag; the label is "Pause" exactly when it started; a started timer gets one fresh interval, a paused one none; countdown, kind and page are untouched |
| Controls.ControlSurface.HandleReset | js/controls.js:60-63 | afterwards stopped with `remaining == duration` shown on the page, same duration and kind, the label "Start"; a running timer stores `isRunning = false` and pauses the focus sound, a stopped one writes nothing and plays nothing |
| Controls.ControlSurface.HandleSessionTab | js/controls.js:65-74 | afterwards stopped, on the tab's kind with its full duration from the settings, with exactly the tab's kind marked and the new session shown; the label becomes "Start" and the focus sound is paused only if the timer was running; the store receives `isRunning = false` (if it was running), then the kind |
| Controls.ControlSurface.StopForTab | js/controls.js:66-69 | a running timer is paused (flag stored, focus sound paused) and relabelled; a stopped timer is left entirely unchanged; the countdown, page and durations are kept either way |
| Controls.ControlSurface.SetActiveSession | js/controls.js:83-89 | each tab's flag is whether its kind equals the given one, and the kind is stored |
| Controls.ControlSurface.SyncInitialState | js/controls.js:91-95 | activates the stored kind (focus by default), stores it back and shows "Start" |
| Controls.ControlSurface.ToggleSettingsPanel | js/controls.js:111-114 | the attribute becomes the flipped text of its old value |
| Storage.Store.constructor | js/storage.js:6-9 | the store starts with the given entries and failure flags |
| Storage.AfterSet | js/storage.js:37-43 | the entries after a `set`; what they are is stated by `SetChangesOnlyItsEntry`, `GetAfterSet` and `GetAfterSetOther` |
| Storage.AfterRemove | js/storage.js:45-49 | the entries after a `remove`; stated by `RemoveChangesOnlyItsEntry`, `GetAfterRemove` and `GetAfterRemoveOther` |
| Settings.DurationsOf | js/settings.js:96-102 | the three minute values as read from given entries; each one's value is stated by `DurationsDefaultIndependently` |
| Settings.GetDurations | js/settings.js:96-102 | `getDurations` on the store's current contents, through `DurationsOf` |
| Stats.LongBreakDue | js/stats.js:58-61 | whether the count is divisible by 4; stated by `LongBreakPeriodic` and `LongBreakFirstEight` |
| Stats.Counters.ShouldLongBreak | js/stats.js:58-61 | `LongBreakDue` of the current count, whose meaning `LongBreakPeriodic` states |
| Stats.HoursMinutes | js/stats.js:71-76 | floored hours and truncated-remainder minutes; their bounds are stated by `HoursMinutesBounds` |
| Stats.FormatTime | js/stats.js:71-76 | the text `{hours}h {minutes}m` of `HoursMinutes` |
| JsText.ParseInt | js/settings.js:90 | NaN exactly when no digit follows the white space and the sign; its values are stated by `ParseIntShow`, `ParseIntOfDigits` and `ParseIntOfNegatedDigits` |
| JsText.PadTwo | js/timer.js:161-162 | `padStart(2, "0")`; stated by `PadTwoKeeps` |
| TimerRules.MinutesToSeconds | js/timer.js:145-150 | a stored minute value times 60, with null as 0; stated by `SessionSecondsOfWellFormed` and `NullMinutesGiveZeroSeconds` |
| TimerRules.SessionSeconds | js/timer.js:140-152 | `getSessionDuration`: each break kind reads its own minutes, anything else the focus minutes; stated by `SessionSecondsOfWellFormed` |
| TimerRules.Clock | js/timer.js:158-159 | floored minutes and truncated seconds; stated by `ClockSplits` |
| TimerRules.MinutesText | js/timer.js:161 | the padded minutes text; stated by `PaddedReadsBack` and `Timer.ShownClockReadsBack` |
| TimerRules.SecondsText | js/timer.js:162 | the padded seconds text; stated by `PaddedReadsBack` and `Timer.ShownClockReadsBack` |
| Timer.ShownClockReadsBack | js/timer.js:157-163 | once rendered, the minutes and seconds texts on the page read back as minutes and seconds (below 60) that recompose the remaining time |
| Timer.ShownRingWithinCircumference | js/timer.js:165-171 | once rendered, the ring offset of a positive-length session is finite and within one circumference |
| Controls.Marked | js/controls.js:84-86 | the tabs' active flags for a session; stated by `MarkedExactlyOne` and `MarkedNone` |
| Controls.Toggled | js/controls.js:112-113 | the new `aria-hidden` text; stated by `ToggleFlips` and `ToggleTwiceRestores` |
| Controls.ControlSurface.constructor | js/controls.js:10-15 | the controller starts over its timer and tabs with no tab active |

## Left out

- The audio module is not part of this model (`js/sounds.js`: audio elements, volume and mute). The defaults for volume and mute (js/settings.js:14-15) belong to it and are left out with it. Its calls appear only as entries of the `sounds` log. The volume and mute change handlers (js/settings.js:71-79) call straight into it and store a float or a flag, so they are not modelled.
- The service worker and its caching are network and cache I/O.
- The bootstrap in `js/app.js` only orders the `init` calls. Its "resume if running" consequence is stated on `Timer.Countdown.Init`.
- Fullscreen toggling and `console.warn` are side effects with no state.
- `Controls.init` and `bindControls` only register event listeners. Every handler they register is modelled except `toggleFullscreen`, which is a side effect.
- `loadSettings` copies stored values into form inputs and is page output only.
- The stored JSON text covers null, booleans, integers, fractions and strings. JSON arrays and objects, which the application never stores, are left out.
- The circumference `2 * Math.PI * 100` and the ring offset are exact reals; floating-point rounding is not modelled.
- `setInterval`/`clearInterval` scheduling is replaced by explicit `Tick` calls while an id is registered. Timing and the browser's queue are not modelled.
- TimerRules.MinutesToSeconds: a stored string or fraction minute value gives 0 seconds. JavaScript would coerce it (for example `"25" * 60 = 1500`). Only hand-edited storage can hold such values, because the handlers store integers or null.
- Stats.CountOf: a stored counter that is not an integer is read as 0. JavaScript's `+=` would concatenate or coerce it instead.
- JsText.ParseInt: integers are unbounded. It does not model the `Number` precision lost beyond 2^53, nor the `Infinity` a very long digit string gives.
- Stats.HoursMinutesBounds: stated for non-negative seconds only, the only values the counters hold when durations are non-negative.
