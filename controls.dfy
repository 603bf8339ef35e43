/**
 * The controller behind the page's buttons: the start/pause toggle and its
 * label, reset, the session tabs with their active flags, and the settings
 * panel's visibility attribute. It holds no countdown state of its own; every
 * handler drives the `Countdown`.
 */
module Controls {
  import opened Wrappers
  import opened Storage
  import opened Settings
  import opened TimerRules
  import opened Timer

  /** The start/pause button's text for a running or a stopped timer. */
  function LabelFor(running: bool): (text: string)
    ensures text == "Pause" <==> running
    ensures text == "Start" <==> !running
  {
    if running then "Pause" else "Start"
  }

  /** The active flag of each tab, in document order, once `session` is made active. */
  function Marked(tabs: seq<string>, session: Value): seq<bool> {
    seq(|tabs|, i requires 0 <= i < |tabs| => Text(tabs[i]) == session)
  }

  /**
   * With tabs for distinct kinds, activating one tab's kind marks that tab and
   * no other; activating a kind no tab has marks none.
   */
  lemma MarkedExactlyOne(tabs: seq<string>, k: int)
    requires 0 <= k < |tabs|
    requires forall i, j :: 0 <= i < j < |tabs| ==> tabs[i] != tabs[j]
    ensures |Marked(tabs, Text(tabs[k]))| == |tabs|
    ensures forall i :: 0 <= i < |tabs| ==> (Marked(tabs, Text(tabs[k]))[i] <==> i == k)
  {
  }

  lemma MarkedNone(tabs: seq<string>, session: Value)
    requires forall i :: 0 <= i < |tabs| ==> Text(tabs[i]) != session
    ensures Marked(tabs, session) == seq(|tabs|, i => false)
  {
  }

  /**
   * `toggleSettingsPanel`'s new `aria-hidden` text: "false" when the attribute
   * read exactly "true", "true" otherwise (also when it is absent).
   */
  function Toggled(ariaHidden: Option<string>): string {
    if ariaHidden == Some("true") then "false" else "true"
  }

  /** The panel is hidden after a toggle exactly when it was not hidden before. */
  lemma ToggleFlips(ariaHidden: Option<string>)
    ensures Toggled(ariaHidden) == "true" <==> ariaHidden != Some("true")
    ensures Toggled(ariaHidden) == "false" <==> ariaHidden == Some("true")
  {
  }

  /**
   * Toggling twice restores the attribute exactly when it held "true" or
   * "false"; from any other value it settles on "false".
   */
  lemma ToggleTwiceRestores(ariaHidden: Option<string>)
    ensures Some(Toggled(Some(Toggled(ariaHidden)))) == ariaHidden
        <==> ariaHidden == Some("true") || ariaHidden == Some("false")
  {
  }

  class ControlSurface {
    const timer: Countdown
    /** The `data-session` of each `.session-tab`, in document order. */
    const tabSessions: seq<string>
    /** Whether each tab carries the `active` class. */
    const active: array<bool>
    /** The start/pause button's text. */
    var buttonText: string
    /** The settings panel's `aria-hidden` attribute; `None` when it is absent. */
    var panelHidden: Option<string>

    ghost predicate Valid()
      reads this, timer, timer.stats
    {
      timer.Valid() && active.Length == |tabSessions|
    }

    constructor (timer: Countdown, tabSessions: seq<string>, buttonText: string, panelHidden: Option<string>)
      requires timer.Valid()
      ensures this.timer == timer && this.tabSessions == tabSessions && this.buttonText == buttonText
      ensures this.panelHidden == panelHidden && fresh(active)
      ensures Valid() && active[..] == seq(|tabSessions|, i => false)
    {
      this.timer, this.tabSessions, this.buttonText, this.panelHidden := timer, tabSessions, buttonText, panelHidden;
      active := new bool[|tabSessions|](i => false);
    }

    method UpdateStartPauseUi(running: bool)
      modifies this`buttonText
      ensures buttonText == LabelFor(running)
    {
      buttonText := LabelFor(running);
    }

    /** Pauses a running timer and starts a stopped one, and labels the button for the new state. */
    method HandleStartPause()
      requires Valid()
      modifies this`buttonText, timer, timer.store`entries
      ensures Valid()
      ensures timer.isRunning == !old(timer.isRunning)
      ensures buttonText == LabelFor(timer.isRunning)
      ensures timer.store.entries
        == AfterSet(old(timer.store.entries), timer.store.available, timer.store.full, "isRunning",
                    Boolean(timer.isRunning))
      ensures timer.sounds == old(timer.sounds) + [if timer.isRunning then PlayFocus else PauseFocus]
      ensures timer.intervalId == if timer.isRunning then Some(old(timer.nextIntervalId)) else None
      ensures timer.CountdownKept()
    {
      if timer.isRunning {
        timer.Pause();
        UpdateStartPauseUi(false);
      } else {
        timer.Start();
        UpdateStartPauseUi(true);
      }
    }

    /** Resets the countdown and shows "Start". */
    method HandleReset()
      requires Valid()
      modifies this`buttonText, timer, timer.store`entries
      ensures Valid()
      ensures !timer.isRunning && timer.intervalId == None && buttonText == "Start"
      ensures timer.remaining == timer.duration && timer.duration == old(timer.duration)
      ensures timer.currentSession == old(timer.currentSession) && timer.Displayed()
      ensures timer.store.entries == if old(timer.isRunning)
        then AfterSet(old(timer.store.entries), timer.store.available, timer.store.full, "isRunning", Boolean(false))
        else old(timer.store.entries)
      ensures timer.sounds == old(timer.sounds) + (if old(timer.isRunning) then [PauseFocus] else [])
      ensures timer.nextIntervalId == old(timer.nextIntervalId)
    {
      timer.Reset();
      UpdateStartPauseUi(false);
    }

    /**
     * A click on tab `i`: pause a running timer (relabelling the button), mark
     * the tab's kind active and store it, then switch the countdown to it.
     */
    method HandleSessionTab(i: nat)
      requires Valid() && i < |tabSessions|
      modifies this`buttonText, active, timer, timer.store`entries
      ensures Valid()
      ensures !timer.isRunning && timer.intervalId == None
      ensures timer.currentSession == Text(tabSessions[i])
      ensures timer.duration == SessionSeconds(Text(tabSessions[i]), old(GetDurations(timer.store)))
      ensures timer.remaining == timer.duration && timer.Displayed()
      ensures active[..] == Marked(tabSessions, Text(tabSessions[i]))
      ensures timer.sounds == old(timer.sounds) + (if old(timer.isRunning) then [PauseFocus] else [])
      ensures timer.nextIntervalId == old(timer.nextIntervalId)
      ensures buttonText == if old(timer.isRunning) then "Start" else old(buttonText)
      ensures var e1 := if old(timer.isRunning)
          then AfterSet(old(timer.store.entries), timer.store.available, timer.store.full, "isRunning", Boolean(false))
          else old(timer.store.entries);
        timer.store.entries == AfterSet(e1, timer.store.available, timer.store.full, "currentSession", Text(tabSessions[i]))
    {
      StopForTab();
      ghost var e1 := timer.store.entries;
      var session := Text(tabSessions[i]);
      SetActiveSession(session);
      timer.SetSession(session);
      SetTwiceIsSetOnce(e1, timer.store.available, timer.store.full, "currentSession", session);
    }

    /** The first step of a tab click: a running timer is paused and the button relabelled. */
    method StopForTab()
      requires Valid()
      modifies this`buttonText, timer, timer.store`entries
      ensures Valid() && !timer.isRunning && timer.intervalId == None
      ensures buttonText == if old(timer.isRunning) then "Start" else old(buttonText)
      ensures timer.store.entries == if old(timer.isRunning)
        then AfterSet(old(timer.store.entries), timer.store.available, timer.store.full, "isRunning", Boolean(false))
        else old(timer.store.entries)
      ensures GetDurations(timer.store) == old(GetDurations(timer.store))
      ensures timer.sounds == old(timer.sounds) + (if old(timer.isRunning) then [PauseFocus] else [])
      ensures timer.CountdownKept() && timer.nextIntervalId == old(timer.nextIntervalId)
      ensures !old(timer.isRunning) ==> unchanged(timer)
    {
      DurationsAfterOtherSet(timer.store.entries, timer.store.available, timer.store.full, "isRunning", Boolean(false));
      if timer.isRunning {
        timer.Pause();
        UpdateStartPauseUi(false);
      }
    }

    /** Marks exactly the tabs of kind `session` active and stores `session` as the current kind. */
    method SetActiveSession(session: Value)
      requires Valid()
      modifies active, timer.store`entries
      ensures Valid()
      ensures active[..] == Marked(tabSessions, session)
      ensures timer.store.entries
        == AfterSet(old(timer.store.entries), timer.store.available, timer.store.full, "currentSession", session)
    {
      for j := 0 to active.Length
        invariant forall k :: 0 <= k < j ==> active[k] == (Text(tabSessions[k]) == session)
        invariant timer.store.entries == old(timer.store.entries)
      {
        active[j] := Text(tabSessions[j]) == session;
      }
      timer.store.Set("currentSession", session);
    }

    /** Activates the stored session kind (focus by default) and shows "Start". */
    method SyncInitialState()
      requires Valid()
      modifies this`buttonText, active, timer.store`entries
      ensures Valid() && buttonText == "Start"
      ensures var session := old(timer.store.Lookup("currentSession", Pomodoro));
        && active[..] == Marked(tabSessions, session)
        && timer.store.entries
           == AfterSet(old(timer.store.entries), timer.store.available, timer.store.full, "currentSession", session)
    {
      var session := timer.store.Get("currentSession", Pomodoro);
      SetActiveSession(session);
      UpdateStartPauseUi(false);
    }

    /** Flips the settings panel's `aria-hidden` attribute. */
    method ToggleSettingsPanel()
      modifies this`panelHidden
      ensures panelHidden == Some(Toggled(old(panelHidden)))
    {
      var isHidden := panelHidden == Some("true");
      panelHidden := Some(if isHidden then "false" else "true");
    }
  }
}
