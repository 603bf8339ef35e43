/**
 * User-configurable durations: their defaults, the clamp applied to what the
 * user types, and the lookup the timer performs on every session change.
 * The lookup always reads the store again, so a changed value takes effect at
 * once.
 */
module Settings {
  import opened Wrappers
  import opened JsText
  import opened Storage

  const DefaultPomodoro: int := 25
  const DefaultShortBreak: int := 5
  const DefaultLongBreak: int := 15
  const DefaultAutoStart: bool := false

  function Min(a: int, b: int): int { if a <= b then a else b }
  function Max(a: int, b: int): int { if a >= b then a else b }

  /**
   * `clamp(value, min, max) = Math.min(Math.max(parseInt(value, 10), min), max)`.
   * NaN passes through both Math calls, so an input without digits gives `None`.
   */
  function Clamp(value: string, min: int, max: int): (r: Option<int>)
    ensures r.None? <==> ParseInt(value).None?
    ensures r.Some? && min <= max ==> min <= r.value <= max
    ensures r.Some? && min <= ParseInt(value).value <= max ==> r == ParseInt(value)
    ensures r.Some? && min <= max && ParseInt(value).value < min ==> r.value == min
    ensures r.Some? && ParseInt(value).value > max ==> r.value == max
  {
    match ParseInt(value)
    case None => None
    case Some(n) => Some(Min(Max(n, min), max))
  }

  /** Clamping is idempotent: clamping the text of a clamped value gives that value back. */
  lemma ClampIdempotent(value: string, min: int, max: int)
    requires min <= max && Clamp(value, min, max).Some?
    ensures Clamp(Show(Clamp(value, min, max).value), min, max) == Clamp(value, min, max)
  {
    ParseIntShow(Clamp(value, min, max).value);
  }

  /** Saving "9999" in the focus-duration input stores 420. */
  lemma ClampTooLarge()
    ensures Clamp("9999", 1, 420) == Some(420)
  {
    assert "9"[..0] == [] && DigitsValue("9") == 9;
    assert "99"[..1] == "9" && DigitsValue("99") == 99;
    assert "999"[..2] == "99" && DigitsValue("999") == 999;
    assert "9999"[..3] == "999" && DigitsValue("9999") == 9999;
    ParseIntOfDigits("9999");
  }

  /** Saving "0" or "-5" in the focus-duration input stores 1. */
  lemma ClampTooSmall()
    ensures Clamp("0", 1, 420) == Some(1)
    ensures Clamp("-5", 1, 420) == Some(1)
  {
    assert "0"[..0] == [] && DigitsValue("0") == 0;
    ParseIntOfDigits("0");
    assert "5"[..0] == [] && DigitsValue("5") == 5;
    assert "-" + "5" == "-5";
    ParseIntOfNegatedDigits("5");
  }

  /** An input without digits (an emptied field) is not clamped: parseInt yields NaN. */
  lemma ClampNotANumber()
    ensures Clamp("", 1, 420) == None
    ensures Clamp("abc", 1, 420) == None
  {
    assert !IsJsSpace('a') && !IsDigit('a');
    assert TrimStart("abc") == "abc" && Unsigned("abc") == "abc";
  }

  /** The value `saveSetting` stores for a clamped input: NaN is written as JSON null. */
  function ClampedValue(value: string, min: int, max: int): (v: Value)
    ensures v == Null || (v.Int? && Clamp(value, min, max) == Some(v.i))
    ensures v == Null <==> ParseInt(value).None?
  {
    match Clamp(value, min, max)
    case None => Null
    case Some(n) => Int(n)
  }

  /** The minute values `getDurations` returns, exactly as read from the store. */
  datatype Durations = Durations(pomodoro: Value, shortBreak: Value, longBreak: Value)

  /** `getDurations()` over given store contents: each key defaults independently. */
  function DurationsOf(entries: map<string, Raw>, available: bool): Durations {
    Durations(
      Read(entries, available, "pomodoro", Int(DefaultPomodoro)),
      Read(entries, available, "shortBreak", Int(DefaultShortBreak)),
      Read(entries, available, "longBreak", Int(DefaultLongBreak)))
  }

  function GetDurations(store: Store): Durations
    reads store
  {
    DurationsOf(store.entries, store.available)
  }

  /**
   * Each duration is the stored minute value when one is stored and readable,
   * and its own default (25, 5, 15) otherwise, whatever the other keys hold.
   */
  lemma DurationsDefaultIndependently(entries: map<string, Raw>, available: bool)
    ensures var d := DurationsOf(entries, available);
      && (if available && StorageKey("pomodoro") in entries && entries[StorageKey("pomodoro")].Json?
          then d.pomodoro == entries[StorageKey("pomodoro")].value else d.pomodoro == Int(25))
      && (if available && StorageKey("shortBreak") in entries && entries[StorageKey("shortBreak")].Json?
          then d.shortBreak == entries[StorageKey("shortBreak")].value else d.shortBreak == Int(5))
      && (if available && StorageKey("longBreak") in entries && entries[StorageKey("longBreak")].Json?
          then d.longBreak == entries[StorageKey("longBreak")].value else d.longBreak == Int(15))
  {
  }

  /** Writing a key other than the three duration keys leaves the durations unchanged. */
  lemma DurationsAfterOtherSet(entries: map<string, Raw>, available: bool, full: bool, key: string, value: Value)
    requires key != "pomodoro" && key != "shortBreak" && key != "longBreak"
    ensures DurationsOf(AfterSet(entries, available, full, key, value), available) == DurationsOf(entries, available)
  {
    GetAfterSetOther(entries, available, full, key, value, "pomodoro", Int(DefaultPomodoro));
    GetAfterSetOther(entries, available, full, key, value, "shortBreak", Int(DefaultShortBreak));
    GetAfterSetOther(entries, available, full, key, value, "longBreak", Int(DefaultLongBreak));
  }
}
