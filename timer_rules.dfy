/**
 * The pure parts of the countdown sequencer: how a session kind maps to a
 * duration, which kind follows which, and the values the display and the
 * progress ring are given.
 */
module TimerRules {
  import opened Wrappers
  import opened JsText
  import opened Storage
  import opened Settings

  /** The three session kinds, as the strings the source stores and compares. */
  const Pomodoro: Value := Text("pomodoro")
  const ShortBreak: Value := Text("shortBreak")
  const LongBreak: Value := Text("longBreak")

  /** JavaScript truthiness of a stored value (`if (autoStart)`). */
  predicate Truthy(v: Value) {
    match v
    case Null => false
    case Boolean(b) => b
    case Int(i) => i != 0
    case Fraction(r) => r != 0.0
    case Text(s) => s != ""
  }

  /**
   * JavaScript's `minutes * 60` on a stored minute value: `null` counts as 0
   * and booleans as 0 or 1. Strings and fractions are read as 0 (see README).
   */
  function MinutesToSeconds(v: Value): int {
    match v
    case Int(m) => m * 60
    case Boolean(b) => if b then 60 else 0
    case _ => 0
  }

  /** `getSessionDuration(session)`: the break kinds take their own minutes, anything else the focus minutes. */
  function SessionSeconds(session: Value, d: Durations): int {
    if session == ShortBreak then MinutesToSeconds(d.shortBreak)
    else if session == LongBreak then MinutesToSeconds(d.longBreak)
    else MinutesToSeconds(d.pomodoro)
  }

  /** Minute values as the duration handlers store them after a parsable input. */
  predicate WellFormed(d: Durations) {
    && d.pomodoro.Int? && 1 <= d.pomodoro.i <= 420
    && d.shortBreak.Int? && 1 <= d.shortBreak.i <= 60
    && d.longBreak.Int? && 1 <= d.longBreak.i <= 120
  }

  /**
   * With well-formed settings every kind, known or not, gets a positive
   * whole number of minutes, and each kind reads its own setting.
   */
  lemma SessionSecondsOfWellFormed(session: Value, d: Durations)
    requires WellFormed(d)
    ensures 60 <= SessionSeconds(session, d) <= 420 * 60 && SessionSeconds(session, d) % 60 == 0
    ensures session == ShortBreak ==> SessionSeconds(session, d) == d.shortBreak.i * 60
    ensures session == LongBreak ==> SessionSeconds(session, d) == d.longBreak.i * 60
    ensures session != ShortBreak && session != LongBreak ==> SessionSeconds(session, d) == d.pomodoro.i * 60
  {
  }

  /** A stored NaN (JSON null) gives a zero-length session. */
  lemma NullMinutesGiveZeroSeconds(session: Value, d: Durations)
    requires d.pomodoro == Null && session != ShortBreak && session != LongBreak
    ensures SessionSeconds(session, d) == 0
  {
  }

  /** `switchSessionAuto`'s choice: a focus session is followed by a break, anything else by focus. */
  function NextSession(current: Value, longBreakDue: bool): (next: Value)
    ensures next == Pomodoro <==> current != Pomodoro
    ensures next == LongBreak <==> current == Pomodoro && longBreakDue
    ensures next == ShortBreak <==> current == Pomodoro && !longBreakDue
  {
    if current == Pomodoro then (if longBreakDue then LongBreak else ShortBreak) else Pomodoro
  }

  /** Focus and breaks alternate: two automatic switches from focus come back to focus. */
  lemma NextSessionAlternates(current: Value, due1: bool, due2: bool)
    ensures NextSession(NextSession(current, due1), due2) == Pomodoro <==> current == Pomodoro
  {
  }

  /** `updateDisplay`'s split: `Math.floor(remaining / 60)` and the truncating `remaining % 60`. */
  function Clock(remaining: int): (int, int) {
    (remaining / 60, JsRem(remaining, 60))
  }

  /** The displayed minutes and seconds recompose the remaining time, with seconds below 60. */
  lemma ClockSplits(remaining: nat)
    ensures Clock(remaining).0 * 60 + Clock(remaining).1 == remaining
    ensures 0 <= Clock(remaining).1 < 60 && Clock(remaining).0 >= 0
  {
  }

  function MinutesText(remaining: int): string {
    PadTwo(Show(Clock(remaining).0))
  }

  function SecondsText(remaining: int): string {
    PadTwo(Show(Clock(remaining).1))
  }

  /**
   * A displayed part is at least two characters, keeps every digit of the
   * number (nothing is truncated) and reads back as that number.
   */
  lemma PaddedReadsBack(n: nat)
    ensures |PadTwo(Show(n))| == if n < 10 then 2 else |Show(n)|
    ensures PadTwo(Show(n))[|PadTwo(Show(n))| - |Show(n)|..] == Show(n)
    ensures ParseInt(PadTwo(Show(n))) == Some(n)
  {
    var s := Show(n);
    assert n >= 10 ==> |s| >= 2 by {
      if n >= 10 { assert s == Digits(n / 10) + [DigitChar(n % 10)]; }
    }
    assert n < 10 ==> |s| == 1;
    var p := PadTwo(s);
    PadTwoKeeps(s);
    if |s| >= 2 {
      ParseIntShow(n);
    } else {
      assert p == "0" + s;
      DigitsValueLeadingZero(s);
      ParseIntOfDigits(p);
      DigitsValueOfDigits(n);
    }
  }

  /** What the ring's stroke offset is given: NaN or infinite when the duration is 0. */
  datatype Offset = Dash(value: real) | NotFinite

  /** `updateProgress`: `C * (1 - remaining / duration)`. */
  function RingOffset(remaining: int, duration: int, circumference: real): (o: Offset)
    requires circumference > 0.0
    ensures o.NotFinite? <==> duration == 0
    ensures duration != 0 && remaining == duration ==> o == Dash(0.0)
    ensures duration != 0 && remaining == 0 ==> o == Dash(circumference)
  {
    if duration == 0 then NotFinite
    else Dash(circumference * (1.0 - remaining as real / duration as real))
  }

  /** The ring stays within one circumference and depletes as the remaining time falls. */
  lemma RingOffsetBounded(r1: int, r2: int, duration: int, circumference: real)
    requires circumference > 0.0 && 0 <= r1 <= r2 <= duration && duration > 0
    ensures RingOffset(r2, duration, circumference).value <= RingOffset(r1, duration, circumference).value
    ensures 0.0 <= RingOffset(r2, duration, circumference).value
    ensures RingOffset(r1, duration, circumference).value <= circumference
  {
    var d := duration as real;
    var q1, q2 := r1 as real / d, r2 as real / d;
    QuotientMonotone(r1 as real, r2 as real, d);
    QuotientMonotone(r2 as real, d, d);
    QuotientMonotone(0.0, r1 as real, d);
    ProductNonnegative(circumference, q2 - q1);
    ProductNonnegative(circumference, 1.0 - q2);
    ProductNonnegative(circumference, q1);
  }

  lemma QuotientMonotone(a: real, b: real, d: real)
    requires d > 0.0 && a <= b
    ensures a / d <= b / d
  {
    var x := b / d - a / d;
    assert x * d == b - a;
  }

  lemma ProductNonnegative(c: real, x: real)
    requires c > 0.0 && x >= 0.0
    ensures c * x >= 0.0
  {
  }
}
