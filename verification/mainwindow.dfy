/**
 * The window logic that is not widget plumbing: the periodic time label
 * ("H:MM:SS / H:MM:SS") shown while a session plays, and the rule that
 * enables the test confirmation button.
 */
module MainWindow {
  import opened Common
  import opened Decimal
  import opened Audio

  /** Capacity of the character buffer the time text is printed into. */
  const TIME_BUFFER_SIZE: nat := 16

  /** The separator between the current position and the length. */
  const LABEL_SEPARATOR: string := " / "

  // ---------------------------------------------------------------------------
  // Time text

  /** The seconds denoted by an hours, minutes, seconds triple. */
  function ClockSeconds(h: nat, m: nat, s: nat): nat
  {
    h * 3600 + m * 60 + s
  }

  /**
   * Hours, minutes and seconds of a millisecond count: whole seconds split
   * into a 32-bit hour count and two 8-bit fields below 60.
   */
  function Clock(ms: uint32): (hms: (nat, uint8, uint8))
    ensures hms.1 < 60 && hms.2 < 60
    ensures ClockSeconds(hms.0, hms.1, hms.2) == ms / 1000
    ensures hms.0 <= 1193
  {
    var secs := ms / 1000;
    var h := secs / 60 / 60;
    var m := ToUint8(secs / 60 % 60);
    var s := ToUint8(secs % 60);
    assert secs == (secs / 60) * 60 + s;
    assert secs / 60 == h * 60 + m;
    assert h * 3600 + m * 60 + s == (h * 60 + m) * 60 + s;
    (h, m, s)
  }

  /** `%02d` for a value below 100. */
  function Pad2(n: nat): (t: string)
    requires n < 100
    ensures |t| == 2 && AllDigits(t) && DigitsValue(t) == n
  {
    var t := [DigitChar(n / 10), DigitChar(n % 10)];
    DigitRoundTrip(n / 10);
    DigitRoundTrip(n % 10);
    assert DigitsValue(t[..1]) == n / 10 by {
      assert t[..1][..0] == [];
    }
    t
  }

  /** The value of a two-digit field starting at `i`. */
  function TwoDigits(t: string, i: nat): nat
    requires i + 2 <= |t| && IsDigit(t[i]) && IsDigit(t[i + 1])
  {
    DigitValue(t[i]) * 10 + DigitValue(t[i + 1])
  }

  /**
   * Reads "H:MM:SS" back into seconds: a run of hour digits, then two
   * two-digit fields below 60, each after a ':'.
   */
  function ParseClock(t: string): Option<nat>
  {
    if |t| < 7 then None
    else
      var n := |t|;
      if t[n - 6] == ':' && t[n - 3] == ':' && AllDigits(t[..n - 6])
         && IsDigit(t[n - 5]) && IsDigit(t[n - 4]) && IsDigit(t[n - 2]) && IsDigit(t[n - 1])
         && TwoDigits(t, n - 5) < 60 && TwoDigits(t, n - 2) < 60
      then Some(ClockSeconds(DigitsValue(t[..n - 6]), TwoDigits(t, n - 5), TwoDigits(t, n - 2)))
      else None
  }

  /** The "H:MM:SS" layout reads back field by field. */
  lemma ParseClockLayout(hours: string, m: nat, s: nat)
    requires |hours| >= 1 && AllDigits(hours) && m < 60 && s < 60
    ensures ParseClock(hours + ":" + Pad2(m) + ":" + Pad2(s)).Some?
    ensures ParseClock(hours + ":" + Pad2(m) + ":" + Pad2(s)).value == ClockSeconds(DigitsValue(hours), m, s)
  {
    var t := hours + ":" + Pad2(m) + ":" + Pad2(s);
    var n := |t|;
    assert t[..n - 6] == hours;
    DigitRoundTrip(m / 10);
    DigitRoundTrip(m % 10);
    DigitRoundTrip(s / 10);
    DigitRoundTrip(s % 10);
    assert TwoDigits(t, n - 5) == m;
    assert TwoDigits(t, n - 2) == s;
    assert ParseClock(t).value == ClockSeconds(DigitsValue(t[..n - 6]), m, s);
  }

  /** The "H:MM:SS" layout holds only digits and ':'. */
  lemma ClockLayoutChars(hours: string, m: nat, s: nat)
    requires AllDigits(hours) && m < 60 && s < 60
    ensures ' ' !in hours + ":" + Pad2(m) + ":" + Pad2(s)
    ensures '/' !in hours + ":" + Pad2(m) + ":" + Pad2(s)
  {
    var t := hours + ":" + Pad2(m) + ":" + Pad2(s);
    assert forall i :: 0 <= i < |t| ==> IsDigit(t[i]) || t[i] == ':';
  }

  /**
   * The `convert` step of the timer handler: `"%d:%02d:%02d"` of the hours,
   * minutes and seconds. The text fits the 16-character buffer with its
   * terminator, and it reads back as the whole seconds of `ms`.
   */
  function FormatTime(ms: uint32): (t: string)
    ensures |t| + 1 <= TIME_BUFFER_SIZE
    ensures ParseClock(t) == Some(ms / 1000)
    ensures |t| > 7 ==> t[0] != '0'
    ensures ' ' !in t && '/' !in t
  {
    var hms := Clock(ms);
    var hours := NumberText(hms.0);
    var t := hours + ":" + Pad2(hms.1) + ":" + Pad2(hms.2);
    NumberLength(hms.0, 4);
    NumberRoundTrip(hms.0);
    ParseClockLayout(hours, hms.1, hms.2);
    ClockLayoutChars(hours, hms.1, hms.2);
    t
  }

  /** Two-digit fields are `%02d` of their value. */
  lemma TwoDigitsArePad2(t: string, i: nat)
    requires i + 2 <= |t| && IsDigit(t[i]) && IsDigit(t[i + 1])
    ensures TwoDigits(t, i) < 100 && t[i..i + 2] == Pad2(TwoDigits(t, i))
  {
    var v := TwoDigits(t, i);
    DivUnique(v, 10, DigitValue(t[i]), DigitValue(t[i + 1]));
    DigitCharOfValue(t[i]);
    DigitCharOfValue(t[i + 1]);
  }

  /** Whole seconds split into hours and two fields below 60 in one way only. */
  lemma ClockFieldsUnique(h: nat, m: nat, s: nat, h': nat, m': nat, s': nat)
    requires m < 60 && s < 60 && m' < 60 && s' < 60
    requires ClockSeconds(h, m, s) == ClockSeconds(h', m', s')
    ensures h == h' && m == m' && s == s'
  {
    var secs := ClockSeconds(h, m, s);
    assert secs == (h * 60 + m) * 60 + s == (h' * 60 + m') * 60 + s';
    DivUnique(secs, 60, h * 60 + m, s);
    DivUnique(secs, 60, h' * 60 + m', s');
    DivUnique(h * 60 + m, 60, h, m);
    DivUnique(h' * 60 + m', 60, h', m');
  }

  /**
   * The time text is the only "H:MM:SS" text without a leading zero in its
   * hours that reads back as the whole seconds of `ms`.
   */
  lemma {:induction false} FormatTimeCanonical(ms: uint32, t: string)
    requires ParseClock(t) == Some(ms / 1000)
    requires |t| > 7 ==> t[0] != '0'
    ensures t == FormatTime(ms)
  {
    var hours, m, sec := ClockTextParts(t);
    var hms := Clock(ms);
    ClockFieldsUnique(DigitsValue(hours), m, sec, hms.0, hms.1, hms.2);
    CanonicalDigitsAreNumberText(hours);
    FormatTimeLayout(ms);
  }

  /** Text that `ParseClock` accepts splits into its hour digits and two `%02d` fields. */
  lemma ClockTextParts(t: string) returns (hours: string, m: nat, s: nat)
    requires ParseClock(t).Some?
    ensures |hours| >= 1 && AllDigits(hours) && m < 60 && s < 60
    ensures t == hours + ":" + Pad2(m) + ":" + Pad2(s)
    ensures ParseClock(t).value == ClockSeconds(DigitsValue(hours), m, s)
    ensures |t| > 7 ==> t[0] == hours[0] && |hours| > 1
  {
    var n := |t|;
    hours := t[..n - 6];
    m := TwoDigits(t, n - 5);
    s := TwoDigits(t, n - 2);
    TwoDigitsArePad2(t, n - 5);
    TwoDigitsArePad2(t, n - 2);
    assert t == hours + ":" + t[n - 5..n - 3] + ":" + t[n - 2..];
  }

  /** The time text is the hours, then two `%02d` fields, each after a ':'. */
  lemma FormatTimeLayout(ms: uint32)
    ensures var hms := Clock(ms);
            FormatTime(ms) == NumberText(hms.0) + ":" + Pad2(hms.1) + ":" + Pad2(hms.2)
  {
  }

  /** Two positions show the same text exactly when they fall in the same second. */
  lemma FormatTimeSameSecond(a: uint32, b: uint32)
    ensures FormatTime(a) == FormatTime(b) <==> a / 1000 == b / 1000
  {
  }

  // ---------------------------------------------------------------------------
  // Time label

  /** Index of the first `c` in `s`, or `|s|` when there is none. */
  function IndexOf(s: string, c: char): (k: nat)
    ensures k <= |s|
    ensures k < |s| ==> s[k] == c
    ensures forall i :: 0 <= i < k ==> s[i] != c
  {
    if s == [] || s[0] == c then 0 else 1 + IndexOf(s[1..], c)
  }

  /** Reads a label back into the two second counts it shows. */
  function ParseLabel(shown: string): Option<(nat, nat)>
  {
    var k := IndexOf(shown, ' ');
    if k + |LABEL_SEPARATOR| <= |shown| && shown[k..k + |LABEL_SEPARATOR|] == LABEL_SEPARATOR then
      var cur := ParseClock(shown[..k]);
      var max := ParseClock(shown[k + |LABEL_SEPARATOR|..]);
      if cur.Some? && max.Some? then Some((cur.value, max.value)) else None
    else None
  }

  /** A label splits at the separator back into its two times. */
  lemma LabelReadsBack(a: string, b: string)
    requires ' ' !in a && ParseClock(a).Some? && ParseClock(b).Some?
    ensures var text := a + LABEL_SEPARATOR + b;
            && IndexOf(text, ' ') == |a|
            && text[..|a|] == a && text[|a| + |LABEL_SEPARATOR|..] == b
            && ParseLabel(text) == Some((ParseClock(a).value, ParseClock(b).value))
  {
    var text := a + LABEL_SEPARATOR + b;
    assert text[|a|] == ' ';
    assert IndexOf(text, ' ') == |a|;
    assert text[..|a|] == a;
    assert text[|a|..|a| + 3] == LABEL_SEPARATOR;
    assert text[|a| + 3..] == b;
  }

  /**
   * The text of the time label: position, " / ", length. It reads back as
   * the whole seconds of both values, in that order.
   */
  function TimeLabel(cur: uint32, max: uint32): (shown: string)
    ensures ParseLabel(shown) == Some((cur / 1000, max / 1000))
    ensures |shown| <= 2 * (TIME_BUFFER_SIZE - 1) + |LABEL_SEPARATOR|
    ensures var k := IndexOf(shown, ' ');
            && k + |LABEL_SEPARATOR| <= |shown|
            && (k > 7 ==> shown[0] != '0')
            && (|shown| - k - |LABEL_SEPARATOR| > 7 ==> shown[k + |LABEL_SEPARATOR|] != '0')
  {
    var a := FormatTime(cur);
    var b := FormatTime(max);
    LabelReadsBack(a, b);
    a + LABEL_SEPARATOR + b
  }

  // ---------------------------------------------------------------------------
  // Timer

  /**
   * One tick of the window timer. Without a session, or while it is not
   * playing, the label keeps its text; otherwise it shows the channel's
   * position and the sound's length (`position`, `length`: what FMOD
   * reports for the channel).
   */
  function TimerTick(session: Option<Session>, text: string, position: uint32, length: uint32): (r: string)
    ensures session.None? ==> r == text
    ensures session.Some? && !IsPlaying(session.value) ==> r == text
    ensures session.Some? && IsPlaying(session.value) ==> ParseLabel(r) == Some((position / 1000, length / 1000))
    ensures session.Some? && IsPlaying(session.value) ==> r == TimeLabel(position, length)
  {
    match session
    case None => text
    case Some(s) =>
      if IsPlaying(s) then
        var (cur, max) := GetTimeInfo(s, 0, 0, position, length);
        TimeLabel(cur, max)
      else text
  }

  /** Pausing stops the label: after a toggle from playing, a tick leaves it as it was. */
  lemma PausedTickKeepsLabel(s: Session, text: string, position: uint32, length: uint32)
    requires IsPlaying(s)
    ensures TimerTick(Some(TogglePlaying(s)), text, position, length) == text
    ensures TimerTick(Some(StopPlaying(s)), text, position, length) == text
  {
  }

  // ---------------------------------------------------------------------------
  // Test setup

  /** A combo's current index names a real choice: not the placeholder (0), not "none" (-1). */
  predicate Picked(index: int)
  {
    index > 0
  }

  /**
   * The test-setup row of the window: the three combo indices and whether
   * the confirm button is enabled.
   */
  datatype Setup = Setup(testTypeIndex: int, hqIndex: int, lqIndex: int, confirmEnabled: bool)

  /** The constructor disables the confirm button, whatever the combos show. */
  function InitialSetup(testTypeIndex: int, hqIndex: int, lqIndex: int): (r: Setup)
    ensures !r.confirmEnabled
  {
    Setup(testTypeIndex, hqIndex, lqIndex, false)
  }

  /**
   * `fctComboHandler`: the confirm button is enabled exactly when the test
   * type and both audio choices are picked. Nothing else changes.
   */
  function ComboHandler(st: Setup): (r: Setup)
    ensures r == st.(confirmEnabled := r.confirmEnabled)
    ensures r.confirmEnabled <==> Picked(st.testTypeIndex) && Picked(st.hqIndex) && Picked(st.lqIndex)
  {
    st.(confirmEnabled := st.testTypeIndex > 0 && st.hqIndex > 0 && st.lqIndex > 0)
  }

  /** A selection in the HQ or the LQ combo; both run `fctComboHandler`. */
  datatype ComboEvent = HqChanged(index: int) | LqChanged(index: int)

  function Step(st: Setup, e: ComboEvent): Setup
  {
    match e
    case HqChanged(i) => ComboHandler(st.(hqIndex := i))
    case LqChanged(i) => ComboHandler(st.(lqIndex := i))
  }

  function Replay(st: Setup, events: seq<ComboEvent>): Setup
    decreases |events|
  {
    if events == [] then st else Replay(Step(st, events[0]), events[1..])
  }

  /**
   * From the constructor on, through any sequence of HQ and LQ selections,
   * the confirm button is enabled only when all three combos are picked, and
   * after at least one selection exactly then. The test type index is never
   * changed by these handlers.
   */
  lemma {:induction false} ConfirmFollowsSelection(st: Setup, events: seq<ComboEvent>)
    requires st.confirmEnabled ==> Picked(st.testTypeIndex) && Picked(st.hqIndex) && Picked(st.lqIndex)
    ensures var r := Replay(st, events);
            && r.testTypeIndex == st.testTypeIndex
            && (r.confirmEnabled ==> Picked(r.testTypeIndex) && Picked(r.hqIndex) && Picked(r.lqIndex))
            && (events != [] ==> (r.confirmEnabled <==> Picked(r.testTypeIndex) && Picked(r.hqIndex) && Picked(r.lqIndex)))
    decreases |events|
  {
    if events != [] {
      var next := Step(st, events[0]);
      ConfirmFollowsSelection(next, events[1..]);
      if events[1..] == [] {
        assert Replay(st, events) == next;
      }
    }
  }

  /** The constructor's state satisfies the lemma's starting condition. */
  lemma ConfirmFromConstruction(testTypeIndex: int, hqIndex: int, lqIndex: int, events: seq<ComboEvent>)
    ensures var r := Replay(InitialSetup(testTypeIndex, hqIndex, lqIndex), events);
            r.confirmEnabled ==> Picked(r.testTypeIndex) && Picked(r.hqIndex) && Picked(r.lqIndex)
  {
    ConfirmFollowsSelection(InitialSetup(testTypeIndex, hqIndex, lqIndex), events);
  }
}
