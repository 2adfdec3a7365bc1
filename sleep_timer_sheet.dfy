/** The sleep-timer sheet (ui/SleepTimerSheet.kt): the duration until a wall-clock
    time, the "Stops in" preview, the clamped steppers, the preset and custom
    durations, and the sheet's draft state with the enable conditions of its
    Start buttons. Times of day are milliseconds since local midnight. */
module SleepTimerSheet {
  import opened Wrappers
  import opened Strings
  import opened Decimal

  const MINUTE_MS: int := 60_000
  const HOUR_MS: int := 3_600_000
  const DAY_MS: int := 86_400_000

  /** A `LocalTime.of(hour, minute)`: whole minutes, no seconds. */
  datatype LocalTime = LocalTime(hour: int, minute: int) {
    predicate Valid() {
      0 <= hour <= 23 && 0 <= minute <= 59
    }

    function MillisOfDay(): (r: int)
      requires Valid()
      ensures 0 <= r < DAY_MS && r % MINUTE_MS == 0
    {
      hour * HOUR_MS + minute * MINUTE_MS
    }
  }

  /** `(tomorrow)`: the target is not strictly after the current time of day. */
  predicate CrossesMidnight(target: LocalTime, nowOfDay: int)
    requires target.Valid()
  {
    !(target.MillisOfDay() > nowOfDay)
  }

  /** Waiting `d` milliseconds from `nowOfDay` ends at the target's time of day. */
  predicate LandsOn(target: LocalTime, nowOfDay: int, d: int)
    requires target.Valid()
  {
    (nowOfDay + d) % DAY_MS == target.MillisOfDay()
  }

  /** `durationUntilTime`: the time from now to the next moment, strictly in the
      future, whose time of day is the target; at most one day. */
  method DurationUntilTime(target: LocalTime, nowOfDay: int) returns (d: int)
    requires target.Valid()
    requires 0 <= nowOfDay < DAY_MS
    ensures 0 < d <= DAY_MS
    ensures LandsOn(target, nowOfDay, d)
    ensures forall e :: 0 < e < d ==> !LandsOn(target, nowOfDay, e)
    ensures d == DAY_MS <==> nowOfDay == target.MillisOfDay()
    ensures CrossesMidnight(target, nowOfDay) <==> nowOfDay + d >= DAY_MS
  {
    var targetMs := target.MillisOfDay();
    if !(targetMs > nowOfDay) {
      targetMs := targetMs + DAY_MS;
    }
    d := targetMs - nowOfDay;
    forall e | 0 < e < d ensures !LandsOn(target, nowOfDay, e) {
      var t := nowOfDay + e;
      if t < DAY_MS {
        assert t % DAY_MS == t;
      } else {
        assert t % DAY_MS == t - DAY_MS;
      }
    }
    assert (nowOfDay + d) % DAY_MS == target.MillisOfDay() by {
      if nowOfDay + d >= DAY_MS {
        assert nowOfDay + d - DAY_MS == target.MillisOfDay();
      }
    }
  }

  /** At 23:50 a target of 00:10 is twenty minutes away, tomorrow. */
  method MidnightExample() returns (d: int, tomorrow: bool)
    ensures d == 1_200_000 && tomorrow
  {
    var target := LocalTime(0, 10);
    var now := LocalTime(23, 50).MillisOfDay();
    d := DurationUntilTime(target, now);
    tomorrow := CrossesMidnight(target, now);
    assert LandsOn(target, now, 1_200_000);
  }

  // ---- formatDurationPreview ----

  /** `formatDurationPreview`: whole minutes, as "~Hh Mm", "~Hh" or "~Mm". */
  function FormatDurationPreview(millis: int): (r: string)
    requires millis >= 0
    ensures ParsePreview(r) == Some(millis / MINUTE_MS)
  {
    var totalMinutes := millis / MINUTE_MS;
    PreviewOfRoundTrip(totalMinutes / 60, totalMinutes % 60);
    Preview(totalMinutes / 60, totalMinutes % 60)
  }

  /** The preview text for whole hours and the minutes past them. */
  function Preview(hours: nat, minutes: nat): string {
    if hours > 0 && minutes > 0 then "~" + DecimalString(hours) + "h " + DecimalString(minutes) + "m"
    else if hours > 0 then "~" + DecimalString(hours) + "h"
    else "~" + DecimalString(minutes) + "m"
  }

  /** Reads a preview back as whole minutes. */
  function ParsePreview(s: string): Option<nat> {
    if |s| < 3 || s[0] != '~' then None
    else ParsePreviewBody(s[1..|s| - 1], s[|s| - 1])
  }

  /** A preview between its tilde and its final unit letter. */
  function ParsePreviewBody(body: string, unit: char): Option<nat> {
    if unit == 'h' then
      (match ParseDigits(body) case Some(h) => Some(h * 60) case None => None)
    else if unit == 'm' then
      var k := IndexOf(body, "h ");
      if k < 0 then ParseDigits(body)
      else
        match (ParseDigits(body[..k]), ParseDigits(body[k + 2..]))
        case (Some(h), Some(m)) => Some(h * 60 + m)
        case _ => None
    else None
  }

  /** Digits never hold the "h " separator. */
  lemma DigitsHaveNoSeparator(a: string)
    requires AllDigits(a)
    ensures IndexOf(a, "h ") == -1
  {
    forall k | 0 <= k < |a| ensures !OccursAt(a, "h ", k) {
      assert a[k] != 'h';
    }
  }

  /** After a run of digits, the first "h " is the one that follows them. */
  lemma SeparatorAfterDigits(a: string, b: string)
    requires AllDigits(a)
    ensures IndexOf(a + "h " + b, "h ") == |a|
  {
    var s := a + "h " + b;
    assert OccursAt(s, "h ", |a|) by {
      assert s[|a|..|a| + 2] == "h ";
    }
    forall k | 0 <= k < |a| ensures !OccursAt(s, "h ", k) {
      assert s[k] == a[k];
    }
  }

  /** The two sides of `a + "h " + b`. */
  lemma AroundSeparator(a: string, b: string)
    ensures (a + "h " + b)[..|a|] == a && (a + "h " + b)[|a| + 2..] == b
  {
  }

  lemma HoursAndMinutesRoundTrip(h: string, m: string)
    requires h != [] && AllDigits(h) && m != [] && AllDigits(m)
    ensures ParsePreview("~" + h + "h " + m + "m") == Some(DigitsValue(h) * 60 + DigitsValue(m))
  {
    var s := "~" + h + "h " + m + "m";
    assert s[1..|s| - 1] == h + "h " + m && s[|s| - 1] == 'm';
    HoursAndMinutesBody(h, m);
  }

  /** The body of an hours-and-minutes preview splits at its "h ". */
  lemma HoursAndMinutesBody(h: string, m: string)
    requires h != [] && AllDigits(h) && m != [] && AllDigits(m)
    ensures ParsePreviewBody(h + "h " + m, 'm') == Some(DigitsValue(h) * 60 + DigitsValue(m))
  {
    SeparatorAfterDigits(h, m);
    AroundSeparator(h, m);
    BodyAtSeparator(h + "h " + m, |h|, h, m);
  }

  /** A body whose first "h " stands at `k` reads as the counts on either side. */
  lemma BodyAtSeparator(body: string, k: nat, a: string, b: string)
    requires k + 2 <= |body| && IndexOf(body, "h ") == k
    requires body[..k] == a && body[k + 2..] == b
    requires a != [] && AllDigits(a) && b != [] && AllDigits(b)
    ensures ParsePreviewBody(body, 'm') == Some(DigitsValue(a) * 60 + DigitsValue(b))
  {
  }

  lemma HoursRoundTrip(h: string)
    requires h != [] && AllDigits(h)
    ensures ParsePreview("~" + h + "h") == Some(DigitsValue(h) * 60)
  {
    var s := "~" + h + "h";
    assert s[1..|s| - 1] == h && s[|s| - 1] == 'h';
  }

  lemma MinutesRoundTrip(m: string)
    requires m != [] && AllDigits(m)
    ensures ParsePreview("~" + m + "m") == Some(DigitsValue(m))
  {
    var s := "~" + m + "m";
    assert s[1..|s| - 1] == m && s[|s| - 1] == 'm';
    DigitsHaveNoSeparator(m);
  }

  lemma PreviewOfRoundTrip(hours: nat, minutes: nat)
    ensures ParsePreview(Preview(hours, minutes)) == Some(hours * 60 + minutes)
  {
    var h := DecimalString(hours);
    var m := DecimalString(minutes);
    if hours > 0 && minutes > 0 {
      HoursAndMinutesRoundTrip(h, m);
    } else if hours > 0 {
      HoursRoundTrip(h);
    } else {
      MinutesRoundTrip(m);
    }
  }

  /** The three shapes of the preview. */
  lemma PreviewShapes(millis: int)
    requires millis >= 0
    ensures var t := millis / MINUTE_MS;
      && (t / 60 > 0 && t % 60 > 0 ==> FormatDurationPreview(millis) == "~" + DecimalString(t / 60) + "h " + DecimalString(t % 60) + "m")
      && (t / 60 > 0 && t % 60 == 0 ==> FormatDurationPreview(millis) == "~" + DecimalString(t / 60) + "h")
      && (t < 60 ==> FormatDurationPreview(millis) == "~" + DecimalString(t) + "m")
  {
  }

  /** Less than a minute reads "~0m". */
  lemma PreviewUnderAMinute(millis: int)
    requires 0 <= millis < MINUTE_MS
    ensures FormatDurationPreview(millis) == "~0m"
  {
    assert DecimalString(0) == "0";
  }

  /** Ninety minutes read "~1h 30m". */
  lemma PreviewNinetyMinutes()
    ensures FormatDurationPreview(5_400_000) == "~1h 30m"
  {
    assert DecimalString(1) == "1";
    assert DecimalString(30) == "30";
  }

  // ---- StepperField ----

  /** `coerceIn(lo..hi)`. */
  function CoerceIn(v: int, lo: int, hi: int): (r: int)
    requires lo <= hi
    ensures lo <= r <= hi
    ensures lo <= v <= hi ==> r == v
    ensures v < lo ==> r == lo
    ensures v > hi ==> r == hi
  {
    if v < lo then lo else if v > hi then hi else v
  }

  /** One click on a stepper's up or down arrow: None when that arrow is
      disabled (the value is already at the end of the range), otherwise the
      value moved by one and clamped. */
  function StepperClick(value: int, lo: int, hi: int, up: bool): (r: Option<int>)
    requires lo <= hi
    ensures r.Some? ==> lo <= r.value <= hi
    ensures up ==> (r.Some? <==> value < hi)
    ensures !up ==> (r.Some? <==> value > lo)
    ensures lo <= value <= hi && r.Some? ==> r.value == (if up then value + 1 else value - 1)
  {
    if up then (if value < hi then Some(CoerceIn(value + 1, lo, hi)) else None)
    else (if value > lo then Some(CoerceIn(value - 1, lo, hi)) else None)
  }

  /** The value after a run of clicks, disabled clicks doing nothing. */
  function Clicks(value: int, lo: int, hi: int, ups: seq<bool>): int
    requires lo <= hi
    decreases ups
  {
    if ups == [] then value else Clicks(StepperClick(value, lo, hi, ups[0]).GetOr(value), lo, hi, ups[1..])
  }

  /** A stepper that starts in its range stays there, whatever is clicked. */
  lemma {:induction false} ClicksStayInRange(value: int, lo: int, hi: int, ups: seq<bool>)
    requires lo <= value <= hi
    ensures lo <= Clicks(value, lo, hi, ups) <= hi
    decreases ups
  {
    if ups != [] {
      ClicksStayInRange(StepperClick(value, lo, hi, ups[0]).GetOr(value), lo, hi, ups[1..]);
    }
  }

  /** Clicking up n times from the bottom reaches `lo + n`, up to `hi`. */
  lemma {:induction false} ClicksUp(value: int, lo: int, hi: int, n: nat)
    requires lo <= value <= hi
    ensures Clicks(value, lo, hi, seq(n, _ => true)) == if value + n <= hi then value + n else hi
    decreases n
  {
    if n > 0 {
      var next := StepperClick(value, lo, hi, true).GetOr(value);
      assert seq(n, _ => true)[1..] == seq(n - 1, _ => true);
      ClicksUp(next, lo, hi, n - 1);
    }
  }

  // ---- durations ----

  datatype TimerPreset = TimerPreset(minutes: int, caption: string)

  const PRESETS: seq<TimerPreset> :=
    [TimerPreset(15, "15m"), TimerPreset(30, "30m"), TimerPreset(60, "1h"), TimerPreset(120, "2h")]

  /** A preset chip starts `minutes` minutes. */
  function PresetDuration(p: TimerPreset): int {
    p.minutes * MINUTE_MS
  }

  /** Every preset lasts between a quarter of an hour and two hours. */
  lemma PresetsInRange()
    ensures forall i :: 0 <= i < |PRESETS| ==>
      15 * MINUTE_MS <= PresetDuration(PRESETS[i]) <= 120 * MINUTE_MS
  {
  }

  /** A preset's chip text is the preview of its own duration without the tilde. */
  lemma PresetCaptions(i: int)
    requires 0 <= i < |PRESETS|
    ensures FormatDurationPreview(PresetDuration(PRESETS[i])) == "~" + PRESETS[i].caption
  {
    PresetTexts();
    if i == 0 {
      PreviewOfMinutes(15, 0, 15);
    } else if i == 1 {
      PreviewOfMinutes(30, 0, 30);
    } else if i == 2 {
      PreviewOfMinutes(60, 1, 0);
    } else {
      PreviewOfMinutes(120, 2, 0);
    }
  }

  /** The preview texts of the preset durations. */
  lemma PresetTexts()
    ensures Preview(0, 15) == "~15m" && Preview(0, 30) == "~30m"
    ensures Preview(1, 0) == "~1h" && Preview(2, 0) == "~2h"
  {
    assert DecimalString(15) == "15" && DecimalString(30) == "30";
    assert DecimalString(1) == "1" && DecimalString(2) == "2";
  }

  /** A whole number of minutes previews as its hours and the minutes past them. */
  lemma PreviewOfMinutes(total: nat, hours: nat, minutes: nat)
    requires total == hours * 60 + minutes && minutes < 60
    ensures FormatDurationPreview(total * MINUTE_MS) == Preview(hours, minutes)
  {
    assert total * MINUTE_MS / MINUTE_MS == total;
    assert total / 60 == hours && total % 60 == minutes;
  }

  /** The custom stepper's duration. */
  function CustomDuration(hours: int, minutes: int): (r: int)
    requires 0 <= hours <= 23 && 0 <= minutes <= 59
    ensures 0 <= r < DAY_MS
    ensures (hours > 0 || minutes > 0) <==> r >= MINUTE_MS
    ensures r / HOUR_MS == hours && (r % HOUR_MS) / MINUTE_MS == minutes && r % MINUTE_MS == 0
  {
    hours * HOUR_MS + minutes * MINUTE_MS
  }

  /** Two different custom settings never give the same duration. */
  lemma CustomDurationInjective(h1: int, m1: int, h2: int, m2: int)
    requires 0 <= h1 <= 23 && 0 <= m1 <= 59 && 0 <= h2 <= 23 && 0 <= m2 <= 59
    requires CustomDuration(h1, m1) == CustomDuration(h2, m2)
    ensures h1 == h2 && m1 == m2
  {
  }

  // ---- the sheet's state ----

  datatype TimerMode = DURATION | AT_TIME

  /** Which stepper a click is on. */
  datatype Field = Hours | Minutes | TargetHour | TargetMinute {
    function Last(): int {
      match this
      case Hours => 23
      case Minutes => 59
      case TargetHour => 23
      case TargetMinute => 59
    }
  }

  /** The sheet's remembered drafts. */
  class SleepTimerSheetState {
    var selectedMode: TimerMode
    var draftHours: int
    var draftMinutes: int
    var draftTargetHour: int
    var draftTargetMinute: int

    ghost predicate Valid()
      reads this
    {
      && 0 <= draftHours <= 23 && 0 <= draftMinutes <= 59
      && 0 <= draftTargetHour <= 23 && 0 <= draftTargetMinute <= 59
    }

    function Value(f: Field): int
      reads this
    {
      match f
      case Hours => draftHours
      case Minutes => draftMinutes
      case TargetHour => draftTargetHour
      case TargetMinute => draftTargetMinute
    }

    /** A sheet opened during hour `currentHour`: duration mode, 0 h 30 m, target on the hour. */
    constructor (currentHour: int)
      requires 0 <= currentHour <= 23
      ensures Valid()
      ensures selectedMode == DURATION && draftHours == 0 && draftMinutes == 30
      ensures draftTargetHour == currentHour && draftTargetMinute == 0
    {
      selectedMode := DURATION;
      draftHours := 0;
      draftMinutes := 30;
      draftTargetHour := currentHour;
      draftTargetMinute := 0;
    }

    method SelectMode(mode: TimerMode)
      modifies this
      ensures selectedMode == mode
      ensures draftHours == old(draftHours) && draftMinutes == old(draftMinutes)
      ensures draftTargetHour == old(draftTargetHour) && draftTargetMinute == old(draftTargetMinute)
    {
      selectedMode := mode;
    }

    /** A click on one of the four steppers; a disabled arrow changes nothing. */
    method Step(f: Field, up: bool)
      requires Valid()
      modifies this
      ensures Valid()
      ensures Value(f) == StepperClick(old(Value(f)), 0, f.Last(), up).GetOr(old(Value(f)))
      ensures forall g :: g != f ==> Value(g) == old(Value(g))
      ensures selectedMode == old(selectedMode)
    {
      var v := StepperClick(Value(f), 0, f.Last(), up).GetOr(Value(f));
      match f
      case Hours => draftHours := v;
      case Minutes => draftMinutes := v;
      case TargetHour => draftTargetHour := v;
      case TargetMinute => draftTargetMinute := v;
    }

    /** The custom Start button: None while it is disabled (0 h 0 m), otherwise
        the drafted duration, at least a minute and under a day. */
    method CustomStart() returns (r: Option<int>)
      requires Valid()
      ensures r.Some? <==> draftHours > 0 || draftMinutes > 0
      ensures r.Some? ==> r.value == CustomDuration(draftHours, draftMinutes)
      ensures r.Some? ==> MINUTE_MS <= r.value < DAY_MS
    {
      if draftHours > 0 || draftMinutes > 0 {
        r := Some(draftHours * HOUR_MS + draftMinutes * MINUTE_MS);
      } else {
        r := None;
      }
    }

    /** The at-time view as rendered at `renderNow`: the duration behind the
        preview, whether "(tomorrow)" shows, and whether Start is enabled. */
    method AtTimeView(renderNow: int) returns (durationMs: int, tomorrow: bool, enabled: bool)
      requires Valid()
      requires 0 <= renderNow < DAY_MS
      ensures 0 < durationMs <= DAY_MS
      ensures LandsOn(LocalTime(draftTargetHour, draftTargetMinute), renderNow, durationMs)
      ensures tomorrow <==> renderNow + durationMs >= DAY_MS
      ensures enabled <==> durationMs >= MINUTE_MS
    {
      var target := LocalTime(draftTargetHour, draftTargetMinute);
      durationMs := DurationUntilTime(target, renderNow);
      tomorrow := CrossesMidnight(target, renderNow);
      enabled := durationMs >= MINUTE_MS;
    }

    /** The at-time Start button, rendered at `renderNow` and clicked at `clickNow`:
        None while the rendered duration is under a minute, otherwise the duration
        recomputed at the click. */
    method AtTimeStart(renderNow: int, clickNow: int) returns (r: Option<int>)
      requires Valid()
      requires 0 <= renderNow < DAY_MS && 0 <= clickNow < DAY_MS
      ensures var target := LocalTime(draftTargetHour, draftTargetMinute);
        && (r.Some? <==> (target.MillisOfDay() - renderNow) % DAY_MS >= MINUTE_MS || target.MillisOfDay() == renderNow)
        && (r.Some? ==> 0 < r.value <= DAY_MS && LandsOn(target, clickNow, r.value))
        && (r.Some? ==> forall e :: 0 < e < r.value ==> !LandsOn(target, clickNow, e))
    {
      var target := LocalTime(draftTargetHour, draftTargetMinute);
      var durationMs := DurationUntilTime(target, renderNow);
      assert durationMs == (if target.MillisOfDay() == renderNow then DAY_MS
                            else (target.MillisOfDay() - renderNow) % DAY_MS) by {
        var t := target.MillisOfDay();
        if t > renderNow {
          assert durationMs == t - renderNow;
        } else if t < renderNow {
          assert durationMs == t - renderNow + DAY_MS;
        }
      }
      if durationMs >= MINUTE_MS {
        var clicked := DurationUntilTime(target, clickNow);
        r := Some(clicked);
      } else {
        r := None;
      }
    }
  }

  /** The Start button is judged when the view is drawn, and the duration when it is
      clicked: a view drawn at 10:58:30 for an 11:00 target enables Start, and a
      click a minute later starts a timer of thirty seconds. */
  method LateClickExample() returns (r: Option<int>)
    ensures r == Some(30_000)
  {
    var sheet := new SleepTimerSheetState(10);
    sheet.Step(TargetHour, true);
    assert sheet.Value(TargetHour) == 11;
    assert sheet.Value(TargetMinute) == 0;
    var render := 10 * HOUR_MS + 58 * MINUTE_MS + 30_000;
    var click := render + MINUTE_MS;
    var target := LocalTime(11, 0);
    assert (target.MillisOfDay() - render) % DAY_MS == 90_000;
    r := sheet.AtTimeStart(render, click);
    assert LandsOn(target, click, 30_000);

  }
}
