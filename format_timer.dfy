/** The sleep-timer countdown text (util/FormatTimer.kt): milliseconds shown
    as "H:MM:SS" when at least an hour is left, otherwise as "M:SS". */
module FormatTimer {
  import opened Wrappers
  import opened Strings
  import opened Decimal

  /** Whole hours, minutes and seconds of a duration. */
  datatype Clock = Clock(hours: nat, minutes: nat, seconds: nat)

  /** The split of `millis / 1000` whole seconds into hours, minutes and seconds. */
  function Split(millis: int): (c: Clock)
    requires millis >= 0
    ensures c.minutes < 60 && c.seconds < 60
    ensures c.hours * 3600 + c.minutes * 60 + c.seconds == millis / 1000
  {
    var totalSeconds := millis / 1000;
    Clock(totalSeconds / 3600, (totalSeconds % 3600) / 60, totalSeconds % 60)
  }

  /** `formatTimer(millis)`: "%d:%02d:%02d" of hours, minutes and seconds when
      hours > 0, else "%d:%02d" of minutes and seconds. */
  function FormatTimer(millis: int): (r: string)
    requires millis >= 0
    ensures ParseTimer(r) == Some(millis / 1000)
  {
    ShowRoundTrip(Split(millis));
    Show(Split(millis))
  }

  /** The countdown text of a split duration. */
  function Show(c: Clock): string
    requires c.minutes < 60 && c.seconds < 60
  {
    if c.hours > 0 then DecimalString(c.hours) + ":" + Pad2(c.minutes) + ":" + Pad2(c.seconds)
    else DecimalString(c.minutes) + ":" + Pad2(c.seconds)
  }

  /** Reads a countdown text back into whole seconds: two or three ':'-separated
      runs of digits, as minutes:seconds or hours:minutes:seconds. */
  function ParseTimer(s: string): Option<nat> {
    ParseFields(SplitOn(s, ':'))
  }

  function ParseFields(f: seq<string>): Option<nat> {
    if |f| == 2 then
      match (ParseDigits(f[0]), ParseDigits(f[1]))
      case (Some(m), Some(s)) => Some(m * 60 + s)
      case _ => None
    else if |f| == 3 then
      match (ParseDigits(f[0]), ParseDigits(f[1]), ParseDigits(f[2]))
      case (Some(h), Some(m), Some(s)) => Some(h * 3600 + m * 60 + s)
      case _ => None
    else None
  }

  /** The fields of a countdown text: with hours, three fields of which the last
      two are exactly two digits; without, the unpadded minutes and two-digit seconds. */
  lemma {:induction false} ShowFields(c: Clock)
    requires c.minutes < 60 && c.seconds < 60
    ensures var f := SplitOn(Show(c), ':');
      && (c.hours > 0 ==> f == [DecimalString(c.hours), Pad2(c.minutes), Pad2(c.seconds)])
      && (c.hours == 0 ==> f == [DecimalString(c.minutes), Pad2(c.seconds)])
  {
    var mm, ss := Pad2(c.minutes), Pad2(c.seconds);
    NotInDigits(mm, ':');
    NotInDigits(ss, ':');
    SplitOnNone(ss, ':');
    SplitOnCons(mm, ':', ss);
    if c.hours > 0 {
      var hh := DecimalString(c.hours);
      NotInDigits(hh, ':');
      SplitOnCons(hh, ':', mm + ":" + ss);
      assert hh + ":" + mm + ":" + ss == hh + [':'] + (mm + [':'] + ss);
    } else {
      var m := DecimalString(c.minutes);
      NotInDigits(m, ':');
      SplitOnCons(m, ':', ss);
    }
  }

  /** The fields of the countdown text for `millis`. */
  lemma FormatTimerFields(millis: int)
    requires millis >= 0
    ensures var c := Split(millis); var f := SplitOn(FormatTimer(millis), ':');
      && (c.hours > 0 ==> f == [DecimalString(c.hours), Pad2(c.minutes), Pad2(c.seconds)])
      && (c.hours == 0 ==> f == [DecimalString(c.minutes), Pad2(c.seconds)])
  {
    ShowFields(Split(millis));
  }

  /** Reading a countdown text back counts its hours, minutes and seconds. */
  lemma ShowRoundTrip(c: Clock)
    requires c.minutes < 60 && c.seconds < 60
    ensures ParseTimer(Show(c)) == Some(c.hours * 3600 + c.minutes * 60 + c.seconds)
  {
    ShowFields(c);
  }

  /** With less than an hour left the minutes stand unpadded. */
  lemma MinutesUnpaddedBelowAnHour(millis: int)
    requires 0 <= millis < 3_600_000
    ensures var f := SplitOn(FormatTimer(millis), ':');
      |f| == 2 && (|f[0]| > 1 ==> f[0][0] != '0') && |f[1]| == 2
  {
    FormatTimerFields(millis);
  }
}
