/** The time formatters shared by the timer hook and the stand-alone page:
    `formatSecondsToHMS`, `formatMinutesToHours` and `getRemainingTime`. */
module Display {
  import opened Optional
  import opened Strings
  import opened Records

  /** JavaScript's `%`: the remainder takes the sign of the dividend. */
  function JsRem(a: int, b: int): (r: int)
    requires b > 0
    ensures a >= 0 ==> 0 <= r < b && r == a % b
    ensures a < 0 ==> -b < r <= 0 && r == -((-a) % b)
  {
    if a >= 0 then a % b else -((-a) % b)
  }

  datatype Clock = Clock(hours: int, minutes: int, seconds: int)

  /** `h = floor(s / 3600)`, `m = floor((s % 3600) / 60)`, `s % 60`. */
  function SplitSeconds(total: int): (c: Clock)
    ensures total >= 0 ==>
      && c.hours * 3600 + c.minutes * 60 + c.seconds == total
      && c.hours >= 0 && 0 <= c.minutes < 60 && 0 <= c.seconds < 60
  {
    Clock(total / 3600, JsRem(total, 3600) / 60, JsRem(total, 60))
  }

  /** `${h > 0 ? h + 'h ' : ''}${m}m ${s}s`. */
  function FormatSecondsToHMS(total: int): string
  {
    var c := SplitSeconds(total);
    (if c.hours > 0 then IntToString(c.hours) + "h " else "")
      + IntToString(c.minutes) + "m " + IntToString(c.seconds) + "s"
  }

  /** The clock reads back as the hours, minutes and seconds that make up
      a non-negative total; the hour part is left out below one hour. */
  lemma FormatSecondsReadsBack(total: int)
    requires total >= 0
    ensures var h, m, sec := total / 3600, (total % 3600) / 60, total % 60;
      && 0 <= m < 60 && 0 <= sec < 60 && h * 3600 + m * 60 + sec == total
      && FormatSecondsToHMS(total) ==
           (if h > 0 then IntToString(h) + "h " else "") + IntToString(m) + "m " + IntToString(sec) + "s"
  {
    var c := SplitSeconds(total);
    assert c == Clock(total / 3600, (total % 3600) / 60, total % 60);
  }

  /** `floor(minutes / 60)` hours and `minutes % 60` minutes. */
  function SplitMinutes(total: int): (hm: (int, int))
    ensures total >= 0 ==> hm.0 * 60 + hm.1 == total && hm.0 >= 0 && 0 <= hm.1 < 60
  {
    (total / 60, JsRem(total, 60))
  }

  /** `${hours}h ${mins}m`. The timer hook also rounds the minutes, which
      leaves the integer minute counts it is given unchanged. */
  function FormatMinutesToHours(total: int): string
  {
    var hm := SplitMinutes(total);
    IntToString(hm.0) + "h " + IntToString(hm.1) + "m"
  }

  /** Time left to the 8-hour goal for a stored work total. */
  function RemainingTime(totalWorkMinutes: int): string
  {
    var remaining := GoalMinutes - totalWorkMinutes;
    if remaining > 0 then FormatMinutesToHours(remaining) else "0h 0m"
  }

  /** The hook's version: with no stored totals the whole goal remains. */
  function HookRemainingTime(stats: Option<DailyStats>): (r: string)
    ensures stats.None? ==> r == "8h 0m"
    ensures stats.Some? ==> r == RemainingTime(stats.value.totalWorkMinutes)
  {
    if stats.None? then "8h 0m" else RemainingTime(stats.value.totalWorkMinutes)
  }

  /** The literal fallbacks agree with the formatter: "0h 0m" is zero
      minutes formatted and "8h 0m" is the whole goal remaining. */
  lemma RemainingTimeFallbacks()
    ensures RemainingTime(GoalMinutes) == "0h 0m" == FormatMinutesToHours(0)
    ensures RemainingTime(0) == "8h 0m" == HookRemainingTime(None)
    ensures forall w :: w >= GoalMinutes ==> RemainingTime(w) == "0h 0m"
  {
    assert IntToString(0) == "0";
    assert IntToString(8) == "8";
  }

  /** Before the goal is reached, the remaining time reads back as the
      hours and minutes that make up `480 - work`. */
  lemma RemainingTimeReadsBack(work: int)
    requires work < GoalMinutes
    ensures exists h: nat, m: nat ::
              (m < 60 && h * 60 + m == GoalMinutes - work
               && RemainingTime(work) == IntToString(h) + "h " + IntToString(m) + "m")
  {
    var hm := SplitMinutes(GoalMinutes - work);
    var h: nat, m: nat := hm.0, hm.1;
    assert RemainingTime(work) == IntToString(h) + "h " + IntToString(m) + "m";
  }
}
