/** The stand-alone tracker page (`WorkHoursTracker`), which keeps the day
    in its own component state: entries, status, the break dialog and the
    statistics, recomputed from the entries without a live term. */
module TrackerPage {
  import opened Records
  import opened Stats

  /** The page's `calculateDailyStats`: completed pairs only. */
  function PageStats(es: seq<Entry>): DailyStats
  {
    if |es| == 0 then ZeroStats else StatsFromMs(WorkPairsMs(es), BreakPairsMs(es))
  }

  /** The page's statistics are the timer hook's with both live counters at
      zero, whatever the status. */
  lemma PageStatsWithoutLiveTime(es: seq<Entry>, working: bool, onBreak: bool)
    ensures PageStats(es) == DailyStatsOf(es, working, onBreak, 0, 0)
  {
  }

  /** The goal is judged before rounding: 479.6 minutes of work is stored
      as 480 minutes yet does not complete the day, while exactly eight
      hours does. */
  lemma GoalJudgedBeforeRounding(t0: int)
    ensures PageStats([Entry(t0, t0, IN, "a"), Entry(t0 + 28776000, t0 + 28776000, OUT, "b")]) == DailyStats(480, 0, false)
    ensures PageStats([Entry(t0, t0, IN, "a"), Entry(t0 + 28800000, t0 + 28800000, OUT, "b")]) == DailyStats(480, 0, true)
    ensures PageStats([Entry(t0, t0, IN, "a"), Entry(t0 + 1800000, t0 + 1800000, OUT, "b")]) == DailyStats(30, 0, false)
  {
    OnePairTotals(Entry(t0, t0, IN, "a"), Entry(t0 + 28776000, t0 + 28776000, OUT, "b"));
    OnePairTotals(Entry(t0, t0, IN, "a"), Entry(t0 + 28800000, t0 + 28800000, OUT, "b"));
    OnePairTotals(Entry(t0, t0, IN, "a"), Entry(t0 + 1800000, t0 + 1800000, OUT, "b"));
  }

  class Tracker {
    var entries: seq<Entry>
    var currentStatus: EntryType
    var showBreakDialog: bool
    var dailyStats: DailyStats

    constructor()
      ensures entries == [] && currentStatus == OUT && !showBreakDialog && dailyStats == ZeroStats
    {
      entries := [];
      currentStatus := OUT;
      showBreakDialog := false;
      dailyStats := ZeroStats;
    }

    /** The effect that recomputes the statistics after the entries change. */
    method CalculateDailyStats()
      modifies this
      ensures dailyStats == PageStats(entries)
      ensures entries == old(entries) && currentStatus == old(currentStatus)
      ensures showBreakDialog == old(showBreakDialog)
    {
      if |entries| == 0 {
        dailyStats := ZeroStats;
        return;
      }
      var workMs, breakMs := PairTotals(entries);
      dailyStats := DailyStats(RoundMinutes(workMs), RoundMinutes(breakMs), workMs >= GoalMs);
    }

    /** `clockIn`: one IN entry appended, status IN; the status is not
      checked first. */
    method ClockIn(now: int, time: string)
      modifies this
      ensures entries == old(entries) + [Entry(now, now, IN, time)] && currentStatus == IN
      ensures showBreakDialog == old(showBreakDialog) && dailyStats == old(dailyStats)
    {
      entries := entries + [Entry(now, now, IN, time)];
      currentStatus := IN;
    }

    /** `clockOut`: one OUT entry appended, status OUT. */
    method ClockOut(now: int, time: string)
      modifies this
      ensures entries == old(entries) + [Entry(now, now, OUT, time)] && currentStatus == OUT
      ensures showBreakDialog == old(showBreakDialog) && dailyStats == old(dailyStats)
    {
      entries := entries + [Entry(now, now, OUT, time)];
      currentStatus := OUT;
    }

    /** The big button: while IN it only opens the break dialog; otherwise
      it clocks in. */
    method HandleThumbPress(now: int, time: string)
      modifies this
      ensures old(currentStatus) == IN ==>
        showBreakDialog && entries == old(entries) && currentStatus == IN && dailyStats == old(dailyStats)
      ensures old(currentStatus) == OUT ==>
        entries == old(entries) + [Entry(now, now, IN, time)] && currentStatus == IN &&
        showBreakDialog == old(showBreakDialog) && dailyStats == old(dailyStats)
    {
      if currentStatus == IN {
        showBreakDialog := true;
      } else {
        ClockIn(now, time);
      }
    }

    /** Either answer of the break dialog clocks out and closes it; "end
      day" differs only in a console message. */
    method HandleBreakResponse(isBreak: bool, now: int, time: string)
      modifies this
      ensures entries == old(entries) + [Entry(now, now, OUT, time)] && currentStatus == OUT
      ensures !showBreakDialog && dailyStats == old(dailyStats)
    {
      ClockOut(now, time);
      showBreakDialog := false;
    }

    /** `resetDay`: no entries, status OUT, zero statistics. */
    method ResetDay()
      modifies this
      ensures entries == [] && currentStatus == OUT && dailyStats == ZeroStats
      ensures showBreakDialog == old(showBreakDialog)
    {
      entries := [];
      currentStatus := OUT;
      dailyStats := ZeroStats;
    }
  }
}
