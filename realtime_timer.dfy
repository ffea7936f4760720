/** The timer hook (`useRealtimeTimer`): live counters derived from the
    mirror every tick, the hook's daily statistics, the guard that pushes
    changed statistics into a debounced save, and clock-in/clock-out, which
    append one entry and save at once. */
module RealtimeTimer {
  import opened Optional
  import opened Records
  import opened Stats
  import opened SessionManager

  /** Offset of the last entry of type `kind`, scanning backwards. */
  function LastIndexOf(es: seq<Entry>, kind: EntryType): (r: Option<nat>)
    ensures r.Some? ==> r.value < |es| && es[r.value].kind == kind
    ensures r.Some? ==> forall j :: r.value < j < |es| ==> es[j].kind != kind
    ensures r.None? ==> forall j :: 0 <= j < |es| ==> es[j].kind != kind
  {
    if |es| == 0 then None
    else if es[|es| - 1].kind == kind then Some(|es| - 1)
    else LastIndexOf(es[..|es| - 1], kind)
  }

  /** `Math.max(0, Math.floor((now - since) / 1000))`. */
  function ElapsedSeconds(now: int, since: int): (s: int)
    ensures s >= 0
    ensures now - since >= 0 ==> s * MsPerSecond <= now - since < s * MsPerSecond + MsPerSecond
    ensures now - since < 0 ==> s == 0
  {
    var e := (now - since) / MsPerSecond;
    if e > 0 then e else 0
  }

  /** Whole seconds since the last entry of type `kind`, or 0 if none. */
  function SecondsSinceLast(es: seq<Entry>, kind: EntryType, now: int): int
  {
    match LastIndexOf(es, kind)
    case None => 0
    case Some(i) => ElapsedSeconds(now, es[i].timestamp)
  }

  datatype LiveTimers = LiveTimers(workSeconds: int, breakSeconds: int)

  /** `calculateLiveTimers`: at most one counter runs, the one the status
      selects, measured from the last entry of that status's type. */
  function ComputeLiveTimers(data: Option<Doc>, now: int): (t: LiveTimers)
    ensures t.workSeconds >= 0 && t.breakSeconds >= 0
    ensures t.workSeconds == 0 || t.breakSeconds == 0
    ensures t.workSeconds > 0 ==> data.Some? && StatusIs(data.value, "IN")
    ensures t.breakSeconds > 0 ==> data.Some? && StatusIs(data.value, "OUT")
    ensures data.None? || EntriesIn(data.value).None? || EntriesIn(data.value) == Some([]) ==> t == LiveTimers(0, 0)
    ensures data.Some? && EntriesIn(data.value).Some? && |EntriesIn(data.value).value| > 0 ==>
      (StatusIs(data.value, "IN") ==> t.workSeconds == SecondsSinceLast(EntriesIn(data.value).value, IN, now)) &&
      (StatusIs(data.value, "OUT") ==> t.breakSeconds == SecondsSinceLast(EntriesIn(data.value).value, OUT, now))
  {
    if data.None? || EntriesIn(data.value).None? then LiveTimers(0, 0)
    else
      var es := EntriesIn(data.value).value;
      if StatusIs(data.value, "IN") && |es| > 0 then LiveTimers(SecondsSinceLast(es, IN, now), 0)
      else if StatusIs(data.value, "OUT") && |es| > 0 then LiveTimers(0, SecondsSinceLast(es, OUT, now))
      else LiveTimers(0, 0)
  }

  /** The hook's `calculateDailyStats` for a mirror and the live counters. */
  function HookDailyStats(data: Option<Doc>, liveWorkSeconds: int, liveBreakSeconds: int): DailyStats
  {
    if data.None? || EntriesIn(data.value).None? then ZeroStats
    else
      DailyStatsOf(EntriesIn(data.value).value, StatusIs(data.value, "IN"), StatusIs(data.value, "OUT"),
                   liveWorkSeconds, liveBreakSeconds)
  }

  /** The hook's statistics: zero without a mirror or entries; otherwise the
      goal is met exactly when the unrounded work total (pairs plus a
      positive live term while IN) reaches 480 minutes. */
  lemma HookStatsMeaning(data: Option<Doc>, liveWork: int, liveBreak: int)
    ensures data.None? || EntriesIn(data.value).None? || EntriesIn(data.value) == Some([]) ==>
      HookDailyStats(data, liveWork, liveBreak) == ZeroStats
    ensures data.Some? && EntriesIn(data.value).Some? && |EntriesIn(data.value).value| > 0 ==>
      var es := EntriesIn(data.value).value;
      var workMs := WorkPairsMs(es) + (if StatusIs(data.value, "IN") && liveWork > 0 then liveWork * MsPerSecond else 0);
      && (HookDailyStats(data, liveWork, liveBreak).isComplete <==> workMs >= GoalMs)
      && HookDailyStats(data, liveWork, liveBreak).totalWorkMinutes == RoundMinutes(workMs)
    ensures data.Some? && EntriesIn(data.value).Some? && |EntriesIn(data.value).value| > 0 ==>
      var es := EntriesIn(data.value).value;
      var breakMs := BreakPairsMs(es) + (if StatusIs(data.value, "OUT") && liveBreak > 0 then liveBreak * MsPerSecond else 0);
      HookDailyStats(data, liveWork, liveBreak).totalBreakMinutes == RoundMinutes(breakMs)
  {
  }

  /** The stats-changed guard: `JSON.stringify(newStats)` differs from
      that of the mirror's `dailyStats`. */
  predicate StatsChanged(d: Doc, s: DailyStats)
  {
    !(StatsKey in d && d[StatsKey] == StatsObject(s))
  }

  /** The update clock-in or clock-out hands to `updateSessionData`. */
  function ClockUpdate(d: Doc, kind: EntryType, now: int, time: string): Doc
  {
    var prior := if EntriesIn(d).Some? then EntriesIn(d).value else [];
    map[
      StatusKey := Text(StatusName(kind)),
      EntriesKey := EntryArray(prior + [Entry(now, now, kind, time)]),
      StartKey := if kind == IN then Number(now) else Null
    ]
  }

  /** A clock action appends exactly one entry of its type, keeps the
      earlier entries, sets the status and the session start, and leaves
      every other field of the mirror as it was, whatever the current
      status. */
  lemma ClockTransition(d: Doc, kind: EntryType, now: int, time: string)
    ensures var d' := Merge(Some(d), ClockUpdate(d, kind, now, time));
      var before := if EntriesIn(d).Some? then EntriesIn(d).value else [];
      && EntriesIn(d').Some?
      && |EntriesIn(d').value| == |before| + 1
      && EntriesIn(d').value[..|before|] == before
      && EntriesIn(d').value[|before|] == Entry(now, now, kind, time)
      && StatusIs(d', StatusName(kind))
      && d'[StartKey] == (if kind == IN then Number(now) else Null)
      && forall k :: k in d && k != StatusKey && k != EntriesKey && k != StartKey ==> k in d' && d'[k] == d[k]
  {
    var d' := Merge(Some(d), ClockUpdate(d, kind, now, time));
    var before := if EntriesIn(d).Some? then EntriesIn(d).value else [];
    assert d'[EntriesKey] == EntryArray(before + [Entry(now, now, kind, time)]);
    assert (before + [Entry(now, now, kind, time)])[..|before|] == before;
  }

  /** Clocking out at `now` closes the running work interval: the unrounded
      work total moves by less than one second (the live counter's dropped
      fraction) and the break total does not move. */
  lemma ClockOutContinuity(es: seq<Entry>, now: int, time: string)
    requires Alternating(es) && |es| % 2 == 1
    requires es[|es| - 1].timestamp <= now
    ensures var es' := es + [Entry(now, now, OUT, time)];
      var before := WorkMs(es, true, SecondsSinceLast(es, IN, now));
      var after := WorkMs(es', false, SecondsSinceLast(es', IN, now));
      && before <= after < before + MsPerSecond
      && BreakMs(es', true, SecondsSinceLast(es', OUT, now)) == BreakMs(es, false, 0)
  {
    var e := Entry(now, now, OUT, time);
    var es' := es + [e];
    assert es[|es| - 1].kind == IN;
    assert LastIndexOf(es, IN) == Some(|es| - 1);
    assert es'[..|es'| - 1] == es;
    assert LastIndexOf(es', OUT) == Some(|es|);
    PairSumAppend(es, e, 0, IN, OUT);
    PairSumAppend(es, e, 1, OUT, IN);
  }

  /** Clocking in at `now` closes the running break the same way, and
      leaves the work total as it was. */
  lemma ClockInContinuity(es: seq<Entry>, now: int, time: string)
    requires Alternating(es) && |es| > 0 && |es| % 2 == 0
    requires es[|es| - 1].timestamp <= now
    ensures var es' := es + [Entry(now, now, IN, time)];
      var before := BreakMs(es, true, SecondsSinceLast(es, OUT, now));
      var after := BreakMs(es', false, SecondsSinceLast(es', OUT, now));
      && before <= after < before + MsPerSecond
      && WorkMs(es', true, SecondsSinceLast(es', IN, now)) == WorkMs(es, false, 0)
  {
    var e := Entry(now, now, IN, time);
    var es' := es + [e];
    assert es[|es| - 1].kind == OUT;
    assert LastIndexOf(es, OUT) == Some(|es| - 1);
    assert es'[..|es'| - 1] == es;
    assert LastIndexOf(es', IN) == Some(|es|);
    PairSumAppend(es, e, 0, IN, OUT);
    PairSumAppend(es, e, 1, OUT, IN);
  }

  class Timer {
    var liveWorkSeconds: int
    var liveBreakSeconds: int

    constructor()
      ensures liveWorkSeconds == 0 && liveBreakSeconds == 0
    {
      liveWorkSeconds := 0;
      liveBreakSeconds := 0;
    }

    /** The one-second tick (and the effect on a new mirror). */
    method CalculateLiveTimers(data: Option<Doc>, now: int)
      modifies this
      ensures liveWorkSeconds == ComputeLiveTimers(data, now).workSeconds
      ensures liveBreakSeconds == ComputeLiveTimers(data, now).breakSeconds
    {
      var t := ComputeLiveTimers(data, now);
      liveWorkSeconds := t.workSeconds;
      liveBreakSeconds := t.breakSeconds;
    }

    /** `calculateDailyStats`, run over the live counters. */
    method CalculateDailyStats(data: Option<Doc>) returns (s: DailyStats)
      ensures s == HookDailyStats(data, liveWorkSeconds, liveBreakSeconds)
    {
      if data.None? || EntriesIn(data.value).None? || |EntriesIn(data.value).value| == 0 {
        return ZeroStats;
      }
      var es := EntriesIn(data.value).value;
      var workMs, breakMs := PairTotals(es);
      if StatusIs(data.value, "IN") && liveWorkSeconds > 0 {
        workMs := workMs + liveWorkSeconds * MsPerSecond;
      }
      if StatusIs(data.value, "OUT") && liveBreakSeconds > 0 && |es| > 0 {
        breakMs := breakMs + liveBreakSeconds * MsPerSecond;
      }
      s := DailyStats(RoundMinutes(workMs), RoundMinutes(breakMs), workMs >= GoalMs);
    }

    /** The effect that pushes recomputed statistics into a debounced save,
      only when they differ from the mirror's. */
    method SyncStats(m: Manager)
      modifies m
      ensures old(m.sessionData).None? ==> unchanged(m)
      ensures old(m.sessionData).Some? ==>
        var s := HookDailyStats(old(m.sessionData), liveWorkSeconds, liveBreakSeconds);
        var merged := Merge(old(m.sessionData), map[StatsKey := StatsObject(s)]);
        if !StatsChanged(old(m.sessionData).value, s) then unchanged(m)
        else
          && m.sessionData == Some(merged)
          && m.Saves() == (if old(m.HasSession()) then Debounce(old(m.Saves()), merged) else old(m.Saves()))
          && m.error == old(m.error) && m.isLoading == old(m.isLoading)
      ensures m.auth == old(m.auth) && m.heartbeats == old(m.heartbeats) && m.beacons == old(m.beacons)
    {
      if m.sessionData.None? {
        return;
      }
      var s := CalculateDailyStats(m.sessionData);
      if StatsChanged(m.sessionData.value, s) {
        m.UpdateSessionData(map[StatsKey := StatsObject(s)], false);
      }
    }

    /** `clockIn`: with a mirror, append an IN entry, set the status and the
      session start, and save at once; without one, do nothing. */
    method ClockIn(m: Manager, now: int, time: string)
      modifies m
      ensures old(m.sessionData).None? ==> unchanged(m)
      ensures old(m.sessionData).Some? ==>
        var merged := Merge(old(m.sessionData), ClockUpdate(old(m.sessionData).value, IN, now, time));
        && m.sessionData == Some(merged)
        && m.Saves() == (if old(m.HasSession()) then SendNow(old(m.Saves()), merged) else old(m.Saves()))
        && m.error == old(m.error) && m.isLoading == old(m.isLoading)
      ensures m.auth == old(m.auth) && m.heartbeats == old(m.heartbeats) && m.beacons == old(m.beacons)
    {
      if m.sessionData.None? {
        return;
      }
      m.UpdateSessionData(ClockUpdate(m.sessionData.value, IN, now, time), true);
    }

    /** `clockOut`: the same with an OUT entry and no session start. */
    method ClockOut(m: Manager, now: int, time: string)
      modifies m
      ensures old(m.sessionData).None? ==> unchanged(m)
      ensures old(m.sessionData).Some? ==>
        var merged := Merge(old(m.sessionData), ClockUpdate(old(m.sessionData).value, OUT, now, time));
        && m.sessionData == Some(merged)
        && m.Saves() == (if old(m.HasSession()) then SendNow(old(m.Saves()), merged) else old(m.Saves()))
        && m.error == old(m.error) && m.isLoading == old(m.isLoading)
      ensures m.auth == old(m.auth) && m.heartbeats == old(m.heartbeats) && m.beacons == old(m.beacons)
    {
      if m.sessionData.None? {
        return;
      }
      m.UpdateSessionData(ClockUpdate(m.sessionData.value, OUT, now, time), true);
    }
  }
}
