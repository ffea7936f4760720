/** Turning a day's clock entries into work and break totals (the
    `calculateDailyStats` of the timer hook and of the stand-alone page).
    Totals are kept exact in milliseconds; the stored minutes are the rounded
    values, and the 8-hour goal is judged on the unrounded work total. */
module Stats {
  import opened Records

  const MsPerSecond := 1000
  const MsPerMinute := 60000
  const GoalMs := GoalMinutes * MsPerMinute

  /** The duration credited for the pair at offsets `i`, `i + 1`: its length
      when the first entry is `first` and the second is `second`, else 0. */
  function PairTerm(es: seq<Entry>, i: nat, first: EntryType, second: EntryType): int
    requires i + 1 < |es|
  {
    if es[i].kind == first && es[i + 1].kind == second then es[i + 1].timestamp - es[i].timestamp else 0
  }

  /** The sum of the pair terms at offsets `start`, `start + 2`, ... while a
      following entry exists. */
  function PairSum(es: seq<Entry>, start: nat, first: EntryType, second: EntryType): int
    decreases |es| - start
  {
    if start + 1 >= |es| then 0 else PairTerm(es, start, first, second) + PairSum(es, start + 2, first, second)
  }

  /** Completed work: IN followed by OUT at even offsets. */
  function WorkPairsMs(es: seq<Entry>): int
  {
    PairSum(es, 0, IN, OUT)
  }

  /** Completed breaks: OUT followed by IN at odd offsets. */
  function BreakPairsMs(es: seq<Entry>): int
  {
    PairSum(es, 1, OUT, IN)
  }

  /** Work total including the live term, added only while working and only
      when the live seconds are positive. */
  function WorkMs(es: seq<Entry>, working: bool, liveWorkSeconds: int): int
  {
    WorkPairsMs(es) + if working && liveWorkSeconds > 0 then liveWorkSeconds * MsPerSecond else 0
  }

  /** Break total including the live term, added only while on break, when
      the live seconds are positive and some entry exists. */
  function BreakMs(es: seq<Entry>, onBreak: bool, liveBreakSeconds: int): int
  {
    BreakPairsMs(es) + if onBreak && liveBreakSeconds > 0 && |es| > 0 then liveBreakSeconds * MsPerSecond else 0
  }

  /** `Math.round(ms / 60000)`: the nearest whole minute, halves rounded up. */
  function RoundMinutes(ms: int): (m: int)
    ensures m * MsPerMinute - MsPerMinute / 2 <= ms < m * MsPerMinute + MsPerMinute / 2
  {
    (ms + MsPerMinute / 2) / MsPerMinute
  }

  /** The stored statistics for unrounded totals. */
  function StatsFromMs(workMs: int, breakMs: int): (s: DailyStats)
    ensures s.isComplete <==> workMs >= GoalMs
    ensures s.isComplete ==> s.totalWorkMinutes >= GoalMinutes
    ensures s.totalWorkMinutes == RoundMinutes(workMs) && s.totalBreakMinutes == RoundMinutes(breakMs)
  {
    DailyStats(RoundMinutes(workMs), RoundMinutes(breakMs), workMs >= GoalMs)
  }

  /** The timer hook's statistics for the entries, the status flags and the
      live counters. No entries: all zero. */
  function DailyStatsOf(es: seq<Entry>, working: bool, onBreak: bool, liveWorkSeconds: int, liveBreakSeconds: int): DailyStats
  {
    if |es| == 0 then ZeroStats
    else StatsFromMs(WorkMs(es, working, liveWorkSeconds), BreakMs(es, onBreak, liveBreakSeconds))
  }

  /** The two accumulation loops of `calculateDailyStats`: even offsets for
      work, odd offsets for breaks. */
  method PairTotals(es: seq<Entry>) returns (workMs: int, breakMs: int)
    ensures workMs == WorkPairsMs(es)
    ensures breakMs == BreakPairsMs(es)
  {
    workMs := 0;
    var i: nat := 0;
    while i < |es| - 1
      invariant workMs + PairSum(es, i, IN, OUT) == WorkPairsMs(es)
    {
      if es[i].kind == IN && es[i + 1].kind == OUT {
        workMs := workMs + (es[i + 1].timestamp - es[i].timestamp);
      }
      i := i + 2;
    }
    breakMs := 0;
    i := 1;
    while i < |es| - 1
      invariant breakMs + PairSum(es, i, OUT, IN) == BreakPairsMs(es)
    {
      if es[i].kind == OUT && es[i + 1].kind == IN {
        breakMs := breakMs + (es[i + 1].timestamp - es[i].timestamp);
      }
      i := i + 2;
    }
  }

  /** Appending an entry adds exactly the pair it completes: the pair at
      offset `|es| - 1`, and only when that offset is on the walk's parity
      and the types match. */
  lemma {:induction false} PairSumAppend(es: seq<Entry>, e: Entry, start: nat, first: EntryType, second: EntryType)
    ensures PairSum(es + [e], start, first, second) ==
      PairSum(es, start, first, second) +
      (if start < |es| && (|es| - 1 - start) % 2 == 0 && es[|es| - 1].kind == first && e.kind == second
       then e.timestamp - es[|es| - 1].timestamp else 0)
    decreases |es| - start
  {
    var es' := es + [e];
    if start + 1 < |es| {
      assert PairTerm(es', start, first, second) == PairTerm(es, start, first, second);
      PairSumAppend(es, e, start + 2, first, second);
    } else if start + 1 == |es| {
      assert PairSum(es', start + 2, first, second) == 0;
    }
  }

  /** A trailing entry that starts a pair on the walk's parity contributes
      nothing until its partner is appended. */
  lemma TrailingUnpairedIgnored(es: seq<Entry>, e: Entry, start: nat, first: EntryType, second: EntryType)
    requires (|es| - start) % 2 == 0
    ensures PairSum(es + [e], start, first, second) == PairSum(es, start, first, second)
  {
    PairSumAppend(es, e, start, first, second);
  }

  /** A day of one IN and one OUT: the pair is all the work, and there is
      no break. */
  lemma OnePairTotals(a: Entry, b: Entry)
    requires a.kind == IN && b.kind == OUT
    ensures WorkPairsMs([a, b]) == b.timestamp - a.timestamp
    ensures BreakPairsMs([a, b]) == 0
  {
    assert PairSum([a, b], 2, IN, OUT) == 0;
  }

  /** The expected shape of a day: IN at even offsets, OUT at odd ones. */
  ghost predicate Alternating(es: seq<Entry>)
  {
    forall i :: 0 <= i < |es| ==> es[i].kind == (if i % 2 == 0 then IN else OUT)
  }

  /** For an alternating day, completed work plus completed breaks spans
      exactly from the first entry to the last. */
  lemma {:induction false} AlternatingSpan(es: seq<Entry>)
    requires Alternating(es) && |es| > 0
    ensures WorkPairsMs(es) + BreakPairsMs(es) == es[|es| - 1].timestamp - es[0].timestamp
  {
    if |es| > 1 {
      var init := es[..|es| - 1];
      var e := es[|es| - 1];
      assert es == init + [e];
      AlternatingSpan(init);
      PairSumAppend(init, e, 0, IN, OUT);
      PairSumAppend(init, e, 1, OUT, IN);
    }
  }
}
