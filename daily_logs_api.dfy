/** The archive of finished days (`/api/daily-logs`): POST saves one day's
    log per (user, date), GET lists the caller's logs newest first, a page
    at a time. The store is the collection of `DailyLog` documents. */
module DailyLogsApi {
  import opened Optional
  import opened Strings
  import opened Records

  /** The fields POST reads from the body; `None` and "" stand for a
      missing or falsy field (an empty array is truthy in JavaScript). */
  datatype LogRequest = LogRequest(entries: Option<seq<Entry>>, dailyStats: Option<DailyStats>, theme: string, date: string)

  datatype Saved = Updated(log: DailyLog) | Created(log: DailyLog)

  /** The reply and the collection after the call. */
  datatype SaveOutcome = SaveOutcome(reply: Response<Saved>, logs: seq<DailyLog>)

  const MissingFields := "Missing required fields"
  const SaveFailed := "Failed to save daily log"
  const FetchFailed := "Failed to fetch daily logs"

  predicate HasKey(log: DailyLog, userId: string, date: string)
  {
    log.userId == userId && log.date == date
  }

  /** The compound unique index on (userId, date). */
  ghost predicate UniqueKeys(logs: seq<DailyLog>)
  {
    forall i, j :: 0 <= i < j < |logs| ==> !HasKey(logs[j], logs[i].userId, logs[i].date)
  }

  /** Every stored document passed validation and no two share a key. */
  ghost predicate ValidCollection(logs: seq<DailyLog>)
  {
    UniqueKeys(logs) && forall i :: 0 <= i < |logs| ==> PassesSchema(logs[i])
  }

  /** `findOne({ userId, date })`: the position of the first match. */
  function FindLog(logs: seq<DailyLog>, userId: string, date: string): (r: Option<nat>)
    ensures r.Some? ==> r.value < |logs| && HasKey(logs[r.value], userId, date)
    ensures r.Some? ==> forall i :: 0 <= i < r.value ==> !HasKey(logs[i], userId, date)
    ensures r.None? ==> forall i :: 0 <= i < |logs| ==> !HasKey(logs[i], userId, date)
  {
    if |logs| == 0 then None
    else if HasKey(logs[0], userId, date) then Some(0)
    else
      var rest := FindLog(logs[1..], userId, date);
      if rest.Some? then Some(rest.value + 1) else None
  }

  /** How many documents carry a key. */
  function CountWithKey(logs: seq<DailyLog>, userId: string, date: string): nat
  {
    if |logs| == 0 then 0
    else (if HasKey(logs[0], userId, date) then 1 else 0) + CountWithKey(logs[1..], userId, date)
  }

  /** Helper for `UniqueKeyCountsOnce`: a collection without the key
      counts none of it. */
  lemma {:induction false} CountWithoutKey(logs: seq<DailyLog>, userId: string, date: string)
    requires forall i :: 0 <= i < |logs| ==> !HasKey(logs[i], userId, date)
    ensures CountWithKey(logs, userId, date) == 0
  {
    if |logs| > 0 {
      CountWithoutKey(logs[1..], userId, date);
    }
  }

  /** Under the unique index, a key that is found is held exactly once. */
  lemma {:induction false} UniqueKeyCountsOnce(logs: seq<DailyLog>, i: nat)
    requires UniqueKeys(logs) && i < |logs|
    ensures CountWithKey(logs, logs[i].userId, logs[i].date) == 1
  {
    var u, d := logs[i].userId, logs[i].date;
    if i == 0 {
      CountWithoutKey(logs[1..], u, d);
    } else {
      assert UniqueKeys(logs[1..]) by {
        forall a, b | 0 <= a < b < |logs| - 1
          ensures !HasKey(logs[1..][b], logs[1..][a].userId, logs[1..][a].date)
        {
          assert logs[1..][a] == logs[a + 1] && logs[1..][b] == logs[b + 1];
        }
      }
      assert logs[1..][i - 1] == logs[i];
      UniqueKeyCountsOnce(logs[1..], i - 1);
      assert !HasKey(logs[0], u, d);
    }
  }

  /** `theme || 'minimal'`. */
  function ThemeOr(theme: string): string
  {
    if theme != "" then theme else DefaultTheme
  }

  /** The request carries entries, totals and a date. */
  predicate Complete(req: LogRequest)
  {
    req.entries.Some? && req.dailyStats.Some? && req.date != ""
  }

  /** Every entry has the `time` text the entry schema requires. */
  predicate EntriesHaveTimes(es: seq<Entry>)
  {
    forall i :: 0 <= i < |es| ==> es[i].time != ""
  }

  /** The schema's required identity strings are all present. */
  predicate IdentityPresent(userId: string, email: string, name: string)
  {
    userId != "" && email != "" && name != ""
  }

  /** POST with a signed-in caller: 400 when entries, totals or date are
      missing; otherwise the caller's log of that date is overwritten, or a
      new one is created; a document that fails validation is not written
      and gives 500. */
  function SaveLog(logs: seq<DailyLog>, who: Identity, req: LogRequest): (out: SaveOutcome)
    ensures req.entries.None? || req.dailyStats.None? || req.date == "" ==>
      out == SaveOutcome(BadRequest(MissingFields), logs)
    ensures out.reply.ServerError? ==> out == SaveOutcome(ServerError(SaveFailed), logs)
    ensures Complete(req) && !out.reply.Ok? ==> out == SaveOutcome(ServerError(SaveFailed), logs)
    ensures Complete(req) ==>
      var found := FindLog(logs, who.id, req.date);
      (out.reply.Ok? <==>
        && EntriesHaveTimes(req.entries.value)
        && (found.Some? ==> IdentityPresent(logs[found.value].userId, logs[found.value].userEmail, logs[found.value].userName))
        && (found.None? ==> IdentityPresent(who.id, who.email, who.name)))
    ensures out.reply.Ok? ==>
      && req.entries.Some? && req.dailyStats.Some?
      && out.reply.body.log.entries == req.entries.value
      && out.reply.body.log.dailyStats == req.dailyStats.value
      && out.reply.body.log.theme == ThemeOr(req.theme)
      && HasKey(out.reply.body.log, who.id, req.date)
      && PassesSchema(out.reply.body.log)
    ensures (&& Complete(req) && EntriesHaveTimes(req.entries.value)
             && (FindLog(logs, who.id, req.date).Some? ==> PassesSchema(logs[FindLog(logs, who.id, req.date).value]))
             && (FindLog(logs, who.id, req.date).None? ==> who.id != "" && who.email != "" && who.name != ""))
            ==> out.reply.Ok? && (out.reply.body.Updated? <==> FindLog(logs, who.id, req.date).Some?)
    ensures out.reply.Ok? && out.reply.body.Updated? ==>
      && FindLog(logs, who.id, req.date).Some?
      && out.logs == logs[FindLog(logs, who.id, req.date).value := out.reply.body.log]
    ensures out.reply.Ok? && out.reply.body.Created? ==>
      FindLog(logs, who.id, req.date).None? && out.logs == logs + [out.reply.body.log]
  {
    if req.entries.None? || req.dailyStats.None? || req.date == "" then
      SaveOutcome(BadRequest(MissingFields), logs)
    else
      match FindLog(logs, who.id, req.date)
      case Some(i) =>
        var log := logs[i].(entries := req.entries.value, dailyStats := req.dailyStats.value, theme := ThemeOr(req.theme));
        if PassesSchema(log) then SaveOutcome(Ok(Updated(log)), logs[i := log])
        else SaveOutcome(ServerError(SaveFailed), logs)
      case None =>
        var log := DailyLog(who.id, who.email, who.name, req.date, req.entries.value, req.dailyStats.value, ThemeOr(req.theme));
        if PassesSchema(log) then SaveOutcome(Ok(Created(log)), logs + [log])
        else SaveOutcome(ServerError(SaveFailed), logs)
  }

  /** A successful save leaves the collection valid, with exactly one log
      for the caller's date, holding what was posted; every other log is
      untouched. An update keeps the log's identity fields. */
  lemma SaveLogKeepsCollection(logs: seq<DailyLog>, who: Identity, req: LogRequest)
    requires ValidCollection(logs)
    ensures var out := SaveLog(logs, who, req);
      && ValidCollection(out.logs)
      && (out.reply.Ok? ==>
            && out.reply.body.log in out.logs
            && CountWithKey(out.logs, who.id, req.date) == 1
            && (forall l :: l in logs && !HasKey(l, who.id, req.date) ==> l in out.logs)
            && (forall l :: l in out.logs && !HasKey(l, who.id, req.date) ==> l in logs))
    ensures var out := SaveLog(logs, who, req);
      out.reply.Ok? && out.reply.body.Updated? ==>
        |out.logs| == |logs| &&
        exists i :: 0 <= i < |logs| && HasKey(logs[i], who.id, req.date) &&
          out.reply.body.log == logs[i].(entries := req.entries.value, dailyStats := req.dailyStats.value, theme := ThemeOr(req.theme))
    ensures var out := SaveLog(logs, who, req);
      out.reply.Ok? && out.reply.body.Created? ==>
        && out.logs == logs + [out.reply.body.log]
        && (forall i :: 0 <= i < |logs| ==> !HasKey(logs[i], who.id, req.date))
        && out.reply.body.log.userEmail == who.email && out.reply.body.log.userName == who.name
  {
    var out := SaveLog(logs, who, req);
    if out.reply.Ok? {
      var found := FindLog(logs, who.id, req.date);
      if found.Some? {
        var i := found.value;
        var log := out.reply.body.log;
        assert out.logs == logs[i := log];
        forall a, b | 0 <= a < b < |out.logs|
          ensures !HasKey(out.logs[b], out.logs[a].userId, out.logs[a].date)
        {
          assert HasKey(out.logs[a], logs[a].userId, logs[a].date);
          assert HasKey(out.logs[b], logs[b].userId, logs[b].date);
        }
        assert out.logs[i] == log;
        UniqueKeyCountsOnce(out.logs, i);
        forall l | l in logs && !HasKey(l, who.id, req.date)
          ensures l in out.logs
        {
          var k :| 0 <= k < |logs| && logs[k] == l;
          assert out.logs[k] == l;
        }
      } else {
        var log := out.reply.body.log;
        assert out.logs == logs + [log];
        assert out.logs[|logs|] == log;
        UniqueKeyCountsOnce(out.logs, |logs|);
      }
    }
  }

  /** Saving the same day twice keeps one log for it: the second save is an
      update and the collection does not grow. */
  lemma RepeatedSaveKeepsOneLog(logs: seq<DailyLog>, who: Identity, first: LogRequest, second: LogRequest)
    requires ValidCollection(logs)
    requires first.date == second.date
    requires second.entries.Some? && second.dailyStats.Some? && EntriesHaveTimes(second.entries.value)
    requires SaveLog(logs, who, first).reply.Ok?
    ensures var once := SaveLog(logs, who, first).logs;
      CountWithKey(once, who.id, first.date) == 1
    ensures var once := SaveLog(logs, who, first).logs;
      var twice := SaveLog(once, who, second);
      && twice.reply.Ok? && twice.reply.body.Updated?
      && |twice.logs| == |once|
      && CountWithKey(twice.logs, who.id, first.date) == 1
      && twice.reply.body.log in twice.logs
      && twice.reply.body.log.entries == second.entries.value
      && twice.reply.body.log.dailyStats == second.dailyStats.value
  {
    SaveLogKeepsCollection(logs, who, first);
    var once := SaveLog(logs, who, first).logs;
    var log := SaveLog(logs, who, first).reply.body.log;
    var k :| 0 <= k < |once| && once[k] == log;
    var found := FindLog(once, who.id, second.date);
    assert found.Some?;
    assert PassesSchema(once[found.value]);
    SaveLogKeepsCollection(once, who, second);
  }

  /** The POST handler as a whole, with the 401 for a missing session. */
  function PostLog(logs: seq<DailyLog>, auth: Option<Identity>, req: LogRequest): (out: SaveOutcome)
    ensures auth.None? ==> out == SaveOutcome(Unauthorized, logs)
    ensures auth.Some? ==> out == SaveLog(logs, auth.value, req)
  {
    if auth.None? then SaveOutcome(Unauthorized, logs) else SaveLog(logs, auth.value, req)
  }

  class LogStore {
    var logs: seq<DailyLog>

    ghost predicate Valid()
      reads this
    {
      ValidCollection(logs)
    }

    constructor()
      ensures Valid() && logs == []
    {
      logs := [];
    }

    method Save(auth: Option<Identity>, req: LogRequest) returns (r: Response<Saved>)
      requires Valid()
      modifies this
      ensures Valid()
      ensures r == PostLog(old(logs), auth, req).reply && logs == PostLog(old(logs), auth, req).logs
    {
      var out := PostLog(logs, auth, req);
      if auth.Some? {
        SaveLogKeepsCollection(logs, auth.value, req);
      }
      logs := out.logs;
      r := out.reply;
    }
  }

  // ---- Listing -------------------------------------------------------

  /** The query `{ userId }`, plus `date` when the parameter is truthy. */
  predicate MatchesQuery(log: DailyLog, userId: string, date: Option<string>)
  {
    log.userId == userId && (date.None? || date.value == "" || log.date == date.value)
  }

  function Matching(logs: seq<DailyLog>, userId: string, date: Option<string>): (r: seq<DailyLog>)
    ensures |r| <= |logs|
    ensures forall l :: l in r <==> l in logs && MatchesQuery(l, userId, date)
    ensures forall l :: multiset(r)[l] == if MatchesQuery(l, userId, date) then multiset(logs)[l] else 0
  {
    if |logs| == 0 then []
    else
      var rest := Matching(logs[1..], userId, date);
      assert logs == [logs[0]] + logs[1..];
      assert multiset(logs) == multiset{logs[0]} + multiset(logs[1..]);
      assert forall l :: l in logs <==> l == logs[0] || l in logs[1..];
      if MatchesQuery(logs[0], userId, date) then [logs[0]] + rest else rest
  }

  /** Newest first: dates compare as strings, and "YYYY-MM-DD" strings
      compare as the days they name. */
  ghost predicate NewestFirst(s: seq<DailyLog>)
  {
    forall i, j :: 0 <= i < j < |s| ==> StrLeq(s[j].date, s[i].date)
  }

  function InsertByDate(log: DailyLog, s: seq<DailyLog>): (r: seq<DailyLog>)
    requires NewestFirst(s)
    ensures NewestFirst(r)
    ensures multiset(r) == multiset(s) + multiset{log}
    ensures |r| == |s| + 1
  {
    if |s| == 0 then [log]
    else if StrLeq(s[0].date, log.date) then
      HeadIsNewest(s, log.date);
      [log] + s
    else
      StrLeqTotal(s[0].date, log.date);
      var rest := InsertByDate(log, s[1..]);
      BelowHead(s, log, rest);
      assert s == [s[0]] + s[1..];
      [s[0]] + rest
  }

  /** A date no older than the head of a newest-first list is no older than
      any of it. */
  lemma HeadIsNewest(s: seq<DailyLog>, date: string)
    requires NewestFirst(s) && |s| > 0 && StrLeq(s[0].date, date)
    ensures forall j :: 0 <= j < |s| ==> StrLeq(s[j].date, date)
  {
    forall j | 0 <= j < |s| ensures StrLeq(s[j].date, date) {
      if j > 0 { StrLeqTransitive(s[j].date, s[0].date, date); }
    }
  }

  /** Everything inserted below the head is no newer than the head. */
  lemma BelowHead(s: seq<DailyLog>, log: DailyLog, rest: seq<DailyLog>)
    requires NewestFirst(s) && |s| > 0 && StrLeq(log.date, s[0].date)
    requires NewestFirst(rest) && multiset(rest) == multiset(s[1..]) + multiset{log}
    ensures NewestFirst([s[0]] + rest)
  {
    forall x | x in rest ensures StrLeq(x.date, s[0].date) {
      assert x in multiset(rest);
      if x != log {
        assert x in multiset(s[1..]);
        var k :| 0 <= k < |s[1..]| && s[1..][k] == x;
        assert s[k + 1] == x;
      }
    }
    var r := [s[0]] + rest;
    forall i, j | 0 <= i < j < |r| ensures StrLeq(r[j].date, r[i].date) {
      if i == 0 {
        assert r[j] in rest;
      } else {
        assert r[i] == rest[i - 1] && r[j] == rest[j - 1];
      }
    }
  }

  /** `.sort({ date: -1 })`. */
  function SortByDateDesc(s: seq<DailyLog>): (r: seq<DailyLog>)
    ensures NewestFirst(r)
    ensures multiset(r) == multiset(s)
    ensures |r| == |s|
  {
    if |s| == 0 then []
    else
      assert s == [s[0]] + s[1..];
      InsertByDate(s[0], SortByDateDesc(s[1..]))
  }

  /** `parseInt(searchParams.get(name)) || fallback`. */
  function ParamOr(param: Option<string>, fallback: int): (v: int)
    ensures fallback != 0 ==> v != 0
    ensures param.None? ==> v == fallback
    ensures param.Some? && ParseInt(param.value).Some? && ParseInt(param.value).value != 0 ==>
      v == ParseInt(param.value).value
    ensures param.Some? && (ParseInt(param.value).None? || ParseInt(param.value) == Some(0)) ==> v == fallback
  {
    if param.None? then fallback
    else
      var parsed := ParseInt(param.value);
      if parsed.Some? && parsed.value != 0 then parsed.value else fallback
  }

  /** An absent parameter is `null`, and `parseInt(null)` reads the text
      "null", which is NaN: the same as what `ParamOr` does for `None`. */
  lemma AbsentParamIsNull(fallback: int)
    ensures ParseInt("null") == None
    ensures ParamOr(Some("null"), fallback) == ParamOr(None, fallback) == fallback
  {
    WordIsNaN("null");
  }

  /** A parameter that is not a number, or is 0, falls back to the
      default; a number is taken as written. */
  lemma ParamDefaults(fallback: int, n: int)
    requires n != 0
    ensures ParamOr(Some("first"), fallback) == fallback
    ensures ParamOr(Some(IntToString(0)), fallback) == fallback
    ensures ParamOr(Some(IntToString(n)), fallback) == n
  {
    WordIsNaN("first");
    ParseIntOfIntToString(0);
    ParseIntOfIntToString(n);
  }

  /** `Math.ceil(total / limit)` for a nonzero limit. */
  function CeilDiv(total: nat, limit: int): (c: int)
    requires limit != 0
    ensures limit > 0 ==> (c - 1) * limit < total <= c * limit
    ensures limit < 0 ==> c <= 0
  {
    if limit > 0 then (total + limit - 1) / limit else -(total / -limit)
  }

  function Abs(n: int): nat
  {
    if n < 0 then -n else n
  }

  /** `.skip(skip).limit(limit)` on the sorted result; a negative limit
      returns at most |limit| documents. */
  function Window(s: seq<DailyLog>, skip: nat, limit: int): (w: seq<DailyLog>)
    ensures |w| == (if skip >= |s| then 0 else if |s| - skip < Abs(limit) then |s| - skip else Abs(limit))
    ensures skip <= |s| ==> w == s[skip..skip + |w|]
    ensures skip >= |s| ==> w == []
  {
    if skip >= |s| then []
    else if skip + Abs(limit) <= |s| then s[skip..skip + Abs(limit)]
    else s[skip..]
  }

  /** A window of the sorted logs is newest first and holds only logs
      that were found. */
  lemma WindowOfSorted(found: seq<DailyLog>, skip: nat, limit: int)
    ensures var w := Window(SortByDateDesc(found), skip, limit);
      NewestFirst(w) && forall l :: l in w ==> l in found
  {
    var sorted := SortByDateDesc(found);
    var w := Window(sorted, skip, limit);
    forall l | l in w ensures l in found {
      assert l in multiset(sorted);
    }
    if skip < |sorted| {
      forall i, j | 0 <= i < j < |w| ensures StrLeq(w[j].date, w[i].date) {
        assert w[i] == sorted[skip + i] && w[j] == sorted[skip + j];
      }
    }
  }

  datatype Listing = Listing(logs: seq<DailyLog>, currentPage: int, totalPages: int, totalLogs: nat,
                             hasNextPage: bool, hasPrevPage: bool)

  /** One page of the matched logs: a negative skip is refused by the
      database (500); otherwise the page of the logs sorted newest first,
      with the pagination summary. */
  function PageOf(found: seq<DailyLog>, page: int, limit: int): (r: Response<Listing>)
    requires limit != 0
    ensures r.Ok? || r == ServerError(FetchFailed)
    ensures r.ServerError? <==> (page - 1) * limit < 0
    ensures r.Ok? ==> forall l :: l in r.body.logs ==> l in found
    ensures r.Ok? ==> NewestFirst(r.body.logs)
    ensures r.Ok? ==> r.body.totalLogs == |found| && r.body.currentPage == page
    ensures r.Ok? ==> r.body.totalPages == CeilDiv(|found|, limit)
    ensures r.Ok? ==> r.body.logs == Window(SortByDateDesc(found), (page - 1) * limit, limit)
    ensures r.Ok? ==> |r.body.logs| <= Abs(limit)
    ensures r.Ok? ==> (r.body.hasNextPage <==> page < r.body.totalPages)
    ensures r.Ok? ==> (r.body.hasPrevPage <==> page > 1)
  {
    var skip := (page - 1) * limit;
    if skip < 0 then ServerError(FetchFailed)
    else
      var sorted := SortByDateDesc(found);
      var shown := Window(sorted, skip, limit);
      WindowOfSorted(found, skip, limit);
      var totalPages := CeilDiv(|found|, limit);
      Ok(Listing(shown, page, totalPages, |found|, page < totalPages, page > 1))
  }

  /** GET: 401 without a session; otherwise the page of the caller's logs
      (of the given date, when one is given) that `page` and `limit` name. */
  function ListLogs(logs: seq<DailyLog>, auth: Option<Identity>, dateParam: Option<string>,
                    limitParam: Option<string>, pageParam: Option<string>): (r: Response<Listing>)
    ensures auth.None? ==> r == Unauthorized
    ensures auth.Some? ==>
      r == PageOf(Matching(logs, auth.value.id, dateParam), ParamOr(pageParam, 1), ParamOr(limitParam, 30))
  {
    if auth.None? then Unauthorized
    else PageOf(Matching(logs, auth.value.id, dateParam), ParamOr(pageParam, 1), ParamOr(limitParam, 30))
  }

  /** What a listing holds: only the caller's logs from the collection,
      matching the date when one is given, newest first, and never more
      than the limit. */
  lemma ListingHoldsOnlyCallersLogs(logs: seq<DailyLog>, who: Identity, dateParam: Option<string>,
                                    limitParam: Option<string>, pageParam: Option<string>)
    ensures var r := ListLogs(logs, Some(who), dateParam, limitParam, pageParam);
      r.Ok? ==>
        && (forall l :: l in r.body.logs ==> l in logs && MatchesQuery(l, who.id, dateParam))
        && NewestFirst(r.body.logs)
        && |r.body.logs| <= Abs(ParamOr(limitParam, 30))
  {
  }

  /** With no parameters the caller sees the first page of (at most) 30
      logs, the newest ones, and no previous page. */
  lemma DefaultListing(logs: seq<DailyLog>, who: Identity)
    ensures var r := ListLogs(logs, Some(who), None, None, None);
      && r.Ok?
      && r.body.currentPage == 1 && !r.body.hasPrevPage
      && r.body.logs == Window(SortByDateDesc(Matching(logs, who.id, None)), 0, 30)
      && (|Matching(logs, who.id, None)| >= 30 ==> |r.body.logs| == 30)
  {
    assert ParamOr(None, 30) == 30 && ParamOr(None, 1) == 1;
  }

  /** For a positive limit and page: there is a next page exactly when the
      logs up to this page do not exhaust the total, and the page is
      non-empty exactly when it is within `totalPages`. */
  lemma PaginationMeaning(found: seq<DailyLog>, page: int, limit: int)
    requires limit > 0 && page >= 1
    ensures var r := PageOf(found, page, limit);
      && r.Ok?
      && (r.body.hasNextPage <==> page * limit < |found|)
      && (|r.body.logs| > 0 <==> page <= r.body.totalPages)
  {
    var r := PageOf(found, page, limit);
    var c := CeilDiv(|found|, limit);
    MulMonotone(0, page - 1, limit);
    PageCountBounds(|found|, page, limit, c);
    assert page * limit == (page - 1) * limit + limit;
  }

  /** The arithmetic behind the flags: with c = ⌈total/limit⌉, page < c
      exactly when page·limit < total, and page <= c exactly when
      (page−1)·limit < total. */
  lemma PageCountBounds(total: nat, page: int, limit: int, c: int)
    requires limit > 0 && page >= 1
    requires (c - 1) * limit < total <= c * limit
    ensures page < c <==> page * limit < total
    ensures page <= c <==> (page - 1) * limit < total
  {
    if page < c {
      MulMonotone(page, c - 1, limit);
    } else {
      MulMonotone(c, page, limit);
    }
    if page <= c {
      MulMonotone(page - 1, c - 1, limit);
    } else {
      MulMonotone(c, page - 1, limit);
    }
  }

  /** Helper for `PageCountBounds`: multiplying by a non-negative factor
      keeps the order. */
  lemma MulMonotone(a: int, b: int, k: nat)
    requires a <= b
    ensures a * k <= b * k
  {
  }
}
