/** The server's session resource (`/api/session`): the sign-in filter and
    the GET (with day rollover), POST (upsert with defaults) and DELETE
    (reset of the day) handlers over the store of session documents, one per
    user id. `today` and `now` are the server's date string and clock. */
module SessionApi {
  import opened Optional
  import opened Strings
  import opened Records

  /** The `signIn` callback: a Google account must have a verified address
      ending in "@gmail.com"; any other provider is let through. */
  function SignIn(provider: string, emailVerified: bool, email: string): (allowed: bool)
  {
    if provider == "google" then emailVerified && EndsWith(email, "@gmail.com") else true
  }

  /** Which accounts the filter admits. */
  lemma SignInAdmits(provider: string, emailVerified: bool, email: string)
    ensures provider != "google" ==> SignIn(provider, emailVerified, email)
    ensures provider == "google" && SignIn(provider, emailVerified, email) ==>
      emailVerified && |email| >= 10 && email == email[..|email| - 10] + "@gmail.com"
    ensures provider == "google" && emailVerified ==> SignIn(provider, emailVerified, email + "@gmail.com")
    ensures !SignIn("google", emailVerified, email + "@gmail.com.example")
    ensures !SignIn("google", false, email)
  {
    var e := email + "@gmail.com";
    assert e[|e| - 10..] == "@gmail.com";
    var f := email + "@gmail.com.example";
    assert f[|f| - 10..] != "@gmail.com" by {
      assert f[|f| - 1] == 'e';
    }
  }

  /** The record GET writes for a user with no record or a record of
      another day. */
  function FreshDay(who: Identity, prior: Option<UserSession>, today: string, now: int): (r: UserSession)
    ensures r.userId == who.id && r.userEmail == who.email && r.userName == who.name
    ensures r.currentStatus == "OUT" && r.entries == [] && r.dailyStats == ZeroStats
    ensures r.sessionStartTime.None? && r.lastActiveDate == today && r.lastActivity == now
    ensures prior.Some? && prior.value.currentTheme != "" ==> r.currentTheme == prior.value.currentTheme
    ensures prior.None? || prior.value.currentTheme == "" ==> r.currentTheme == DefaultTheme
  {
    UserSession(who.id, who.email, who.name, "OUT", [], ZeroStats,
                if prior.Some? && prior.value.currentTheme != "" then prior.value.currentTheme else DefaultTheme,
                today, now, None)
  }

  /** `body.key || fallback` for a text field. */
  function TextOr(body: Doc, key: string, fallback: string): string
  {
    if key in body && body[key].Text? && Truthy(body[key]) then body[key].s else fallback
  }

  /** `body.entries || []`. */
  function EntriesOr(body: Doc): seq<Entry>
  {
    if EntriesKey in body && body[EntriesKey].EntryArray? then body[EntriesKey].entries else []
  }

  /** `body.dailyStats || { 0, 0, false }`. */
  function StatsOr(body: Doc): DailyStats
  {
    if StatsKey in body && body[StatsKey].StatsObject? then body[StatsKey].stats else ZeroStats
  }

  /** `body.sessionStartTime || null`. */
  function StartOr(body: Doc): Option<int>
  {
    if StartKey in body && body[StartKey].Number? && Truthy(body[StartKey]) then Some(body[StartKey].n) else None
  }

  /** The record POST writes: identity from the caller, the five client
      fields with their falsy defaults, and the server's date and clock. */
  function PostedRecord(who: Identity, body: Doc, today: string, now: int): (r: UserSession)
    ensures r.userId == who.id && r.userEmail == who.email && r.userName == who.name
    ensures r.lastActiveDate == today && r.lastActivity == now
    ensures r.currentStatus == (if StatusKey in body && body[StatusKey].Text? && Truthy(body[StatusKey]) then body[StatusKey].s else "OUT")
    ensures r.currentTheme == (if ThemeKey in body && body[ThemeKey].Text? && Truthy(body[ThemeKey]) then body[ThemeKey].s else DefaultTheme)
    ensures r.entries == (if EntriesIn(body).Some? then EntriesIn(body).value else [])
    ensures r.dailyStats == (if StatsKey in body && body[StatsKey].StatsObject? then body[StatsKey].stats else ZeroStats)
    ensures StartKey in body && body[StartKey].Number? && body[StartKey].n != 0 ==> r.sessionStartTime == Some(body[StartKey].n)
    ensures StartKey !in body || !Truthy(body[StartKey]) ==> r.sessionStartTime.None?
    ensures StartKey in body && body[StartKey] == Number(0) ==> r.sessionStartTime.None?
  {
    UserSession(who.id, who.email, who.name, TextOr(body, StatusKey, "OUT"), EntriesOr(body), StatsOr(body),
                TextOr(body, ThemeKey, DefaultTheme), today, now, StartOr(body))
  }

  /** Posting back the document GET returned keeps the day's state; only
      the identity, the date and the activity time are restamped. */
  lemma EchoKeepsDay(rec: UserSession, who: Identity, today: string, now: int)
    requires rec.currentStatus != "" && rec.currentTheme != ""
    requires rec.sessionStartTime != Some(0)
    ensures PostedRecord(who, ToDoc(rec), today, now) ==
      rec.(userId := who.id, userEmail := who.email, userName := who.name,
           lastActiveDate := today, lastActivity := now)
  {
  }

  /** A session start of 0 is falsy and is stored as `null`. */
  lemma ZeroStartIsDropped(rec: UserSession, who: Identity, today: string, now: int)
    requires rec.sessionStartTime == Some(0)
    ensures PostedRecord(who, ToDoc(rec), today, now).sessionStartTime.None?
  {
  }

  /** The record DELETE leaves: the day cleared, theme and identity kept.
      With no record, the upsert inserts one without name or address. */
  function ClearedRecord(userId: string, prior: Option<UserSession>, today: string, now: int): (r: UserSession)
    ensures r.userId == (if prior.Some? then prior.value.userId else userId)
    ensures r.currentStatus == "OUT" && r.entries == [] && r.dailyStats == ZeroStats
    ensures r.sessionStartTime.None? && r.lastActiveDate == today && r.lastActivity == now
    ensures prior.Some? ==>
              && r.currentTheme == prior.value.currentTheme
              && r.userEmail == prior.value.userEmail
              && r.userName == prior.value.userName
    ensures prior.None? ==> r.currentTheme == DefaultTheme && r.userEmail == "" && r.userName == ""
  {
    match prior
    case Some(p) =>
      p.(currentStatus := "OUT", entries := [], dailyStats := ZeroStats, lastActiveDate := today,
         lastActivity := now, sessionStartTime := None)
    case None => UserSession(userId, "", "", "OUT", [], ZeroStats, DefaultTheme, today, now, None)
  }

  function Lookup(records: map<string, UserSession>, userId: string): Option<UserSession>
  {
    if userId in records then Some(records[userId]) else None
  }

  /** One document per user, filed under its own user id. */
  ghost predicate KeyedByUser(records: map<string, UserSession>)
  {
    forall u :: u in records ==> records[u].userId == u
  }

  /** The store after GET: unchanged when the caller's record is of today,
      else the caller's record replaced by a fresh day. */
  function AfterGet(records: map<string, UserSession>, who: Identity, today: string, now: int): map<string, UserSession>
  {
    if who.id in records && records[who.id].lastActiveDate == today then records
    else records[who.id := FreshDay(who, Lookup(records, who.id), today, now)]
  }

  function AfterPost(records: map<string, UserSession>, who: Identity, body: Doc, today: string, now: int): map<string, UserSession>
  {
    records[who.id := PostedRecord(who, body, today, now)]
  }

  function AfterDelete(records: map<string, UserSession>, who: Identity, today: string, now: int): map<string, UserSession>
  {
    records[who.id := ClearedRecord(who.id, Lookup(records, who.id), today, now)]
  }

  /** Each handler touches only the caller's document, leaves it of today,
      and keeps the store filed by user id. */
  lemma HandlersTouchOnlyCaller(records: map<string, UserSession>, who: Identity, body: Doc, today: string, now: int)
    requires KeyedByUser(records)
    ensures var g := AfterGet(records, who, today, now);
      KeyedByUser(g) && g.Keys == records.Keys + {who.id} && g[who.id].lastActiveDate == today &&
      forall u :: u in records && u != who.id ==> g[u] == records[u]
    ensures var p := AfterPost(records, who, body, today, now);
      KeyedByUser(p) && p.Keys == records.Keys + {who.id} && p[who.id].lastActiveDate == today &&
      forall u :: u in records && u != who.id ==> p[u] == records[u]
    ensures var d := AfterDelete(records, who, today, now);
      KeyedByUser(d) && d.Keys == records.Keys + {who.id} && d[who.id].lastActiveDate == today &&
      forall u :: u in records && u != who.id ==> d[u] == records[u]
  {
  }

  /** A second GET on the same day changes nothing and returns what the
      first one did. */
  lemma GetIsIdempotent(records: map<string, UserSession>, who: Identity, today: string, now: int, later: int)
    ensures var g := AfterGet(records, who, today, now);
      AfterGet(g, who, today, later) == g
  {
  }

  /** Reading on a new day resets the day and carries the theme forward. */
  lemma RolloverKeepsTheme(records: map<string, UserSession>, who: Identity, today: string, now: int)
    requires who.id in records && records[who.id].lastActiveDate != today
    requires records[who.id].currentTheme != ""
    ensures var r := AfterGet(records, who, today, now)[who.id];
      r.entries == [] && r.currentStatus == "OUT" && r.dailyStats == ZeroStats &&
      r.currentTheme == records[who.id].currentTheme
  {
  }

  class SessionStore {
    var records: map<string, UserSession>

    ghost predicate Valid()
      reads this
    {
      KeyedByUser(records)
    }

    constructor()
      ensures Valid() && records == map[]
    {
      records := map[];
    }

    /** GET: 401 without a session; otherwise the caller's record, reset
      first when it is missing or of another day. */
    method Get(auth: Option<Identity>, today: string, now: int) returns (r: Response<UserSession>)
      requires Valid()
      modifies this
      ensures Valid()
      ensures auth.None? ==> r == Unauthorized && records == old(records)
      ensures auth.Some? ==>
        records == AfterGet(old(records), auth.value, today, now) && r == Ok(records[auth.value.id])
      ensures auth.Some? && auth.value.id in old(records) && old(records)[auth.value.id].lastActiveDate == today ==>
        records == old(records) && r == Ok(old(records)[auth.value.id])
    {
      if auth.None? {
        return Unauthorized;
      }
      var who := auth.value;
      if who.id !in records || records[who.id].lastActiveDate != today {
        records := records[who.id := FreshDay(who, Lookup(records, who.id), today, now)];
      }
      r := Ok(records[who.id]);
    }

    /** POST: 401 without a session; otherwise upsert the caller's record
      from the body and return it. */
    method Post(auth: Option<Identity>, body: Doc, today: string, now: int) returns (r: Response<UserSession>)
      requires Valid()
      modifies this
      ensures Valid()
      ensures auth.None? ==> r == Unauthorized && records == old(records)
      ensures auth.Some? ==>
        records == AfterPost(old(records), auth.value, body, today, now) &&
        r == Ok(PostedRecord(auth.value, body, today, now))
    {
      if auth.None? {
        return Unauthorized;
      }
      var rec := PostedRecord(auth.value, body, today, now);
      records := records[auth.value.id := rec];
      r := Ok(rec);
    }

    /** DELETE: 401 without a session; otherwise clear the caller's day. */
    method Delete(auth: Option<Identity>, today: string, now: int) returns (r: Response<()>)
      requires Valid()
      modifies this
      ensures Valid()
      ensures auth.None? ==> r == Unauthorized && records == old(records)
      ensures auth.Some? ==> records == AfterDelete(old(records), auth.value, today, now) && r == Ok(())
    {
      if auth.None? {
        return Unauthorized;
      }
      var who := auth.value;
      records := records[who.id := ClearedRecord(who.id, Lookup(records, who.id), today, now)];
      r := Ok(());
    }
  }
}
