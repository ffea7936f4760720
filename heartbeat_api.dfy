/** The heartbeat resource (`/api/heartbeat`): it stamps the caller's
    record of today with the client's activity time, and never creates a
    record. */
module HeartbeatApi {
  import opened Optional
  import opened Records
  import opened SessionApi

  /** `timestamp || Date.now()`: a zero or absent timestamp is replaced by
      the server clock. */
  function ActivityTime(body: Doc, now: int): (t: int)
    ensures TimestampKey in body && body[TimestampKey].Number? && body[TimestampKey].n != 0 ==>
      t == body[TimestampKey].n
    ensures TimestampKey !in body || !Truthy(body[TimestampKey]) ==> t == now
  {
    if TimestampKey in body && body[TimestampKey].Number? && Truthy(body[TimestampKey]) then body[TimestampKey].n else now
  }

  /** The update with `upsert: false`: only a record of the caller dated
      today is touched, and only its activity time. */
  function Touch(records: map<string, UserSession>, userId: string, today: string, at: int): (r: map<string, UserSession>)
    ensures r.Keys == records.Keys
    ensures forall u :: u in records && u != userId ==> r[u] == records[u]
    ensures userId in records && records[userId].lastActiveDate == today ==>
      r[userId] == records[userId].(lastActivity := at)
    ensures userId !in records || records[userId].lastActiveDate != today ==> r == records
  {
    if userId in records && records[userId].lastActiveDate == today
    then records[userId := records[userId].(lastActivity := at)]
    else records
  }

  /** A heartbeat never changes the day's state: status, entries, totals,
      theme and start time of every record stay as they were, and the
      store stays filed by user id. */
  lemma HeartbeatKeepsDayState(records: map<string, UserSession>, userId: string, today: string, at: int)
    requires KeyedByUser(records)
    ensures var r := Touch(records, userId, today, at);
      && KeyedByUser(r)
      && forall u :: u in r ==>
           r[u] == records[u].(lastActivity := r[u].lastActivity)
  {
  }

  /** Heartbeats on a stale record are lost: after a day change nothing is
      stamped until a GET has rolled the record over. */
  lemma StaleRecordIgnored(records: map<string, UserSession>, who: Identity, today: string, now: int, at: int)
    requires who.id in records && records[who.id].lastActiveDate != today
    ensures Touch(records, who.id, today, at) == records
    ensures Touch(AfterGet(records, who, today, now), who.id, today, at)[who.id].lastActivity == at
  {
  }

  /** POST: 401 without a session; otherwise the touch, and the server
      clock as `serverTime`. */
  method Post(store: SessionStore, auth: Option<Identity>, body: Doc, today: string, now: int) returns (r: Response<int>)
    requires store.Valid()
    modifies store
    ensures store.Valid()
    ensures auth.None? ==> r == Unauthorized && store.records == old(store.records)
    ensures auth.Some? ==>
      && r == Ok(now)
      && store.records == Touch(old(store.records), auth.value.id, today, ActivityTime(body, now))
  {
    if auth.None? {
      return Unauthorized;
    }
    HeartbeatKeepsDayState(store.records, auth.value.id, today, ActivityTime(body, now));
    store.records := Touch(store.records, auth.value.id, today, ActivityTime(body, now));
    r := Ok(now);
  }
}
