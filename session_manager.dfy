/** The client's session manager (`useSessionManager`): the in-memory mirror
    of the user's session document, the shallow merge of local updates, the
    debounced and immediate save paths, and the handling of server replies.
    Timers are replaced by an abstract clock; requests issued are recorded in
    outboxes; each reply the network would deliver is a parameter. */
module SessionManager {
  import opened Optional
  import opened Records

  /** Quiet period of the debounced save. */
  const SaveDelayMs := 2000

  const FetchFailed := "Failed to fetch session data"
  const SaveFailed := "Failed to save session data"
  const ResetFailed := "Failed to reset session"

  /** `{ ...prev, ...updates }`; spreading `null` contributes no key. */
  function Merge(prev: Option<Doc>, updates: Doc): (r: Doc)
    ensures r.Keys == updates.Keys + (if prev.Some? then prev.value.Keys else {})
    ensures forall k :: k in updates ==> r[k] == updates[k]
    ensures forall k :: prev.Some? && k in prev.value && k !in updates ==> r[k] == prev.value[k]
  {
    (if prev.Some? then prev.value else map[]) + updates
  }

  /** A save waiting on the debounce timer: the payload and when it fires. */
  datatype Scheduled = Scheduled(payload: Doc, due: int)

  /** The save traffic: the clock, the pending debounced save (the timeout
      handle) and every payload sent to the server, in order. */
  datatype Outbox = Outbox(clock: int, timer: Option<Scheduled>, sent: seq<Doc>)

  /** A non-immediate save: cancel the pending one, schedule this one. */
  function Debounce(o: Outbox, payload: Doc): (r: Outbox)
    ensures r.sent == o.sent && r.clock == o.clock
    ensures r.timer == Some(Scheduled(payload, o.clock + SaveDelayMs))
  {
    o.(timer := Some(Scheduled(payload, o.clock + SaveDelayMs)))
  }

  /** An immediate save: send now, leave any pending save in place. */
  function SendNow(o: Outbox, payload: Doc): (r: Outbox)
    ensures r.sent == o.sent + [payload] && r.timer == o.timer && r.clock == o.clock
  {
    o.(sent := o.sent + [payload])
  }

  /** Let time pass up to `t`; a pending save that falls due is sent. The
      clock never runs backwards. */
  function AdvanceTo(o: Outbox, t: int): (r: Outbox)
    ensures r.clock == if t > o.clock then t else o.clock
    ensures o.timer.Some? && o.timer.value.due <= r.clock ==>
      r.timer.None? && r.sent == o.sent + [o.timer.value.payload]
    ensures !(o.timer.Some? && o.timer.value.due <= r.clock) ==> r.timer == o.timer && r.sent == o.sent
  {
    var now := if t > o.clock then t else o.clock;
    if o.timer.Some? && o.timer.value.due <= now then Outbox(now, None, o.sent + [o.timer.value.payload])
    else o.(clock := now)
  }

  /** A call of the debounced save at time `at`. */
  datatype SaveCall = SaveCall(at: int, payload: Doc)

  /** The outbox after a series of debounced saves, each at its own time. */
  function DebounceAll(o: Outbox, calls: seq<SaveCall>): Outbox
    decreases |calls|
  {
    if calls == [] then o else DebounceAll(Debounce(AdvanceTo(o, calls[0].at), calls[0].payload), calls[1..])
  }

  /** Each call comes less than one quiet period after the one before. */
  ghost predicate InOneBurst(calls: seq<SaveCall>)
  {
    forall i :: 0 < i < |calls| ==> calls[i - 1].at <= calls[i].at < calls[i - 1].at + SaveDelayMs
  }

  lemma {:induction false} BurstLeavesLastPending(o: Outbox, calls: seq<SaveCall>)
    requires |calls| > 0 && InOneBurst(calls) && o.clock <= calls[0].at
    requires o.timer.None? || o.timer.value.due > calls[0].at
    ensures DebounceAll(o, calls).sent == o.sent
    ensures DebounceAll(o, calls).clock == calls[|calls| - 1].at
    ensures DebounceAll(o, calls).timer ==
      Some(Scheduled(calls[|calls| - 1].payload, calls[|calls| - 1].at + SaveDelayMs))
    decreases |calls|
  {
    var o' := Debounce(AdvanceTo(o, calls[0].at), calls[0].payload);
    if |calls| > 1 {
      var rest := calls[1..];
      assert InOneBurst(rest) by {
        forall i | 0 < i < |rest|
          ensures rest[i - 1].at <= rest[i].at < rest[i - 1].at + SaveDelayMs
        {
          assert rest[i - 1] == calls[i] && rest[i] == calls[i + 1];
        }
      }
      assert calls[0].at <= calls[1].at < calls[0].at + SaveDelayMs;
      BurstLeavesLastPending(o', rest);
    }
  }

  /** Debounced saves called in one burst send exactly one payload, the
      last one, a quiet period after the last call. */
  lemma BurstSendsOnlyLastPayload(o: Outbox, calls: seq<SaveCall>)
    requires |calls| > 0 && InOneBurst(calls) && o.clock <= calls[0].at
    requires o.timer.None? || o.timer.value.due > calls[0].at
    ensures AdvanceTo(DebounceAll(o, calls), calls[|calls| - 1].at + SaveDelayMs).sent ==
      o.sent + [calls[|calls| - 1].payload]
  {
    BurstLeavesLastPending(o, calls);
  }

  /** An immediate save does not cancel a debounced save already pending:
      the older debounced payload still goes out, after the newer one. */
  lemma ImmediateSaveKeepsPendingSave(o: Outbox, older: Doc, newer: Doc)
    requires o.timer.None?
    ensures AdvanceTo(SendNow(Debounce(o, older), newer), o.clock + SaveDelayMs).sent ==
      o.sent + [newer, older]
  {
  }

  /** The `session` of `useSession`: present only when authenticated. */
  datatype AuthStatus = Loading | Authenticated | Unauthenticated

  /** What a GET or POST of the session resource came back with: the
      server's document, a non-OK status, or a thrown error's message. */
  datatype Reply = Delivered(data: Doc) | Refused | Unreachable(message: string)

  /** What a DELETE came back with. */
  datatype Ack = Acknowledged | AckRefused | AckUnreachable(message: string)

  datatype Visibility = Hidden | Visible

  /** The error text a failed reply leaves: the fixed message for a
      non-OK status, the thrown message otherwise. */
  function FailureText(r: Reply, refusal: string): string
    requires !r.Delivered?
  {
    if r.Refused? then refusal else r.message
  }

  class Manager {
    var auth: AuthStatus
    var sessionData: Option<Doc>
    var isLoading: bool
    var error: Option<string>
    var clock: int
    var saveTimeout: Option<Scheduled>
    var sent: seq<Doc>
    var heartbeats: seq<int>
    var beacons: seq<Doc>

    function Saves(): Outbox
      reads this
    {
      Outbox(clock, saveTimeout, sent)
    }

    predicate HasSession()
      reads this
    {
      auth == Authenticated
    }

    constructor(now: int)
      ensures auth == Loading && sessionData.None? && isLoading && error.None?
      ensures Saves() == Outbox(now, None, []) && heartbeats == [] && beacons == []
    {
      auth := Loading;
      sessionData := None;
      isLoading := true;
      error := None;
      clock := now;
      saveTimeout := None;
      sent := [];
      heartbeats := [];
      beacons := [];
    }

    /** Time passes; the debounce timer fires if it falls due. */
    method Tick(t: int)
      modifies this
      ensures Saves() == AdvanceTo(old(Saves()), t)
      ensures auth == old(auth) && sessionData == old(sessionData) && isLoading == old(isLoading)
      ensures error == old(error) && heartbeats == old(heartbeats) && beacons == old(beacons)
    {
      var o := AdvanceTo(Saves(), t);
      clock, saveTimeout, sent := o.clock, o.timer, o.sent;
    }

    /** `fetchSessionData` with the reply it gets. */
    method FetchSessionData(reply: Reply)
      modifies this
      ensures !old(HasSession()) ==> unchanged(this)
      ensures old(HasSession()) ==> !isLoading
      ensures old(HasSession()) && reply.Delivered? ==> sessionData == Some(reply.data) && error.None?
      ensures old(HasSession()) && !reply.Delivered? ==>
        sessionData == old(sessionData) && error == Some(FailureText(reply, FetchFailed))
      ensures auth == old(auth) && Saves() == old(Saves())
      ensures heartbeats == old(heartbeats) && beacons == old(beacons)
    {
      if !HasSession() {
        return;
      }
      if reply.Delivered? {
        sessionData := Some(reply.data);
        error := None;
      } else {
        error := Some(FailureText(reply, FetchFailed));
      }
      isLoading := false;
    }

    /** `saveSessionData(data, immediate)`: nothing without a session or
      data; otherwise send now or (re)schedule the debounced save. */
    method SaveSessionData(data: Option<Doc>, immediate: bool)
      modifies this
      ensures !old(HasSession()) || data.None? ==> unchanged(this)
      ensures old(HasSession()) && data.Some? && immediate ==> Saves() == SendNow(old(Saves()), data.value)
      ensures old(HasSession()) && data.Some? && !immediate ==> Saves() == Debounce(old(Saves()), data.value)
      ensures auth == old(auth) && sessionData == old(sessionData) && isLoading == old(isLoading)
      ensures error == old(error) && heartbeats == old(heartbeats) && beacons == old(beacons)
    {
      if !HasSession() || data.None? {
        return;
      }
      if immediate {
        sent := sent + [data.value];
      } else {
        saveTimeout := Some(Scheduled(data.value, clock + SaveDelayMs));
      }
    }

    /** The reply to a save, whichever path sent it. */
    method ApplySaveReply(reply: Reply)
      modifies this
      ensures reply.Delivered? ==> sessionData == Some(reply.data) && error.None?
      ensures !reply.Delivered? ==> sessionData == old(sessionData) && error == Some(FailureText(reply, SaveFailed))
      ensures auth == old(auth) && isLoading == old(isLoading) && Saves() == old(Saves())
      ensures heartbeats == old(heartbeats) && beacons == old(beacons)
    {
      if reply.Delivered? {
        sessionData := Some(reply.data);
        error := None;
      } else {
        error := Some(FailureText(reply, SaveFailed));
      }
    }

    /** `resetSession`: DELETE, then on success refetch and clear the error
      (which also clears an error the refetch itself reported). */
    method ResetSession(ack: Ack, refetch: Reply)
      modifies this
      ensures !old(HasSession()) ==> unchanged(this)
      ensures old(HasSession()) && ack.Acknowledged? ==>
        !isLoading && error.None? &&
        sessionData == (if refetch.Delivered? then Some(refetch.data) else old(sessionData))
      ensures old(HasSession()) && ack.AckRefused? ==>
        sessionData == old(sessionData) && isLoading == old(isLoading) && error == Some(ResetFailed)
      ensures old(HasSession()) && ack.AckUnreachable? ==>
        sessionData == old(sessionData) && isLoading == old(isLoading) && error == Some(ack.message)
      ensures auth == old(auth) && Saves() == old(Saves())
      ensures heartbeats == old(heartbeats) && beacons == old(beacons)
    {
      if !HasSession() {
        return;
      }
      if ack.Acknowledged? {
        FetchSessionData(refetch);
        error := None;
      } else if ack.AckRefused? {
        error := Some(ResetFailed);
      } else {
        error := Some(ack.message);
      }
    }

    /** `updateSessionData(updates, saveImmediately)`: merge into the mirror
      and hand the whole merged document to the save path. */
    method UpdateSessionData(updates: Doc, saveImmediately: bool)
      modifies this
      ensures sessionData == Some(Merge(old(sessionData), updates))
      ensures !old(HasSession()) ==> Saves() == old(Saves())
      ensures old(HasSession()) && saveImmediately ==>
        Saves() == SendNow(old(Saves()), Merge(old(sessionData), updates))
      ensures old(HasSession()) && !saveImmediately ==>
        Saves() == Debounce(old(Saves()), Merge(old(sessionData), updates))
      ensures auth == old(auth) && isLoading == old(isLoading) && error == old(error)
      ensures heartbeats == old(heartbeats) && beacons == old(beacons)
    {
      var merged := Merge(sessionData, updates);
      sessionData := Some(merged);
      SaveSessionData(Some(merged), saveImmediately);
    }

    /** The effect on the authentication status: fetch when authenticated,
      clear the mirror when not, wait while loading. */
    method OnAuthStatus(status: AuthStatus, reply: Reply)
      modifies this
      ensures auth == status
      ensures status == Authenticated ==>
        && !isLoading
        && (reply.Delivered? ==> sessionData == Some(reply.data) && error.None?)
        && (!reply.Delivered? ==> sessionData == old(sessionData) && error == Some(FailureText(reply, FetchFailed)))
      ensures status == Unauthenticated ==> sessionData.None? && !isLoading && error == old(error)
      ensures status == Loading ==> sessionData == old(sessionData) && isLoading == old(isLoading) && error == old(error)
      ensures Saves() == old(Saves()) && heartbeats == old(heartbeats) && beacons == old(beacons)
    {
      auth := status;
      if status == Authenticated {
        FetchSessionData(reply);
      } else if status == Unauthenticated {
        sessionData := None;
        isLoading := false;
      }
    }

    /** One tick of the 30-second interval, which runs only with a session
      and a mirror: a heartbeat stamped with the current time is sent. */
    method HeartbeatTick()
      modifies this
      ensures heartbeats == if old(HasSession()) && old(sessionData).Some? then old(heartbeats) + [old(clock)] else old(heartbeats)
      ensures auth == old(auth) && sessionData == old(sessionData) && isLoading == old(isLoading)
      ensures error == old(error) && Saves() == old(Saves()) && beacons == old(beacons)
    {
      if HasSession() && sessionData.Some? {
        heartbeats := heartbeats + [clock];
      }
    }

    /** `visibilitychange`: hidden with a mirror saves it at once; visible
      refetches. */
    method OnVisibilityChange(v: Visibility, reply: Reply)
      modifies this
      ensures v == Hidden && old(sessionData).Some? && old(HasSession()) ==>
        Saves() == SendNow(old(Saves()), old(sessionData).value) &&
        sessionData == old(sessionData) && error == old(error) && isLoading == old(isLoading)
      ensures v == Hidden && (old(sessionData).None? || !old(HasSession())) ==> unchanged(this)
      ensures v == Visible && old(HasSession()) ==>
        && Saves() == old(Saves())
        && !isLoading
        && (reply.Delivered? ==> sessionData == Some(reply.data) && error.None?)
        && (!reply.Delivered? ==> sessionData == old(sessionData) && error == Some(FailureText(reply, FetchFailed)))
      ensures v == Visible && !old(HasSession()) ==> unchanged(this)
      ensures auth == old(auth) && heartbeats == old(heartbeats) && beacons == old(beacons)
    {
      if v == Hidden && sessionData.Some? {
        SaveSessionData(sessionData, true);
      } else if v == Visible {
        FetchSessionData(reply);
      }
    }

    /** `beforeunload`: a best-effort beacon carrying the mirror. */
    method OnBeforeUnload()
      modifies this
      ensures beacons == if old(sessionData).Some? then old(beacons) + [old(sessionData).value] else old(beacons)
      ensures auth == old(auth) && sessionData == old(sessionData) && isLoading == old(isLoading)
      ensures error == old(error) && Saves() == old(Saves()) && heartbeats == old(heartbeats)
    {
      if sessionData.Some? {
        beacons := beacons + [sessionData.value];
      }
    }
  }
}
