/** The records the tracker stores and exchanges: clock entries, daily
    statistics, the per-user session document, the daily log, and the
    JSON-shaped document the client keeps as its mirror of the session. */
module Records {
  import opened Optional

  /** The `type` of a clock entry; the schemas admit exactly these two. */
  datatype EntryType = IN | OUT

  /** One clock entry. `timestamp` and `id` are epoch milliseconds; `time` is
      the locale rendering of the timestamp, kept as opaque text. */
  datatype Entry = Entry(id: int, timestamp: int, kind: EntryType, time: string)

  datatype DailyStats = DailyStats(totalWorkMinutes: int, totalBreakMinutes: int, isComplete: bool)

  const ZeroStats := DailyStats(0, 0, false)
  const DefaultTheme := "minimal"
  const GoalMinutes := 480

  /** The identity an authenticated request carries: `session.user`. */
  datatype Identity = Identity(id: string, email: string, name: string)

  /** The server's "current session" document, one per user. `currentStatus`
      is stored as the text the client sent; `sessionStartTime` is `null`
      (None) or a timestamp. */
  datatype UserSession = UserSession(
    userId: string,
    userEmail: string,
    userName: string,
    currentStatus: string,
    entries: seq<Entry>,
    dailyStats: DailyStats,
    currentTheme: string,
    lastActiveDate: string,
    lastActivity: int,
    sessionStartTime: Option<int>)

  /** What an API route answers: its JSON body with status 200, or one of
      the failures 401, 400 and 500 with the error text. */
  datatype Response<T> = Ok(body: T) | Unauthorized | BadRequest(message: string) | ServerError(message: string)

  /** A saved day. */
  datatype DailyLog = DailyLog(
    userId: string,
    userEmail: string,
    userName: string,
    date: string,
    entries: seq<Entry>,
    dailyStats: DailyStats,
    theme: string)

  /** The `required` validators of the daily-log schema: a required string
      field must be a non-empty string, in the log and in each entry. */
  predicate PassesSchema(log: DailyLog)
  {
    && log.userId != ""
    && log.userEmail != ""
    && log.userName != ""
    && log.date != ""
    && forall i :: 0 <= i < |log.entries| ==> log.entries[i].time != ""
  }

  /** A value inside a JSON document, as far as the tracker's documents go. */
  datatype Value =
    | Text(s: string)
    | Number(n: int)
    | Flag(b: bool)
    | Null
    | EntryArray(entries: seq<Entry>)
    | StatsObject(stats: DailyStats)

  /** JavaScript truthiness: `""`, `0`, `false` and `null` are falsy; arrays
      and objects are truthy even when empty. */
  predicate Truthy(v: Value)
  {
    match v
    case Text(s) => s != ""
    case Number(n) => n != 0
    case Flag(b) => b
    case Null => false
    case EntryArray(_) => true
    case StatsObject(_) => true
  }

  /** A JSON object: its keys and their values. */
  type Doc = map<string, Value>

  const UserIdKey := "userId"
  const UserEmailKey := "userEmail"
  const UserNameKey := "userName"
  const StatusKey := "currentStatus"
  const EntriesKey := "entries"
  const StatsKey := "dailyStats"
  const ThemeKey := "currentTheme"
  const DateKey := "lastActiveDate"
  const ActivityKey := "lastActivity"
  const StartKey := "sessionStartTime"
  const TimestampKey := "timestamp"

  /** `doc.entries` when it is an array. */
  function EntriesIn(d: Doc): Option<seq<Entry>>
  {
    if EntriesKey in d && d[EntriesKey].EntryArray? then Some(d[EntriesKey].entries) else None
  }

  /** `doc.currentStatus === status`. */
  predicate StatusIs(d: Doc, status: string)
  {
    StatusKey in d && d[StatusKey] == Text(status)
  }

  function StatusName(kind: EntryType): string
  {
    match kind
    case IN => "IN"
    case OUT => "OUT"
  }

  /** The JSON form in which the server returns a session document. */
  function ToDoc(r: UserSession): (d: Doc)
    ensures EntriesIn(d) == Some(r.entries)
    ensures StatusIs(d, r.currentStatus)
  {
    map[
      UserIdKey := Text(r.userId),
      UserEmailKey := Text(r.userEmail),
      UserNameKey := Text(r.userName),
      StatusKey := Text(r.currentStatus),
      EntriesKey := EntryArray(r.entries),
      StatsKey := StatsObject(r.dailyStats),
      ThemeKey := Text(r.currentTheme),
      DateKey := Text(r.lastActiveDate),
      ActivityKey := Number(r.lastActivity),
      StartKey := if r.sessionStartTime.Some? then Number(r.sessionStartTime.value) else Null
    ]
  }
}
