/**
 * The data model shared by the job manager, the event store, the parser and the adapters
 * (src/types.ts, src/events.ts, src/persistence/types.ts).
 */
module Types {
  import opened Wrappers

  /**
   * A decoded JSON value, what `JSON.parse` returns. Numbers are integers in this model.
   * An event payload is such a value: the adapters pass whatever a line decodes to.
   */
  datatype Json =
    | JNull
    | JBool(b: bool)
    | JNum(n: int)
    | JStr(s: string)
    | JArr(items: seq<Json>)
    | JObj(fields: map<string, Json>)

  /**
   * `v.key` on a decoded value. Only objects carry the keys the source reads (`type`,
   * `session_id`, `question`, ...); on any other value the read yields `undefined` (None).
   * Reading a key of `null` throws in JavaScript; callers deal with JNull themselves.
   */
  function Prop(v: Json, key: string): (r: Option<Json>)
    ensures r.Some? <==> v.JObj? && key in v.fields
    ensures v.JObj? && key in v.fields ==> r == Some(v.fields[key])
  {
    if v.JObj? && key in v.fields then Some(v.fields[key]) else None
  }

  /** A value that `??` keeps: neither `undefined` nor `null`. */
  predicate Defined(v: Option<Json>)
  {
    v.Some? && v.value != JNull
  }

  /** `a ?? b`. */
  function Coalesce(a: Option<Json>, b: Option<Json>): (r: Option<Json>)
    ensures Defined(a) ==> r == a
    ensures !Defined(a) ==> r == b
  {
    if Defined(a) then a else b
  }

  datatype Mode = Headless | Headful

  datatype JobStatus = Running | AwaitingInput | Completed | Error | Stale

  /** The string a status is written as; `completeJob` also uses it as the terminal event's type. */
  function StatusName(s: JobStatus): string
  {
    match s
    case Running => "running"
    case AwaitingInput => "awaiting_input"
    case Completed => "completed"
    case Error => "error"
    case Stale => "stale"
  }

  /** A job record. `completedAt` and `sessionId` are optional fields of the source's object. */
  datatype Job = Job(
    id: string,
    agent: string,
    mode: Mode,
    task: string,
    cwd: string,
    status: JobStatus,
    startedAt: string,
    completedAt: Option<string>,
    sessionId: Option<string>)

  /**
   * An event. `kind` is the source's `type` field: the manager writes plain strings, but the
   * adapters copy `payload.type` unchanged, so any decoded value can stand there.
   */
  datatype Event = Event(timestamp: string, kind: Json, agentId: string, payload: Json)

  /** `makeEvent(type, agentId, payload)`, with the clock reading passed in as `now`. */
  function MakeEvent(kind: string, agentId: string, payload: Json, now: string): Event
  {
    Event(now, JStr(kind), agentId, payload)
  }

  /** What the persistence store writes and reads back. */
  datatype StateSnapshot = StateSnapshot(
    jobs: seq<Job>,
    completed: seq<Job>,
    eventTails: map<string, seq<Event>>)
}
