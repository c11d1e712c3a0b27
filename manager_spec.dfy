/**
 * The job manager (src/agent/AgentManager.ts) as a state value and one function per
 * operation. The class in agent_manager.dfy is proved to follow these functions step by step;
 * the properties are proved about them in manager_props.dfy.
 *
 * What the manager does to the outside world (launching, resuming and killing processes,
 * writing to a process's stdin) is recorded in an effect log. The last snapshot handed to the
 * persistence store is kept in `saved`.
 */
module ManagerSpec {
  import opened Wrappers
  import opened Types
  import opened JsMap
  import ES = EventStore
  import opened Adapters

  datatype Effect =
    | Launched(token: nat, agent: string, task: string, cwd: string, mode: Mode)
    | Resumed(token: nat, agent: string, sessionId: string, task: string, cwd: string, mode: Mode)
    | StdinWrite(token: nat, text: string)
    | KillSignal(token: nat)

  /**
   * `maxCompleted` and `maxTail` are MAX_COMPLETED and MAX_EVENT_TAIL; `active` is the `jobs`
   * map, `completed` the history (newest first), `tails` the event store's contents,
   * `processes` the live process handles.
   */
  datatype State = State(
    maxCompleted: nat,
    maxTail: nat,
    active: OMap<Job>,
    completed: seq<Job>,
    tails: map<string, seq<Event>>,
    processes: map<string, Process>,
    effects: seq<Effect>,
    saved: Option<StateSnapshot>)

  function Min(a: nat, b: nat): nat
  {
    if a <= b then a else b
  }

  /** The snapshot `saveSnapshot` hands to the store: `completed.slice(0, MAX_COMPLETED)`. */
  function SnapshotOf(s: State): (r: StateSnapshot)
    ensures |r.completed| <= s.maxCompleted && |r.completed| <= |s.completed|
    ensures r.completed == s.completed[..|r.completed|]
    ensures |s.completed| <= s.maxCompleted ==> r.completed == s.completed
    ensures Valid(s.active) ==> |r.jobs| == |s.active.keys|
    ensures r.jobs == Values(s.active) && r.eventTails == s.tails
    ensures |r.completed| == Min(s.maxCompleted, |s.completed|)
  {
    StateSnapshot(Values(s.active), s.completed[..Min(s.maxCompleted, |s.completed|)], s.tails)
  }

  function Save(s: State): State
  {
    s.(saved := Some(SnapshotOf(s)))
  }

  function Record(s: State, id: string, e: Event): State
  {
    s.(tails := ES.AppendTail(s.tails, id, e, s.maxTail))
  }

  function Log(s: State, e: Effect): State
  {
    s.(effects := s.effects + [e])
  }

  /** `{ key: v }` where an undefined `v` leaves the key out, as JSON does. */
  function Field(key: string, v: Option<Json>): map<string, Json>
  {
    if v.Some? then map[key := v.value] else map[]
  }

  function NeedsInputPayload(question: Option<Json>, options: Option<Json>): Json
  {
    JObj(Field("question", question) + Field("options", options))
  }

  /** `createJob`: a running job under the fresh id `id`, one `started` event, a save. */
  function CreateJob(s: State, id: string, agent: string, mode: Mode, task: string, cwd: string, now: string): (r: (State, Job))
    ensures r.1.id == id && r.1.status == Running && r.1.startedAt == now && r.1.completedAt.None?
    ensures Get(r.0.active, id) == Some(r.1)
  {
    var job := Job(id, agent, mode, task, cwd, Running, now, None, None);
    var started := MakeEvent("started", id, JObj(map["task" := JStr(task), "agent" := JStr(agent)]), now);
    (Save(Record(s.(active := Set(s.active, id, job)), id, started)), job)
  }

  /** `markAwaitingInput`: only for an active job. */
  function MarkAwaitingInput(s: State, id: string, question: Option<Json>, options: Option<Json>, now: string): State
  {
    if id !in s.active.entries then s
    else
      var job := s.active.entries[id].(status := AwaitingInput);
      Save(Record(s.(active := Set(s.active, id, job)), id, MakeEvent("needs_input", id, NeedsInputPayload(question, options), now)))
  }

  /** `clearAwaitingInput`: only for an active job. */
  function ClearAwaitingInput(s: State, id: string, message: string, now: string): State
  {
    if id !in s.active.entries then s
    else
      var job := s.active.entries[id].(status := Running);
      Save(Record(s.(active := Set(s.active, id, job)), id, MakeEvent("input_sent", id, JObj(map["message" := JStr(message)]), now)))
  }

  /** `completed.unshift(job)` followed by one `pop` when that overflows. */
  function Unshift(completed: seq<Job>, job: Job, max: nat): (r: seq<Job>)
    ensures |completed| <= max ==> |r| <= max
    ensures max > 0 ==> |r| > 0 && r[0] == job
    ensures |r| == if |completed| + 1 > max then |completed| else |completed| + 1
    ensures r == ([job] + completed)[..|r|]
    ensures |r| > 0 ==> r[1..] == completed[..|r| - 1]
  {
    var c := [job] + completed;
    assert c[1..] == completed;
    if |c| > max then c[..|c| - 1] else c
  }

  /** `completeJob`: only for an active job. */
  function CompleteJob(s: State, id: string, status: JobStatus, payload: Json, now: string): State
    requires status == Completed || status == Error
  {
    if id !in s.active.entries then s
    else
      var job := s.active.entries[id].(status := status, completedAt := Some(now));
      var s1 := Record(s, id, MakeEvent(StatusName(status), id, payload, now));
      Save(s1.(active := Delete(s1.active, id),
               completed := Unshift(s1.completed, job, s1.maxCompleted),
               processes := s1.processes - {id}))
  }

  /** `kill`: signal the process if there is one, then complete the job as `completed`. */
  function Kill(s: State, id: string, now: string): State
  {
    var s1 := if id in s.processes then Log(s, KillSignal(s.processes[id].token)) else s;
    CompleteJob(s1, id, Completed, JObj(map["reason" := JStr("killed")]), now)
  }

  /** The `exit` handler: code 0 completes the job, any other code (or none) is an error. */
  function OnExit(s: State, id: string, code: Option<int>, now: string): State
  {
    var status := if code == Some(0) then Completed else Error;
    CompleteJob(s, id, status, JObj(map["exitCode" := if code.Some? then JNum(code.value) else JNull]), now)
  }

  /** `spawn`: an unknown agent fails before anything happens; otherwise create and launch. */
  function Spawn(s: State, adapters: OMap<Adapter>, id: string, agent: string, mode: Mode, task: string,
                 cwd: string, now: string, token: nat): (State, Result<Job, string>)
  {
    match Get(adapters, agent)
    case None => (s, Failure("Unknown agent: " + agent))
    case Some(a) =>
      var (s1, job) := CreateJob(s, id, agent, mode, task, cwd, now);
      var s2 := Log(s1, Launched(token, agent, task, cwd, mode));
      (s2.(processes := s2.processes[id := Process(token, a.stdinPiped)]), Success(job))
  }

  /** `completed.findIndex((job) => job.id === id)`. */
  function FindIndex(completed: seq<Job>, id: string): (r: int)
    ensures -1 <= r < |completed|
    ensures r >= 0 ==> completed[r].id == id && forall j :: 0 <= j < r ==> completed[j].id != id
    ensures r < 0 ==> forall j :: 0 <= j < |completed| ==> completed[j].id != id
  {
    if |completed| == 0 then -1
    else if completed[0].id == id then 0
    else
      var i := FindIndex(completed[1..], id);
      if i < 0 then -1 else i + 1
  }

  /** `splice(i, 1)`. */
  function RemoveAt(s: seq<Job>, i: nat): (r: seq<Job>)
    requires i < |s|
    ensures |r| == |s| - 1
    ensures forall j :: 0 <= j < i ==> r[j] == s[j]
    ensures forall j :: i <= j < |r| ==> r[j] == s[j + 1]
  {
    s[..i] + s[i + 1..]
  }

  /**
   * `send`: a job found in the history is first moved back to the active map as running;
   * then the message is delivered.
   */
  function Send(s: State, adapters: OMap<Adapter>, id: string, message: string, now: string, token: nat): State
  {
    var idx := FindIndex(s.completed, id);
    if id !in s.active.entries && idx < 0 then s
    else
      var job := if id in s.active.entries then s.active.entries[id] else s.completed[idx];
      match Get(adapters, job.agent)
      case None => s
      case Some(a) =>
        var job1 := if idx >= 0 then job.(status := Running, completedAt := None) else job;
        var s1 := if idx >= 0 then s.(completed := RemoveAt(s.completed, idx), active := Set(s.active, id, job1)) else s;
        Deliver(s1, a, id, job1, message, now, token)
  }

  /**
   * The delivery paths of `send`, in order: a live process gets the message on stdin, or else
   * a resumable adapter launches a process that continues the session, or else nothing happens.
   */
  function Deliver(s: State, a: Adapter, id: string, job: Job, message: string, now: string, token: nat): State
  {
    if id in s.processes then
      var proc := s.processes[id];
      var s1 := match SendInput(a, proc, message)
        case Some(text) => Log(s, StdinWrite(proc.token, text))
        case None => s;
      ClearAwaitingInput(s1, id, message, now)
    else if CanResumeWith(a, job.sessionId) then
      var s1 := Log(s, Resumed(token, job.agent, job.sessionId.value, message, job.cwd, job.mode));
      ClearAwaitingInput(s1.(processes := s1.processes[id := Process(token, a.stdinPiped)]), id, message, now)
    else s
  }

  /** `payload.session_id ?? payload.thread_id ?? payload.sessionID ?? payload.sessionId`. */
  function SessionIdOf(payload: Json): Option<Json>
  {
    Coalesce(Coalesce(Coalesce(Prop(payload, "session_id"), Prop(payload, "thread_id")),
                      Prop(payload, "sessionID")), Prop(payload, "sessionId"))
  }

  /** Adopt a reported session id: a non-empty string, new for an active job. */
  function CaptureSession(s: State, id: string, sid: Option<Json>): State
  {
    if id in s.active.entries && sid.Some? && sid.value.JStr? && |sid.value.s| > 0
       && s.active.entries[id].sessionId != Some(sid.value.s)
    then Save(s.(active := Set(s.active, id, s.active.entries[id].(sessionId := Some(sid.value.s)))))
    else s
  }

  /**
   * One iteration of `consumeEvents`. A `needs_input` event whose payload is `null` makes the
   * source throw reading `question`, which ends the consumption (Failure).
   */
  function ConsumeEvent(s: State, id: string, e: Event, now: string): Result<State, string>
  {
    var payload := if e.payload == JNull then JObj(map[]) else e.payload;
    var s1 := CaptureSession(s, id, SessionIdOf(payload));
    if e.kind == JStr("needs_input") then
      if e.payload == JNull then Failure("Cannot read properties of null (reading 'question')")
      else Success(MarkAwaitingInput(s1, id, Prop(e.payload, "question"), Prop(e.payload, "options"), now))
    else Success(Save(Record(s1, id, e.(agentId := id))))
  }

  /** `consumeEvents(id, events)`: the events in order, up to the first that throws. */
  function Consume(s: State, id: string, events: seq<Event>, now: string): State
    decreases |events|
  {
    if |events| == 0 then s
    else match ConsumeEvent(s, id, events[0], now)
      case Failure(_) => s
      case Success(s1) => Consume(s1, id, events[1..], now)
  }

  /** `jobs.set(job.id, { ...job, status: "stale" })` for each saved job, in order. */
  function RestoreActive(m: OMap<Job>, jobs: seq<Job>): OMap<Job>
  {
    if |jobs| == 0 then m
    else
      var last := jobs[|jobs| - 1];
      Set(RestoreActive(m, jobs[..|jobs| - 1]), last.id, last.(status := Stale))
  }

  /** `loadSnapshot` with the store's answer; no save follows. */
  function LoadSnapshot(s: State, snapshot: Option<StateSnapshot>): State
  {
    if snapshot.None? then s
    else
      var snap := snapshot.value;
      s.(active := RestoreActive(s.active, snap.jobs),
         completed := s.completed + snap.completed,
         tails := ES.ReplayTails(s.tails, snap.eventTails, s.maxTail))
  }

  /** `listJobs`: the active jobs in insertion order, then the history. */
  function ListJobs(s: State): (r: seq<Job>)
    ensures Valid(s.active) ==> |r| == |s.active.keys| + |s.completed| && r[|s.active.keys|..] == s.completed
    ensures Valid(s.active) ==> forall i :: 0 <= i < |s.active.keys| ==> r[i] == s.active.entries[s.active.keys[i]]
  {
    Values(s.active) + s.completed
  }

  /** `getJob`: the active job, else the first history entry with that id. */
  function GetJob(s: State, id: string): (r: Option<Job>)
    ensures id in s.active.entries ==> r == Some(s.active.entries[id])
    ensures id !in s.active.entries ==>
      (r.Some? <==> exists j :: 0 <= j < |s.completed| && s.completed[j].id == id)
    ensures id !in s.active.entries && r.Some? ==>
      exists j :: 0 <= j < |s.completed| && s.completed[j] == r.value && r.value.id == id
                  && forall i :: 0 <= i < j ==> s.completed[i].id != id
  {
    if id in s.active.entries then Some(s.active.entries[id])
    else
      var idx := FindIndex(s.completed, id);
      if idx >= 0 then Some(s.completed[idx]) else None
  }

  /** `getEvents`. */
  function GetEvents(s: State, id: string, since: Option<string>): seq<Event>
  {
    ES.Since(s.tails, id, since)
  }
}
