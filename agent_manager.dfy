/**
 * The `AgentManager` class (src/agent/AgentManager.ts). Its fields are the source's: the
 * `jobs` map, the `completed` history, the event store and the process handles, plus the log
 * of effects on the outside world and, as a ghost, the last snapshot handed to the store.
 * Every method is proved to move the abstract state `Abs()` exactly as the matching function
 * of ManagerSpec does.
 */
module Manager {
  import opened Wrappers
  import opened Types
  import opened JsMap
  import ES = EventStore
  import opened Adapters
  import opened Registry
  import MS = ManagerSpec

  class AgentManager {
    var jobs: OMap<Job>
    var completed: seq<Job>
    const events: ES.EventStore
    var processes: map<string, Process>
    var effects: seq<MS.Effect>
    ghost var saved: Option<StateSnapshot>
    const adapters: AdapterRegistry
    const maxCompleted: nat

    ghost function Abs(): MS.State
      reads this, events
    {
      MS.State(maxCompleted, events.maxTail, jobs, completed, events.tails, processes, effects, saved)
    }

    /**
     * What the methods need of the fields. The manager's invariant is `ManagerProps.Inv`,
     * stated of `Abs()`: each method's state is its ManagerSpec function of the old state, and
     * the lemmas of ManagerProps prove that each of those functions keeps `Inv`. It is not part
     * of `Valid()` because `loadSnapshot` keeps it only for a snapshot that fits the state.
     */
    ghost predicate Valid()
      reads this, events
    {
      events.Valid()
    }

    constructor(adapters: AdapterRegistry, maxCompleted: nat, maxTail: nat)
      requires maxCompleted > 0 && maxTail > 0
      ensures Valid() && this.adapters == adapters && fresh(events)
      ensures Abs() == MS.State(maxCompleted, maxTail, Empty(), [], map[], map[], [], None)
    {
      this.adapters := adapters;
      this.maxCompleted := maxCompleted;
      events := new ES.EventStore(maxTail);
      jobs := Empty();
      completed := [];
      processes := map[];
      effects := [];
      saved := None;
    }

    /** `saveSnapshot`: the store receives the active jobs, the capped history and the tails. */
    method SaveSnapshot()
      requires Valid()
      modifies this
      ensures Valid() && Abs() == MS.Save(old(Abs()))
    {
      saved := Some(StateSnapshot(Values(jobs), completed[..MS.Min(maxCompleted, |completed|)], events.Snapshot()));
    }

    method CreateJob(id: string, agent: string, mode: Mode, task: string, cwd: string, now: string)
      returns (job: Job)
      requires Valid()
      modifies this, events
      ensures Valid() && (Abs(), job) == MS.CreateJob(old(Abs()), id, agent, mode, task, cwd, now)
    {
      job := Job(id, agent, mode, task, cwd, Running, now, None, None);
      jobs := Set(jobs, id, job);
      events.Append(id, MakeEvent("started", id, JObj(map["task" := JStr(task), "agent" := JStr(agent)]), now));
      SaveSnapshot();
    }

    function ListJobs(): (r: seq<Job>)
      reads this, events
      ensures r == MS.ListJobs(Abs())
    {
      Values(jobs) + completed
    }

    function GetJob(id: string): (r: Option<Job>)
      reads this, events
      ensures r == MS.GetJob(Abs(), id)
    {
      match JsMap.Get(jobs, id)
      case Some(job) => Some(job)
      case None =>
        var i := MS.FindIndex(completed, id);
        if i >= 0 then Some(completed[i]) else None
    }

    function GetEvents(id: string, since: Option<string>): (r: seq<Event>)
      reads this, events
      ensures r == MS.GetEvents(Abs(), id, since)
    {
      events.GetSince(id, since)
    }

    method MarkAwaitingInput(id: string, question: Option<Json>, options: Option<Json>, now: string)
      requires Valid()
      modifies this, events
      ensures Valid() && Abs() == MS.MarkAwaitingInput(old(Abs()), id, question, options, now)
    {
      if id !in jobs.entries {
        return;
      }
      jobs := Set(jobs, id, jobs.entries[id].(status := AwaitingInput));
      events.Append(id, MakeEvent("needs_input", id, MS.NeedsInputPayload(question, options), now));
      SaveSnapshot();
    }

    method ClearAwaitingInput(id: string, message: string, now: string)
      requires Valid()
      modifies this, events
      ensures Valid() && Abs() == MS.ClearAwaitingInput(old(Abs()), id, message, now)
    {
      if id !in jobs.entries {
        return;
      }
      jobs := Set(jobs, id, jobs.entries[id].(status := Running));
      events.Append(id, MakeEvent("input_sent", id, JObj(map["message" := JStr(message)]), now));
      SaveSnapshot();
    }

    /** `consumeEvents`: each event in turn, until one makes the loop throw. */
    method ConsumeEvents(id: string, incoming: seq<Event>, now: string)
      requires Valid()
      modifies this, events
      ensures Valid() && Abs() == MS.Consume(old(Abs()), id, incoming, now)
    {
      var k := 0;
      while k < |incoming|
        invariant 0 <= k <= |incoming|
        invariant Valid()
        invariant MS.Consume(old(Abs()), id, incoming, now) == MS.Consume(Abs(), id, incoming[k..], now)
      {
        assert incoming[k..][0] == incoming[k] && incoming[k..][1..] == incoming[k + 1..];
        var ok := ConsumeEvent(id, incoming[k], now);
        if !ok {
          return;
        }
        k := k + 1;
      }
    }

    /**
     * One iteration of `consumeEvents`: adopt a reported session id, then mark the job as
     * awaiting input or append the event. `false` when the iteration throws.
     */
    method ConsumeEvent(id: string, event: Event, now: string) returns (ok: bool)
      requires Valid()
      modifies this, events
      ensures Valid()
      ensures ok == MS.ConsumeEvent(old(Abs()), id, event, now).Success?
      ensures Abs() == if ok then MS.ConsumeEvent(old(Abs()), id, event, now).value else old(Abs())
    {
      var payload := if event.payload == JNull then JObj(map[]) else event.payload;
      var sessionId := MS.SessionIdOf(payload);
      if id in jobs.entries && sessionId.Some? && sessionId.value.JStr? && |sessionId.value.s| > 0
         && jobs.entries[id].sessionId != Some(sessionId.value.s) {
        jobs := Set(jobs, id, jobs.entries[id].(sessionId := Some(sessionId.value.s)));
        SaveSnapshot();
      }
      assert Abs() == MS.CaptureSession(old(Abs()), id, sessionId);
      if event.kind == JStr("needs_input") {
        if event.payload == JNull {
          return false;
        }
        MarkAwaitingInput(id, Prop(event.payload, "question"), Prop(event.payload, "options"), now);
      } else {
        events.Append(id, event.(agentId := id));
        SaveSnapshot();
      }
      ok := true;
    }

    /** `spawn`, with the fresh id, the clock reading and the new process's token passed in. */
    method Spawn(agent: string, mode: Mode, task: string, cwd: string, id: string, now: string, token: nat)
      returns (result: Result<Job, string>)
      requires Valid()
      modifies this, events
      ensures Valid()
      ensures (Abs(), result) == MS.Spawn(old(Abs()), adapters.adapters, id, agent, mode, task, cwd, now, token)
    {
      var adapter := adapters.Get(agent);
      if adapter.None? {
        return Failure("Unknown agent: " + agent);
      }
      var job := CreateJob(id, agent, mode, task, cwd, now);
      effects := effects + [MS.Launched(token, agent, task, cwd, mode)];
      processes := processes[id := Process(token, adapter.value.stdinPiped)];
      result := Success(job);
    }

    /** `send`, with the token of the process a resume would launch passed in. */
    method Send(agentId: string, message: string, now: string, token: nat)
      requires Valid()
      modifies this, events
      ensures Valid() && Abs() == MS.Send(old(Abs()), adapters.adapters, agentId, message, now, token)
    {
      var completedIndex := MS.FindIndex(completed, agentId);
      var job;
      if agentId in jobs.entries {
        job := jobs.entries[agentId];
      } else if completedIndex >= 0 {
        job := completed[completedIndex];
      } else {
        return;
      }
      var adapter := adapters.Get(job.agent);
      if adapter.None? {
        return;
      }
      if completedIndex >= 0 {
        completed := MS.RemoveAt(completed, completedIndex);
        job := job.(status := Running, completedAt := None);
        jobs := Set(jobs, agentId, job);
      }
      if agentId in processes {
        var proc := processes[agentId];
        var text := SendInput(adapter.value, proc, message);
        if text.Some? {
          effects := effects + [MS.StdinWrite(proc.token, text.value)];
        }
        ClearAwaitingInput(agentId, message, now);
        return;
      }
      if CanResumeWith(adapter.value, job.sessionId) {
        effects := effects + [MS.Resumed(token, job.agent, job.sessionId.value, message, job.cwd, job.mode)];
        processes := processes[agentId := Process(token, adapter.value.stdinPiped)];
        ClearAwaitingInput(agentId, message, now);
        return;
      }
    }

    method Kill(agentId: string, now: string)
      requires Valid()
      modifies this, events
      ensures Valid() && Abs() == MS.Kill(old(Abs()), agentId, now)
    {
      if agentId in processes {
        effects := effects + [MS.KillSignal(processes[agentId].token)];
      }
      CompleteJob(agentId, Completed, JObj(map["reason" := JStr("killed")]), now);
    }

    /** The `exit` handler installed by `spawn` and by the resume path of `send`. */
    method OnExit(id: string, code: Option<int>, now: string)
      requires Valid()
      modifies this, events
      ensures Valid() && Abs() == MS.OnExit(old(Abs()), id, code, now)
    {
      var status := if code == Some(0) then Completed else Error;
      CompleteJob(id, status, JObj(map["exitCode" := if code.Some? then JNum(code.value) else JNull]), now);
    }

    /** `loadSnapshot`, with what the store read passed in. */
    method LoadSnapshot(snapshot: Option<StateSnapshot>)
      requires Valid()
      modifies this, events
      ensures Valid() && Abs() == MS.LoadSnapshot(old(Abs()), snapshot)
    {
      if snapshot.None? {
        return;
      }
      var snap := snapshot.value;
      RestoreJobs(snap.jobs);
      RestoreCompleted(snap.completed);
      RestoreTails(snap.eventTails);
    }

    /** The first loop of `loadSnapshot`: each saved active job comes back as stale. */
    method RestoreJobs(saved: seq<Job>)
      modifies this
      ensures jobs == MS.RestoreActive(old(jobs), saved)
      ensures completed == old(completed) && processes == old(processes)
      ensures effects == old(effects) && this.saved == old(this.saved)
    {
      var i := 0;
      while i < |saved|
        invariant 0 <= i <= |saved|
        invariant jobs == MS.RestoreActive(old(jobs), saved[..i])
        invariant completed == old(completed) && processes == old(processes)
        invariant effects == old(effects) && this.saved == old(this.saved)
      {
        var job := saved[i];
        assert saved[..i + 1][..i] == saved[..i];
        jobs := Set(jobs, job.id, job.(status := Stale));
        i := i + 1;
      }
      assert saved[..i] == saved;
    }

    /** The second loop of `loadSnapshot`: the saved history goes after the current one. */
    method RestoreCompleted(saved: seq<Job>)
      modifies this
      ensures completed == old(completed) + saved
      ensures jobs == old(jobs) && processes == old(processes)
      ensures effects == old(effects) && this.saved == old(this.saved)
    {
      var i := 0;
      while i < |saved|
        invariant 0 <= i <= |saved|
        invariant completed == old(completed) + saved[..i]
        invariant jobs == old(jobs) && processes == old(processes)
        invariant effects == old(effects) && this.saved == old(this.saved)
      {
        assert saved[..i + 1] == saved[..i] + [saved[i]];
        completed := completed + [saved[i]];
        i := i + 1;
      }
      assert saved[..i] == saved;
    }

    /** The third loop of `loadSnapshot`: every saved event is appended to its job's tail. */
    method RestoreTails(saved: map<string, seq<Event>>)
      requires Valid()
      modifies events
      ensures Valid() && events.tails == ES.ReplayTails(old(events.tails), saved, events.maxTail)
    {
      ghost var start := events.tails;
      ES.ReplayNoneOrAll(start, saved, events.maxTail);
      var todo := saved.Keys;
      while todo != {}
        invariant todo <= saved.Keys
        invariant Valid()
        invariant events.tails == ES.ReplayTails(start, ES.Restrict(saved, saved.Keys - todo), events.maxTail)
        decreases |todo|
      {
        var id :| id in todo;
        ES.ReplayOneMore(start, saved, todo, id, events.maxTail);
        AppendAll(id, saved[id]);
        todo := todo - {id};
      }
    }

    /** The inner loop of `loadSnapshot`: one job's saved events, appended in order. */
    method AppendAll(id: string, list: seq<Event>)
      requires Valid()
      modifies events
      ensures Valid() && events.tails == ES.AppendEach(old(events.tails), id, list, events.maxTail)
    {
      var j := 0;
      while j < |list|
        invariant 0 <= j <= |list|
        invariant Valid()
        invariant events.tails == ES.AppendEach(old(events.tails), id, list[..j], events.maxTail)
      {
        assert list[..j + 1][..j] == list[..j];
        events.Append(id, list[j]);
        j := j + 1;
      }
      assert list[..j] == list;
    }

    method CompleteJob(id: string, status: JobStatus, payload: Json, now: string)
      requires Valid() && (status == Completed || status == Error)
      modifies this, events
      ensures Valid() && Abs() == MS.CompleteJob(old(Abs()), id, status, payload, now)
    {
      if id !in jobs.entries {
        return;
      }
      var job := jobs.entries[id].(status := status, completedAt := Some(now));
      events.Append(id, MakeEvent(StatusName(status), id, payload, now));
      jobs := Delete(jobs, id);
      completed := [job] + completed;
      if |completed| > maxCompleted {
        completed := completed[..|completed| - 1];
      }
      processes := processes - {id};
      SaveSnapshot();
    }
  }
}
