/**
 * What the job manager keeps true and what each of its operations does, proved about the
 * functions of ManagerSpec.
 */
module ManagerProps {
  import opened Wrappers
  import opened Types
  import opened JsMap
  import ES = EventStore
  import opened Adapters
  import opened ManagerSpec
  import Registry

  /** The ids of the jobs in a history. */
  function HistoryIds(c: seq<Job>): set<string>
  {
    set j | j in c :: j.id
  }

  ghost predicate DistinctIds(c: seq<Job>)
  {
    forall i, j :: 0 <= i < j < |c| ==> c[i].id != c[j].id
  }

  /**
   * The manager's invariant: the active map is keyed by job id, the history holds each id at
   * most once, no id is both active and in the history, the history is capped, only active
   * jobs have processes, and every event tail is non-empty and within its cap.
   */
  ghost predicate Inv(s: State)
  {
    && s.maxTail > 0
    && s.maxCompleted > 0
    && Valid(s.active)
    && (forall k :: k in s.active.entries ==> s.active.entries[k].id == k)
    && DistinctIds(s.completed)
    && HistoryIds(s.completed) !! s.active.entries.Keys
    && |s.completed| <= s.maxCompleted
    && s.processes.Keys <= s.active.entries.Keys
    && ES.Bounded(s.tails, s.maxTail)
    && ES.NonEmpty(s.tails)
  }

  /** A new manager, with no jobs, no history and no events, satisfies the invariant. */
  lemma InitInv(maxCompleted: nat, maxTail: nat)
    requires maxCompleted > 0 && maxTail > 0
    ensures Inv(State(maxCompleted, maxTail, Empty(), [], map[], map[], [], None))
  {
  }

  /** An id `nextId` has never handed out: no job, no history entry, no tail carries it. */
  ghost predicate Fresh(s: State, id: string)
  {
    id !in s.active.entries && id !in HistoryIds(s.completed) && id !in s.tails
  }

  /** The persistence store holds exactly the current state. */
  ghost predicate SavedCurrent(s: State)
  {
    s.saved == Some(SnapshotOf(s))
  }

  /** The newest event of a job, if any. */
  function LastEvent(s: State, id: string): Option<Event>
  {
    var tail := ES.TailOf(s.tails, id);
    if tail == [] then None else Some(tail[|tail| - 1])
  }

  /** Appending to the event store keeps its part of the invariant. */
  lemma RecordKeepsInv(s: State, id: string, e: Event)
    requires Inv(s)
    ensures Inv(Record(s, id, e))
    ensures LastEvent(Record(s, id, e), id) == Some(e)
    ensures forall k :: k != id ==> ES.TailOf(Record(s, id, e).tails, k) == ES.TailOf(s.tails, k)
  {
  }

  /** Rebinding an active job to a record with the same id keeps the invariant. */
  lemma UpdateActiveKeepsInv(s: State, id: string, job: Job)
    requires Inv(s) && id in s.active.entries && job.id == id
    ensures Inv(s.(active := Set(s.active, id, job)))
    ensures s.(active := Set(s.active, id, job)).active.keys == s.active.keys
  {
  }

  // ---------------------------------------------------------------------------------------
  // createJob and spawn

  /**
   * `createJob` adds the job to the active map as running and appends exactly one `started`
   * event carrying the task and the agent; the history, the processes and the other tails are
   * as before, and the new state is saved.
   */
  lemma CreateJobSpec(s: State, id: string, agent: string, mode: Mode, task: string, cwd: string, now: string)
    requires Inv(s) && Fresh(s, id)
    ensures var (r, job) := CreateJob(s, id, agent, mode, task, cwd, now);
      && Inv(r)
      && job == Job(id, agent, mode, task, cwd, Running, now, None, None)
      && r.active.keys == s.active.keys + [id]
      && (forall k :: k != id ==> Get(r.active, k) == Get(s.active, k))
      && ES.TailOf(r.tails, id) == [MakeEvent("started", id, JObj(map["task" := JStr(task), "agent" := JStr(agent)]), now)]
      && (forall k :: k != id ==> ES.TailOf(r.tails, k) == ES.TailOf(s.tails, k))
      && r.completed == s.completed && r.processes == s.processes && r.effects == s.effects
      && SavedCurrent(r)
  {
    var job := Job(id, agent, mode, task, cwd, Running, now, None, None);
    var s1 := s.(active := Set(s.active, id, job));
    assert Inv(s1) by {
      assert HistoryIds(s1.completed) !! s1.active.entries.Keys;
    }
    var started := MakeEvent("started", id, JObj(map["task" := JStr(task), "agent" := JStr(agent)]), now);
    RecordKeepsInv(s1, id, started);
  }

  /** `spawn` with an agent nobody registered fails before any job or event exists. */
  lemma SpawnUnknownAgent(s: State, adapters: OMap<Adapter>, id: string, agent: string, mode: Mode,
                          task: string, cwd: string, now: string, token: nat)
    requires agent !in adapters.entries
    ensures Spawn(s, adapters, id, agent, mode, task, cwd, now, token) == (s, Failure("Unknown agent: " + agent))
  {
  }

  /** `spawn` with a registered agent creates the job, launches it and attaches its process. */
  lemma SpawnSpec(s: State, adapters: OMap<Adapter>, id: string, agent: string, mode: Mode,
                  task: string, cwd: string, now: string, token: nat)
    requires Inv(s) && Fresh(s, id) && agent in adapters.entries
    ensures var (r, result) := Spawn(s, adapters, id, agent, mode, task, cwd, now, token);
      && Inv(r)
      && result == Success(Job(id, agent, mode, task, cwd, Running, now, None, None))
      && Get(r.active, id) == Some(result.value)
      && r.processes == s.processes[id := Process(token, adapters.entries[agent].stdinPiped)]
      && r.effects == s.effects + [Launched(token, agent, task, cwd, mode)]
  {
    CreateJobSpec(s, id, agent, mode, task, cwd, now);
  }

  // ---------------------------------------------------------------------------------------
  // markAwaitingInput and clearAwaitingInput

  /**
   * `markAwaitingInput` on an active job sets `awaiting_input` and appends `needs_input` with
   * the question and the options; on any other id it changes nothing.
   */
  lemma MarkAwaitingInputSpec(s: State, id: string, question: Option<Json>, options: Option<Json>, now: string)
    requires Inv(s)
    ensures var r := MarkAwaitingInput(s, id, question, options, now);
      && Inv(r)
      && (id !in s.active.entries ==> r == s)
      && (id in s.active.entries ==>
            && Get(r.active, id) == Some(s.active.entries[id].(status := AwaitingInput))
            && LastEvent(r, id) == Some(MakeEvent("needs_input", id, NeedsInputPayload(question, options), now))
            && r.active.keys == s.active.keys
            && (forall k :: k != id ==> Get(r.active, k) == Get(s.active, k))
            && (forall k :: k != id ==> ES.TailOf(r.tails, k) == ES.TailOf(s.tails, k))
            && r.completed == s.completed && r.processes == s.processes && r.effects == s.effects
            && SavedCurrent(r))
  {
    if id in s.active.entries {
      var s1 := s.(active := Set(s.active, id, s.active.entries[id].(status := AwaitingInput)));
      UpdateActiveKeepsInv(s, id, s.active.entries[id].(status := AwaitingInput));
      RecordKeepsInv(s1, id, MakeEvent("needs_input", id, NeedsInputPayload(question, options), now));
    }
  }

  /**
   * `clearAwaitingInput` on an active job sets `running` and appends `input_sent` with the
   * message; on any other id it changes nothing.
   */
  lemma ClearAwaitingInputSpec(s: State, id: string, message: string, now: string)
    requires Inv(s)
    ensures var r := ClearAwaitingInput(s, id, message, now);
      && Inv(r)
      && (id !in s.active.entries ==> r == s)
      && (id in s.active.entries ==>
            && Get(r.active, id) == Some(s.active.entries[id].(status := Running))
            && LastEvent(r, id) == Some(MakeEvent("input_sent", id, JObj(map["message" := JStr(message)]), now))
            && r.active.keys == s.active.keys
            && (forall k :: k != id ==> Get(r.active, k) == Get(s.active, k))
            && (forall k :: k != id ==> ES.TailOf(r.tails, k) == ES.TailOf(s.tails, k))
            && r.completed == s.completed && r.processes == s.processes && r.effects == s.effects
            && SavedCurrent(r))
  {
    if id in s.active.entries {
      var s1 := s.(active := Set(s.active, id, s.active.entries[id].(status := Running)));
      UpdateActiveKeepsInv(s, id, s.active.entries[id].(status := Running));
      RecordKeepsInv(s1, id, MakeEvent("input_sent", id, JObj(map["message" := JStr(message)]), now));
    }
  }

  // ---------------------------------------------------------------------------------------
  // completeJob, kill and the exit handler

  /** Moving an active job to the front of the history keeps the ids apart and the cap. */
  lemma RetireKeepsInv(s: State, id: string, job: Job)
    requires Inv(s) && id in s.active.entries && job.id == id
    ensures Inv(s.(active := Delete(s.active, id),
                   completed := Unshift(s.completed, job, s.maxCompleted),
                   processes := s.processes - {id}))
  {
    var c := Unshift(s.completed, job, s.maxCompleted);
    var full := [job] + s.completed;
    assert c == full[..|c|];
    forall i, j | 0 <= i < j < |c| ensures c[i].id != c[j].id {
      assert c[i] == full[i] && c[j] == full[j];
      if i == 0 {
        assert s.completed[j - 1] in s.completed;
      }
    }
    forall k | k in HistoryIds(c) ensures k !in Delete(s.active, id).entries {
      var j :| j in c && j.id == k;
      if j != job {
        assert j in s.completed by {
          var n :| 0 <= n < |c| && c[n] == j;
          assert full[n] == j;
        }
      }
    }
  }

  /**
   * `completeJob` acts on an active job only. It sets the status and the completion time,
   * appends an event whose type is the status, takes the job out of the active map and the
   * processes and puts it first in the history, still within MAX_COMPLETED.
   */
  lemma CompleteJobSpec(s: State, id: string, status: JobStatus, payload: Json, now: string)
    requires Inv(s) && (status == Completed || status == Error)
    ensures var r := CompleteJob(s, id, status, payload, now);
      && Inv(r)
      && r.effects == s.effects
      && r.processes == s.processes - {id}
      && (id !in s.active.entries ==> r == s)
      && (id in s.active.entries ==>
            && id !in r.active.entries
            && |r.completed| > 0 && r.completed[0] == s.active.entries[id].(status := status, completedAt := Some(now))
            && r.completed[1..] == s.completed[..|r.completed| - 1]
            && |r.completed| == Min(s.maxCompleted, |s.completed| + 1)
            && LastEvent(r, id) == Some(MakeEvent(StatusName(status), id, payload, now))
            && (forall k :: k != id ==> Get(r.active, k) == Get(s.active, k))
            && (forall k :: k != id ==> ES.TailOf(r.tails, k) == ES.TailOf(s.tails, k))
            && SavedCurrent(r))
  {
    if id in s.active.entries {
      var job := s.active.entries[id].(status := status, completedAt := Some(now));
      var s1 := Record(s, id, MakeEvent(StatusName(status), id, payload, now));
      RecordKeepsInv(s, id, MakeEvent(StatusName(status), id, payload, now));
      RetireKeepsInv(s1, id, job);
      var c := Unshift(s1.completed, job, s1.maxCompleted);
      assert |c| > 0 && c[0] == job && c[1..] == s.completed[..|c| - 1];
      assert CompleteJob(s, id, status, payload, now)
        == Save(s1.(active := Delete(s1.active, id), completed := c, processes := s1.processes - {id}));
    }
  }

  /**
   * `kill` finalises an active job as `completed` with `{reason: "killed"}`, whatever its
   * status was, after signalling its process; for any other id the jobs are unchanged.
   */
  lemma KillSpec(s: State, id: string, now: string)
    requires Inv(s)
    ensures var r := Kill(s, id, now);
      && Inv(r)
      && r.processes == s.processes - {id}
      && (id !in s.active.entries ==> r == s)
      && (id in s.active.entries ==>
            && id !in r.active.entries
            && |r.completed| > 0 && r.completed[0] == s.active.entries[id].(status := Completed, completedAt := Some(now))
            && r.completed[1..] == s.completed[..|r.completed| - 1]
            && |r.completed| == Min(s.maxCompleted, |s.completed| + 1)
            && LastEvent(r, id) == Some(MakeEvent("completed", id, JObj(map["reason" := JStr("killed")]), now))
            && (forall k :: k != id ==> Get(r.active, k) == Get(s.active, k))
            && (forall k :: k != id ==> ES.TailOf(r.tails, k) == ES.TailOf(s.tails, k))
            && SavedCurrent(r)
            && r.effects == s.effects + (if id in s.processes then [KillSignal(s.processes[id].token)] else []))
  {
    var payload := JObj(map["reason" := JStr("killed")]);
    var signal := if id in s.processes then [KillSignal(s.processes[id].token)] else [];
    var s1 := s.(effects := s.effects + signal);
    assert s1 == if id in s.processes then Log(s, KillSignal(s.processes[id].token)) else s;
    assert Kill(s, id, now) == CompleteJob(s1, id, Completed, payload, now);
    CompleteJobSpec(s, id, Completed, payload, now);
    if id !in s.active.entries {
      assert s1 == s;
    } else {
      var r0 := CompleteJob(s, id, Completed, payload, now);
      CompleteJobIgnoresEffects(s, s.effects + signal, id, Completed, payload, now);
      var r := r0.(effects := s.effects + signal);
      assert Kill(s, id, now) == r;
      OutsideWorldIgnored(r0, s.effects + signal, r0.processes);
      assert StatusName(Completed) == "completed";
    }
  }

  /**
   * Neither the invariant nor the saved snapshot depends on the effect log, nor on the process
   * handles beyond their belonging to active jobs.
   */
  lemma OutsideWorldIgnored(s: State, effects: seq<Effect>, processes: map<string, Process>)
    requires Inv(s) && SavedCurrent(s) && processes.Keys <= s.active.entries.Keys
    ensures var t := s.(effects := effects, processes := processes);
      Inv(t) && SavedCurrent(t)
  {
    assert SnapshotOf(s.(effects := effects, processes := processes)) == SnapshotOf(s);
  }

  /** `completeJob` neither reads nor writes the effect log. */
  lemma CompleteJobIgnoresEffects(s: State, effects: seq<Effect>, id: string, status: JobStatus, payload: Json, now: string)
    requires status == Completed || status == Error
    ensures CompleteJob(s.(effects := effects), id, status, payload, now)
         == CompleteJob(s, id, status, payload, now).(effects := effects)
  {
  }

  /** A process that exits with code 0 completes its job; any other code, or none, is an error. */
  lemma OnExitSpec(s: State, id: string, code: Option<int>, now: string)
    requires Inv(s)
    ensures var r := OnExit(s, id, code, now);
      && Inv(r)
      && r.processes == s.processes - {id}
      && (id !in s.active.entries ==> r == s)
      && (id in s.active.entries ==>
            && |r.completed| > 0 && r.completed[0].id == id
            && r.completed[0].status == (if code == Some(0) then Completed else Error)
            && LastEvent(r, id) == Some(MakeEvent(if code == Some(0) then "completed" else "error", id,
                 JObj(map["exitCode" := if code.Some? then JNum(code.value) else JNull]), now)))
  {
    var status := if code == Some(0) then Completed else Error;
    var payload := JObj(map["exitCode" := if code.Some? then JNum(code.value) else JNull]);
    CompleteJobSpec(s, id, status, payload, now);
    assert OnExit(s, id, code, now) == CompleteJob(s, id, status, payload, now);
    assert StatusName(status) == if code == Some(0) then "completed" else "error";
  }

  // ---------------------------------------------------------------------------------------
  // send

  /** `findIndex` misses exactly the ids the history does not hold. */
  lemma NotInHistory(c: seq<Job>, id: string)
    ensures FindIndex(c, id) < 0 <==> id !in HistoryIds(c)
  {
    if id !in HistoryIds(c) {
      forall j | 0 <= j < |c| ensures c[j].id != id {
        assert c[j] in c;
      }
    }
  }

  /** `send` to an id that is neither active nor in the history changes nothing. */
  lemma SendUnknownJob(s: State, adapters: OMap<Adapter>, id: string, message: string, now: string, token: nat)
    requires id !in s.active.entries && id !in HistoryIds(s.completed)
    ensures Send(s, adapters, id, message, now, token) == s
  {
    NotInHistory(s.completed, id);
  }

  /**
   * `send` to a job whose agent has no registered adapter changes nothing, whether the job is
   * active or found in the history: a history job is not even reopened.
   */
  lemma SendWithoutAdapter(s: State, adapters: OMap<Adapter>, id: string, message: string, now: string, token: nat)
    requires || (id in s.active.entries && s.active.entries[id].agent !in adapters.entries)
             || (id !in s.active.entries && 0 <= FindIndex(s.completed, id)
                 && s.completed[FindIndex(s.completed, id)].agent !in adapters.entries)
    ensures Send(s, adapters, id, message, now, token) == s
  {
  }

  /**
   * The delivery paths of `send` to an active job, in order: a live process gets the message
   * on stdin (when the adapter writes it) and `input_sent` is logged; otherwise a resumable
   * adapter with a session id launches a process continuing that session and `input_sent` is
   * logged; otherwise nothing happens. Each path keeps the invariant, the active ids and the
   * history.
   */
  lemma DeliverSpec(s: State, a: Adapter, id: string, job: Job, message: string, now: string, token: nat)
    requires Inv(s) && id in s.active.entries
    ensures var r := Deliver(s, a, id, job, message, now, token);
      var sent := MakeEvent("input_sent", id, JObj(map["message" := JStr(message)]), now);
      && Inv(r)
      && r.active.keys == s.active.keys && r.completed == s.completed
      && (s.active.entries[id].status == Running ==> r.active.entries[id] == s.active.entries[id])
      && (id in s.processes || CanResumeWith(a, job.sessionId) ==>
            r.active.entries[id] == s.active.entries[id].(status := Running))
      && (id in s.processes ==>
            && LastEvent(r, id) == Some(sent)
            && r.effects == s.effects + (match SendInput(a, s.processes[id], message)
                                          case Some(text) => [StdinWrite(s.processes[id].token, text)]
                                          case None => []))
      && (id !in s.processes && CanResumeWith(a, job.sessionId) ==>
            && LastEvent(r, id) == Some(sent)
            && r.effects == s.effects + [Resumed(token, job.agent, job.sessionId.value, message, job.cwd, job.mode)]
            && r.processes == s.processes[id := Process(token, a.stdinPiped)])
      && (id !in s.processes && !CanResumeWith(a, job.sessionId) ==> r == s)
  {
    ClearAwaitingInputSpec(s, id, message, now);
    var r0 := ClearAwaitingInput(s, id, message, now);
    if id in s.processes {
      DeliverToProcess(s, a, id, job, message, now, token);
      OutsideWorldIgnored(r0, Deliver(s, a, id, job, message, now, token).effects, s.processes);
    } else if CanResumeWith(a, job.sessionId) {
      DeliverByResume(s, a, id, job, message, now, token);
      OutsideWorldIgnored(r0, s.effects + [Resumed(token, job.agent, job.sessionId.value, message, job.cwd, job.mode)],
                          s.processes[id := Process(token, a.stdinPiped)]);
    }
  }

  /** The stdin path: the write (if the adapter makes one) is logged, then `clearAwaitingInput`. */
  lemma DeliverToProcess(s: State, a: Adapter, id: string, job: Job, message: string, now: string, token: nat)
    requires id in s.processes
    ensures var proc := s.processes[id];
      var written := match SendInput(a, proc, message)
        case Some(text) => [StdinWrite(proc.token, text)]
        case None => [];
      Deliver(s, a, id, job, message, now, token)
        == ClearAwaitingInput(s, id, message, now).(effects := s.effects + written, processes := s.processes)
  {
    var proc := s.processes[id];
    var written := match SendInput(a, proc, message)
      case Some(text) => [StdinWrite(proc.token, text)]
      case None => [];
    if SendInput(a, proc, message).None? {
      assert s.effects + written == s.effects;
    }
    ClearIgnoresOutsideWorld(s, s.effects + written, s.processes, id, message, now);
  }

  /** The resume path: a new process continuing the session is logged and attached, then `clearAwaitingInput`. */
  lemma DeliverByResume(s: State, a: Adapter, id: string, job: Job, message: string, now: string, token: nat)
    requires id !in s.processes && CanResumeWith(a, job.sessionId)
    ensures Deliver(s, a, id, job, message, now, token)
         == ClearAwaitingInput(s, id, message, now).(
              effects := s.effects + [Resumed(token, job.agent, job.sessionId.value, message, job.cwd, job.mode)],
              processes := s.processes[id := Process(token, a.stdinPiped)])
  {
    ClearIgnoresOutsideWorld(s, s.effects + [Resumed(token, job.agent, job.sessionId.value, message, job.cwd, job.mode)],
                             s.processes[id := Process(token, a.stdinPiped)], id, message, now);
  }

  /** `clearAwaitingInput` neither reads nor writes the effect log and the process handles. */
  lemma ClearIgnoresOutsideWorld(s: State, effects: seq<Effect>, processes: map<string, Process>,
                                 id: string, message: string, now: string)
    ensures ClearAwaitingInput(s.(effects := effects, processes := processes), id, message, now)
         == ClearAwaitingInput(s, id, message, now).(effects := effects, processes := processes)
  {
  }

  /**
   * `send` to a job of the history whose adapter is registered moves it back to the active map
   * as running, with no completion time, before any path is tried, so this happens even when
   * there is neither a live process nor a session to resume. In that last case no event is
   * appended and nothing is saved.
   */
  lemma SendReactivates(s: State, adapters: OMap<Adapter>, id: string, message: string, now: string, token: nat)
    requires Inv(s) && id in HistoryIds(s.completed)
    requires var idx := FindIndex(s.completed, id); 0 <= idx && s.completed[idx].agent in adapters.entries
    ensures var job := s.completed[FindIndex(s.completed, id)];
      var r := Send(s, adapters, id, message, now, token);
      && Inv(r)
      && id in r.active.entries && id !in HistoryIds(r.completed)
      && r.active.entries[id] == job.(status := Running, completedAt := None)
      && |r.completed| == |s.completed| - 1
      && (!CanResumeWith(adapters.entries[job.agent], job.sessionId) ==>
            r.tails == s.tails && r.saved == s.saved && r.effects == s.effects)
  {
    var idx := FindIndex(s.completed, id);
    var job := s.completed[idx];
    var a := adapters.entries[job.agent];
    var job1 := job.(status := Running, completedAt := None);
    var s1 := s.(completed := RemoveAt(s.completed, idx), active := Set(s.active, id, job1));
    assert job in s.completed;
    ReactivateKeepsInv(s, idx, job1);
    DeliverSpec(s1, a, id, job1, message, now, token);
    RemoveAtDropsId(s.completed, idx);
    SendFromHistory(s, adapters, id, message, now, token);
  }

  /** `send` to a job only the history holds reopens it, then delivers the message. */
  lemma SendFromHistory(s: State, adapters: OMap<Adapter>, id: string, message: string, now: string, token: nat)
    requires id !in s.active.entries
    requires var idx := FindIndex(s.completed, id); 0 <= idx && s.completed[idx].agent in adapters.entries
    ensures var idx := FindIndex(s.completed, id);
      var job1 := s.completed[idx].(status := Running, completedAt := None);
      Send(s, adapters, id, message, now, token)
        == Deliver(s.(completed := RemoveAt(s.completed, idx), active := Set(s.active, id, job1)),
                   adapters.entries[job1.agent], id, job1, message, now, token)
  {
    var agent := s.completed[FindIndex(s.completed, id)].agent;
    assert Get(adapters, agent) == Some(adapters.entries[agent]);
  }

  /** Taking an entry out of a history of distinct ids leaves no job with its id. */
  lemma RemoveAtDropsId(c: seq<Job>, idx: nat)
    requires DistinctIds(c) && idx < |c|
    ensures c[idx].id !in HistoryIds(RemoveAt(c, idx))
  {
    var rest := RemoveAt(c, idx);
    forall k | k in HistoryIds(rest) ensures k != c[idx].id {
      var j :| j in rest && j.id == k;
      var n :| 0 <= n < |rest| && rest[n] == j;
      if n < idx {
        assert c[n].id != c[idx].id;
      } else {
        assert c[n + 1].id != c[idx].id;
      }
    }
  }

  /** `send` to an active job with a registered adapter takes the delivery paths directly. */
  lemma SendPaths(s: State, adapters: OMap<Adapter>, id: string, message: string, now: string, token: nat)
    requires Inv(s) && id in s.active.entries && s.active.entries[id].agent in adapters.entries
    ensures var job := s.active.entries[id];
      Send(s, adapters, id, message, now, token) == Deliver(s, adapters.entries[job.agent], id, job, message, now, token)
  {
    NotInHistory(s.completed, id);
  }

  /** `send` keeps the invariant; in particular a reactivated job leaves the history. */
  lemma SendKeepsInv(s: State, adapters: OMap<Adapter>, id: string, message: string, now: string, token: nat)
    requires Inv(s)
    ensures Inv(Send(s, adapters, id, message, now, token))
  {
    var idx := FindIndex(s.completed, id);
    if id in s.active.entries {
      var job := s.active.entries[id];
      if job.agent in adapters.entries {
        SendPaths(s, adapters, id, message, now, token);
        DeliverSpec(s, adapters.entries[job.agent], id, job, message, now, token);
      }
    } else if idx >= 0 && s.completed[idx].agent in adapters.entries {
      NotInHistory(s.completed, id);
      SendReactivates(s, adapters, id, message, now, token);
    }
  }

  /** Taking entry `idx` out of the history and making it active keeps the invariant. */
  lemma ReactivateKeepsInv(s: State, idx: nat, job: Job)
    requires Inv(s) && idx < |s.completed| && job.id == s.completed[idx].id
    ensures Inv(s.(completed := RemoveAt(s.completed, idx), active := Set(s.active, job.id, job)))
  {
    RemoveAtDropsId(s.completed, idx);
    RemoveAtKeeps(s.completed, idx);
    assert Set(s.active, job.id, job).entries.Keys == s.active.entries.Keys + {job.id};
  }

  /** Taking an entry out of a history keeps its ids distinct and adds no id. */
  lemma RemoveAtKeeps(c: seq<Job>, idx: nat)
    requires DistinctIds(c) && idx < |c|
    ensures DistinctIds(RemoveAt(c, idx)) && HistoryIds(RemoveAt(c, idx)) <= HistoryIds(c)
  {
    var rest := RemoveAt(c, idx);
    forall k | k in HistoryIds(rest) ensures k in HistoryIds(c) {
      var j :| j in rest && j.id == k;
      var n :| 0 <= n < |rest| && rest[n] == j;
      assert c[if n < idx then n else n + 1] == j;
    }
    forall i, j | 0 <= i < j < |rest| ensures rest[i].id != rest[j].id {
      var a := if i < idx then i else i + 1;
      var b := if j < idx then j else j + 1;
      assert rest[i] == c[a] && rest[j] == c[b];
    }
  }

  // ---------------------------------------------------------------------------------------
  // consumeEvents

  /**
   * A non-empty string reported for an active job becomes its session id, and the state is
   * saved when that changed it; a session id once captured is never cleared, and nothing else
   * changes.
   */
  lemma CaptureSessionSpec(s: State, id: string, sid: Option<Json>)
    requires Inv(s)
    ensures var r := CaptureSession(s, id, sid);
      && Inv(r)
      && (id in s.active.entries && sid.Some? && sid.value.JStr? && |sid.value.s| > 0 ==>
            r.active.entries[id].sessionId == Some(sid.value.s))
      && (r.active != s.active ==> SavedCurrent(r))
      && (r.active == s.active ==> r == s)
      && r.active.keys == s.active.keys && r.completed == s.completed && r.tails == s.tails
      && (forall k :: k in s.active.entries ==>
            && r.active.entries[k] == s.active.entries[k].(sessionId := r.active.entries[k].sessionId)
            && (s.active.entries[k].sessionId.Some? ==> r.active.entries[k].sessionId.Some?)
            && (r.active.entries[k].sessionId != s.active.entries[k].sessionId ==>
                  k == id && sid.Some? && sid.value.JStr? && r.active.entries[k].sessionId == Some(sid.value.s)
                  && |sid.value.s| > 0))
  {
    if id in s.active.entries && sid.Some? && sid.value.JStr? && |sid.value.s| > 0
       && s.active.entries[id].sessionId != Some(sid.value.s) {
      var job := s.active.entries[id].(sessionId := Some(sid.value.s));
      var m := Set(s.active, id, job);
      UpdateActiveKeepsInv(s, id, job);
      assert CaptureSession(s, id, sid) == Save(s.(active := m));
      forall k | k in s.active.entries
        ensures m.entries[k] == s.active.entries[k].(sessionId := m.entries[k].sessionId)
        ensures k != id ==> m.entries[k] == s.active.entries[k]
      {
        assert Get(m, k) == if k == id then Some(job) else Get(s.active, k);
      }
    }
  }

  /**
   * The reported session id is read from the keys `session_id`, `thread_id`, `sessionID` and
   * `sessionId`, in that order; a key that is missing or `null` passes to the next.
   */
  lemma SessionIdOrder(payload: Json)
    ensures Defined(Prop(payload, "session_id")) ==> SessionIdOf(payload) == Prop(payload, "session_id")
    ensures !Defined(Prop(payload, "session_id")) && Defined(Prop(payload, "thread_id")) ==>
      SessionIdOf(payload) == Prop(payload, "thread_id")
    ensures !Defined(Prop(payload, "session_id")) && !Defined(Prop(payload, "thread_id")) ==>
      Defined(Prop(payload, "sessionID")) ==> SessionIdOf(payload) == Prop(payload, "sessionID")
    ensures !Defined(Prop(payload, "session_id")) && !Defined(Prop(payload, "thread_id")) ==>
      !Defined(Prop(payload, "sessionID")) ==> SessionIdOf(payload) == Prop(payload, "sessionId")
  {
  }

  /** Capturing a session id keeps the invariant and the set of active jobs. */
  lemma CaptureKeepsInv(s: State, id: string, sid: Option<Json>)
    requires Inv(s)
    ensures Inv(CaptureSession(s, id, sid))
    ensures CaptureSession(s, id, sid).active.entries.Keys == s.active.entries.Keys
  {
    if id in s.active.entries && sid.Some? && sid.value.JStr? && |sid.value.s| > 0
       && s.active.entries[id].sessionId != Some(sid.value.s) {
      UpdateActiveKeepsInv(s, id, s.active.entries[id].(sessionId := Some(sid.value.s)));
    }
  }

  /**
   * One event of `consumeEvents`: first a session id in the payload is captured, whatever the
   * event's type; then a `needs_input` event goes through `markAwaitingInput` (and is dropped for
   * a job that is no longer active), and any other event is appended with the job's id as agent
   * id.
   */
  lemma ConsumeEventSpec(s: State, id: string, e: Event, now: string)
    requires Inv(s)
    ensures var res := ConsumeEvent(s, id, e, now);
      && (res.Failure? <==> e.kind == JStr("needs_input") && e.payload == JNull)
      && (res.Success? ==> Inv(res.value))
      && (res.Success? && e.kind == JStr("needs_input") && id in s.active.entries ==>
            && res.value.active.entries[id].status == AwaitingInput
            && LastEvent(res.value, id) == Some(MakeEvent("needs_input", id,
                 NeedsInputPayload(Prop(e.payload, "question"), Prop(e.payload, "options")), now)))
      && (res.Success? && e.kind == JStr("needs_input") && id !in s.active.entries ==> res.value == s)
      && (e.kind != JStr("needs_input") ==> LastEvent(res.value, id) == Some(e.(agentId := id)))
  {
    var payload := if e.payload == JNull then JObj(map[]) else e.payload;
    var s1 := CaptureSession(s, id, SessionIdOf(payload));
    CaptureKeepsInv(s, id, SessionIdOf(payload));
    if e.kind == JStr("needs_input") {
      if e.payload != JNull {
        MarkAwaitingInputSpec(s1, id, Prop(e.payload, "question"), Prop(e.payload, "options"), now);
      }
    } else {
      RecordKeepsInv(s1, id, e.(agentId := id));
    }
  }

  /**
   * The session id an event reports is captured before the event is handled, so it is the
   * job's session id afterwards whatever the event's type, `needs_input` included.
   */
  lemma ConsumeEventCaptures(s: State, id: string, e: Event, now: string, x: string)
    requires id in s.active.entries && |x| > 0
    requires SessionIdOf(if e.payload == JNull then JObj(map[]) else e.payload) == Some(JStr(x))
    ensures var res := ConsumeEvent(s, id, e, now);
      res.Success? ==> id in res.value.active.entries && res.value.active.entries[id].sessionId == Some(x)
  {
    var s1 := CaptureSession(s, id, Some(JStr(x)));
    assert Get(s1.active, id).Some? && Get(s1.active, id).value.sessionId == Some(x);
    if e.kind == JStr("needs_input") && e.payload != JNull {
      var s2 := MarkAwaitingInput(s1, id, Prop(e.payload, "question"), Prop(e.payload, "options"), now);
      assert s2.active == Set(s1.active, id, s1.active.entries[id].(status := AwaitingInput));
    }
  }

  /** `consumeEvents` keeps the invariant, whatever the events. */
  lemma {:induction false} ConsumeKeepsInv(s: State, id: string, events: seq<Event>, now: string)
    requires Inv(s)
    ensures Inv(Consume(s, id, events, now))
    decreases |events|
  {
    if |events| > 0 {
      ConsumeEventSpec(s, id, events[0], now);
      match ConsumeEvent(s, id, events[0], now)
      case Failure(_) =>
      case Success(s1) => ConsumeKeepsInv(s1, id, events[1..], now);
    }
  }

  /** No single event clears the session id of an active job, nor makes the job inactive. */
  lemma SessionIdKeptByEvent(s: State, id: string, e: Event, now: string, k: string)
    requires k in s.active.entries && s.active.entries[k].sessionId.Some?
    ensures var res := ConsumeEvent(s, id, e, now);
      res.Success? ==> k in res.value.active.entries && res.value.active.entries[k].sessionId.Some?
  {
    var payload := if e.payload == JNull then JObj(map[]) else e.payload;
    var s1 := CaptureSession(s, id, SessionIdOf(payload));
    assert Get(s1.active, k).Some? && Get(s1.active, k).value.sessionId.Some?;
    if e.kind == JStr("needs_input") && e.payload != JNull && id in s1.active.entries {
      var s2 := MarkAwaitingInput(s1, id, Prop(e.payload, "question"), Prop(e.payload, "options"), now);
      assert s2.active == Set(s1.active, id, s1.active.entries[id].(status := AwaitingInput));
    }
  }

  /** Session ids are never cleared by any run of events, and no active job leaves. */
  lemma {:induction false} SessionIdsKept(s: State, id: string, events: seq<Event>, now: string, k: string)
    requires k in s.active.entries && s.active.entries[k].sessionId.Some?
    ensures var r := Consume(s, id, events, now);
      k in r.active.entries && r.active.entries[k].sessionId.Some?
    decreases |events|
  {
    if |events| > 0 {
      SessionIdKeptByEvent(s, id, events[0], now, k);
      match ConsumeEvent(s, id, events[0], now)
      case Failure(_) =>
      case Success(s1) => SessionIdsKept(s1, id, events[1..], now, k);
    }
  }

  // ---------------------------------------------------------------------------------------
  // loadSnapshot

  /** The ids of a list of saved jobs. */
  function SavedIds(jobs: seq<Job>): (r: set<string>)
    ensures forall j :: j in jobs ==> j.id in r
  {
    if |jobs| == 0 then {}
    else
      var init := jobs[..|jobs| - 1];
      assert forall j :: j in jobs ==> j in init || j == jobs[|jobs| - 1];
      SavedIds(init) + {jobs[|jobs| - 1].id}
  }

  /** The ids of a list of saved jobs, in order. */
  function IdsOf(jobs: seq<Job>): (r: seq<string>)
    ensures |r| == |jobs| && forall i :: 0 <= i < |jobs| ==> r[i] == jobs[i].id
  {
    if |jobs| == 0 then [] else IdsOf(jobs[..|jobs| - 1]) + [jobs[|jobs| - 1].id]
  }

  /** Keys listed once each already are their own first occurrences. */
  lemma {:induction false} FirstOccurrencesOfDistinct(keys: seq<string>)
    requires Distinct(keys)
    ensures Registry.FirstOccurrences(keys) == keys
  {
    if |keys| > 0 {
      var init := keys[..|keys| - 1];
      FirstOccurrencesOfDistinct(init);
      assert keys[|keys| - 1] !in init;
      assert init + [keys[|keys| - 1]] == keys;
    }
  }

  /**
   * Every job restored from a snapshot is active and `stale`. The active ids are the old ones
   * in their old places, then each new saved id at its first occurrence. A saved id holds the
   * record of its last occurrence in the list, and an active job no saved job replaces keeps
   * its record.
   */
  lemma RestoreActiveSpec(m: OMap<Job>, jobs: seq<Job>)
    requires Valid(m)
    ensures var r := RestoreActive(m, jobs);
      && Valid(r)
      && r.entries.Keys == m.entries.Keys + SavedIds(jobs)
      && r.keys == Registry.FirstOccurrences(m.keys + IdsOf(jobs))
      && (forall k :: k in SavedIds(jobs) ==> r.entries[k].status == Stale)
      && (forall i :: 0 <= i < |jobs| && (forall j :: i < j < |jobs| ==> jobs[j].id != jobs[i].id) ==>
            Get(r, jobs[i].id) == Some(jobs[i].(status := Stale)))
      && (forall k :: k !in SavedIds(jobs) ==> Get(r, k) == Get(m, k))
  {
    RestoreActiveEntries(m, jobs);
    RestoreActiveOrder(m, jobs);
    forall i | 0 <= i < |jobs| && (forall j :: i < j < |jobs| ==> jobs[j].id != jobs[i].id)
      ensures Get(RestoreActive(m, jobs), jobs[i].id) == Some(jobs[i].(status := Stale))
    {
      RestoreLastRecord(m, jobs, i);
    }
  }

  /** The ids, the statuses and the untouched records of `RestoreActiveSpec`, by induction. */
  lemma {:induction false} RestoreActiveEntries(m: OMap<Job>, jobs: seq<Job>)
    requires Valid(m)
    ensures var r := RestoreActive(m, jobs);
      && Valid(r)
      && r.entries.Keys == m.entries.Keys + SavedIds(jobs)
      && (forall k :: k in SavedIds(jobs) ==> r.entries[k].status == Stale)
      && (forall k :: k !in SavedIds(jobs) ==> Get(r, k) == Get(m, k))
  {
    if |jobs| > 0 {
      var init := jobs[..|jobs| - 1];
      var last := jobs[|jobs| - 1];
      RestoreActiveEntries(m, init);
      var r0 := RestoreActive(m, init);
      var r := Set(r0, last.id, last.(status := Stale));
      assert r.entries == r0.entries[last.id := last.(status := Stale)];
    }
  }

  /** The key order of `RestoreActiveSpec`, by induction. */
  lemma {:induction false} RestoreActiveOrder(m: OMap<Job>, jobs: seq<Job>)
    requires Valid(m)
    ensures RestoreActive(m, jobs).keys == Registry.FirstOccurrences(m.keys + IdsOf(jobs))
  {
    if |jobs| == 0 {
      assert m.keys + IdsOf(jobs) == m.keys;
      FirstOccurrencesOfDistinct(m.keys);
    } else {
      var init := jobs[..|jobs| - 1];
      RestoreActiveOrder(m, init);
      RestoreActiveEntries(m, init);
      RestoreKeyOrder(m, jobs, RestoreActive(m, init));
    }
  }

  /** A saved id holds the record of its last occurrence in the list, as `stale`. */
  lemma {:induction false} RestoreLastRecord(m: OMap<Job>, jobs: seq<Job>, i: nat)
    requires i < |jobs| && forall j :: i < j < |jobs| ==> jobs[j].id != jobs[i].id
    ensures Get(RestoreActive(m, jobs), jobs[i].id) == Some(jobs[i].(status := Stale))
  {
    if i < |jobs| - 1 {
      var init := jobs[..|jobs| - 1];
      assert init[i] == jobs[i];
      assert jobs[|jobs| - 1].id != jobs[i].id;
      forall j | i < j < |init| ensures init[j].id != init[i].id {
        assert init[j] == jobs[j];
      }
      RestoreLastRecord(m, init, i);
    }
  }

  /** One more restored job extends the key order as one more name of `FirstOccurrences`. */
  lemma RestoreKeyOrder(m: OMap<Job>, jobs: seq<Job>, r0: OMap<Job>)
    requires |jobs| > 0 && Valid(m)
    requires r0.keys == Registry.FirstOccurrences(m.keys + IdsOf(jobs[..|jobs| - 1]))
    requires r0.entries.Keys == m.entries.Keys + SavedIds(jobs[..|jobs| - 1])
    ensures var last := jobs[|jobs| - 1];
      Set(r0, last.id, last.(status := Stale)).keys == Registry.FirstOccurrences(m.keys + IdsOf(jobs))
  {
    var last := jobs[|jobs| - 1];
    var names := m.keys + IdsOf(jobs[..|jobs| - 1]);
    IdsOfLast(m.keys, jobs);
    RestoredIdsAreNames(m, jobs[..|jobs| - 1], r0, last.id);
    SetKeysFirstOccurrences(r0, names, last.id, last.(status := Stale));
  }

  /** After restoring some jobs, an id is active exactly when it is an old key or a saved id. */
  lemma RestoredIdsAreNames(m: OMap<Job>, jobs: seq<Job>, r0: OMap<Job>, k: string)
    requires Valid(m) && r0.entries.Keys == m.entries.Keys + SavedIds(jobs)
    ensures k in r0.entries <==> k in m.keys + IdsOf(jobs)
  {
    SavedIdsAreIds(jobs, k);
  }

  /** A map whose key order is the first occurrences of some names keeps that form under `set`. */
  lemma SetKeysFirstOccurrences<V>(r0: OMap<V>, names: seq<string>, x: string, v: V)
    requires r0.keys == Registry.FirstOccurrences(names)
    requires x in r0.entries <==> x in names
    ensures Set(r0, x, v).keys == Registry.FirstOccurrences(names + [x])
  {
    FirstOccurrencesSnoc(names, x);
  }

  lemma IdsOfLast(keys: seq<string>, jobs: seq<Job>)
    requires |jobs| > 0
    ensures keys + IdsOf(jobs) == (keys + IdsOf(jobs[..|jobs| - 1])) + [jobs[|jobs| - 1].id]
  {
    assert IdsOf(jobs) == IdsOf(jobs[..|jobs| - 1]) + [jobs[|jobs| - 1].id];
  }

  /** One more name extends the first occurrences exactly when it is new. */
  lemma FirstOccurrencesSnoc(names: seq<string>, x: string)
    ensures Registry.FirstOccurrences(names + [x])
      == if x in names then Registry.FirstOccurrences(names) else Registry.FirstOccurrences(names) + [x]
  {
    assert (names + [x])[..|names|] == names;
  }

  /** The saved ids are the ids of the saved list. */
  lemma {:induction false} SavedIdsAreIds(jobs: seq<Job>, k: string)
    ensures k in SavedIds(jobs) <==> k in IdsOf(jobs)
  {
    if |jobs| > 0 {
      var init := jobs[..|jobs| - 1];
      SavedIdsAreIds(init, k);
      assert IdsOf(jobs) == IdsOf(init) + [jobs[|jobs| - 1].id];
    }
  }

  /** `loadSnapshot` with nothing stored does nothing. */
  lemma LoadNothing(s: State)
    ensures LoadSnapshot(s, None) == s
  {
  }

  /**
   * `loadSnapshot` restores the saved jobs as active and `stale`, each id with the record of
   * its last occurrence and new ids after the old ones, appends the saved history in order
   * with statuses unchanged, and replays the saved tails through the capped `append`.
   */
  lemma LoadSnapshotSpec(s: State, snap: StateSnapshot)
    requires Inv(s)
    ensures var r := LoadSnapshot(s, Some(snap));
      && (forall j :: j in snap.jobs ==> j.id in r.active.entries && r.active.entries[j.id].status == Stale)
      && r.active.keys == Registry.FirstOccurrences(s.active.keys + IdsOf(snap.jobs))
      && (forall i :: 0 <= i < |snap.jobs| && (forall j :: i < j < |snap.jobs| ==> snap.jobs[j].id != snap.jobs[i].id) ==>
            Get(r.active, snap.jobs[i].id) == Some(snap.jobs[i].(status := Stale)))
      && (forall k :: k !in SavedIds(snap.jobs) ==> Get(r.active, k) == Get(s.active, k))
      && r.completed == s.completed + snap.completed
      && r.tails == ES.ReplayTails(s.tails, snap.eventTails, s.maxTail)
      && ES.Bounded(r.tails, r.maxTail)
      && r.processes == s.processes && r.effects == s.effects && r.saved == s.saved
  {
    RestoreActiveSpec(s.active, snap.jobs);
    ES.ReplayBounded(s.tails, snap.eventTails, s.maxTail);
  }

  /** Restoring jobs with distinct ids into an empty map keeps their order and their data. */
  lemma {:induction false} RestoreIntoEmpty(jobs: seq<Job>)
    requires forall i, j :: 0 <= i < j < |jobs| ==> jobs[i].id != jobs[j].id
    ensures var r := RestoreActive(Empty(), jobs);
      && Valid(r) && |r.keys| == |jobs|
      && forall i :: 0 <= i < |jobs| ==> r.keys[i] == jobs[i].id && r.entries[jobs[i].id] == jobs[i].(status := Stale)
  {
    if |jobs| > 0 {
      var init, last := jobs[..|jobs| - 1], jobs[|jobs| - 1];
      RestoreIntoEmpty(init);
      var m := RestoreActive(Empty(), init);
      forall i | 0 <= i < |init|
        ensures m.keys[i] == jobs[i].id && m.entries[jobs[i].id] == jobs[i].(status := Stale) && m.keys[i] != last.id
      {
        assert init[i] == jobs[i];
      }
      RestoreOneMore(m, jobs);
    }
  }

  /** The last job, with a new id, goes last in the keys, `stale`, and the others stay as they were. */
  lemma RestoreOneMore(m: OMap<Job>, jobs: seq<Job>)
    requires |jobs| > 0 && Valid(m) && |m.keys| == |jobs| - 1
    requires forall i :: 0 <= i < |jobs| - 1 ==>
      m.keys[i] == jobs[i].id && m.entries[jobs[i].id] == jobs[i].(status := Stale) && m.keys[i] != jobs[|jobs| - 1].id
    ensures var last := jobs[|jobs| - 1];
      var r := Set(m, last.id, last.(status := Stale));
      && Valid(r) && |r.keys| == |jobs|
      && forall i :: 0 <= i < |jobs| ==> r.keys[i] == jobs[i].id && r.entries[jobs[i].id] == jobs[i].(status := Stale)
  {
    var last := jobs[|jobs| - 1];
    assert last.id !in m.entries by {
      forall k | k in m.entries ensures k != last.id {
        assert k in m.keys;
      }
    }
    var r := Set(m, last.id, last.(status := Stale));
    assert r.keys == m.keys + [last.id];
    forall i | 0 <= i < |jobs|
      ensures r.keys[i] == jobs[i].id && r.entries[jobs[i].id] == jobs[i].(status := Stale)
    {
      if i < |jobs| - 1 {
        assert Get(r, jobs[i].id) == Get(m, jobs[i].id);
      } else {
        assert Get(r, last.id) == Some(last.(status := Stale));
      }
    }
  }

  /** Restoring the saved active jobs into an empty map gives back the same ids in the same order, all `stale`. */
  lemma RestoreSavedActive(s: State)
    requires Inv(s)
    ensures var r := RestoreActive(Empty(), Values(s.active));
      && r.keys == s.active.keys
      && (forall k :: k in r.entries <==> k in s.active.entries)
      && (forall k :: k in s.active.entries ==> r.entries[k] == s.active.entries[k].(status := Stale))
  {
    var jobs := Values(s.active);
    forall i | 0 <= i < |jobs| ensures jobs[i].id == s.active.keys[i] {
      assert s.active.keys[i] in s.active.entries;
    }
    RestoreIntoEmpty(jobs);
    var r := RestoreActive(Empty(), jobs);
    assert r.keys == s.active.keys;
    forall k | k in s.active.entries ensures r.entries[k] == s.active.entries[k].(status := Stale) {
      var i :| 0 <= i < |s.active.keys| && s.active.keys[i] == k;
    }
  }

  /**
   * Saving and loading round-trip: a new manager that loads the snapshot another one saved has
   * the same active jobs in the same order, all `stale`, the same history and the same tails.
   */
  lemma SaveLoadRoundTrip(s: State)
    requires Inv(s)
    ensures var blank := State(s.maxCompleted, s.maxTail, Empty(), [], map[], map[], [], None);
      var r := LoadSnapshot(blank, Some(SnapshotOf(s)));
      && r.active.keys == s.active.keys
      && (forall k :: k in r.active.entries <==> k in s.active.entries)
      && (forall k :: k in s.active.entries ==> r.active.entries[k] == s.active.entries[k].(status := Stale))
      && r.completed == s.completed
      && r.tails == s.tails
  {
    var blank := State(s.maxCompleted, s.maxTail, Empty(), [], map[], map[], [], None);
    RestoreSavedActive(s);
    ES.SnapshotRoundTrip(s.tails, s.maxTail);
    var snap := SnapshotOf(s);
    assert snap.completed == s.completed && snap.jobs == Values(s.active) && snap.eventTails == s.tails;
    assert LoadSnapshot(blank, Some(snap))
      == blank.(active := RestoreActive(Empty(), Values(s.active)), completed := [] + s.completed,
                tails := ES.ReplayTails(map[], s.tails, s.maxTail));
  }
}
