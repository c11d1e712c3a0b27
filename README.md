# reef job orchestration core, in Dafny

`reef` runs external coding agents (Claude, Codex, OpenCode) as child processes on behalf of a
caller. It normalises their line-oriented JSON output into one event schema and keeps a bounded
per-job event history that callers poll with a timestamp cursor. Callers can send follow-up
input to a live process, or resume a finished job's session with a new process. The state
survives restarts through snapshots.

This project models the engine behind that:

- `agent_manager.dfy` (module `Manager`): the job manager, class `AgentManager`. It holds:
  - the active jobs, an insertion-ordered JavaScript `Map`;
  - the completed history, newest first and capped at MAX_COMPLETED;
  - the event store;
  - the live process handles.

  Every method is proved to change the abstract state exactly as the matching function of
  `manager_spec.dfy` does. `consumeEvents` and `loadSnapshot` keep their loops.
- `manager_spec.dfy` (module `ManagerSpec`): the manager as a state value with one function per
  operation. Process launches, resumes, kills and stdin writes are recorded in an effect log.
  The last snapshot handed to the persistence store is kept in `saved`.
- `manager_props.dfy` (module `ManagerProps`): what the manager keeps true and what each operation
  does. The invariant `Inv` says:
  - the active map is keyed by job id;
  - the history holds each id once and no id is both active and in the history;
  - the history is within its cap;
  - only active jobs have processes;
  - every tail is non-empty and within its cap.

  There is one lemma per operation, plus a save/load round trip.
- `event_store.dfy` (module `EventStore`): the bounded per-job FIFO tail, its strict-greater
  timestamp cursor, and the replay of a snapshot through `append`.
- `jsonl.dfy` (module `Jsonl`): `parseJsonLines`, the buffered line splitter. Its output is
  proved to depend only on the concatenated input, not on where the chunks split.
- `adapters.dfy` (module `Adapters`): the three adapters as capability records, with their
  shared payload mapper and their stdin framing.
- `registry.dfy` (module `Registry`): the name-to-adapter registry.
- `merge_streams.dfy` (module `MergeStreams`): the stream merger. The sources' `data`, `end`
  and `error` callbacks are methods.
- `types.dfy`, `js_map.dfy`, `wrappers.dfy`: the data model (jobs, events, decoded JSON values,
  snapshots), the ordered map, and Option/Result.

External inputs become parameters:

- the clock is a `now` string passed to each operation;
- fresh ids from `nextId` are an `id` argument;
- the process a launch returns is a `token`;
- `JSON.parse` is a `decode` function argument that returns a value or an error message;
- the store's answer to `load()` is the `Option<StateSnapshot>` given to `LoadSnapshot`;
- a process exit is a call of `OnExit(id, code)`.

The `send` operation follows the code, not its description as a no-op. A history job whose
adapter is registered is first moved back to the active map as `running` with no completion
time. This happens before the live-process and resume paths are tried. So when neither path
applies, the job is still reactivated, although no event is appended and nothing is saved
(`ManagerProps.SendReactivates`).

## Model

| member | source | states |
|---|---|---|
| JsMap.Set | src/agent/AgentManager.ts:34 | `map.set`: the key is bound to the value, every other key keeps its binding, a new key goes last in the order and an existing key keeps its place, validity is kept |
| JsMap.Get | src/agent/AgentManager.ts:53 | `map.get`: defined exactly for bound keys, returning their value |
| JsMap.Delete | src/agent/AgentManager.ts:213 | `map.delete`: the key is unbound, every other binding is unchanged, the key order is the old order without the key, validity is kept |
| JsMap.Values | src/agent/AgentManager.ts:41 | `[...map.values()]`: one value per key, in key insertion order |
| JsMap.WithoutDistinct | src/agent/AgentManager.ts:213 | removing a key from a duplicate-free key order leaves it duplicate-free |
| Types.Coalesce | src/adapters/ClaudeAdapter.ts:17 | `a ?? b`: `a` when it is neither undefined nor null, otherwise `b` |
| Types.Prop | src/agent/AgentManager.ts:83 | reading a key of a decoded value is defined exactly for objects holding that key, and then gives that key's value |
| EventStore.LexLessIrreflexive | src/agent/EventStore.ts:17 | the string order used by the cursor is irreflexive |
| EventStore.LexLessTransitive | src/agent/EventStore.ts:17 | the string order is transitive |
| EventStore.LexLessTrichotomy | src/agent/EventStore.ts:17 | exactly one of `a < b`, `a == b`, `b < a` holds |
| EventStore.Push | src/agent/EventStore.ts:8-10 | one `push` and at most one `shift`: within the cap when the tail was, the new event is last, below the cap it is appended, at the cap the oldest event is evicted first |
| EventStore.LastN | src/agent/EventStore.ts:10 | the newest `n` events, or all of them when there are fewer: the suffix of that length |
| EventStore.LastNPush | src/agent/EventStore.ts:9-10 | pushing onto the newest `cap` events gives the newest `cap` events of the extended sequence |
| EventStore.PushAllKeepsNewest | src/agent/EventStore.ts:7-12 | FIFO eviction: after any run of appends, a tail that began within the cap holds exactly the `cap` newest events it has seen |
| EventStore.ReplayFittingTail | src/agent/EventStore.ts:7-12 | appending a tail that fits the cap into an empty slot reproduces it |
| EventStore.AppendTail | src/agent/EventStore.ts:7-12 | `append` adds the job's key, sets its tail to the pushed tail and leaves every other job's tail unchanged |
| EventStore.After | src/agent/EventStore.ts:17 | the filter keeps exactly the events of the tail whose timestamp is strictly greater than the cursor |
| EventStore.AfterAppend | src/agent/EventStore.ts:17 | the filter keeps stored order: filtering a concatenation concatenates the filtered parts |
| EventStore.AfterIsFilter | src/agent/EventStore.ts:17 | the cursor filter is `filter` with the test "timestamp strictly after the cursor" |
| EventStore.FilterAppend | src/agent/EventStore.ts:17 | `filter` of a concatenation is the concatenation of the filtered parts |
| EventStore.AfterAll | src/agent/EventStore.ts:17 | when every event is past the cursor, the whole tail is returned |
| EventStore.ChronologicalAllAfter | src/agent/EventStore.ts:17 | in a chronological tail whose oldest event is past the cursor, every event is |
| EventStore.ChronologicalAfterIsSuffix | src/agent/EventStore.ts:14-18 | on a chronological tail, polling with a cursor returns a suffix of the tail: the newest events, all past the cursor |
| EventStore.Since | src/agent/EventStore.ts:14-18 | `getSince`: empty for an unknown job, the whole tail when the cursor is absent or empty, otherwise the events past the cursor, in stored order (`After` of the job's tail) |
| EventStore.AfterNone | src/agent/EventStore.ts:17 | with no timestamp past the cursor, the result is empty |
| EventStore.NewestCursorIsEmpty | src/agent/EventStore.ts:17 | on a chronological tail, polling with the newest timestamp returns nothing |
| EventStore.ReplayTails | src/agent/AgentManager.ts:194-196 | replaying a snapshot: its keys are the old keys plus the ids with saved events, and a job without saved events keeps its tail |
| EventStore.PushAllBounded | src/agent/EventStore.ts:7-12 | any run of appends keeps a tail within its cap |
| EventStore.ReplayBounded | src/agent/AgentManager.ts:194-196 | replaying any snapshot through `append` keeps every tail within the cap |
| EventStore.Restrict | src/agent/AgentManager.ts:194 | the part of a snapshot whose ids are in a given set |
| EventStore.ReplayAt | src/agent/AgentManager.ts:194-196 | after a replay, a job's tail is its old tail with its saved events appended one by one |
| EventStore.ReplayOther | src/agent/AgentManager.ts:194-196 | what is replayed for one job does not affect another job's tail |
| EventStore.ReplayStep | src/agent/AgentManager.ts:195 | replaying one more saved event of a job equals one more `append` |
| EventStore.AppendEachReplays | src/agent/AgentManager.ts:195 | appending a job's saved events in order equals replaying that job's snapshot entry |
| EventStore.ReplayOneMore | src/agent/AgentManager.ts:194-196 | the snapshot can be replayed job by job, in any order of jobs |
| EventStore.ReplayNoneOrAll | src/agent/AgentManager.ts:194-196 | replaying no job changes nothing, and replaying every job is the whole replay |
| EventStore.SnapshotRoundTrip | src/agent/EventStore.ts:20-22 | replaying a store's own snapshot into an empty store gives back exactly its tails |
| EventStore.EventStore.constructor | src/agent/EventStore.ts:4-5 | a new store is empty and valid |
| EventStore.EventStore.Append | src/agent/EventStore.ts:7-12 | the tails become `AppendTail` of the old tails, and every tail stays non-empty and within the cap |
| EventStore.EventStore.GetSince | src/agent/EventStore.ts:14-18 | answers as `Since` on the current tails |
| EventStore.EventStore.Snapshot | src/agent/EventStore.ts:20-22 | every job id with a tail maps to that tail, and loading the snapshot into an empty store restores it |
| Jsonl.IndexOfNewline | src/adapters/jsonl.ts:13 | `indexOf("\n")`: -1 exactly when there is no newline, otherwise the position of the first one |
| Jsonl.TrimStart | src/adapters/jsonl.ts:15 | drops exactly the leading whitespace |
| Jsonl.TrimEnd | src/adapters/jsonl.ts:15 | drops exactly the trailing whitespace |
| Jsonl.TrimBlank | src/adapters/jsonl.ts:15-17 | a line trims to empty exactly when it is all whitespace, so blank lines are skipped |
| Jsonl.AtLineStartNoRest | src/adapters/jsonl.ts:13-16 | text ending in a newline leaves nothing in the buffer |
| Jsonl.LinesPartition | src/adapters/jsonl.ts:13-16 | the input is its complete lines, each followed by a newline, then a newline-free remainder |
| Jsonl.NoNewlineExtendsRest | src/adapters/jsonl.ts:12-13 | text without a newline only extends the buffer |
| Jsonl.LinesAppend | src/adapters/jsonl.ts:11-16 | after a line boundary, the lines of the rest follow the lines so far |
| Jsonl.OneLine | src/adapters/jsonl.ts:13-16 | newline-free text followed by one newline is exactly one line |
| Jsonl.TrailingTextDropped | src/adapters/jsonl.ts:11-28 | text after the last newline adds no line and stays in the buffer |
| Jsonl.CutAtNewline | src/adapters/jsonl.ts:15-16 | slicing the buffer at its newline keeps the consumed input intact |
| Jsonl.StreamEnd | src/adapters/jsonl.ts:11-28 | when the stream ends, the lines of the whole input are those consumed, and the buffer is the remainder |
| Jsonl.LineEvents | src/adapters/jsonl.ts:15-25 | a line blank after trimming yields no event; otherwise exactly one: the mapped event when the trimmed line decodes and maps, else an `error` event carrying the decoding or mapping error and the trimmed line |
| Jsonl.FlattenAppend | src/adapters/jsonl.ts:13-27 | mapping lines one by one and joining the results splits at any point of the line sequence |
| Jsonl.EventsOfLinesFlatten | src/adapters/jsonl.ts:13-27 | the events of the lines are each line's events, in line order |
| Jsonl.EventsOfLinesAppend | src/adapters/jsonl.ts:13-27 | events come out in line order: the events of two runs of lines are those of the first, then those of the second |
| Jsonl.OneEventPerLine | src/adapters/jsonl.ts:17-25 | the number of events equals the number of non-blank lines |
| Jsonl.MalformedLineRecovered | src/adapters/jsonl.ts:21-24 | a line that fails to decode yields one `error` event with `{message, line}` (the trimmed line), and the following lines parse as if it were absent |
| Jsonl.LineDone | src/adapters/jsonl.ts:14-26 | one pass of the inner loop consumes exactly one line and emits exactly that line's events |
| Jsonl.ParseJsonLines | src/adapters/jsonl.ts:6-29 | the events are those of the complete lines of the concatenated chunks, whatever the chunk boundaries; the final buffer is the newline-free text after the last newline, which is dropped |
| Adapters.MapPayload | src/adapters/ClaudeAdapter.ts:16-19 | event type is `payload.type` when defined, otherwise `"progress"`; agent id `""`; the whole payload is kept; a `null` payload throws and becomes an error |
| Adapters.TypePassesThrough | src/adapters/OpenCodeAdapter.ts:42-45 | any string type (such as `step_start`) passes through unchanged |
| Adapters.SendInput | src/adapters/ClaudeAdapter.ts:22-24 | text is written exactly when the adapter writes stdin and the process has one, and the text is the message followed by one newline |
| Adapters.SendInputIsOneLine | src/adapters/CodexAdapter.ts:37-39 | a message without newlines reaches the agent as exactly one input line |
| Adapters.OpenCodeNeverWrites | src/adapters/OpenCodeAdapter.ts:48-50 | OpenCode's `sendInput` writes nothing, whatever the process |
| Adapters.ClaudeNeverResumes | src/adapters/ClaudeAdapter.ts:7-25 | the manager's resume test never holds for Claude |
| Adapters.ResumableWithSession | src/agent/AgentManager.ts:152 | Codex and OpenCode resume exactly when the job has a non-empty session id |
| Adapters.ParseOutput | src/adapters/CodexAdapter.ts:30-35 | `parseOutput` yields the mapped events of the complete lines of the whole stream |
| Adapters.NoiseKeepsParsing | src/adapters/ClaudeAdapter.ts:15-20 | a noise line becomes one `error` event carrying it, and the events around it are unchanged |
| Registry.FirstOccurrences | src/adapters/registry.ts:14-16 | each name once, in the order of its first appearance |
| Registry.ListIsFirstRegistrationOrder | src/adapters/registry.ts:14-16 | after any registrations, `list()` is every registered name exactly once, in first-registration order |
| Registry.GetIsLastRegistration | src/adapters/registry.ts:6-12 | `get(name)` returns the adapter registered last under that name |
| Registry.AdapterRegistry.constructor | src/adapters/registry.ts:4 | a new registry is empty |
| Registry.AdapterRegistry.Register | src/adapters/registry.ts:6-8 | the map becomes `Set` of the old map: rebinds the name, leaves every other binding alone |
| Registry.AdapterRegistry.Get | src/adapters/registry.ts:10-12 | the bound adapter, or None (undefined) for a name never registered |
| Registry.AdapterRegistry.List | src/adapters/registry.ts:14-16 | the map's key order: every registered name exactly once, in first-registration order (`Registry.ListIsFirstRegistrationOrder`) |
| MergeStreams.Range | src/agent/mergeStreams.ts:10 | the indexes of the sources |
| MergeStreams.NothingProjected | src/agent/mergeStreams.ts:12 | an empty output holds no chunk of any source |
| MergeStreams.ProjectedLengthStep | src/agent/mergeStreams.ts:12 | one forwarded chunk adds one to the chunks the sources account for |
| MergeStreams.OutputIsInterleaving | src/agent/mergeStreams.ts:12 | every output chunk comes from exactly one source, so the sources account for the whole output |
| MergeStreams.ProjectedTotals | src/agent/mergeStreams.ts:12 | when each source's chunks in the output are what it delivered, the sources account for as many chunks as they delivered |
| MergeStreams.MergedStream.OutputCountsReceived | src/agent/mergeStreams.ts:12 | nothing is lost or duplicated: the merged stream holds exactly as many chunks as all sources delivered |
| MergeStreams.MergedStream.constructor | src/agent/mergeStreams.ts:3-10 | all sources open and nothing written; with zero sources the merged stream has ended already |
| MergeStreams.MergedStream.OnData | src/agent/mergeStreams.ts:12 | the chunk is appended to the output at once; each source's chunks appear in the output in their own order |
| MergeStreams.MergedStream.OnEnd | src/agent/mergeStreams.ts:13-16 | `remaining` is the number of open sources; the merged stream ends exactly once, when the last source ends |
| MergeStreams.MergedStream.OnError | src/agent/mergeStreams.ts:17 | the error is re-emitted whatever `remaining` is, and nothing else changes |
| ManagerSpec.SnapshotOf | src/agent/AgentManager.ts:199-205 | the saved jobs are the active jobs in key order, the saved tails are the store's tails, and the saved history is `completed.slice(0, MAX_COMPLETED)`: the first min(cap, length) entries, the whole history when it fits |
| ManagerSpec.CreateJob | src/agent/AgentManager.ts:23-37 | the new job is running, started now, not completed, and bound in the active map under its id |
| ManagerSpec.Unshift | src/agent/AgentManager.ts:214-215 | the job goes first, followed by the old history in order; one old entry is dropped from the end exactly when the cap is exceeded, so the length is the old length plus one or, past the cap, the old length |
| ManagerSpec.FindIndex | src/agent/AgentManager.ts:126 | the first history index holding the id, or -1 when none does |
| ManagerSpec.RemoveAt | src/agent/AgentManager.ts:135 | `splice(i, 1)`: the entries before `i` stay and those after move down by one |
| ManagerSpec.ListJobs | src/agent/AgentManager.ts:40-42 | the active jobs in key insertion order, one per key, followed by the history |
| ManagerSpec.GetJob | src/agent/AgentManager.ts:44-46 | the active job when there is one; otherwise the first history entry with the id, found exactly when some entry has the id |
| ManagerProps.RecordKeepsInv | src/agent/AgentManager.ts:35 | appending an event keeps the invariant, makes it the job's newest event, and changes no other job's tail |
| ManagerProps.UpdateActiveKeepsInv | src/agent/AgentManager.ts:55 | changing an active job's fields in place keeps the invariant and the key order |
| ManagerProps.InitInv | src/agent/AgentManager.ts:12-21 | a new manager, with no jobs, history, tails or processes, satisfies the invariant when both caps are positive |
| ManagerProps.CreateJobSpec | src/agent/AgentManager.ts:23-37 | for a fresh id: the job is running and added last, its tail is exactly one `started` event with task and agent, nothing else changes, and the state is saved |
| ManagerProps.SpawnUnknownAgent | src/agent/AgentManager.ts:103-104 | an unregistered agent fails with `Unknown agent: ...` and changes nothing |
| ManagerProps.SpawnSpec | src/agent/AgentManager.ts:102-120 | a registered agent gives the created job, one launch, and the process attached under the job id; the invariant holds |
| ManagerProps.MarkAwaitingInputSpec | src/agent/AgentManager.ts:52-58 | an active job becomes `awaiting_input` with a `needs_input{question, options}` event and a save; no other job, tail, history entry, process or effect changes; any other id changes nothing |
| ManagerProps.ClearAwaitingInputSpec | src/agent/AgentManager.ts:60-66 | an active job becomes `running` with an `input_sent{message}` event and a save; no other job, tail, history entry, process or effect changes; any other id changes nothing |
| ManagerProps.RetireKeepsInv | src/agent/AgentManager.ts:213-216 | moving an active job to the front of the history keeps the ids apart, the history duplicate-free and the cap |
| ManagerProps.CompleteJobSpec | src/agent/AgentManager.ts:207-218 | for an active job: status and completion time set, an event typed by the status appended, the job removed from the active map and put first in the history, followed by the old history, of length min(cap, old + 1); only this job's process handle dropped; other jobs and tails unchanged; the state saved; otherwise nothing changes |
| ManagerProps.KillSpec | src/agent/AgentManager.ts:179-183 | the process is signalled if there is one; an active job is completed as `completed` with `{reason: "killed"}` whatever its status, first in the history followed by the old history within the cap; only this job's process handle dropped; other jobs and tails unchanged, the state saved; other ids leave the jobs unchanged |
| ManagerProps.OutsideWorldIgnored | src/agent/AgentManager.ts:199-205 | the invariant and the saved snapshot depend neither on the effect log nor on which process handle an active job has |
| ManagerProps.CompleteJobIgnoresEffects | src/agent/AgentManager.ts:207-218 | `completeJob` neither reads nor writes the effect log |
| ManagerProps.OnExitSpec | src/agent/AgentManager.ts:115-118 | exit code 0 completes the job, any other code or none makes it `error`; the event carries `{exitCode}`, `null` when the process was signalled; only this job's process handle is dropped |
| ManagerProps.NotInHistory | src/agent/AgentManager.ts:126 | `findIndex` returns -1 exactly for ids absent from the history |
| ManagerProps.SendUnknownJob | src/agent/AgentManager.ts:126-128 | an id neither active nor in the history changes nothing |
| ManagerProps.SendWithoutAdapter | src/agent/AgentManager.ts:126-131 | a job whose adapter is unregistered, active or found in the history, changes nothing; a history job is not even reopened |
| ManagerProps.SendReactivates | src/agent/AgentManager.ts:133-139 | a history job comes back active, `running`, without completion time, and leaves the history, before any path is tried; without a resumable session no event is added and nothing is saved |
| ManagerProps.DeliverSpec | src/agent/AgentManager.ts:141-176 | path order: a live process gets the stdin write and `input_sent`; otherwise a resumable session launches a resume bound to the session id and `input_sent`; otherwise nothing happens; a delivering path leaves the job `running`; every path keeps the invariant, the active ids and the history |
| ManagerProps.DeliverToProcess | src/agent/AgentManager.ts:141-147 | the stdin path is the logged write, if the adapter makes one, followed by `clearAwaitingInput` |
| ManagerProps.DeliverByResume | src/agent/AgentManager.ts:152-173 | the resume path logs the resume with the session id, the message as task and the job's directory and mode, attaches the new process, then `clearAwaitingInput` |
| ManagerProps.ClearIgnoresOutsideWorld | src/agent/AgentManager.ts:60-66 | `clearAwaitingInput` neither reads nor writes the effect log and the process handles |
| ManagerProps.SendPaths | src/agent/AgentManager.ts:126-141 | an active job with a registered adapter goes straight to the delivery paths, with no reactivation |
| ManagerProps.SendFromHistory | src/agent/AgentManager.ts:133-139 | a job only the history holds is taken out of it and set active as `running` without completion time, and then the message is delivered |
| ManagerProps.RemoveAtDropsId | src/agent/AgentManager.ts:135 | after `splice` no history entry has the removed job's id |
| ManagerProps.RemoveAtKeeps | src/agent/AgentManager.ts:135 | `splice` keeps the history ids distinct and adds none |
| ManagerProps.SendKeepsInv | src/agent/AgentManager.ts:122-177 | `send` keeps the invariant, so active and history ids stay disjoint |
| ManagerProps.ReactivateKeepsInv | src/agent/AgentManager.ts:134-139 | splicing a history entry out and making it active keeps the invariant |
| ManagerProps.CaptureSessionSpec | src/agent/AgentManager.ts:81-87 | a non-empty string reported for an active job becomes its session id, with a save when that changed it; only that job's session id can change, and a session id is never cleared; otherwise nothing changes |
| ManagerProps.SessionIdOrder | src/agent/AgentManager.ts:83 | the reported session id is read from `session_id`, `thread_id`, `sessionID`, `sessionId`, in that order, a missing or `null` key passing to the next |
| ManagerProps.CaptureKeepsInv | src/agent/AgentManager.ts:81-87 | capturing a session id keeps the invariant and the active ids |
| ManagerProps.ConsumeEventCaptures | src/agent/AgentManager.ts:81-98 | the reported session id is captured before the event is handled, so it is the job's session id afterwards whatever the event, `needs_input` included |
| ManagerProps.ConsumeEventSpec | src/agent/AgentManager.ts:73-98 | `needs_input` goes through `markAwaitingInput` and is dropped for an inactive job; other events are appended with the job's id; only a `needs_input` with a null payload throws |
| ManagerProps.ConsumeKeepsInv | src/agent/AgentManager.ts:72-100 | any run of events keeps the invariant |
| ManagerProps.SessionIdKeptByEvent | src/agent/AgentManager.ts:73-98 | no single event clears an active job's session id or makes the job inactive |
| ManagerProps.SessionIdsKept | src/agent/AgentManager.ts:72-100 | a session id once recorded is never cleared by any run of events, and the job stays active |
| ManagerProps.RestoreActiveSpec | src/agent/AgentManager.ts:188-190 | every saved job becomes active as `stale` with the rest of the record of its last occurrence in the list (`{ ...job, status: "stale" }`); the key order is the old keys, then each new saved id at its first occurrence; untouched jobs keep their records |
| ManagerProps.RestoreActiveOrder | src/agent/AgentManager.ts:188-190 | the key order after the restore: the first occurrences of the old keys followed by the saved ids |
| ManagerProps.RestoreLastRecord | src/agent/AgentManager.ts:188-190 | a saved id holds its last saved record, as `stale` |
| ManagerProps.LoadNothing | src/agent/AgentManager.ts:187 | no snapshot, no change |
| ManagerProps.LoadSnapshotSpec | src/agent/AgentManager.ts:185-197 | saved jobs become active and `stale`, each with its last saved record, new ids after the old ones in first-occurrence order, other active jobs unchanged; the saved history is appended in order unchanged; tails are replayed through `append` and stay within the cap; processes and effects unchanged, nothing is saved |
| ManagerProps.RestoreOneMore | src/agent/AgentManager.ts:188-190 | one more saved job with a new id goes last in the key order, as `stale`, and the others keep their places and records |
| ManagerProps.RestoreSavedActive | src/agent/AgentManager.ts:188-190 | restoring the saved active jobs into an empty map gives back the same ids in the same order, all `stale` |
| ManagerProps.RestoreIntoEmpty | src/agent/AgentManager.ts:188-190 | restoring jobs with distinct ids into an empty map keeps their order and their records, as `stale` |
| ManagerProps.SaveLoadRoundTrip | src/agent/AgentManager.ts:185-205 | a new manager loading what another saved has the same active jobs in the same order, all `stale`, the same history and the same tails |
| Manager.AgentManager.constructor | src/agent/AgentManager.ts:12-21 | a new manager has no jobs, no history, no tails and no processes, and its event store is a new object; both caps must be positive |
| Manager.AgentManager.SaveSnapshot | src/agent/AgentManager.ts:199-205 | `saved` is the snapshot of the state at the call (not necessarily what reaches the file; see "## Left out") |
| Manager.AgentManager.CreateJob | src/agent/AgentManager.ts:23-37 | the new state and job are those of `ManagerSpec.CreateJob` |
| Manager.AgentManager.ListJobs | src/agent/AgentManager.ts:40-42 | answers as `ManagerSpec.ListJobs` |
| Manager.AgentManager.GetJob | src/agent/AgentManager.ts:44-46 | answers as `ManagerSpec.GetJob` |
| Manager.AgentManager.GetEvents | src/agent/AgentManager.ts:48-50 | answers as the event store's `Since` on the job's tail |
| Manager.AgentManager.MarkAwaitingInput | src/agent/AgentManager.ts:52-58 | the new state is `ManagerSpec.MarkAwaitingInput` of the old one |
| Manager.AgentManager.ClearAwaitingInput | src/agent/AgentManager.ts:60-66 | the new state is `ManagerSpec.ClearAwaitingInput` of the old one |
| Manager.AgentManager.ConsumeEvents | src/agent/AgentManager.ts:72-100 | the loop leaves the state `ManagerSpec.Consume` gives: each event in order, stopping at the first that throws |
| Manager.AgentManager.ConsumeEvent | src/agent/AgentManager.ts:73-98 | one iteration succeeds exactly when `ManagerSpec.ConsumeEvent` does and then leaves its state; when it throws the state is unchanged |
| Manager.AgentManager.Spawn | src/agent/AgentManager.ts:102-120 | the new state and result are those of `ManagerSpec.Spawn` |
| Manager.AgentManager.Send | src/agent/AgentManager.ts:122-177 | the new state is `ManagerSpec.Send` of the old one |
| Manager.AgentManager.Kill | src/agent/AgentManager.ts:179-183 | the new state is `ManagerSpec.Kill` of the old one |
| Manager.AgentManager.OnExit | src/agent/AgentManager.ts:115-118 | the new state is `ManagerSpec.OnExit` of the old one |
| Manager.AgentManager.LoadSnapshot | src/agent/AgentManager.ts:185-197 | the new state is `ManagerSpec.LoadSnapshot` of the old one |
| Manager.AgentManager.RestoreJobs | src/agent/AgentManager.ts:188-190 | the first loop leaves the active map `ManagerSpec.RestoreActive` of the saved jobs |
| Manager.AgentManager.RestoreCompleted | src/agent/AgentManager.ts:191-193 | the second loop appends the saved history in order |
| Manager.AgentManager.RestoreTails | src/agent/AgentManager.ts:194-196 | the third loop leaves the tails `ReplayTails` of the saved tails |
| Manager.AgentManager.AppendAll | src/agent/AgentManager.ts:195 | the inner loop appends one job's saved events in order |
| Manager.AgentManager.CompleteJob | src/agent/AgentManager.ts:207-218 | the new state is `ManagerSpec.CompleteJob` of the old one |

## Left out

- Process launching (the argument templates, `child_process.spawn`, the wiring of stdout and stderr through `mergeStreams` into `consumeEvents`) and `proc.kill()`: a launch, a resume, a stdin write and a kill signal are entries of the effect log, and a process is an opaque token.
- `attachProcess` is modelled only through its two callers, `spawn` and the resume path of `send`.
- The exit handlers are not tied to the process that installed them. `OnExit(id, code)` finalises whatever job is active under `id`. A killed process that exits after a resume therefore finalises the resumed job, and this race is not explored.
- The asynchronous, fire-and-forget consumption (`void this.consumeEvents(...)`) is not modelled. `ConsumeEvents` takes the events of one stream as a finished sequence. Several streams feeding one job concurrently are not interleaved.
- Manager.AgentManager.ConsumeEvents: the `event.timestamp ?? now` default is not modelled. Events from the adapters always carry a timestamp, so incoming events keep theirs.
- Manager.AgentManager.ConsumeEvents: a `needs_input` event whose payload is `null` makes the source throw, which ends the consumption loop and rejects its promise. The model ends the run at that event and does not model the rejection.
- The clock is one `now` value per operation. `createJob` and `completeJob` read the clock twice in the source, for the job's time and for the event's.
- Adapters.ParseOutput: every event of one parse carries the same `now`, where the source stamps each event as it is made.
- Per-chunk `Buffer.toString()` decoding is not modelled: chunks are text. A multi-byte UTF-8 character split across two chunks would be decoded differently by the source.
- The cursor compares strings by character code, as the model's characters are ordered. JavaScript compares UTF-16 code units, and the two orders differ only outside the Basic Multilingual Plane.
- JSON numbers are integers in the model. Floating point values are not modelled.
- Fields whose value is `undefined` are left out of a JSON object (the `question` and `options` of `needs_input`), as `JSON.stringify` does.
- The persistence store (`src/persistence/fileStore.ts`: the atomic write through a temporary file, and a corrupt or missing file read as an empty state) is not part of this model. Its answer is the `Option<StateSnapshot>` given to `LoadSnapshot`, and each save is recorded in the ghost field `saved`.
- Manager.AgentManager.SaveSnapshot: `saved` is the snapshot as it is at the call, which is not necessarily what is written. The source passes `store.save` the live job objects (only the array holding them is copied) and the live tail arrays (`Object.fromEntries` over the tails, src/agent/EventStore.ts:20-22). Those objects go on changing in place (src/agent/AgentManager.ts:55, 63, 85, 136, 210-211; `push`/`shift` at src/agent/EventStore.ts:9-10), and `FileStore.save` serialises only after `await fs.mkdir` (src/persistence/fileStore.ts:18, 22). The file can therefore hold newer records and tails than the snapshot of the call. The save is also fire-and-forget (`void`), so two overlapping saves can finish their renames in either order, and an older snapshot can overwrite a newer one. The model has no aliasing between the saved snapshot and the live state, and it takes saves in call order.
- MAX_COMPLETED and MAX_EVENT_TAIL come from `config.js`, which is not part of this model. They are constructor parameters, and both must be positive.
- `nextId` (from `ids.js`, which is not part of this model) is an `id` parameter. The uniqueness of ids is the precondition `Fresh` of the lemmas about `createJob` and `spawn`.
- The MCP server, the request transport, and the `reefctl` and `reefwatch` scripts are not part of this model: they are I/O and wiring.
- ManagerProps.LoadSnapshotSpec does not claim the invariant afterwards. `loadSnapshot` pushes the saved history without the cap and does not check that saved ids are distinct from the active ones, so the invariant holds after loading only when the snapshot fits the current state (as after a restart, `ManagerProps.SaveLoadRoundTrip`).
