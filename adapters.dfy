/**
 * The three agent adapters (src/adapters/ClaudeAdapter.ts, CodexAdapter.ts, OpenCodeAdapter.ts)
 * as capability records, with the payload mapper they share and their stdin framing.
 * Launching a process is not modelled; a process is an opaque token that may or may not
 * have a writable stdin.
 */
module Adapters {
  import opened Wrappers
  import opened Types
  import opened Jsonl

  /** A child process handle: an opaque token, and whether `proc.stdin` is a pipe. */
  datatype Process = Process(token: nat, hasStdin: bool)

  /**
   * What the manager can ask of an adapter. `canResume` is the optional flag, false when
   * absent; `hasResume` says whether a `resume` method exists; `writesStdin` whether
   * `sendInput` writes to stdin at all; `stdinPiped` whether the processes it launches get a
   * stdin pipe (`stdio: ["pipe", ...]`) rather than none (`"ignore"`).
   */
  datatype Adapter = Adapter(name: string, canResume: bool, hasResume: bool, writesStdin: bool, stdinPiped: bool)

  /** ClaudeAdapter: neither `canResume` nor `resume`; input goes to stdin. */
  const Claude := Adapter("claude", false, false, true, true)

  /** CodexAdapter: resumable; input goes to stdin. */
  const Codex := Adapter("codex", true, true, true, true)

  /** OpenCodeAdapter: resumable; launched with stdin ignored, and `sendInput` does nothing. */
  const OpenCode := Adapter("opencode", true, true, false, false)

  /**
   * The mapper all three adapters hand to the parser: the event type is `payload.type ?? "progress"`,
   * the agent id is empty, the payload is the whole decoded value. Reading `.type` of `null`
   * throws, which the parser turns into an `error` event like a decoding failure.
   */
  function MapPayload(payload: Json, now: string): (r: Result<Event, string>)
    ensures r.Failure? <==> payload == JNull
    ensures r.Success? ==> r.value.agentId == "" && r.value.payload == payload && r.value.timestamp == now
    ensures r.Success? && Defined(Prop(payload, "type")) ==> r.value.kind == payload.fields["type"]
    ensures r.Success? && !Defined(Prop(payload, "type")) ==> r.value.kind == JStr("progress")
  {
    if payload == JNull then Failure("Cannot read properties of null (reading 'type')")
    else
      var kind := Coalesce(Prop(payload, "type"), Some(JStr("progress"))).value;
      Success(Event(now, kind, "", payload))
  }

  /** The mapper as the function value `parseJsonLines` receives. */
  function Mapper(now: string): Json -> Result<Event, string>
  {
    payload => MapPayload(payload, now)
  }

  /**
   * Event types pass through unchanged, whatever they are (`assistant`, `thread.started`,
   * `step_start`, ...): a decoded object whose `type` is a string `t` becomes an event of type `t`.
   */
  lemma TypePassesThrough(fields: map<string, Json>, t: string, now: string)
    requires "type" in fields && fields["type"] == JStr(t)
    ensures MapPayload(JObj(fields), now) == Success(Event(now, JStr(t), "", JObj(fields)))
  {
  }

  /** `proc.stdin?.write(message + "\n")`: the text written, if any. */
  function SendInput(a: Adapter, proc: Process, message: string): (r: Option<string>)
    ensures r.Some? <==> a.writesStdin && proc.hasStdin
    ensures r.Some? ==> r.value == message + "\n"
  {
    if a.writesStdin && proc.hasStdin then Some(message + "\n") else None
  }

  /** A message without newlines reaches the agent as exactly one line of its input. */
  lemma SendInputIsOneLine(a: Adapter, proc: Process, message: string)
    requires '\n' !in message && a.writesStdin && proc.hasStdin
    ensures SendInput(a, proc, message).Some?
    ensures Lines(SendInput(a, proc, message).value) == [message]
    ensures Rest(SendInput(a, proc, message).value) == ""
  {
    OneLine(message);
    AtLineStartNoRest(message + "\n");
  }

  /** OpenCode is one-shot: `sendInput` never writes, whatever the process. */
  lemma OpenCodeNeverWrites(proc: Process, message: string)
    ensures SendInput(OpenCode, proc, message) == None
  {
  }

  /** The manager's resume test: `adapter.canResume && adapter.resume && job.sessionId`. */
  predicate CanResumeWith(a: Adapter, sessionId: Option<string>)
  {
    a.canResume && a.hasResume && sessionId.Some? && sessionId.value != ""
  }

  /** The resume path is never taken for Claude, whatever the session id. */
  lemma ClaudeNeverResumes(sessionId: Option<string>)
    ensures !CanResumeWith(Claude, sessionId)
  {
  }

  /** Codex and OpenCode resume exactly when the job has a non-empty session id. */
  lemma ResumableWithSession(sessionId: Option<string>)
    ensures CanResumeWith(Codex, sessionId) <==> sessionId.Some? && sessionId.value != ""
    ensures CanResumeWith(OpenCode, sessionId) <==> sessionId.Some? && sessionId.value != ""
  {
  }

  /**
   * `parseOutput`, the same for the three adapters: the parser run with the shared mapper.
   * One clock reading `now` stands for the time stamps of the events.
   */
  method ParseOutput(chunks: seq<string>, decode: string -> Result<Json, string>, now: string)
    returns (events: seq<Event>)
    ensures events == EventsOfLines(Lines(Concat(chunks)), decode, Mapper(now), now)
  {
    var leftover;
    events, leftover := ParseJsonLines(chunks, decode, Mapper(now), now);
  }

  /**
   * Noise on the output (a stderr warning between two halves of the stream) gives one `error`
   * event carrying the noise line, and the lines around it are mapped as without it.
   */
  lemma NoiseKeepsParsing(before: seq<string>, noise: string, after: seq<string>,
                          decode: string -> Result<Json, string>, now: string)
    requires Trim(noise) != "" && decode(Trim(noise)).Failure?
    ensures var events := EventsOfLines(before + [noise] + after, decode, Mapper(now), now);
      var bad := ErrorEvent(decode(Trim(noise)).error, Trim(noise), now);
      events == EventsOfLines(before, decode, Mapper(now), now) + [bad] + EventsOfLines(after, decode, Mapper(now), now)
      && bad.kind == JStr("error")
  {
    MalformedLineRecovered(before, noise, after, decode, Mapper(now), now);
  }
}
