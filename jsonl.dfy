/**
 * The line-oriented JSON event parser (src/adapters/jsonl.ts). Text arrives in chunks; a
 * buffer carried across chunks is cut at each newline; each trimmed, non-blank line is
 * decoded and mapped to an event, or turned into one `error` event when that fails.
 * `JSON.parse` and the adapter's mapper are parameters: `decode` and `mapPayload` return
 * Failure(message) where the source throws.
 */
module Jsonl {
  import opened Wrappers
  import opened Types

  /** `text.indexOf("\n")`: the index of the first newline, or -1 when there is none. */
  function IndexOfNewline(text: string): (r: int)
    ensures -1 <= r < |text|
    ensures r < 0 <==> '\n' !in text
    ensures 0 <= r ==> text[r] == '\n' && '\n' !in text[..r]
  {
    if |text| == 0 then -1
    else if text[0] == '\n' then 0
    else
      var i := IndexOfNewline(text[1..]);
      assert i >= 0 ==> text[..i + 1] == [text[0]] + text[1..][..i];
      if i < 0 then -1 else i + 1
  }

  /** The characters `String.prototype.trim` removes: white space and line terminators. */
  predicate IsJsWhitespace(c: char)
  {
    || c == ' ' || c == '\t' || c == '\n' || c == '\r' || c == '\U{B}' || c == '\U{C}'
    || c == '\U{A0}' || c == '\U{FEFF}' || c == '\U{1680}' || '\U{2000}' <= c <= '\U{200A}'
    || c == '\U{2028}' || c == '\U{2029}' || c == '\U{202F}' || c == '\U{205F}' || c == '\U{3000}'
  }

  function TrimStart(s: string): (r: string)
    ensures |r| <= |s| && r == s[|s| - |r|..]
    ensures r == [] || !IsJsWhitespace(r[0])
    ensures forall i :: 0 <= i < |s| - |r| ==> IsJsWhitespace(s[i])
  {
    if |s| > 0 && IsJsWhitespace(s[0]) then TrimStart(s[1..]) else s
  }

  function TrimEnd(s: string): (r: string)
    ensures |r| <= |s| && r == s[..|r|]
    ensures r == [] || !IsJsWhitespace(r[|r| - 1])
    ensures forall i :: |r| <= i < |s| ==> IsJsWhitespace(s[i])
  {
    if |s| > 0 && IsJsWhitespace(s[|s| - 1]) then TrimEnd(s[..|s| - 1]) else s
  }

  /** `s.trim()`. */
  function Trim(s: string): string
  {
    TrimEnd(TrimStart(s))
  }

  /** A line is skipped exactly when it is made of white space only. */
  lemma TrimBlank(s: string)
    ensures Trim(s) == "" <==> forall i :: 0 <= i < |s| ==> IsJsWhitespace(s[i])
  {
    var t := TrimStart(s);
    if Trim(s) == "" {
      assert |t| == 0;
    }
  }

  /**
   * The newline-terminated lines of `text`, without their newlines, and the text after the
   * last newline, which is not a line yet. Read one character at a time from the end.
   */
  function Split(text: string): (string, seq<string>)
  {
    if |text| == 0 then ("", [])
    else
      var (rest, ls) := Split(text[..|text| - 1]);
      if text[|text| - 1] == '\n' then ("", ls + [rest]) else (rest + [text[|text| - 1]], ls)
  }

  function Lines(text: string): seq<string>
  {
    Split(text).1
  }

  function Rest(text: string): string
  {
    Split(text).0
  }

  /** Each line followed by its newline. */
  function JoinLines(ls: seq<string>): string
  {
    if |ls| == 0 then "" else JoinLines(ls[..|ls| - 1]) + ls[|ls| - 1] + "\n"
  }

  /** Empty, or ending with a newline: the point where a buffer starts afresh. */
  predicate AtLineStart(text: string)
  {
    text == "" || text[|text| - 1] == '\n'
  }

  lemma AtLineStartNoRest(text: string)
    requires AtLineStart(text)
    ensures Rest(text) == ""
  {
  }

  /**
   * The lines partition the text: it is the lines, each with its newline, followed by the
   * rest that the parser never emits.
   */
  lemma {:induction false} LinesPartition(text: string)
    ensures text == JoinLines(Lines(text)) + Rest(text)
    ensures '\n' !in Rest(text)
    ensures forall l :: l in Lines(text) ==> '\n' !in l
    decreases |text|
  {
    if |text| > 0 {
      var init := text[..|text| - 1];
      var c := text[|text| - 1];
      LinesPartition(init);
      var ls, rest := Lines(init), Rest(init);
      assert text == init + [c];
      if c == '\n' {
        assert Lines(text) == ls + [rest];
        assert (ls + [rest])[..|ls|] == ls;
      } else {
        assert Lines(text) == ls && Rest(text) == rest + [c];
      }
    }
  }

  /** Text without a newline only lengthens the rest. */
  lemma {:induction false} NoNewlineExtendsRest(a: string, x: string)
    requires '\n' !in x
    ensures Lines(a + x) == Lines(a) && Rest(a + x) == Rest(a) + x
    decreases |x|
  {
    if |x| == 0 {
      assert a + x == a;
    } else {
      var init := x[..|x| - 1];
      NoNewlineExtendsRest(a, init);
      assert (a + x)[..|a + x| - 1] == a + init;
      assert (Rest(a) + init) + [x[|x| - 1]] == Rest(a) + x;
    }
  }

  /** Lines of a text that starts at a line boundary split there. */
  lemma {:induction false} LinesAppend(a: string, b: string)
    requires AtLineStart(a)
    ensures Lines(a + b) == Lines(a) + Lines(b)
    ensures Rest(a + b) == Rest(b)
    decreases |b|
  {
    if |b| == 0 {
      assert a + b == a;
      AtLineStartNoRest(a);
    } else {
      var init := b[..|b| - 1];
      LinesAppend(a, init);
      assert (a + b)[..|a + b| - 1] == a + init;
      assert (a + b)[|a + b| - 1] == b[|b| - 1];
      assert Lines(a) + Lines(init) + [Rest(init)] == Lines(a) + (Lines(init) + [Rest(init)]);
    }
  }

  /** A newline-free text followed by one newline is one line. */
  lemma OneLine(x: string)
    requires '\n' !in x
    ensures Lines(x + "\n") == [x]
  {
    NoNewlineExtendsRest("", x);
    assert "" + x == x;
    assert (x + "\n")[..|x|] == x;
  }

  /** Text after the last newline, when the stream ends, yields no line. */
  lemma TrailingTextDropped(text: string, tail: string)
    requires AtLineStart(text) && '\n' !in tail
    ensures Lines(text + tail) == Lines(text)
    ensures Rest(text + tail) == tail
  {
    NoNewlineExtendsRest(text, tail);
    AtLineStartNoRest(text);
  }

  /** All chunks, in order. */
  function Concat(chunks: seq<string>): string
  {
    if |chunks| == 0 then "" else Concat(chunks[..|chunks| - 1]) + chunks[|chunks| - 1]
  }

  lemma ConcatStep(chunks: seq<string>, k: nat, done: string, buffer: string)
    requires k < |chunks| && Concat(chunks[..k]) == done + buffer
    ensures Concat(chunks[..k + 1]) == done + (buffer + chunks[k])
  {
    assert chunks[..k + 1][..k] == chunks[..k];
    assert (done + buffer) + chunks[k] == done + (buffer + chunks[k]);
  }

  /** Cutting the buffer at its newline keeps the text read so far. */
  lemma CutAtNewline(done: string, buffer: string, i: int)
    requires 0 <= i < |buffer| && buffer[i] == '\n'
    ensures done + buffer == done + buffer[..i] + "\n" + buffer[i + 1..]
  {
    assert buffer == buffer[..i] + "\n" + buffer[i + 1..];
  }

  /** When the stream ends, the consumed text holds all the lines and the buffer is the rest. */
  lemma StreamEnd(input: string, done: string, buffer: string)
    requires input == done + buffer && AtLineStart(done) && '\n' !in buffer
    ensures Lines(input) == Lines(done)
    ensures input == JoinLines(Lines(input)) + buffer
  {
    TrailingTextDropped(done, buffer);
    LinesPartition(input);
  }

  /** The `error` event for a line that could not be decoded or mapped: payload `{message, line}`. */
  function ErrorEvent(message: string, line: string, now: string): Event
  {
    MakeEvent("error", "", JObj(map["message" := JStr(message), "line" := JStr(line)]), now)
  }

  /**
   * What one raw line (without its newline) yields: nothing for a blank line, the mapped event
   * for a line that decodes and maps, and otherwise one `error` event carrying the failure's
   * message and the trimmed line.
   */
  function LineEvents(raw: string, decode: string -> Result<Json, string>,
                      mapPayload: Json -> Result<Event, string>, now: string): (r: seq<Event>)
    ensures |r| == if Trim(raw) == "" then 0 else 1
    ensures Trim(raw) != "" && decode(Trim(raw)).Success? && mapPayload(decode(Trim(raw)).value).Success? ==>
      r == [mapPayload(decode(Trim(raw)).value).value]
    ensures Trim(raw) != "" && decode(Trim(raw)).Failure? ==>
      r == [ErrorEvent(decode(Trim(raw)).error, Trim(raw), now)]
    ensures Trim(raw) != "" && decode(Trim(raw)).Success? && mapPayload(decode(Trim(raw)).value).Failure? ==>
      r == [ErrorEvent(mapPayload(decode(Trim(raw)).value).error, Trim(raw), now)]
  {
    var line := Trim(raw);
    if line == "" then []
    else match decode(line)
      case Failure(message) => [ErrorEvent(message, line, now)]
      case Success(payload) =>
        match mapPayload(payload)
        case Success(e) => [e]
        case Failure(message) => [ErrorEvent(message, line, now)]
  }

  /** The events of a sequence of lines, line by line. */
  function EventsOfLines(ls: seq<string>, decode: string -> Result<Json, string>,
                         mapPayload: Json -> Result<Event, string>, now: string): seq<Event>
  {
    if |ls| == 0 then []
    else EventsOfLines(ls[..|ls| - 1], decode, mapPayload, now) + LineEvents(ls[|ls| - 1], decode, mapPayload, now)
  }

  /** What each line of `ls` gives under `f`, in line order. */
  function Flatten<T>(ls: seq<string>, f: string -> seq<T>): seq<T>
  {
    if |ls| == 0 then [] else Flatten(ls[..|ls| - 1], f) + f(ls[|ls| - 1])
  }

  lemma {:induction false} FlattenAppend<T>(a: seq<string>, b: seq<string>, f: string -> seq<T>)
    ensures Flatten(a + b, f) == Flatten(a, f) + Flatten(b, f)
    decreases |b|
  {
    if |b| == 0 {
      assert a + b == a;
    } else {
      var init := b[..|b| - 1];
      assert (a + b)[..|a + b| - 1] == a + init;
      FlattenAppend(a, init, f);
    }
  }

  /** The events of the lines are what `LineEvents` gives for each line, in line order. */
  lemma {:induction false} EventsOfLinesFlatten(ls: seq<string>, decode: string -> Result<Json, string>,
                                               mapPayload: Json -> Result<Event, string>, now: string)
    ensures EventsOfLines(ls, decode, mapPayload, now) == Flatten(ls, raw => LineEvents(raw, decode, mapPayload, now))
  {
    if |ls| > 0 {
      EventsOfLinesFlatten(ls[..|ls| - 1], decode, mapPayload, now);
    }
  }

  /** Events come out in line order: the events of two runs of lines are those of each, in turn. */
  lemma EventsOfLinesAppend(a: seq<string>, b: seq<string>, decode: string -> Result<Json, string>,
                            mapPayload: Json -> Result<Event, string>, now: string)
    ensures EventsOfLines(a + b, decode, mapPayload, now)
         == EventsOfLines(a, decode, mapPayload, now) + EventsOfLines(b, decode, mapPayload, now)
  {
    EventsOfLinesFlatten(a + b, decode, mapPayload, now);
    EventsOfLinesFlatten(a, decode, mapPayload, now);
    EventsOfLinesFlatten(b, decode, mapPayload, now);
    FlattenAppend(a, b, raw => LineEvents(raw, decode, mapPayload, now));
  }

  /** How many of the lines are not blank once trimmed. */
  function NonBlank(ls: seq<string>): nat
  {
    if |ls| == 0 then 0 else NonBlank(ls[..|ls| - 1]) + (if Trim(ls[|ls| - 1]) == "" then 0 else 1)
  }

  /** Exactly one event per non-blank line: N good lines and M bad ones give N + M events. */
  lemma {:induction false} OneEventPerLine(ls: seq<string>, decode: string -> Result<Json, string>,
                                          mapPayload: Json -> Result<Event, string>, now: string)
    ensures |EventsOfLines(ls, decode, mapPayload, now)| == NonBlank(ls)
  {
    if |ls| > 0 {
      OneEventPerLine(ls[..|ls| - 1], decode, mapPayload, now);
    }
  }

  /**
   * A line that does not decode yields one `error` event carrying the trimmed line, and the
   * lines after it are parsed as if it were not there.
   */
  lemma MalformedLineRecovered(before: seq<string>, bad: string, after: seq<string>,
                               decode: string -> Result<Json, string>,
                               mapPayload: Json -> Result<Event, string>, now: string)
    requires Trim(bad) != "" && decode(Trim(bad)).Failure?
    ensures EventsOfLines(before + [bad] + after, decode, mapPayload, now)
         == EventsOfLines(before, decode, mapPayload, now)
          + [ErrorEvent(decode(Trim(bad)).error, Trim(bad), now)]
          + EventsOfLines(after, decode, mapPayload, now)
  {
    EventsOfLinesAppend(before + [bad], after, decode, mapPayload, now);
    EventsOfLinesAppend(before, [bad], decode, mapPayload, now);
    assert [bad][..0] == [];
  }

  /**
   * `parseJsonLines`: the events it yields are those of the complete lines of everything the
   * stream delivered, whatever the chunk boundaries. `leftover` is the final buffer, which the
   * source drops when the stream ends.
   */
  method ParseJsonLines(chunks: seq<string>, decode: string -> Result<Json, string>,
                        mapPayload: Json -> Result<Event, string>, now: string)
    returns (events: seq<Event>, leftover: string)
    ensures events == EventsOfLines(Lines(Concat(chunks)), decode, mapPayload, now)
    ensures Concat(chunks) == JoinLines(Lines(Concat(chunks))) + leftover
    ensures '\n' !in leftover
  {
    var buffer := "";
    ghost var done := "";
    events := [];
    var k := 0;
    while k < |chunks|
      invariant 0 <= k <= |chunks|
      invariant Concat(chunks[..k]) == done + buffer
      invariant AtLineStart(done) && '\n' !in buffer
      invariant events == EventsOfLines(Lines(done), decode, mapPayload, now)
    {
      ConcatStep(chunks, k, done, buffer);
      ghost var input := Concat(chunks[..k + 1]);
      buffer := buffer + chunks[k];
      var index := IndexOfNewline(buffer);
      while index >= 0
        invariant input == done + buffer
        invariant AtLineStart(done)
        invariant events == EventsOfLines(Lines(done), decode, mapPayload, now)
        invariant index == IndexOfNewline(buffer)
        decreases |buffer|
      {
        var raw := buffer[..index];
        CutAtNewline(done, buffer, index);
        events := events + LineEvents(raw, decode, mapPayload, now);
        buffer := buffer[index + 1..];
        LineDone(done, raw, decode, mapPayload, now);
        done := done + raw + "\n";
        index := IndexOfNewline(buffer);
      }
      k := k + 1;
    }
    assert chunks[..k] == chunks;
    StreamEnd(Concat(chunks), done, buffer);
    leftover := buffer;
  }

  /** Moving one more line from the buffer to the consumed text. */
  lemma LineDone(done: string, raw: string, decode: string -> Result<Json, string>,
                 mapPayload: Json -> Result<Event, string>, now: string)
    requires AtLineStart(done) && '\n' !in raw
    ensures Lines(done + raw + "\n") == Lines(done) + [raw]
    ensures AtLineStart(done + raw + "\n")
    ensures EventsOfLines(Lines(done) + [raw], decode, mapPayload, now)
         == EventsOfLines(Lines(done), decode, mapPayload, now) + LineEvents(raw, decode, mapPayload, now)
  {
    assert done + raw + "\n" == done + (raw + "\n");
    LinesAppend(done, raw + "\n");
    OneLine(raw);
    assert (Lines(done) + [raw])[..|Lines(done)|] == Lines(done);
  }
}
