/** The event stream of a streamed completion: how its text is cut into events, what each event does,
    and what comes out in the end. The framing is a variant of section 9.2.6 of the WHATWG HTML
    Living Standard. */
module EventStream {
  import opened Common
  import opened Attempts
  import J = Json

  // ---- Lines ----

  /** How the response ends: properly, with a line that is not UTF-8, or with a read error. */
  datatype Ending = Eof | InvalidUtf8 | ReadFailed

  function StageOf(ending: Ending): FailureStage { if ending == InvalidUtf8 then Protocol else Transport }

  /** Length of the first line, its newline included. */
  function LineLength(text: string): (n: nat)
    ensures n <= |text| && (text != [] ==> n > 0)
  {
    if text == [] then 0 else if text[0] == '\n' then 1 else 1 + LineLength(text[1..])
  }

  predicate HasLine(text: string) { text != [] && text[LineLength(text) - 1] == '\n' }

  function TrimLineEnd(line: string): (r: string)
  {
    if line == [] || (line[|line| - 1] != '\r' && line[|line| - 1] != '\n') then line
    else TrimLineEnd(line[..|line| - 1])
  }

  predicate StartsWith(s: string, prefix: string) { |prefix| <= |s| && s[..|prefix|] == prefix }

  const DATA: string := "data:"

  /** What a line is to the framer. */
  datatype Line = Blank | Ignored | Data(text: string)

  function LineOf(line: string): Line { ValueOf(TrimLineEnd(line)) }

  function ValueOf(value: string): Line {
    if value == [] then Blank
    else if value[0] == ':' then Ignored
    else if StartsWith(value, DATA) then Data(TrimStart(value[|DATA|..]))
    else Ignored
  }

  /** The event text after one more data line. */
  function Grown(event: string, data: string): string { (if event == [] then [] else event + ['\n']) + data }

  // ---- Framing ----

  datatype End = Closed | Broken(stage: FailureStage)

  /** A line as read, and the bytes read up to and with it. */
  datatype Read = Read(line: string, bytes: nat)

  datatype Reading = Reading(lines: seq<Read>, end: End)

  /** One line and what is read after it. */
  function ReadStep(first: string, bytes: nat, limit: nat, later: Reading): Reading {
    var read := bytes + Utf8Len(first);
    if read > limit then Reading([], Broken(Protocol)) else Reading([Read(first, read)] + later.lines, later.end)
  }

  function Head(text: string): string { text[..LineLength(text)] }

  function Tail(text: string): (r: string)
    ensures text != [] ==> |r| < |text|
  {
    text[LineLength(text)..]
  }

  /** The lines of a text, up to its end, to the point where it breaks off, or to the byte limit. */
  function ReadLines(text: string, ending: Ending, limit: nat, bytes: nat): Reading
    decreases |text|
  {
    if !HasLine(text) && ending != Eof then Reading([], Broken(StageOf(ending)))
    else if text == [] then Reading([], Closed)
    else ReadStep(Head(text), bytes, limit, ReadLines(Tail(text), ending, limit, bytes + Utf8Len(Head(text))))
  }

  lemma {:induction false} ReadsNext(text: string, ending: Ending, limit: nat, bytes: nat)
    requires text != [] && (HasLine(text) || ending == Eof)
    ensures ReadLines(text, ending, limit, bytes)
         == ReadStep(Head(text), bytes, limit, ReadLines(Tail(text), ending, limit, bytes + Utf8Len(Head(text))))
  {
  }

  lemma {:induction false} ReadsNoMore(text: string, ending: Ending, limit: nat, bytes: nat)
    requires text == [] || (!HasLine(text) && ending != Eof)
    ensures ReadLines(text, ending, limit, bytes) == Reading([], if ending == Eof then Closed else Broken(StageOf(ending)))
  {
  }

  /** A line seen as what it is to the framer. */
  datatype Mark = Mark(kind: Line, bytes: nat)

  function MarkOf(read: Read): Mark { Mark(LineOf(read.line), read.bytes) }

  function Marks(lines: seq<Read>): (r: seq<Mark>)
    ensures |r| == |lines| && forall i :: 0 <= i < |r| ==> r[i] == MarkOf(lines[i])
  {
    seq(|lines|, i requires 0 <= i < |lines| => MarkOf(lines[i]))
  }

  /** An event as handed on: its text, the number of lines read before it and the bytes read so far. */
  datatype Dispatch = Dispatch(event: string, line: nat, bytes: nat)

  /** The events the marks make up; at the proper end of the stream a pending one is handed on too. */
  function Group(marks: seq<Mark>, closed: bool, event: string, line: nat, bytes: nat): seq<Dispatch> {
    if marks == [] then (if closed && event != [] then [Dispatch(event, line, bytes)] else [])
    else
      var later, read := marks[1..], marks[0].bytes;
      match marks[0].kind
      case Ignored => Group(later, closed, event, line + 1, read)
      case Data(data) => Group(later, closed, Grown(event, data), line + 1, read)
      case Blank =>
        if event == [] then Group(later, closed, [], line + 1, read)
        else [Dispatch(event, line, read)] + Group(later, closed, [], line + 1, read)
  }

  datatype Framing = Framing(events: seq<Dispatch>, end: End)

  /** The events of what is left to be read while an event is being collected. */
  function FramesOf(reading: Reading, event: string, line: nat, bytes: nat): Framing {
    Framing(Group(Marks(reading.lines), reading.end.Closed?, event, line, bytes), reading.end)
  }

  function Frames(text: string, ending: Ending, limit: nat): Framing { FramesOf(ReadLines(text, ending, limit, 0), [], 0, 0) }

  // ---- What an event does ----

  /** What has been read so far: the pieces of generated content, and the rest of the evidence. */
  datatype Progress = Progress(
    content: seq<string>, finishReason: Option<string>, promptTokens: Option<nat>, completionTokens: Option<nat>, ttft: Option<nat>)

  const NOTHING: Progress := Progress([], None, None, None, None)

  datatype Effect = Failed(stage: FailureStage) | Finished | Continues(progress: Progress)

  function SafeFinishReason(reason: Option<string>): Option<string> {
    if reason == Some("stop") || reason == Some("length") || reason == Some("tool_calls")
       || reason == Some("content_filter") || reason == Some("function_call") then reason else None
  }

  function Replaced(current: Option<nat>, next: Option<nat>): Option<nat> { if next.Some? then next else current }

  function WithMetadata(p: Progress, v: J.Value): Progress {
    var usage := J.Get(v, J.Usage);
    p.(promptTokens := Replaced(p.promptTokens, J.AsUnsigned(J.GetFrom(usage, J.PromptTokens))),
       completionTokens := Replaced(p.completionTokens, J.AsUnsigned(J.GetFrom(usage, J.CompletionTokens))))
  }

  /** The one choice of a response. An empty list of choices is no choice where that is allowed. */
  function SingleChoice(v: J.Value, allowEmpty: bool): (r: Result<Option<J.Value>, FailureStage>)
    ensures r.Err? ==> r.error == Protocol
  {
    match J.Get(v, J.Choices)
    case None => Ok(None)
    case Some(choices) =>
      if !choices.Arr? then Err(Protocol)
      else if choices.items == [] && allowEmpty then Ok(None)
      else if |choices.items| != 1 || !choices.items[0].Obj? then Err(Protocol)
      else
        var index := J.Get(choices.items[0], J.Index);
        if index.Some? && J.AsUnsigned(index) != Some(0) then Err(Protocol) else Ok(Some(choices.items[0]))
  }

  /** The list of choices of the response holds this one alone, an object that counts from zero. */
  predicate IsOnlyChoice(v: J.Value, choice: J.Value) {
    && J.Get(v, J.Choices) == Some(J.Arr([choice])) && choice.Obj?
    && (J.Get(choice, J.Index).Some? ==> J.AsUnsigned(J.Get(choice, J.Index)) == Some(0))
  }

  /** A choice is found iff it is the only one; that there is none is accepted of a response without
      choices, and of one with an empty list where that is allowed; all else is a protocol failure. */
  lemma {:induction false} SingleChoiceIs(v: J.Value, allowEmpty: bool, choice: J.Value)
    ensures SingleChoice(v, allowEmpty) == Ok(Some(choice)) <==> IsOnlyChoice(v, choice)
    ensures SingleChoice(v, allowEmpty) == Ok(None) <==> J.Get(v, J.Choices).None? || (allowEmpty && J.Get(v, J.Choices) == Some(J.Arr([])))
    ensures SingleChoice(v, allowEmpty).Err? ==> SingleChoice(v, allowEmpty).error == Protocol
  {
    var choices := J.Get(v, J.Choices);
    if choices.Some? && choices.value.Arr? && |choices.value.items| == 1 {
      assert choices.value.items == [choices.value.items[0]];
    }
  }

  function TextsOf(v: Option<J.Value>): seq<string> { if v.None? then [] else J.NonEmpty(J.Texts(v.value)) }

  /** The first non-empty text of an event, reasoning or content, gives the instant of the first token. */
  function WithContent(p: Progress, texts: seq<string>, now: nat): Progress {
    p.(content := p.content + texts, ttft := if p.ttft.Some? || texts == [] then p.ttft else Some(now))
  }

  function WithReasoning(p: Progress, texts: seq<string>, now: nat): Progress {
    p.(ttft := if p.ttft.Some? || texts == [] then p.ttft else Some(now))
  }

  function WithTexts(p: Progress, texts: seq<string>): Progress { p.(content := p.content + texts) }

  function WithFinish(p: Progress, choice: J.Value): Progress {
    if p.finishReason.Some? then p else p.(finishReason := SafeFinishReason(J.AsText(J.Get(choice, J.FinishReason))))
  }

  function WithChoice(p: Progress, choice: J.Value, now: nat): Progress {
    var delta := J.Get(choice, J.Delta);
    var reasoned := WithReasoning(WithFinish(p, choice), TextsOf(J.GetFrom(delta, J.Reasoning)), now);
    WithContent(WithReasoning(reasoned, TextsOf(J.GetFrom(delta, J.ReasoningContent)), now), TextsOf(J.GetFrom(delta, J.Content)), now)
  }

  predicate IsDone(event: string) { Trim(event) == "[DONE]" }

  /** What an event of the stream adds: metadata, and what its choice holds. */
  function Absorb(p: Progress, v: J.Value, now: nat): Progress {
    match SingleChoice(v, true)
    case Ok(Some(choice)) => WithChoice(WithMetadata(p, v), choice, now)
    case _ => WithMetadata(p, v)
  }

  predicate IsRefused(v: J.Value) { J.Get(v, J.Error).Some? || SingleChoice(v, true).Err? }

  function Process(p: Progress, event: string, now: nat, parse: string -> Option<J.Value>): Effect {
    if IsDone(event) then Finished
    else match parse(event)
      case None => Failed(Protocol)
      case Some(v) => if IsRefused(v) then Failed(Protocol) else Continues(Absorb(p, v, now))
  }

  /** The effect of an event on the progress at some instant. */
  type Handler = (Progress, string, nat) -> Effect

  ghost function HandlerOf(parse: string -> Option<J.Value>): Handler {
    (p: Progress, event: string, now: nat) => Process(p, event, now, parse)
  }

  /** The events in order, until one says that the stream is done; without such an event the stream
      must have given a finish reason. */
  function Run(p: Progress, f: Framing, clock: nat -> nat, handle: Handler): Result<Progress, FailureStage>
    decreases |f.events|
  {
    if f.events == [] then
      match f.end
      case Broken(stage) => Err(stage)
      case Closed => if p.finishReason.None? then Err(Protocol) else Ok(p)
    else
      match handle(p, f.events[0].event, clock(f.events[0].line))
      case Failed(stage) => Err(stage)
      case Finished => Ok(p)
      case Continues(q) => Run(q, Framing(f.events[1..], f.end), clock, handle)
  }

  ghost function ParseStream(text: string, ending: Ending, limit: nat, clock: nat -> nat, parse: string -> Option<J.Value>): Result<Progress, FailureStage> {
    Run(NOTHING, Frames(text, ending, limit), clock, HandlerOf(parse))
  }
}
