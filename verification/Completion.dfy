/** The streaming parser of a completion: the loop over lines that reuses one event buffer, and the
    reading of each event into the evidence of one request. */
module Completion {
  import opened Common
  import opened Attempts
  import opened EventStream
  import J = Json
  import M = Matcher

  class ParsedCompletion {
    const output: M.OutputMatcher
    const expectation: Option<string>
    var finishReason: Option<string>
    var promptTokens: Option<nat>
    var completionTokens: Option<nat>
    var ttft: Option<nat>
    ghost var content: seq<string>

    ghost predicate Valid()
      reads this, output, output.prefix
    {
      && output.Valid() && output.pushed == content
      && output.expectation == expectation
    }

    ghost function Contents(): Progress
      reads this
    {
      Progress(content, finishReason, promptTokens, completionTokens, ttft)
    }

    constructor (expectation: Option<string>)
      ensures Valid() && Contents() == NOTHING && this.expectation == expectation && fresh(output) && fresh(output.prefix)
    {
      this.expectation := expectation;
      output := new M.OutputMatcher(expectation);
      finishReason, promptTokens, completionTokens, ttft, content := None, None, None, None, [];
    }

    /** The verdict is about the concatenated content alone: the expectation is met iff it is a
        substring of it, and output was generated iff some character of it is not white space. */
    lemma {:induction false} Verdict()
      requires Valid()
      ensures output.expectationMet.Some? <==> expectation.Some?
      ensures expectation.Some? ==> output.expectationMet.value == Occurs(expectation.value, Concat(content))
      ensures output.hasNonWhitespace <==> M.HasVisible(Concat(content))
    {
      output.Verdict();
    }

    /** The instant of the first token is taken once. */
    method Touch(now: nat)
      modifies this`ttft
      ensures ttft == if old(ttft).Some? then old(ttft) else Some(now)
    {
      if ttft.None? { ttft := Some(now); }
    }

    /** A piece of generated content, handed to the matcher. */
    method PushPlain(text: string)
      requires Valid()
      modifies this`content, output
      ensures Valid() && Contents() == WithTexts(old(Contents()), [text])
    {
      output.Push(text);
      content := content + [text];
    }

    /** A piece of generated content that is not empty. */
    method Push(text: string, now: nat)
      requires Valid() && text != []
      modifies this`ttft, this`content, output
      ensures Valid() && Contents() == WithContent(old(Contents()), [text], now)
    {
      Touch(now);
      PushPlain(text);
    }

    /** Reads content text by text; empty ones count for nothing. */
    method VisitContent(v: J.Value, now: nat)
      requires Valid()
      modifies this`ttft, this`content, output
      ensures Valid() && Contents() == WithContent(old(Contents()), J.NonEmpty(J.Texts(v)), now)
      decreases v, 1
    {
      match v {
        case Str(text) =>
          OneText(text);
          if text != [] { Push(text, now); } else { NothingAdded(Contents(), now); }
        case Arr(items) => VisitItems(v, now);
        case Obj(fields) =>
          J.FoundIsSmaller(fields, J.Text);
          var inner := J.Find(fields, J.Text);
          if inner.Some? { VisitContent(inner.value, now); } else { NothingAdded(Contents(), now); }
        case _ => NothingAdded(Contents(), now);
      }
    }

    /** The items of a list, one after another. */
    method VisitItems(v: J.Value, now: nat)
      requires Valid() && v.Arr?
      modifies this`ttft, this`content, output
      ensures Valid() && Contents() == WithContent(old(Contents()), J.NonEmpty(J.TextsOf(v, |v.items|)), now)
      decreases v, 0
    {
      ghost var before := Contents();
      NothingAdded(before, now);
      for i := 0 to |v.items|
        invariant Valid() && Contents() == WithContent(before, J.NonEmpty(J.TextsOf(v, i)), now)
      {
        VisitContent(v.items[i], now);
        J.NonEmptyAppend(J.TextsOf(v, i), J.Texts(v.items[i]));
        AddedTwice(before, J.NonEmpty(J.TextsOf(v, i)), J.NonEmpty(J.Texts(v.items[i])), now);
      }
    }

    /** Reads reasoning text by text: it counts for the time, never for the content. */
    method VisitReasoning(v: J.Value, now: nat)
      modifies this`ttft
      ensures Contents() == WithReasoning(old(Contents()), J.NonEmpty(J.Texts(v)), now)
      decreases v
    {
      ghost var before := Contents();
      match v {
        case Str(text) =>
          OneText(text);
          if text != [] { Touch(now); }
        case Arr(items) =>
          for i := 0 to |items|
            invariant Contents() == WithReasoning(before, J.NonEmpty(J.TextsOf(v, i)), now)
          {
            VisitReasoning(items[i], now);
            J.NonEmptyAppend(J.TextsOf(v, i), J.Texts(items[i]));
          }
        case Obj(fields) =>
          J.FoundIsSmaller(fields, J.Text);
          var inner := J.Find(fields, J.Text);
          if inner.Some? { VisitReasoning(inner.value, now); }
        case _ =>
      }
    }

    /** Content of an answer in one piece: no instant is taken, and empty texts are pushed like others. */
    method VisitPlain(v: J.Value)
      requires Valid()
      modifies this`content, output
      ensures Valid() && Contents() == WithTexts(old(Contents()), J.Texts(v))
      decreases v
    {
      ghost var before := Contents();
      match v {
        case Str(text) => PushPlain(text);
        case Arr(items) =>
          NoTexts(before);
          for i := 0 to |items|
            invariant Valid() && Contents() == WithTexts(before, J.TextsOf(v, i))
          {
            VisitPlain(items[i]);
            MoreTexts(before, J.TextsOf(v, i), J.Texts(items[i]));
          }
        case Obj(fields) =>
          J.FoundIsSmaller(fields, J.Text);
          var inner := J.Find(fields, J.Text);
          if inner.Some? { VisitPlain(inner.value); } else { NoTexts(before); }
        case _ => NoTexts(before);
      }
    }

    method UpdateMetadata(v: J.Value)
      modifies this`promptTokens, this`completionTokens
      ensures Contents() == WithMetadata(old(Contents()), v)
    {
      var usage := J.Get(v, J.Usage);
      if usage.Some? {
        var prompt := J.AsUnsigned(J.Get(usage.value, J.PromptTokens));
        if prompt.Some? { promptTokens := prompt; }
        var completion := J.AsUnsigned(J.Get(usage.value, J.CompletionTokens));
        if completion.Some? { completionTokens := completion; }
      }
    }

    method ReadReasoning(value: Option<J.Value>, now: nat)
      modifies this`ttft
      ensures Contents() == WithReasoning(old(Contents()), TextsOf(value), now)
    {
      if value.Some? { VisitReasoning(value.value, now); }
    }

    method ReadContent(value: Option<J.Value>, now: nat)
      requires Valid()
      modifies this`ttft, this`content, output
      ensures Valid() && Contents() == WithContent(old(Contents()), TextsOf(value), now)
    {
      if value.Some? { VisitContent(value.value, now); } else { NothingAdded(Contents(), now); }
    }

    method ReadFinish(choice: J.Value)
      modifies this`finishReason
      ensures Contents() == WithFinish(old(Contents()), choice)
    {
      if finishReason.None? { finishReason := SafeFinishReason(J.AsText(J.Get(choice, J.FinishReason))); }
    }

    /** The fields of the delta of the one choice. */
    method ReadChoice(choice: J.Value, now: nat)
      requires Valid()
      modifies this`finishReason, this`ttft, this`content, output
      ensures Valid() && Contents() == WithChoice(old(Contents()), choice, now)
    {
      ReadFinish(choice);
      var delta := J.Get(choice, J.Delta);
      ReadReasoning(J.GetFrom(delta, J.Reasoning), now);
      ReadReasoning(J.GetFrom(delta, J.ReasoningContent), now);
      ReadContent(J.GetFrom(delta, J.Content), now);
    }

    method ProcessStreamEvent(event: string, now: nat, parse: string -> Option<J.Value>) returns (done: Result<bool, FailureStage>)
      requires Valid()
      modifies this, output
      ensures Valid()
      ensures match Process(old(Contents()), event, now, parse)
        case Failed(stage) => done == Err(stage)
        case Finished => done == Ok(true) && Contents() == old(Contents())
        case Continues(q) => done == Ok(false) && Contents() == q
    {
      if Trim(event) == "[DONE]" { return Ok(true); }
      var v := parse(event);
      if v.None? { return Err(Protocol); }
      if J.Get(v.value, J.Error).Some? { return Err(Protocol); }
      UpdateMetadata(v.value);
      var choice := SingleChoice(v.value, true);
      if choice.Err? { return Err(choice.error); }
      if choice.value.Some? { ReadChoice(choice.value.value, now); }
      return Ok(false);
    }
  }

  // ---- What a visit adds ----

  lemma {:induction false} NothingAdded(p: Progress, now: nat)
    ensures WithContent(p, [], now) == p
  {
    assert p.content + [] == p.content;
  }

  lemma {:induction false} AddedTwice(p: Progress, a: seq<string>, b: seq<string>, now: nat)
    ensures WithContent(WithContent(p, a, now), b, now) == WithContent(p, a + b, now)
  {
    assert (p.content + a) + b == p.content + (a + b);
  }

  lemma {:induction false} NoTexts(p: Progress)
    ensures WithTexts(p, []) == p
  {
    assert p.content + [] == p.content;
  }

  lemma {:induction false} MoreTexts(p: Progress, a: seq<string>, b: seq<string>)
    ensures WithTexts(WithTexts(p, a), b) == WithTexts(p, a + b)
  {
    assert (p.content + a) + b == p.content + (a + b);
  }

  lemma {:induction false} OneText(text: string)
    ensures J.NonEmpty([text]) == if text == [] then [] else [text]
  {
  }

  // ---- The loop over the lines ----

  /** What one line leads to: a decision, or an event to go on with. */
  datatype Turn = Stop(result: Result<Progress, FailureStage>) | Go(event: string, progress: Progress)

  function TurnOf(p: Progress, kind: Line, event: string, now: nat, handle: Handler): Turn {
    match kind
    case Ignored => Go(event, p)
    case Data(data) => Go(Grown(event, data), p)
    case Blank =>
      if event == [] then Go(event, p)
      else match handle(p, event, now)
        case Failed(stage) => Stop(Err(stage))
        case Finished => Stop(Ok(p))
        case Continues(q) => Go([], q)
  }

  /** The same parse as a loop would do it, line by line. */
  function Remaining(p: Progress, text: string, ending: Ending, limit: nat, event: string, line: nat, bytes: nat, clock: nat -> nat, handle: Handler): Result<Progress, FailureStage>
    decreases |text|
  {
    if !HasLine(text) && ending != Eof then Err(StageOf(ending))
    else if text == [] then
      match TurnOf(p, Blank, event, clock(line), handle)
      case Stop(result) => result
      case Go(_, q) => if q.finishReason.None? then Err(Protocol) else Ok(q)
    else
      var read := bytes + Utf8Len(Head(text));
      if read > limit then Err(Protocol)
      else match TurnOf(p, LineOf(Head(text)), event, clock(line), handle)
        case Stop(result) => result
        case Go(e, q) => Remaining(q, Tail(text), ending, limit, e, line + 1, read, clock, handle)
  }

  lemma {:induction false} RunFirst(p: Progress, first: Dispatch, later: Framing, clock: nat -> nat, handle: Handler)
    ensures Run(p, Framing([first] + later.events, later.end), clock, handle) ==
      match handle(p, first.event, clock(first.line))
      case Failed(stage) => Err(stage)
      case Finished => Ok(p)
      case Continues(q) => Run(q, later, clock, handle)
  {
    assert ([first] + later.events)[1..] == later.events;
  }

  lemma {:induction false} MarksOfMore(first: Read, later: seq<Read>)
    ensures Marks([first] + later) == [MarkOf(first)] + Marks(later)
  {
  }

  lemma {:induction false} GroupFirst(first: Mark, later: seq<Mark>, closed: bool, event: string, line: nat, bytes: nat)
    ensures Group([first] + later, closed, event, line, bytes) ==
      match first.kind
      case Ignored => Group(later, closed, event, line + 1, first.bytes)
      case Data(data) => Group(later, closed, Grown(event, data), line + 1, first.bytes)
      case Blank => (if event == [] then [] else [Dispatch(event, line, first.bytes)]) + Group(later, closed, [], line + 1, first.bytes)
  {
    assert ([first] + later)[1..] == later;
  }

  /** What is left to happen for a list of marks. */
  function RunMarks(p: Progress, marks: seq<Mark>, end: End, event: string, line: nat, bytes: nat, clock: nat -> nat, handle: Handler): Result<Progress, FailureStage> {
    Run(p, Framing(Group(marks, end.Closed?, event, line, bytes), end), clock, handle)
  }

  lemma {:induction false} MarkAdvances(p: Progress, first: Mark, later: seq<Mark>, end: End, event: string, line: nat, bytes: nat, clock: nat -> nat, handle: Handler)
    ensures RunMarks(p, [first] + later, end, event, line, bytes, clock, handle) ==
      match TurnOf(p, first.kind, event, clock(line), handle)
      case Stop(result) => result
      case Go(e, q) => RunMarks(q, later, end, e, line + 1, first.bytes, clock, handle)
  {
    GroupFirst(first, later, end.Closed?, event, line, bytes);
    if first.kind.Blank? {
      var rest := Framing(Group(later, end.Closed?, [], line + 1, first.bytes), end);
      if event == [] {
        assert [] + rest.events == rest.events;
      } else {
        RunFirst(p, Dispatch(event, line, first.bytes), rest, clock, handle);
      }
    }
  }

  lemma {:induction false} NoMarksLeft(p: Progress, end: End, event: string, line: nat, bytes: nat, clock: nat -> nat, handle: Handler)
    ensures RunMarks(p, [], end, event, line, bytes, clock, handle) ==
      match end
      case Broken(stage) => Err(stage)
      case Closed =>
        match TurnOf(p, Blank, event, clock(line), handle)
        case Stop(result) => result
        case Go(_, q) => if q.finishReason.None? then Err(Protocol) else Ok(q)
  {
    var last := Dispatch(event, line, bytes);
    RunFirst(p, last, Framing([], Closed), clock, handle);
    assert [last] + [] == [last];
  }

  lemma {:induction false} StepMarks(first: string, bytes: nat, limit: nat, later: Reading)
    ensures var r := ReadStep(first, bytes, limit, later);
      if bytes + Utf8Len(first) > limit then r == Reading([], Broken(Protocol))
      else Marks(r.lines) == [Mark(LineOf(first), bytes + Utf8Len(first))] + Marks(later.lines) && r.end == later.end
  {
    MarksOfMore(Read(first, bytes + Utf8Len(first)), later.lines);
  }

  /** One turn of the loop, unfolded. */
  lemma {:induction false} TurnRemains(p: Progress, text: string, ending: Ending, limit: nat, event: string, line: nat, bytes: nat, clock: nat -> nat, handle: Handler, turn: Turn)
    requires text != [] && (HasLine(text) || ending == Eof)
    requires turn == TurnOf(p, LineOf(Head(text)), event, clock(line), handle)
    ensures Remaining(p, text, ending, limit, event, line, bytes, clock, handle) ==
      if bytes + Utf8Len(Head(text)) > limit then Err(Protocol)
      else match turn
        case Stop(result) => result
        case Go(e, q) => Remaining(q, Tail(text), ending, limit, e, line + 1, bytes + Utf8Len(Head(text)), clock, handle)
  {
  }

  /** Line by line, the loop does what the events of the whole text say. */
  lemma {:induction false} LoopIsRun(p: Progress, text: string, reading: Reading, ending: Ending, limit: nat, event: string, line: nat, bytes: nat, clock: nat -> nat, handle: Handler)
    requires reading == ReadLines(text, ending, limit, bytes)
    ensures Remaining(p, text, ending, limit, event, line, bytes, clock, handle)
         == RunMarks(p, Marks(reading.lines), reading.end, event, line, bytes, clock, handle)
    decreases |text|
  {
    if text != [] && (HasLine(text) || ending == Eof) {
      var first, read := Head(text), bytes + Utf8Len(Head(text));
      var later := ReadLines(Tail(text), ending, limit, read);
      var turn := TurnOf(p, LineOf(first), event, clock(line), handle);
      ReadsNext(text, ending, limit, bytes);
      StepAdvances(p, first, LineOf(first), later, limit, event, line, bytes, clock, handle);
      TurnRemains(p, text, ending, limit, event, line, bytes, clock, handle, turn);
      if read <= limit && turn.Go? { LoopIsRun(turn.progress, Tail(text), later, ending, limit, turn.event, line + 1, read, clock, handle); }
    } else {
      ReadsNoMore(text, ending, limit, bytes);
      NoMarksLeft(p, reading.end, event, line, bytes, clock, handle);
      assert Marks([]) == [];
    }
  }

  lemma {:induction false} StepAdvances(p: Progress, first: string, kind: Line, later: Reading, limit: nat, event: string, line: nat, bytes: nat, clock: nat -> nat, handle: Handler)
    requires kind == LineOf(first)
    ensures var r, read := ReadStep(first, bytes, limit, later), bytes + Utf8Len(first);
      RunMarks(p, Marks(r.lines), r.end, event, line, bytes, clock, handle) ==
        if read > limit then Err(Protocol)
        else match TurnOf(p, kind, event, clock(line), handle)
          case Stop(result) => result
          case Go(e, q) => RunMarks(q, Marks(later.lines), later.end, e, line + 1, read, clock, handle)
  {
    StepMarks(first, bytes, limit, later);
    if bytes + Utf8Len(first) > limit {
      NoMarksLeft(p, Broken(Protocol), event, line, bytes, clock, handle);
      assert Marks([]) == [];
    } else {
      MarkAdvances(p, Mark(kind, bytes + Utf8Len(first)), Marks(later.lines), later.end, event, line, bytes, clock, handle);
    }
  }

  /** The value of a decision, given what has been read. */
  ghost function Outcome(decided: Result<(), FailureStage>, contents: Progress): Result<Progress, FailureStage> {
    match decided case Ok(_) => Ok(contents) case Err(stage) => Err(stage)
  }

  /** One line, once it is known what it is to the framer. */
  method HandleLine(parsed: ParsedCompletion, kind: Line, event: string, now: nat, parse: string -> Option<J.Value>)
    returns (next: string, decided: Option<Result<(), FailureStage>>)
    requires parsed.Valid()
    modifies parsed, parsed.output
    ensures parsed.Valid()
    ensures TurnOf(old(parsed.Contents()), kind, event, now, HandlerOf(parse))
         == if decided.Some? then Stop(Outcome(decided.value, parsed.Contents())) else Go(next, parsed.Contents())
  {
    match kind {
      case Ignored => return event, None;
      case Data(data) => return Grown(event, data), None;
      case Blank =>
        if event == [] { return event, None; }
        var done := parsed.ProcessStreamEvent(event, now, parse);
        if done.Err? { return [], Some(Err(done.error)); }
        return [], if done.value then Some(Ok(())) else None;
    }
  }

  /** One turn of the loop: the next line is counted, and handled if the count is within the limit. */
  method TakeLine(parsed: ParsedCompletion, text: string, ending: Ending, limit: nat, event: string, line: nat, bytes: nat, clock: nat -> nat, parse: string -> Option<J.Value>)
    returns (next: string, read: nat, decided: Option<Result<(), FailureStage>>)
    requires parsed.Valid() && text != [] && (HasLine(text) || ending == Eof)
    modifies parsed, parsed.output
    ensures parsed.Valid()
    ensures Remaining(old(parsed.Contents()), text, ending, limit, event, line, bytes, clock, HandlerOf(parse))
         == if decided.Some? then Outcome(decided.value, parsed.Contents())
            else Remaining(parsed.Contents(), Tail(text), ending, limit, next, line + 1, read, clock, HandlerOf(parse))
  {
    var first := Head(text);
    ghost var turn := TurnOf(parsed.Contents(), LineOf(first), event, clock(line), HandlerOf(parse));
    TurnRemains(parsed.Contents(), text, ending, limit, event, line, bytes, clock, HandlerOf(parse), turn);
    next, read := event, bytes + Utf8Len(first);
    if read > limit { return next, read, Some(Err(Protocol)); }
    next, decided := HandleLine(parsed, LineOf(first), event, clock(line), parse);
  }

  /** What follows the last line: the pending event, and the question whether the stream may end here. */
  method TakeEnd(parsed: ParsedCompletion, ending: Ending, event: string, now: nat, parse: string -> Option<J.Value>)
    returns (result: Result<(), FailureStage>)
    requires parsed.Valid()
    modifies parsed, parsed.output
    ensures parsed.Valid()
    ensures Outcome(result, parsed.Contents()) ==
      if ending != Eof then Err(StageOf(ending))
      else match TurnOf(old(parsed.Contents()), Blank, event, now, HandlerOf(parse))
        case Stop(r) => r
        case Go(_, q) => if q.finishReason.None? then Err(Protocol) else Ok(q)
  {
    if ending != Eof { return Err(StageOf(ending)); }
    var next, decided := HandleLine(parsed, Blank, event, now, parse);
    if decided.Some? { return decided.value; }
    return if parsed.finishReason.None? then Err(Protocol) else Ok(());
  }

  /** The loop: one line buffer, one event buffer, a byte count. */
  method ReadStream(parsed: ParsedCompletion, text: string, ending: Ending, limit: nat, clock: nat -> nat, parse: string -> Option<J.Value>)
    returns (result: Result<(), FailureStage>)
    requires parsed.Valid()
    modifies parsed, parsed.output
    ensures parsed.Valid()
    ensures Remaining(old(parsed.Contents()), text, ending, limit, [], 0, 0, clock, HandlerOf(parse)) == Outcome(result, parsed.Contents())
  {
    var rest, event: string, line: nat, bytes: nat := text, [], 0, 0;
    var decided: Option<Result<(), FailureStage>>;
    while rest != [] && (HasLine(rest) || ending == Eof)
      invariant parsed.Valid()
      invariant Remaining(old(parsed.Contents()), text, ending, limit, [], 0, 0, clock, HandlerOf(parse))
             == Remaining(parsed.Contents(), rest, ending, limit, event, line, bytes, clock, HandlerOf(parse))
      decreases |rest|
    {
      event, bytes, decided := TakeLine(parsed, rest, ending, limit, event, line, bytes, clock, parse);
      if decided.Some? { return decided.value; }
      rest, line := Tail(rest), line + 1;
    }
    EndRemains(parsed.Contents(), rest, ending, limit, event, line, bytes, clock, HandlerOf(parse));
    result := TakeEnd(parsed, ending, event, clock(line), parse);
  }

  lemma {:induction false} EndRemains(p: Progress, text: string, ending: Ending, limit: nat, event: string, line: nat, bytes: nat, clock: nat -> nat, handle: Handler)
    requires text == [] || (!HasLine(text) && ending != Eof)
    ensures Remaining(p, text, ending, limit, event, line, bytes, clock, handle) ==
      if ending != Eof then Err(StageOf(ending))
      else match TurnOf(p, Blank, event, clock(line), handle)
        case Stop(result) => result
        case Go(_, q) => if q.finishReason.None? then Err(Protocol) else Ok(q)
  {
  }

  /** A fresh completion after the loop holds what the events of the text come to, or the failure is
      theirs. */
  method ParseStreamReader(expectation: Option<string>, text: string, ending: Ending, limit: nat, clock: nat -> nat, parse: string -> Option<J.Value>)
    returns (parsed: ParsedCompletion, result: Result<(), FailureStage>)
    ensures parsed.Valid() && parsed.expectation == expectation
    ensures ParseStream(text, ending, limit, clock, parse) == Outcome(result, parsed.Contents())
  {
    parsed := new ParsedCompletion(expectation);
    LoopIsRun(NOTHING, text, ReadLines(text, ending, limit, 0), ending, limit, [], 0, 0, clock, HandlerOf(parse));
    result := ReadStream(parsed, text, ending, limit, clock, parse);
  }
}
