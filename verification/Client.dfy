/** One request of the client: what is recorded of an exchange follows from the reply, streamed or in
    one piece, and is of the shape the rest of the benchmark relies on. */
module Client {
  import opened Common
  import opened Attempts
  import opened EventStream
  import C = Completion
  import E = StreamEvidence
  import F = EventStreamFacts
  import J = Json
  import M = Matcher

  /** What comes back: nothing, or a status, the declared length if any, and a body whose text ends
      properly, with a byte that is not UTF-8, or with a read error. Instants are nanoseconds after
      the request was started. */
  datatype Reply =
    | NoReply(finish: nat)
    | Reply(status: nat, headers: nat, declared: Option<nat>, text: string, ending: Ending, finish: nat)

  /** How a request is read. */
  datatype Reader = Reader(stream: bool, expectation: Option<string>, maxTokens: nat, limit: nat)

  // ---- An answer in one piece ----

  function MessageOf(choice: J.Value): Option<J.Value> {
    match J.GetFrom(J.Get(choice, J.Message), J.Content)
    case Some(content) => Some(content)
    case None => J.Get(choice, J.Text)
  }

  function PlainTexts(v: Option<J.Value>): seq<string> { if v.None? then [] else J.Texts(v.value) }

  function ReadValue(v: J.Value): Result<Progress, FailureStage> {
    if J.Get(v, J.Error).Some? then Err(Protocol)
    else match SingleChoice(v, false)
      case Err(stage) => Err(stage)
      case Ok(None) => Ok(WithMetadata(NOTHING, v))
      case Ok(Some(choice)) => Ok(WithTexts(WithFinish(WithMetadata(NOTHING, v), choice), PlainTexts(MessageOf(choice))))
  }

  function ParseJson(text: string, ending: Ending, limit: nat, parse: string -> Option<J.Value>): Result<Progress, FailureStage> {
    if ending == ReadFailed then Err(Transport)
    else if ending == InvalidUtf8 || Utf8Len(text) > limit then Err(Protocol)
    else match parse(text)
      case None => Err(Protocol)
      case Some(v) => ReadValue(v)
  }

  method ParseJsonReader(expectation: Option<string>, text: string, ending: Ending, limit: nat, parse: string -> Option<J.Value>)
    returns (parsed: C.ParsedCompletion, result: Result<(), FailureStage>)
    ensures parsed.Valid() && parsed.expectation == expectation
    ensures ParseJson(text, ending, limit, parse) == C.Outcome(result, parsed.Contents())
  {
    parsed := new C.ParsedCompletion(expectation);
    if ending == ReadFailed { return parsed, Err(Transport); }
    if ending == InvalidUtf8 || Utf8Len(text) > limit { return parsed, Err(Protocol); }
    var v := parse(text);
    if v.None? || J.Get(v.value, J.Error).Some? { return parsed, Err(Protocol); }
    parsed.UpdateMetadata(v.value);
    var choice := SingleChoice(v.value, false);
    if choice.Err? { return parsed, Err(choice.error); }
    if choice.value.None? { return parsed, Ok(()); }
    parsed.ReadFinish(choice.value.value);
    var message := MessageOf(choice.value.value);
    if message.Some? { parsed.VisitPlain(message.value); } else { C.NoTexts(parsed.Contents()); }
    return parsed, Ok(());
  }

  /** Where an answer in one piece has its content: the content of the message, or the text beside it. */
  ghost predicate IsContentOf(choice: J.Value, content: string) {
    match J.GetFrom(J.Get(choice, J.Message), J.Content)
    case Some(c) => content == Concat(J.Texts(c))
    case None => content == match J.Get(choice, J.Text) { case Some(c) => Concat(J.Texts(c)) case None => [] }
  }

  /** What an answer in one piece is recorded to hold, read off its value. */
  ghost predicate PlainHolds(p: Progress, v: J.Value) {
    && p.ttft.None? && p.promptTokens == E.UsageIn(v, J.PromptTokens) && p.completionTokens == E.UsageIn(v, J.CompletionTokens)
    && (J.Get(v, J.Choices).None? ==> Concat(p.content) == [] && p.finishReason.None?)
    && (forall choice: J.Value :: IsOnlyChoice(v, choice) ==>
          IsContentOf(choice, Concat(p.content)) && forall reason :: p.finishReason == Some(reason) <==> E.ChoiceFinishes(choice, reason))
  }

  lemma {:induction false} ReadChoiceHolds(v: J.Value, choice: J.Value)
    requires IsOnlyChoice(v, choice)
    ensures var p := WithTexts(WithFinish(WithMetadata(NOTHING, v), choice), PlainTexts(MessageOf(choice)));
      IsContentOf(choice, Concat(p.content)) && forall reason :: p.finishReason == Some(reason) <==> E.ChoiceFinishes(choice, reason)
  {
    var texts := PlainTexts(MessageOf(choice));
    assert [] + texts == texts;
  }

  lemma {:induction false} ReadValueHolds(v: J.Value)
    ensures ReadValue(v).Ok? <==>
      J.Get(v, J.Error).None? && (J.Get(v, J.Choices).None? || exists choice: J.Value :: IsOnlyChoice(v, choice))
    ensures ReadValue(v).Ok? ==> PlainHolds(ReadValue(v).value, v)
  {
    if choice: J.Value :| IsOnlyChoice(v, choice) {
      SingleChoiceIs(v, false, choice);
      ReadChoiceHolds(v, choice);
      forall other: J.Value | IsOnlyChoice(v, other) ensures other == choice { SingleChoiceIs(v, false, other); }
    } else {
      match SingleChoice(v, false) {
        case Ok(Some(choice)) =>
          SingleChoiceIs(v, false, choice);
          assert false;
        case _ => SingleChoiceIs(v, false, v);
      }
    }
  }

  /** An answer in one piece is accepted iff it ends properly within the limit and is a JSON value without
      an error and with one choice or none, and then holds what that value says. */
  lemma {:induction false} PlainAnswerIs(text: string, ending: Ending, limit: nat, parse: string -> Option<J.Value>)
    ensures ParseJson(text, ending, limit, parse).Ok? <==>
      && ending == Eof && Utf8Len(text) <= limit && parse(text).Some? && J.Get(parse(text).value, J.Error).None?
      && (J.Get(parse(text).value, J.Choices).None? || exists choice: J.Value :: IsOnlyChoice(parse(text).value, choice))
    ensures ParseJson(text, ending, limit, parse).Ok? ==> PlainHolds(ParseJson(text, ending, limit, parse).value, parse(text).value)
  {
    if parse(text).Some? { ReadValueHolds(parse(text).value); }
  }

  // ---- The part of a body that is read ----

  /** The characters that fit into so many bytes. */
  function Cut(text: string, most: nat): (r: string)
    ensures Utf8Len(r) <= most && r <= text
  {
    if text == [] || CharBytes(text[0]) > most then [] else [text[0]] + Cut(text[1..], most - CharBytes(text[0]))
  }

  datatype Body = Body(text: string, ending: Ending)

  /** What reading at most so many bytes sees of a body: how it goes on after them is not seen, and a
      character cut in two is no UTF-8. */
  function Take(body: Body, most: nat): Body {
    if Utf8Len(body.text) < most then body
    else
      var text := Cut(body.text, most);
      Body(text, if Utf8Len(text) == most then Eof else InvalidUtf8)
  }

  lemma {:induction false} CutEnds(text: string, most: nat)
    requires Utf8Len(text) >= most
    ensures most < Utf8Len(Cut(text, most)) + 4
  {
    if text != [] && CharBytes(text[0]) <= most { CutEnds(text[1..], most - CharBytes(text[0])); }
  }

  /** A body is seen whole, its ending included, iff it is shorter than what may be read; otherwise the
      read ends properly or within a character, and no more is missing than part of a character. */
  lemma {:induction false} TakeIs(body: Body, most: nat)
    ensures Utf8Len(body.text) < most ==> Take(body, most) == body
    ensures Utf8Len(body.text) >= most ==>
      Take(body, most).ending != ReadFailed && Take(body, most).text <= body.text && most - 4 < Utf8Len(Take(body, most).text) <= most
  {
    if Utf8Len(body.text) >= most { CutEnds(body.text, most); }
  }

  // ---- The exchange a reply tells of ----

  predicate DeclaredFits(reply: Reply, limit: nat)
    requires reply.Reply?
  {
    reply.declared.Some? ==> reply.declared.value <= limit
  }

  ghost function ParsedBody(body: Body, r: Reader, clock: nat -> nat, parse: string -> Option<J.Value>): Result<Progress, FailureStage> {
    if r.stream then ParseStream(body.text, body.ending, r.limit, clock, parse)
    else ParseJson(body.text, body.ending, r.limit, parse)
  }

  /** One byte more than the limit is read, to notice that there is more. */
  ghost function Parsed(reply: Reply, r: Reader, clock: nat -> nat, parse: string -> Option<J.Value>): Result<Progress, FailureStage>
    requires reply.Reply?
  {
    if !DeclaredFits(reply, r.limit) then Err(Protocol)
    else ParsedBody(Take(Body(reply.text, reply.ending), r.limit + 1), r, clock, parse)
  }

  ghost function ExchangeOf(reply: Reply, r: Reader, clock: nat -> nat, parse: string -> Option<J.Value>): Exchange {
    match reply
    case NoReply(finish) => SendFailed(finish)
    case Reply(status, headers, _, _, _, finish) =>
      if !IsSuccess(status) then Rejected(status, headers, finish)
      else Understood(status, headers, finish, Parsed(reply, r, clock, parse), r.expectation)
  }

  /** The exchange of a good response, read with this result. */
  ghost function Understood(status: nat, headers: nat, finish: nat, parsed: Result<Progress, FailureStage>, expectation: Option<string>): Exchange {
    match parsed
    case Err(stage) => Unreadable(status, headers, finish, stage)
    case Ok(p) =>
      Answered(status, headers, finish, M.HasVisible(Concat(p.content)),
               match expectation { case None => None case Some(e) => Some(Occurs(e, Concat(p.content))) },
               p.promptTokens, p.completionTokens, p.ttft)
  }

  method ReadBody(body: Body, r: Reader, clock: nat -> nat, parse: string -> Option<J.Value>)
    returns (parsed: C.ParsedCompletion, result: Result<(), FailureStage>)
    ensures parsed.Valid() && parsed.expectation == r.expectation
    ensures ParsedBody(body, r, clock, parse) == C.Outcome(result, parsed.Contents())
  {
    if r.stream {
      parsed, result := C.ParseStreamReader(r.expectation, body.text, body.ending, r.limit, clock, parse);
    } else {
      parsed, result := ParseJsonReader(r.expectation, body.text, body.ending, r.limit, parse);
    }
  }

  lemma {:induction false} ParsedIs(reply: Reply, r: Reader, clock: nat -> nat, parse: string -> Option<J.Value>, body: Body)
    requires reply.Reply? && body == Take(Body(reply.text, reply.ending), r.limit + 1)
    ensures Parsed(reply, r, clock, parse) == if DeclaredFits(reply, r.limit) then ParsedBody(body, r, clock, parse) else Err(Protocol)
  {
  }

  /** What is read of a good response: nothing when it declares too much. */
  method ReadReply(reply: Reply, r: Reader, clock: nat -> nat, parse: string -> Option<J.Value>)
    returns (parsed: C.ParsedCompletion, result: Result<(), FailureStage>, ghost progress: Result<Progress, FailureStage>)
    requires reply.Reply?
    ensures parsed.Valid() && parsed.expectation == r.expectation
    ensures progress == Parsed(reply, r, clock, parse) && progress == C.Outcome(result, parsed.Contents())
  {
    var body := Take(Body(reply.text, reply.ending), r.limit + 1);
    ParsedIs(reply, r, clock, parse, body);
    progress := Parsed(reply, r, clock, parse);
    if !DeclaredFits(reply, r.limit) {
      parsed := new C.ParsedCompletion(r.expectation);
      return parsed, Err(Protocol), progress;
    }
    parsed, result := ReadBody(body, r, clock, parse);
  }

  /** `execute` and `finish_attempt`: the record of that exchange. */
  method Execute(index: nat, reply: Reply, r: Reader, clock: nat -> nat, parse: string -> Option<J.Value>) returns (a: Attempt)
    ensures a == Record(index, ExchangeOf(reply, r, clock, parse), r.maxTokens)
  {
    if reply.NoReply? { return FailedAttempt(index, Transport, 0, None, Milliseconds(reply.finish)); }
    var headersMs, finishMs := Milliseconds(reply.headers), Milliseconds(reply.finish);
    if !IsSuccess(reply.status) { return FailedAttempt(index, Http, reply.status, Some(headersMs), finishMs); }
    var parsed, result, progress := ReadReply(reply, r, clock, parse);
    GoodExchange(reply, r, clock, parse, progress);
    if result.Err? { return FailedAttempt(index, result.error, reply.status, Some(headersMs), finishMs); }
    a := FinishAttempt(index, reply.status, reply.headers, reply.finish, parsed, r.maxTokens);
  }

  lemma {:induction false} GoodExchange(reply: Reply, r: Reader, clock: nat -> nat, parse: string -> Option<J.Value>, progress: Result<Progress, FailureStage>)
    requires reply.Reply? && IsSuccess(reply.status) && progress == Parsed(reply, r, clock, parse)
    ensures ExchangeOf(reply, r, clock, parse) == Understood(reply.status, reply.headers, reply.finish, progress, r.expectation)
  {
  }

  method FinishAttempt(index: nat, status: nat, headers: nat, finish: nat, parsed: C.ParsedCompletion, maxTokens: nat) returns (a: Attempt)
    requires parsed.Valid()
    ensures a == Record(index, Understood(status, headers, finish, Ok(parsed.Contents()), parsed.expectation), maxTokens)
  {
    parsed.Verdict();
    if !parsed.output.hasNonWhitespace {
      return FailedAttempt(index, EmptyOutput, status, Some(Milliseconds(headers)), Milliseconds(finish));
    }
    var met := parsed.output.expectationMet;
    var success := met.GetOr(true);
    var completion := Within(parsed.completionTokens, maxTokens);
    var ttftMs := match parsed.ttft case None => None case Some(at) => Some(Milliseconds(at));
    a := Attempt(index, success, status, Some(Milliseconds(headers)), ttftMs, Some(Milliseconds(finish)),
                 Within(parsed.promptTokens, MAX_REPORTED_PROMPT_TOKENS), completion,
                 OutputTokenRate(completion, parsed.ttft, finish), met, if success then None else Some(Expectation));
  }

  // ---- Its shape ----

  /** A parse fails while reading or for what was read. */
  ghost predicate ReadingFailure(stage: FailureStage) { stage == Transport || stage == Protocol }

  ghost predicate FailsReading(handle: Handler) {
    forall p, event, now :: handle(p, event, now).Failed? ==> handle(p, event, now).stage == Protocol
  }

  lemma {:induction false} RunFailsReading(p: Progress, f: Framing, clock: nat -> nat, handle: Handler)
    requires FailsReading(handle) && (f.end.Broken? ==> ReadingFailure(f.end.stage)) && Run(p, f, clock, handle).Err?
    ensures ReadingFailure(Run(p, f, clock, handle).error)
    decreases |f.events|
  {
    if f.events != [] && handle(p, f.events[0].event, clock(f.events[0].line)).Continues? {
      RunFailsReading(handle(p, f.events[0].event, clock(f.events[0].line)).progress, Framing(f.events[1..], f.end), clock, handle);
    }
  }

  lemma {:induction false} EndIsReading(text: string, ending: Ending, limit: nat, bytes: nat)
    ensures ReadLines(text, ending, limit, bytes).end.Broken? ==> ReadingFailure(ReadLines(text, ending, limit, bytes).end.stage)
    decreases |text|
  {
    if text != [] && (HasLine(text) || ending == Eof) {
      ReadsNext(text, ending, limit, bytes);
      EndIsReading(Tail(text), ending, limit, bytes + Utf8Len(Head(text)));
    } else {
      ReadsNoMore(text, ending, limit, bytes);
    }
  }

  lemma {:induction false} StreamFailsReading(text: string, ending: Ending, limit: nat, clock: nat -> nat, parse: string -> Option<J.Value>)
    requires ParseStream(text, ending, limit, clock, parse).Err?
    ensures ReadingFailure(ParseStream(text, ending, limit, clock, parse).error)
  {
    EndIsReading(text, ending, limit, 0);
    RunFailsReading(NOTHING, Frames(text, ending, limit), clock, HandlerOf(parse));
  }

  lemma {:induction false} NothingVisible()
    ensures !M.HasVisible(Concat<char>([]))
  {
  }

  /** What a read comes to: it failed reading, or what it holds is timed as a stream is and not otherwise. */
  ghost predicate ReadProperly(parsed: Result<Progress, FailureStage>, stream: bool, finish: nat) {
    match parsed
    case Err(stage) => ReadingFailure(stage)
    case Ok(p) => (p.ttft.Some? ==> stream && p.ttft.value <= finish) && (stream && M.HasVisible(Concat(p.content)) ==> p.ttft.Some?)
  }

  lemma {:induction false} StreamReadsProperly(body: Body, limit: nat, clock: nat -> nat, parse: string -> Option<J.Value>, finish: nat)
    requires forall i :: clock(i) <= finish
    ensures ReadProperly(ParseStream(body.text, body.ending, limit, clock, parse), true, finish)
  {
    if ParseStream(body.text, body.ending, limit, clock, parse).Err? {
      StreamFailsReading(body.text, body.ending, limit, clock, parse);
    } else {
      F.ContentIsTimed(body.text, body.ending, limit, clock, parse);
      NothingVisible();
    }
  }

  lemma {:induction false} PlainReadsProperly(body: Body, limit: nat, parse: string -> Option<J.Value>, finish: nat)
    ensures ReadProperly(ParseJson(body.text, body.ending, limit, parse), false, finish)
  {
  }

  lemma {:induction false} BodyReadsProperly(body: Body, r: Reader, clock: nat -> nat, parse: string -> Option<J.Value>, finish: nat)
    requires forall i :: clock(i) <= finish
    ensures ReadProperly(ParsedBody(body, r, clock, parse), r.stream, finish)
  {
    if r.stream { StreamReadsProperly(body, r.limit, clock, parse, finish); } else { PlainReadsProperly(body, r.limit, parse, finish); }
  }

  lemma {:induction false} ReplyReadsProperly(reply: Reply, r: Reader, clock: nat -> nat, parse: string -> Option<J.Value>)
    requires reply.Reply? && forall i :: clock(i) <= reply.finish
    ensures ReadProperly(Parsed(reply, r, clock, parse), r.stream, reply.finish)
  {
    var body := Take(Body(reply.text, reply.ending), r.limit + 1);
    ParsedIs(reply, r, clock, parse, body);
    BodyReadsProperly(body, r, clock, parse, reply.finish);
  }

  lemma {:induction false} UnderstoodIsPossible(status: nat, headers: nat, finish: nat, parsed: Result<Progress, FailureStage>, expectation: Option<string>, stream: bool)
    requires IsSuccess(status) && headers <= finish && ReadProperly(parsed, stream, finish)
    ensures Possible(Understood(status, headers, finish, parsed, expectation), stream, expectation.Some?)
  {
  }

  /** Whatever comes back, the exchange is a possible one, provided the instants are in order: headers
      before the end, and every look at the clock before the end. */
  lemma {:induction false} EveryExchangeIsPossible(reply: Reply, r: Reader, clock: nat -> nat, parse: string -> Option<J.Value>)
    requires reply.Reply? ==> reply.status > 0 && reply.headers <= reply.finish
    requires forall i :: clock(i) <= reply.finish
    ensures Possible(ExchangeOf(reply, r, clock, parse), r.stream, r.expectation.Some?)
  {
    if reply.Reply? && IsSuccess(reply.status) {
      ReplyReadsProperly(reply, r, clock, parse);
      UnderstoodIsPossible(reply.status, reply.headers, reply.finish, Parsed(reply, r, clock, parse), r.expectation, r.stream);
    }
  }

  // ---- When reading a body fails ----

  /** A run fails for a read error iff the reading ended in one and every event before went on. */
  lemma {:induction false} RunTransportIff(p: Progress, f: Framing, clock: nat -> nat, handle: Handler, goes: string -> bool)
    requires F.Goes(handle, goes)
    ensures Run(p, f, clock, handle) == Err(Transport) <==> f.end == Broken(Transport) && F.AllGoOn(f.events, goes)
    decreases |f.events|
  {
    if f.events != [] {
      var effect := handle(p, f.events[0].event, clock(f.events[0].line));
      assert effect.Continues? <==> goes(f.events[0].event);
      if effect.Continues? {
        RunTransportIff(effect.progress, Framing(f.events[1..], f.end), clock, handle, goes);
        assert F.AllGoOn(f.events, goes) <==> F.AllGoOn(f.events[1..], goes) by {
          assert forall i :: 0 < i < |f.events| ==> f.events[i] == f.events[1..][i - 1];
        }
      }
    }
  }

  /** Reading ends in a read error only when there is one, and within the limit it does. */
  lemma {:induction false} ReadsToError(text: string, ending: Ending, limit: nat, bytes: nat)
    ensures ReadLines(text, ending, limit, bytes).end == Broken(Transport) ==> ending == ReadFailed
    ensures ending == ReadFailed && bytes + Utf8Len(text) <= limit ==> ReadLines(text, ending, limit, bytes).end == Broken(Transport)
    decreases |text|
  {
    if text != [] && (HasLine(text) || ending == Eof) {
      ReadsNext(text, ending, limit, bytes);
      assert text == Head(text) + Tail(text);
      Utf8LenAppend(Head(text), Tail(text));
      ReadsToError(Tail(text), ending, limit, bytes + Utf8Len(Head(text)));
    } else {
      ReadsNoMore(text, ending, limit, bytes);
    }
  }

  /** The body fits the limit and breaks off, and nothing in its complete lines ended a stream before. */
  ghost predicate BreaksOff(reply: Reply, r: Reader, parse: string -> Option<J.Value>) {
    && reply.Reply? && IsSuccess(reply.status) && DeclaredFits(reply, r.limit)
    && Utf8Len(reply.text) <= r.limit && reply.ending == ReadFailed
    && (r.stream ==> F.AllGoOn(Frames(reply.text, ReadFailed, r.limit).events, F.GoesIn(parse)))
  }

  lemma {:induction false} ParseBreaksIff(body: Body, r: Reader, clock: nat -> nat, parse: string -> Option<J.Value>)
    requires Utf8Len(body.text) <= r.limit || body.ending != ReadFailed
    ensures ParsedBody(body, r, clock, parse) == Err(Transport)
       <==> body.ending == ReadFailed
            && (r.stream ==> F.AllGoOn(Frames(body.text, ReadFailed, r.limit).events, F.GoesIn(parse)))
  {
    if r.stream {
      ReadsToError(body.text, body.ending, r.limit, 0);
      F.HandlerGoes(parse);
      RunTransportIff(NOTHING, Frames(body.text, body.ending, r.limit), clock, HandlerOf(parse), F.GoesIn(parse));
    }
  }

  lemma {:induction false} ReadBreaksIff(reply: Reply, r: Reader, clock: nat -> nat, parse: string -> Option<J.Value>)
    requires reply.Reply? && IsSuccess(reply.status)
    ensures Parsed(reply, r, clock, parse) == Err(Transport) <==> BreaksOff(reply, r, parse)
  {
    var body := Body(reply.text, reply.ending);
    TakeIs(body, r.limit + 1);
    ParseBreaksIff(Take(body, r.limit + 1), r, clock, parse);
  }

  /** So the validator accepts what the client records of any reply, but for a body within the limit
      that breaks off before anything in it ended the request. */
  lemma {:induction false} RecordedReplyAcceptedIff(index: nat, reply: Reply, r: Reader, clock: nat -> nat, parse: string -> Option<J.Value>)
    requires reply.Reply? ==> reply.status > 0 && reply.headers <= reply.finish
    requires forall i :: clock(i) <= reply.finish
    ensures ValidAttempt(Record(index, ExchangeOf(reply, r, clock, parse), r.maxTokens), r.stream, r.expectation.Some?, r.maxTokens)
       <==> !BreaksOff(reply, r, parse)
  {
    EveryExchangeIsPossible(reply, r, clock, parse);
    RecordAcceptedIff(index, ExchangeOf(reply, r, clock, parse), r.stream, r.expectation.Some?, r.maxTokens);
    if reply.Reply? && IsSuccess(reply.status) { ReadBreaksIff(reply, r, clock, parse); }
  }
}
