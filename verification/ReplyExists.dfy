/** Every exchange the benchmark is proved to cope with is one that some reply brings about: nothing is
    assumed to be possible that the client could not record. */
module ReplyExists {
  import opened Common
  import opened Attempts
  import opened EventStream
  import opened Client
  import J = Json
  import M = Matcher
  import T = EventStreamRoundTrip

  /** Of the JSON library: every value has a text, on one line, that reads back as the value. */
  ghost predicate Writes(parse: string -> Option<J.Value>, text: J.Value -> string) {
    forall v: J.Value :: ReadsBackAs(parse, text(v), v)
  }

  ghost predicate ReadsBackAs(parse: string -> Option<J.Value>, text: string, v: J.Value) {
    parse(text) == Some(v) && text != [] && !IsWhitespace(text[0]) && T.OneLine(text) && !IsDone(text)
  }

  // ---- A response that holds what is wanted ----

  function Count(tokens: Option<nat>): J.Value { J.Num(tokens) }

  function TextObject(content: string, reasoning: string): J.Value {
    J.Obj([J.Field(J.Content, J.Str(content)), J.Field(J.Reasoning, J.Str(reasoning))])
  }

  /** One choice with the content, as a streamed response has it and as a response in one piece. */
  function ChoiceWith(content: string, reasoning: string): J.Value {
    J.Obj([J.Field(J.Delta, TextObject(content, reasoning)), J.Field(J.Message, TextObject(content, reasoning)),
           J.Field(J.FinishReason, J.Str("stop"))])
  }

  function UsageOf(prompt: Option<nat>, completion: Option<nat>): J.Value {
    J.Obj([J.Field(J.PromptTokens, Count(prompt)), J.Field(J.CompletionTokens, Count(completion))])
  }

  function Response(content: string, reasoning: string, prompt: Option<nat>, completion: Option<nat>): J.Value {
    J.Obj([J.Field(J.Choices, J.Arr([ChoiceWith(content, reasoning)])), J.Field(J.Usage, UsageOf(prompt, completion))])
  }

  function Pieces(s: string): seq<string> { if s == [] then [] else [s] }

  lemma {:induction false} TwoFields(a: J.Field, b: J.Field, key: J.Name)
    ensures J.Find([a, b], key) == if a.key == key then Some(a.value) else if b.key == key then Some(b.value) else None
  {
    assert [a, b][1..] == [b];
    assert [b][1..] == [];
    assert J.Find([b], key) == if b.key == key then Some(b.value) else None;
  }

  lemma {:induction false} ThreeFields(a: J.Field, b: J.Field, c: J.Field, key: J.Name)
    ensures J.Find([a, b, c], key)
         == if a.key == key then Some(a.value) else if b.key == key then Some(b.value) else if c.key == key then Some(c.value) else None
  {
    assert [a, b, c][1..] == [b, c];
    TwoFields(b, c, key);
  }

  lemma {:induction false} TextsOfString(s: string)
    ensures J.Texts(J.Str(s)) == [s] && J.NonEmpty(J.Texts(J.Str(s))) == Pieces(s)
  {
    assert [s][1..] == [];
    assert J.NonEmpty([]) == [];
  }

  lemma {:induction false} TextObjectIs(content: string, reasoning: string)
    ensures var v := TextObject(content, reasoning);
      && J.Get(v, J.Content) == Some(J.Str(content)) && J.Get(v, J.Reasoning) == Some(J.Str(reasoning))
      && J.Get(v, J.ReasoningContent).None? && J.Get(v, J.Text).None?
  {
    var a, b := J.Field(J.Content, J.Str(content)), J.Field(J.Reasoning, J.Str(reasoning));
    TwoFields(a, b, J.Content);
    TwoFields(a, b, J.Reasoning);
    TwoFields(a, b, J.ReasoningContent);
    TwoFields(a, b, J.Text);
  }

  lemma {:induction false} ChoiceWithIs(content: string, reasoning: string)
    ensures var v := ChoiceWith(content, reasoning);
      && v.Obj? && J.Get(v, J.Index).None? && J.Get(v, J.Delta) == J.Get(v, J.Message) == Some(TextObject(content, reasoning))
      && J.AsText(J.Get(v, J.FinishReason)) == Some("stop")
  {
    var a, b, c := J.Field(J.Delta, TextObject(content, reasoning)), J.Field(J.Message, TextObject(content, reasoning)),
      J.Field(J.FinishReason, J.Str("stop"));
    ThreeFields(a, b, c, J.Index);
    ThreeFields(a, b, c, J.Delta);
    ThreeFields(a, b, c, J.Message);
    ThreeFields(a, b, c, J.FinishReason);
  }

  lemma {:induction false} ResponseIs(content: string, reasoning: string, prompt: Option<nat>, completion: Option<nat>)
    ensures var v := Response(content, reasoning, prompt, completion);
      && J.Get(v, J.Error).None? && J.Get(v, J.Choices) == Some(J.Arr([ChoiceWith(content, reasoning)]))
      && J.Get(v, J.Usage) == Some(UsageOf(prompt, completion))
    ensures var u := UsageOf(prompt, completion);
      && J.AsUnsigned(J.Get(u, J.PromptTokens)) == prompt && J.AsUnsigned(J.Get(u, J.CompletionTokens)) == completion
  {
    var a, b := J.Field(J.Choices, J.Arr([ChoiceWith(content, reasoning)])), J.Field(J.Usage, UsageOf(prompt, completion));
    TwoFields(a, b, J.Error);
    TwoFields(a, b, J.Choices);
    TwoFields(a, b, J.Usage);
    var p, c := J.Field(J.PromptTokens, Count(prompt)), J.Field(J.CompletionTokens, Count(completion));
    TwoFields(p, c, J.PromptTokens);
    TwoFields(p, c, J.CompletionTokens);
  }

  lemma {:induction false} ResponseHasChoice(content: string, reasoning: string, prompt: Option<nat>, completion: Option<nat>, allowEmpty: bool)
    ensures SingleChoice(Response(content, reasoning, prompt, completion), allowEmpty) == Ok(Some(ChoiceWith(content, reasoning)))
  {
    ResponseIs(content, reasoning, prompt, completion);
    ChoiceWithIs(content, reasoning);
  }

  // ---- What is read from it ----

  function Held(content: string, prompt: Option<nat>, completion: Option<nat>, ttft: Option<nat>): Progress {
    Progress([content], Some("stop"), prompt, completion, ttft)
  }

  lemma {:induction false} MetadataIs(content: string, reasoning: string, prompt: Option<nat>, completion: Option<nat>)
    ensures WithMetadata(NOTHING, Response(content, reasoning, prompt, completion)) == NOTHING.(promptTokens := prompt, completionTokens := completion)
  {
    ResponseIs(content, reasoning, prompt, completion);
  }

  /** In one piece: the content, no first-token instant. */
  lemma {:induction false} PlainResponseReads(content: string, reasoning: string, prompt: Option<nat>, completion: Option<nat>)
    ensures ReadValue(Response(content, reasoning, prompt, completion)) == Ok(Held(content, prompt, completion, None))
  {
    ResponseIs(content, reasoning, prompt, completion);
    ResponseHasChoice(content, reasoning, prompt, completion, false);
    MetadataIs(content, reasoning, prompt, completion);
    ChoiceWithIs(content, reasoning);
    TextObjectIs(content, reasoning);
    TextsOfString(content);
    assert PlainTexts(MessageOf(ChoiceWith(content, reasoning))) == [content];
    assert NOTHING.content + [content] == [content];
  }

  lemma {:induction false} ChoiceAdds(p: Progress, content: string, reasoning: string, now: nat)
    requires p.content == [] && p.finishReason.None? && p.ttft.None?
    ensures WithChoice(p, ChoiceWith(content, reasoning), now)
         == Progress(Pieces(content), Some("stop"), p.promptTokens, p.completionTokens, if content == [] == reasoning then None else Some(now))
  {
    ChoiceWithIs(content, reasoning);
    TextObjectIs(content, reasoning);
    TextsOfString(content);
    TextsOfString(reasoning);
  }

  /** Streamed: the content if there is any, and the instant at which some text came. */
  lemma {:induction false} ChunkAbsorbed(content: string, reasoning: string, prompt: Option<nat>, completion: Option<nat>, now: nat)
    ensures var v := Response(content, reasoning, prompt, completion);
      && !IsRefused(v)
      && Absorb(NOTHING, v, now)
         == Progress(Pieces(content), Some("stop"), prompt, completion, if content == [] == reasoning then None else Some(now))
  {
    ResponseIs(content, reasoning, prompt, completion);
    ResponseHasChoice(content, reasoning, prompt, completion, true);
    MetadataIs(content, reasoning, prompt, completion);
    ChoiceAdds(NOTHING.(promptTokens := prompt, completionTokens := completion), content, reasoning, now);
  }

  // ---- The stream that carries it ----

  function OneEvent(text: string): seq<T.Wire> { [T.DataLine([], text, false)] }

  lemma {:induction false} OneEventComesBack(text: string, limit: nat)
    requires text != [] && !IsWhitespace(text[0]) && T.OneLine(text) && Utf8Len(T.Print(OneEvent(text))) <= limit
    ensures var f := Frames(T.Print(OneEvent(text)), Eof, limit); f.end == Closed && |f.events| == 1 && f.events[0].event == text
  {
    var wires := OneEvent(text);
    assert wires[..0] == [];
    assert T.DataOf(wires) == [text];
    assert T.WellFormed(wires[0]);
    assert T.Wires([], wires) == wires && T.Events([], wires) == [text];
    T.PrintedEventsComeBack([], wires, limit);
    var events := Frames(T.Print(wires), Eof, limit).events;
    assert T.Texts(events)[0] == text;
  }

  lemma {:induction false} OneEventRuns(f: Framing, v: J.Value, clock: nat -> nat, parse: string -> Option<J.Value>)
    requires f.end == Closed && |f.events| == 1 && !IsDone(f.events[0].event) && parse(f.events[0].event) == Some(v) && !IsRefused(v)
    requires Absorb(NOTHING, v, clock(f.events[0].line)).finishReason.Some?
    ensures Run(NOTHING, f, clock, HandlerOf(parse)) == Ok(Absorb(NOTHING, v, clock(f.events[0].line)))
  {
    var handle := HandlerOf(parse);
    assert handle(NOTHING, f.events[0].event, clock(f.events[0].line)) == Continues(Absorb(NOTHING, v, clock(f.events[0].line)));
    assert f.events[1..] == [];
    assert Run(Absorb(NOTHING, v, clock(f.events[0].line)), Framing([], Closed), clock, handle) == Ok(Absorb(NOTHING, v, clock(f.events[0].line)));
  }

  // ---- Replies ----

  /** The content to send for an answer: none when nothing may be visible, else with or without the
      expected text. */
  function ContentFor(x: Exchange, expectation: Option<string>): string
    requires x.Answered?
  {
    if !x.visible then []
    else if expectation.None? then ['x']
    else if x.expectationMet == Some(true) then expectation.value + ['x']
    else if expectation.value == ['x'] then ['y'] else ['x']
  }

  /** Reasoning brings a first-token instant without content. */
  function ReasoningFor(x: Exchange): string
    requires x.Answered?
  {
    if x.ttft.Some? then ['x'] else []
  }

  lemma {:induction false} NotInOne(e: string, c: char)
    requires e != [] && e != [c]
    ensures !Occurs(e, [c])
  {
    assert [c][0..1] == [c];
  }

  /** The content is visible when it has to be, and holds what is expected just when it has to. */
  lemma {:induction false} ContentServes(x: Exchange, expectation: Option<string>)
    requires x.Answered? && (x.expectationMet.Some? <==> expectation.Some?) && (expectation.Some? ==> expectation.value != [])
    ensures var content := ContentFor(x, expectation);
      && (M.HasVisible(content) <==> x.visible) && (x.visible ==> content != [])
      && (x.visible && expectation.Some? ==> (Occurs(expectation.value, content) <==> x.expectationMet.value))
  {
    var content := ContentFor(x, expectation);
    if x.visible {
      assert !IsWhitespace(content[|content| - 1]);
      if expectation.Some? {
        var e := expectation.value;
        if x.expectationMet.value { assert OccursAt(e, content, 0); } else { NotInOne(e, content[0]); }
      }
    }
  }

  function ResponseFor(x: Exchange, expectation: Option<string>): J.Value
    requires x.Answered?
  {
    Response(ContentFor(x, expectation), ReasoningFor(x), x.promptTokens, x.completionTokens)
  }

  /** A reply for an exchange: a body that breaks off, or one that declares too much, or one that holds
      what is wanted. */
  function ReplyFor(x: Exchange, stream: bool, expectation: Option<string>, text: J.Value -> string): Reply {
    match x
    case SendFailed(finish) => NoReply(finish)
    case Rejected(status, headers, finish) => Reply(status, headers, None, [], Eof, finish)
    case Unreadable(status, headers, finish, stage) =>
      if stage == Transport then Reply(status, headers, None, [], ReadFailed, finish) else Reply(status, headers, Some(1), [], Eof, finish)
    case Answered(status, headers, finish, _, _, _, _, _) =>
      var body := text(ResponseFor(x, expectation));
      Reply(status, headers, None, if stream then T.Print(OneEvent(body)) else body, Eof, finish)
  }

  /** Enough room for the reply, and none for what it declares when that has to be too much. */
  function LimitFor(x: Exchange, reply: Reply): nat { if x.Answered? && reply.Reply? then Utf8Len(reply.text) else 0 }

  function ClockFor(x: Exchange): nat -> nat {
    (i: nat) => if x.Answered? && x.ttft.Some? then x.ttft.value else 0
  }

  lemma {:induction false} BrokenBody(r: Reader, clock: nat -> nat, parse: string -> Option<J.Value>)
    ensures ParsedBody(Body([], ReadFailed), r, clock, parse) == Err(Transport)
  {
    ReadsNoMore([], ReadFailed, r.limit, 0);
    assert Marks([]) == [];
  }

  lemma {:induction false} OnePiece(content: string)
    ensures Concat([content]) == content && Concat(Pieces(content)) == content
  {
    assert [content][1..] == [] && content + [] == content;
  }

  lemma {:induction false} StreamParses(v: J.Value, text: string, limit: nat, clock: nat -> nat, parse: string -> Option<J.Value>, content: string,
    reasoning: string, prompt: Option<nat>, completion: Option<nat>, now: nat)
    requires v == Response(content, reasoning, prompt, completion) && ReadsBackAs(parse, text, v)
    requires Utf8Len(T.Print(OneEvent(text))) <= limit && forall i :: clock(i) == now
    ensures ParseStream(T.Print(OneEvent(text)), Eof, limit, clock, parse)
         == Ok(Progress(Pieces(content), Some("stop"), prompt, completion, if content == [] == reasoning then None else Some(now)))
  {
    OneEventComesBack(text, limit);
    ChunkAbsorbed(content, reasoning, prompt, completion, now);
    OneEventRuns(Frames(T.Print(OneEvent(text)), Eof, limit), v, clock, parse);
  }

  lemma {:induction false} PlainParses(v: J.Value, text: string, limit: nat, parse: string -> Option<J.Value>, content: string,
    reasoning: string, prompt: Option<nat>, completion: Option<nat>)
    requires v == Response(content, reasoning, prompt, completion) && ReadsBackAs(parse, text, v) && Utf8Len(text) <= limit
    ensures ParseJson(text, Eof, limit, parse) == Ok(Held(content, prompt, completion, None))
  {
    PlainResponseReads(content, reasoning, prompt, completion);
  }

  lemma {:induction false} AnswerParses(x: Exchange, expectation: Option<string>, r: Reader, body: Body, clock: nat -> nat, parse: string -> Option<J.Value>, text: string)
    requires x.Answered? && (x.ttft.Some? ==> r.stream) && (x.visible && r.stream ==> x.ttft.Some?)
    requires x.visible ==> ContentFor(x, expectation) != []
    requires ReadsBackAs(parse, text, ResponseFor(x, expectation)) && clock == ClockFor(x)
    requires body == Body(if r.stream then T.Print(OneEvent(text)) else text, Eof) && Utf8Len(body.text) <= r.limit
    ensures var parsed := ParsedBody(body, r, clock, parse);
      && parsed.Ok? && Concat(parsed.value.content) == ContentFor(x, expectation)
      && parsed.value.promptTokens == x.promptTokens && parsed.value.completionTokens == x.completionTokens && parsed.value.ttft == x.ttft
  {
    var content, reasoning := ContentFor(x, expectation), ReasoningFor(x);
    OnePiece(content);
    if r.stream {
      StreamParses(ResponseFor(x, expectation), text, r.limit, clock, parse, content, reasoning, x.promptTokens, x.completionTokens, clock(0));
    } else {
      PlainParses(ResponseFor(x, expectation), text, r.limit, parse, content, reasoning, x.promptTokens, x.completionTokens);
    }
  }

  /** Every possible exchange is that of some reply, read with enough room by some clock. Where the
      output was empty the record does not say whether an expectation was met, and the exchange may
      differ in that. */
  lemma {:induction false} PossibleHasReply(
    index: nat, x: Exchange, stream: bool, expectation: Option<string>, maxTokens: nat,
    parse: string -> Option<J.Value>, text: J.Value -> string)
    returns (reply: Reply, limit: nat, clock: nat -> nat)
    requires Possible(x, stream, expectation.Some?) && Writes(parse, text) && (expectation.Some? ==> expectation.value != [])
    ensures reply.Reply? ==> reply.status > 0 && reply.headers <= reply.finish
    ensures forall i :: clock(i) <= reply.finish
    ensures var back := ExchangeOf(reply, Reader(stream, expectation, maxTokens, limit), clock, parse);
      && (x.Answered? ==> x.visible) ==> back == x
    ensures Record(index, ExchangeOf(reply, Reader(stream, expectation, maxTokens, limit), clock, parse), maxTokens)
         == Record(index, x, maxTokens)
  {
    reply := ReplyFor(x, stream, expectation, text);
    limit, clock := LimitFor(x, reply), ClockFor(x);
    var r := Reader(stream, expectation, maxTokens, limit);
    match x {
      case SendFailed(_) =>
      case Rejected(_, _, _) =>
      case Unreadable(_, _, _, _) => BrokenBody(r, clock, parse);
      case Answered(_, _, _, _, _, _, _, _) =>
        var v := ResponseFor(x, expectation);
        assert ReadsBackAs(parse, text(v), v);
        AnswerParses(x, expectation, r, Body(reply.text, Eof), clock, parse, text(v));
        ContentServes(x, expectation);
    }
  }
}
