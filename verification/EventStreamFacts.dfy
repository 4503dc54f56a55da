/** What the framing of a streamed completion guarantees. */
module EventStreamFacts {
  import opened Common
  import opened Attempts
  import opened EventStream
  import J = Json

  // ---- A result reached early is final ----

  lemma {:induction false} LineLengthExtends(a: string, b: string)
    requires HasLine(a)
    ensures LineLength(a + b) == LineLength(a)
  {
    assert (a + b)[0] == a[0];
    if a[0] != '\n' {
      assert (a + b)[1..] == a[1..] + b;
      LineLengthExtends(a[1..], b);
    }
  }

  lemma {:induction false} LineExtends(a: string, b: string)
    requires HasLine(a)
    ensures HasLine(a + b) && Head(a + b) == Head(a) && Tail(a + b) == Tail(a) + b
  {
    LineLengthExtends(a, b);
  }

  /** What was read before one text breaks off begins what is read of another. */
  ghost predicate Extends(x: Reading, y: Reading) { x.end.Broken? && x.lines <= y.lines }

  lemma {:induction false} StepsExtend(first: string, bytes: nat, limit: nat, x: Reading, y: Reading)
    requires Extends(x, y)
    ensures Extends(ReadStep(first, bytes, limit, x), ReadStep(first, bytes, limit, y))
  {
  }

  lemma {:induction false} ReadsNextOfLonger(a: string, b: string, ending: Ending, limit: nat, bytes: nat)
    requires HasLine(a)
    ensures ReadLines(a + b, ending, limit, bytes)
         == ReadStep(Head(a), bytes, limit, ReadLines(Tail(a) + b, ending, limit, bytes + Utf8Len(Head(a))))
  {
    LineExtends(a, b);
    ReadsNext(a + b, ending, limit, bytes);
  }

  /** Lines read before a text breaks off are the first lines of every continuation. */
  lemma {:induction false} LinesExtend(a: string, broken: Ending, b: string, ending: Ending, limit: nat, bytes: nat)
    requires broken != Eof
    ensures Extends(ReadLines(a, broken, limit, bytes), ReadLines(a + b, ending, limit, bytes))
    decreases |a|
  {
    if HasLine(a) {
      var first, read := Head(a), bytes + Utf8Len(Head(a));
      LinesExtend(Tail(a), broken, b, ending, limit, read);
      StepsExtend(first, bytes, limit, ReadLines(Tail(a), broken, limit, read), ReadLines(Tail(a) + b, ending, limit, read));
      ReadsNext(a, broken, limit, bytes);
      ReadsNextOfLonger(a, b, ending, limit, bytes);
    } else {
      ReadsNoMore(a, broken, limit, bytes);
    }
  }

  lemma {:induction false} GroupExtends(marks: seq<Mark>, more: seq<Mark>, closed: bool, event: string, line: nat, bytes: nat)
    ensures Group(marks, false, event, line, bytes) <= Group(marks + more, closed, event, line, bytes)
    decreases |marks|
  {
    if marks != [] {
      assert (marks + more)[0] == marks[0] && (marks + more)[1..] == marks[1..] + more;
      var read := marks[0].bytes;
      match marks[0].kind {
        case Ignored => GroupExtends(marks[1..], more, closed, event, line + 1, read);
        case Data(data) => GroupExtends(marks[1..], more, closed, Grown(event, data), line + 1, read);
        case Blank => GroupExtends(marks[1..], more, closed, [], line + 1, read);
      }
    }
  }

  lemma {:induction false} MarksExtend(a: seq<Read>, b: seq<Read>)
    requires a <= b
    ensures Marks(b) == Marks(a) + Marks(b[|a|..])
  {
    var x, y := Marks(b), Marks(a) + Marks(b[|a|..]);
    forall i | 0 <= i < |b| ensures x[i] == y[i] {
      if i >= |a| { assert b[|a|..][i - |a|] == b[i]; }
    }
  }

  /** Events handed on before a text breaks off are the first events of every continuation. */
  lemma {:induction false} FramesExtend(a: string, broken: Ending, b: string, ending: Ending, limit: nat)
    requires broken != Eof
    ensures Frames(a, broken, limit).events <= Frames(a + b, ending, limit).events
    ensures Frames(a, broken, limit).end.Broken?
  {
    LinesExtend(a, broken, b, ending, limit, 0);
    var x, y := ReadLines(a, broken, limit, 0), ReadLines(a + b, ending, limit, 0);
    MarksExtend(x.lines, y.lines);
    GroupExtends(Marks(x.lines), Marks(y.lines[|x.lines|..]), y.end.Closed?, [], 0, 0);
  }

  lemma {:induction false} RunExtends(p: Progress, events: seq<Dispatch>, stage: FailureStage, more: seq<Dispatch>, end: End, clock: nat -> nat, handle: Handler)
    requires Run(p, Framing(events, Broken(stage)), clock, handle).Ok?
    ensures Run(p, Framing(events + more, end), clock, handle) == Run(p, Framing(events, Broken(stage)), clock, handle)
    decreases |events|
  {
    assert (events + more)[0] == events[0] && (events + more)[1..] == events[1..] + more;
    match handle(p, events[0].event, clock(events[0].line)) {
      case Continues(q) => RunExtends(q, events[1..], stage, more, end, clock, handle);
      case Finished =>
      case Failed(_) =>
    }
  }

  /** A result that was reached although the stream then broke off does not depend on anything that
      could have followed: not on further bytes, nor on how the stream ends. */
  lemma {:induction false} ReachedResultIsFinal(a: string, broken: Ending, b: string, ending: Ending, limit: nat, clock: nat -> nat, parse: string -> Option<J.Value>)
    requires broken != Eof && ParseStream(a, broken, limit, clock, parse).Ok?
    ensures ParseStream(a + b, ending, limit, clock, parse) == ParseStream(a, broken, limit, clock, parse)
  {
    FramesExtend(a, broken, b, ending, limit);
    ContinueRun(NOTHING, Frames(a, broken, limit), Frames(a + b, ending, limit), clock, HandlerOf(parse));
  }

  lemma {:induction false} ContinueRun(p: Progress, x: Framing, y: Framing, clock: nat -> nat, handle: Handler)
    requires x.events <= y.events && x.end.Broken? && Run(p, x, clock, handle).Ok?
    ensures Run(p, y, clock, handle) == Run(p, x, clock, handle)
  {
    assert x == Framing(x.events, Broken(x.end.stage));
    var more := y.events[|x.events|..];
    assert y.events == x.events + more && y == Framing(x.events + more, y.end);
    RunExtends(p, x.events, x.end.stage, more, y.end, clock, handle);
  }

  /** The handler stops exactly at certain events. */
  ghost predicate StopsAt(handle: Handler, done: string -> bool) { forall p, event, now :: handle(p, event, now).Finished? <==> done(event) }

  /** The handler of the program stops at the events that say the stream is done. */
  lemma {:induction false} HandlerStopsWhenDone(parse: string -> Option<J.Value>)
    ensures StopsAt(HandlerOf(parse), IsDone)
  {
    forall p: Progress, event: string, now: nat ensures HandlerOf(parse)(p, event, now).Finished? <==> IsDone(event) {
      ProcessFinishes(p, event, now, parse);
    }
  }

  lemma {:induction false} ProcessFinishes(p: Progress, event: string, now: nat, parse: string -> Option<J.Value>)
    ensures Process(p, event, now, parse).Finished? <==> IsDone(event)
  {
  }

  lemma {:induction false} NothingAfterStop(p: Progress, events: seq<Dispatch>, end: End, k: nat, more: seq<Dispatch>, otherEnd: End, clock: nat -> nat, handle: Handler, done: string -> bool)
    requires StopsAt(handle, done) && k < |events| && done(events[k].event)
    ensures Run(p, Framing(events, end), clock, handle) == Run(p, Framing(events[..k + 1] + more, otherEnd), clock, handle)
    decreases k
  {
    var other := events[..k + 1] + more;
    assert other[0] == events[0];
    if k > 0 {
      match handle(p, events[0].event, clock(events[0].line)) {
        case Continues(q) =>
          assert events[1..][..k] + more == other[1..];
          NothingAfterStop(q, events[1..], end, k - 1, more, otherEnd, clock, handle, done);
        case Finished =>
        case Failed(_) =>
      }
    }
  }

  /** Nothing after an event that says the stream is done is looked at. */
  lemma {:induction false} NothingAfterDone(p: Progress, events: seq<Dispatch>, end: End, k: nat, more: seq<Dispatch>, otherEnd: End, clock: nat -> nat, parse: string -> Option<J.Value>)
    requires k < |events| && IsDone(events[k].event)
    ensures Run(p, Framing(events, end), clock, HandlerOf(parse)) == Run(p, Framing(events[..k + 1] + more, otherEnd), clock, HandlerOf(parse))
  {
    HandlerStopsWhenDone(parse);
    NothingAfterStop(p, events, end, k, more, otherEnd, clock, HandlerOf(parse), IsDone);
  }

  // ---- What success means ----

  lemma {:induction false} RunSucceeds(p: Progress, f: Framing, clock: nat -> nat, handle: Handler, done: string -> bool)
    requires StopsAt(handle, done) && Run(p, f, clock, handle).Ok?
    ensures (exists k :: 0 <= k < |f.events| && done(f.events[k].event))
         || (f.end.Closed? && Run(p, f, clock, handle).value.finishReason.Some?)
    decreases |f.events|
  {
    if f.events != [] && !done(f.events[0].event) {
      match handle(p, f.events[0].event, clock(f.events[0].line)) {
        case Continues(q) =>
          var rest := Framing(f.events[1..], f.end);
          RunSucceeds(q, rest, clock, handle, done);
          if k :| 0 <= k < |rest.events| && done(rest.events[k].event) { assert done(f.events[k + 1].event); }
        case Finished =>
        case Failed(_) =>
      }
    }
  }

  ghost predicate WithinLimit(r: Reading, bytes: nat, text: string, limit: nat) {
    && (forall k :: 0 <= k < |r.lines| ==> r.lines[k].bytes <= limit)
    && (r.end.Closed? ==> bytes + Utf8Len(text) <= limit)
  }

  lemma {:induction false} StepWithinLimit(first: string, rest: string, bytes: nat, limit: nat, later: Reading)
    requires bytes + Utf8Len(first) <= limit ==> WithinLimit(later, bytes + Utf8Len(first), rest, limit)
    ensures WithinLimit(ReadStep(first, bytes, limit, later), bytes, first + rest, limit)
  {
    Utf8LenAppend(first, rest);
  }

  lemma {:induction false} LinesWithinLimit(text: string, ending: Ending, limit: nat, bytes: nat)
    requires bytes <= limit
    ensures WithinLimit(ReadLines(text, ending, limit, bytes), bytes, text, limit)
    decreases |text|
  {
    if text != [] && (HasLine(text) || ending == Eof) {
      var read := bytes + Utf8Len(Head(text));
      if read <= limit { LinesWithinLimit(Tail(text), ending, limit, read); }
      assert Head(text) + Tail(text) == text;
      StepWithinLimit(Head(text), Tail(text), bytes, limit, ReadLines(Tail(text), ending, limit, read));
    }
  }

  lemma {:induction false} GroupWithinLimit(marks: seq<Mark>, closed: bool, event: string, line: nat, bytes: nat, limit: nat)
    requires bytes <= limit && forall k :: 0 <= k < |marks| ==> marks[k].bytes <= limit
    ensures forall k :: 0 <= k < |Group(marks, closed, event, line, bytes)| ==> Group(marks, closed, event, line, bytes)[k].bytes <= limit
    decreases |marks|
  {
    if marks != [] {
      var read := marks[0].bytes;
      match marks[0].kind {
        case Ignored => GroupWithinLimit(marks[1..], closed, event, line + 1, read, limit);
        case Data(data) => GroupWithinLimit(marks[1..], closed, Grown(event, data), line + 1, read, limit);
        case Blank => GroupWithinLimit(marks[1..], closed, [], line + 1, read, limit);
      }
    }
  }

  /** Success means that, within the byte limit, the stream said it was done or ended with a finish
      reason given. */
  lemma {:induction false} SuccessMeans(text: string, ending: Ending, limit: nat, clock: nat -> nat, parse: string -> Option<J.Value>)
    requires ParseStream(text, ending, limit, clock, parse).Ok?
    ensures var f := Frames(text, ending, limit);
      || (exists k :: 0 <= k < |f.events| && IsDone(f.events[k].event) && f.events[k].bytes <= limit)
      || (Utf8Len(text) <= limit && ParseStream(text, ending, limit, clock, parse).value.finishReason.Some?)
  {
    HandlerStopsWhenDone(parse);
    RunSucceeds(NOTHING, Frames(text, ending, limit), clock, HandlerOf(parse), IsDone);
    LinesWithinLimit(text, ending, limit, 0);
    var r := ReadLines(text, ending, limit, 0);
    GroupWithinLimit(Marks(r.lines), r.end.Closed?, [], 0, 0, limit);
  }

  // ---- The content ----

  /** The generated text of one event; reasoning is no part of it. */
  function ContentOf(event: string, parse: string -> Option<J.Value>): string {
    match parse(event) case None => [] case Some(v) => ContentIn(v)
  }

  function ContentIn(v: J.Value): string {
    match SingleChoice(v, true)
    case Ok(Some(choice)) => (match J.GetFrom(J.Get(choice, J.Delta), J.Content) case None => [] case Some(c) => Concat(J.Texts(c)))
    case _ => []
  }

  /** The texts of the events before the first that stops the run, one after the other. */
  function TextUpTo(events: seq<Dispatch>, content: string -> string, done: string -> bool): string {
    if events == [] || done(events[0].event) then []
    else content(events[0].event) + TextUpTo(events[1..], content, done)
  }

  /** The generated text of the events before the first that says the stream is done. */
  ghost function ContentUpToDone(events: seq<Dispatch>, parse: string -> Option<J.Value>): string {
    TextUpTo(events, (event: string) => ContentOf(event, parse), IsDone)
  }

  lemma {:induction false} ChoiceAddsContent(p: Progress, content: Option<J.Value>, now: nat)
    ensures Concat(WithContent(p, TextsOf(content), now).content)
         == Concat(p.content) + match content { case None => [] case Some(c) => Concat(J.Texts(c)) }
  {
    ConcatAppend(p.content, TextsOf(content));
    if content.Some? { J.NonEmptyConcat(J.Texts(content.value)); }
  }

  lemma {:induction false} AbsorbAddsContent(p: Progress, v: J.Value, now: nat)
    ensures Concat(Absorb(p, v, now).content) == Concat(p.content) + ContentIn(v)
  {
    var q := WithMetadata(p, v);
    assert q.content == p.content;
    match SingleChoice(v, true) {
      case Ok(Some(choice)) =>
        var delta := J.Get(choice, J.Delta);
        var reasoned := WithReasoning(WithFinish(q, choice), TextsOf(J.GetFrom(delta, J.Reasoning)), now);
        ChoiceAddsContent(WithReasoning(reasoned, TextsOf(J.GetFrom(delta, J.ReasoningContent)), now), J.GetFrom(delta, J.Content), now);
      case _ => assert Concat(p.content) + [] == Concat(p.content);
    }
  }

  lemma {:induction false} ProcessAddsContent(p: Progress, event: string, now: nat, parse: string -> Option<J.Value>)
    requires Process(p, event, now, parse).Continues?
    ensures Concat(Process(p, event, now, parse).progress.content) == Concat(p.content) + ContentOf(event, parse)
  {
    AbsorbAddsContent(p, parse(event).value, now);
  }

  /** A handler whose events add their content and nothing else to what was generated. */
  ghost predicate AddsContent(handle: Handler, content: string -> string) {
    forall p, event, now ::
      var effect := handle(p, event, now);
      effect.Continues? ==> Concat(effect.progress.content) == Concat(p.content) + content(event)
  }

  lemma {:induction false} HandlerAddsContent(parse: string -> Option<J.Value>, content: string -> string)
    requires forall event :: content(event) == ContentOf(event, parse)
    ensures AddsContent(HandlerOf(parse), content)
  {
    forall p: Progress, event: string, now: nat
      ensures var effect := HandlerOf(parse)(p, event, now);
        effect.Continues? ==> Concat(effect.progress.content) == Concat(p.content) + content(event)
    {
      if Process(p, event, now, parse).Continues? { ProcessAddsContent(p, event, now, parse); }
    }
  }

  lemma {:induction false} RunAddsContent(p: Progress, f: Framing, clock: nat -> nat, handle: Handler, content: string -> string, done: string -> bool)
    requires StopsAt(handle, done) && AddsContent(handle, content) && Run(p, f, clock, handle).Ok?
    ensures Concat(Run(p, f, clock, handle).value.content) == Concat(p.content) + TextUpTo(f.events, content, done)
    decreases |f.events|
  {
    if f.events == [] || done(f.events[0].event) {
      assert Concat(p.content) + [] == Concat(p.content);
    } else {
      match handle(p, f.events[0].event, clock(f.events[0].line)) {
        case Continues(q) =>
          RunAddsContent(q, Framing(f.events[1..], f.end), clock, handle, content, done);
          assert Concat(p.content) + content(f.events[0].event) + TextUpTo(f.events[1..], content, done)
              == Concat(p.content) + (content(f.events[0].event) + TextUpTo(f.events[1..], content, done));
        case Finished =>
        case Failed(_) =>
      }
    }
  }

  /** What was generated is the concatenated content of the events up to the end: a function of the
      content alone, whatever the reasoning and however the text was cut into pieces and events. */
  lemma {:induction false} ContentIsConcatenated(text: string, ending: Ending, limit: nat, clock: nat -> nat, parse: string -> Option<J.Value>)
    requires ParseStream(text, ending, limit, clock, parse).Ok?
    ensures Concat(ParseStream(text, ending, limit, clock, parse).value.content)
         == ContentUpToDone(Frames(text, ending, limit).events, parse)
  {
    HandlerStopsWhenDone(parse);
    var content := (event: string) => ContentOf(event, parse);
    HandlerAddsContent(parse, content);
    RunAddsContent(NOTHING, Frames(text, ending, limit), clock, HandlerOf(parse), content, IsDone);
    assert [] + ContentUpToDone(Frames(text, ending, limit).events, parse) == ContentUpToDone(Frames(text, ending, limit).events, parse);
  }

  // ---- The first token ----

  /** Content has a first-token instant, read from the clock. */
  ghost predicate Timed(p: Progress, clock: nat -> nat) {
    (p.content != [] ==> p.ttft.Some?) && (p.ttft.Some? ==> exists i :: clock(i) == p.ttft.value)
  }

  ghost predicate KeepsTime(handle: Handler, clock: nat -> nat) {
    forall p, event, i :: Timed(p, clock) && handle(p, event, clock(i)).Continues? ==> Timed(handle(p, event, clock(i)).progress, clock)
  }

  lemma {:induction false} ContentKeepsTime(p: Progress, texts: seq<string>, i: nat, clock: nat -> nat)
    requires Timed(p, clock)
    ensures Timed(WithContent(p, texts, clock(i)), clock) && Timed(WithReasoning(p, texts, clock(i)), clock)
  {
  }

  lemma {:induction false} ChoiceKeepsTime(p: Progress, choice: J.Value, i: nat, clock: nat -> nat)
    requires Timed(p, clock)
    ensures Timed(WithChoice(p, choice, clock(i)), clock)
  {
    var delta := J.Get(choice, J.Delta);
    var finished := WithFinish(p, choice);
    var one := TextsOf(J.GetFrom(delta, J.Reasoning));
    ContentKeepsTime(finished, one, i, clock);
    var reasoned := WithReasoning(finished, one, clock(i));
    var two := TextsOf(J.GetFrom(delta, J.ReasoningContent));
    ContentKeepsTime(reasoned, two, i, clock);
    ContentKeepsTime(WithReasoning(reasoned, two, clock(i)), TextsOf(J.GetFrom(delta, J.Content)), i, clock);
  }

  lemma {:induction false} MetadataKeepsTime(p: Progress, v: J.Value, clock: nat -> nat)
    requires Timed(p, clock)
    ensures Timed(WithMetadata(p, v), clock)
  {
  }

  lemma {:induction false} AbsorbKeepsTime(p: Progress, v: J.Value, i: nat, clock: nat -> nat)
    requires Timed(p, clock)
    ensures Timed(Absorb(p, v, clock(i)), clock)
  {
    MetadataKeepsTime(p, v, clock);
    match SingleChoice(v, true) {
      case Ok(Some(choice)) => ChoiceKeepsTime(WithMetadata(p, v), choice, i, clock);
      case _ =>
    }
  }

  lemma {:induction false} ProcessKeepsTime(p: Progress, event: string, i: nat, clock: nat -> nat, parse: string -> Option<J.Value>)
    requires Timed(p, clock) && Process(p, event, clock(i), parse).Continues?
    ensures Timed(Process(p, event, clock(i), parse).progress, clock)
  {
    AbsorbKeepsTime(p, parse(event).value, i, clock);
  }

  lemma {:induction false} HandlerKeepsTime(clock: nat -> nat, parse: string -> Option<J.Value>)
    ensures KeepsTime(HandlerOf(parse), clock)
  {
    forall p: Progress, event: string, i: nat | Timed(p, clock) && HandlerOf(parse)(p, event, clock(i)).Continues?
      ensures Timed(HandlerOf(parse)(p, event, clock(i)).progress, clock)
    {
      ProcessKeepsTime(p, event, i, clock, parse);
    }
  }

  lemma {:induction false} RunKeepsTime(p: Progress, f: Framing, clock: nat -> nat, handle: Handler)
    requires KeepsTime(handle, clock) && Timed(p, clock) && Run(p, f, clock, handle).Ok?
    ensures Timed(Run(p, f, clock, handle).value, clock)
    decreases |f.events|
  {
    if f.events != [] {
      match handle(p, f.events[0].event, clock(f.events[0].line)) {
        case Continues(q) => RunKeepsTime(q, Framing(f.events[1..], f.end), clock, handle);
        case Finished =>
        case Failed(_) =>
      }
    }
  }

  /** A stream that was parsed with content has the instant of its first token, taken while it was
      read: what a recorded exchange is supposed to look like. */
  lemma {:induction false} ContentIsTimed(text: string, ending: Ending, limit: nat, clock: nat -> nat, parse: string -> Option<J.Value>)
    requires ParseStream(text, ending, limit, clock, parse).Ok?
    ensures Timed(ParseStream(text, ending, limit, clock, parse).value, clock)
  {
    HandlerKeepsTime(clock, parse);
    RunKeepsTime(NOTHING, Frames(text, ending, limit), clock, HandlerOf(parse));
  }

  // ---- Events that go on ----

  /** Neither the end of the stream nor a failure. */
  predicate GoesOn(event: string, parse: string -> Option<J.Value>) {
    !IsDone(event) && parse(event).Some? && !IsRefused(parse(event).value)
  }

  ghost predicate AllGoOn(events: seq<Dispatch>, goes: string -> bool) { forall i :: 0 <= i < |events| ==> goes(events[i].event) }

  /** Events that go on are absorbed; others end the stream or fail for what they say. */
  ghost predicate Goes(handle: Handler, goes: string -> bool) {
    forall p, event, now ::
      && (handle(p, event, now).Continues? <==> goes(event))
      && (handle(p, event, now).Failed? ==> handle(p, event, now).stage == Protocol)
  }

  ghost function GoesIn(parse: string -> Option<J.Value>): string -> bool { (event: string) => GoesOn(event, parse) }

  lemma {:induction false} HandlerGoes(parse: string -> Option<J.Value>)
    ensures Goes(HandlerOf(parse), GoesIn(parse))
  {
  }
}
