/** What an accepted stream is recorded to hold, read off the values of its events: which event gave the
    first token, the finish reason and the token counts, and when a stream is accepted at all. */
module StreamEvidence {
  import opened Common
  import opened Attempts
  import opened EventStream
  import opened EventStreamFacts
  import J = Json

  // ---- What a value holds ----

  /** Some text in it is not empty. */
  ghost predicate HasText(field: Option<J.Value>) { field.Some? && exists text :: text in J.Texts(field.value) && text != [] }

  ghost predicate DeltaSpeaks(choice: J.Value) {
    var delta := J.Get(choice, J.Delta);
    HasText(J.GetFrom(delta, J.Reasoning)) || HasText(J.GetFrom(delta, J.ReasoningContent)) || HasText(J.GetFrom(delta, J.Content))
  }

  /** The delta of the one choice holds a reasoning or content text that is not empty. */
  ghost predicate ValueSpeaks(v: J.Value) { exists choice: J.Value :: IsOnlyChoice(v, choice) && DeltaSpeaks(choice) }

  /** The finish reasons that are kept. */
  predicate IsKnownReason(reason: string) {
    reason == "stop" || reason == "length" || reason == "tool_calls" || reason == "content_filter" || reason == "function_call"
  }

  /** The choice gives a finish reason that is kept. */
  predicate ChoiceFinishes(choice: J.Value, reason: string) {
    J.AsText(J.Get(choice, J.FinishReason)) == Some(reason) && IsKnownReason(reason)
  }

  ghost predicate ValueFinishes(v: J.Value, reason: string) {
    exists choice: J.Value :: IsOnlyChoice(v, choice) && ChoiceFinishes(choice, reason)
  }

  function UsageIn(v: J.Value, name: J.Name): Option<nat> { J.AsUnsigned(J.GetFrom(J.Get(v, J.Usage), name)) }

  // ---- The same of the text of an event ----

  ghost predicate Speaks(event: string, parse: string -> Option<J.Value>) { parse(event).Some? && ValueSpeaks(parse(event).value) }

  ghost predicate Finishes(event: string, parse: string -> Option<J.Value>, reason: string) {
    parse(event).Some? && ValueFinishes(parse(event).value, reason)
  }

  ghost predicate Counts(event: string, parse: string -> Option<J.Value>, name: J.Name, tokens: nat) {
    parse(event).Some? && UsageIn(parse(event).value, name) == Some(tokens)
  }

  // ---- The texts of a value ----

  lemma {:induction false} TextsOfPrefix(a: seq<J.Value>, b: seq<J.Value>, n: nat)
    requires n <= |a|
    ensures J.TextsOf(J.Arr(a + b), n) == J.TextsOf(J.Arr(a), n)
  {
    if n > 0 {
      TextsOfPrefix(a, b, n - 1);
      assert (a + b)[n - 1] == a[n - 1];
    }
  }

  lemma {:induction false} TextsOfSuffix(a: seq<J.Value>, b: seq<J.Value>, n: nat)
    requires n <= |b|
    ensures J.TextsOf(J.Arr(a + b), |a| + n) == J.Texts(J.Arr(a)) + J.TextsOf(J.Arr(b), n)
  {
    if n == 0 {
      TextsOfPrefix(a, b, |a|);
    } else {
      TextsOfSuffix(a, b, n - 1);
      assert (a + b)[|a| + n - 1] == b[n - 1];
    }
  }

  /** A string is its text, a list the texts of its items one after another, an object that of its
      `text` member, and nothing else has any. */
  lemma {:induction false} TextsAre(v: J.Value, a: seq<J.Value>, b: seq<J.Value>)
    ensures v.Str? ==> J.Texts(v) == [v.text]
    ensures J.Texts(J.Arr([])) == [] && J.Texts(J.Arr([v])) == J.Texts(v)
    ensures J.Texts(J.Arr(a + b)) == J.Texts(J.Arr(a)) + J.Texts(J.Arr(b))
    ensures v.Obj? ==> J.Texts(v) == match J.Get(v, J.Text) { case Some(inner) => J.Texts(inner) case None => [] }
    ensures v.Null? || v.Bool? || v.Num? ==> J.Texts(v) == []
  {
    TextsOfSuffix(a, b, |b|);
    assert J.TextsOf(J.Arr([v]), 0) == [];
  }

  // ---- First and last ----

  /** How many events come before the first that says the stream is done. */
  function UpToDone(events: seq<Dispatch>): (n: nat)
    ensures n <= |events| && (n < |events| ==> Trim(events[n].event) == "[DONE]")
    ensures forall i :: 0 <= i < n ==> Trim(events[i].event) != "[DONE]"
  {
    if events == [] || IsDone(events[0].event) then 0 else 1 + UpToDone(events[1..])
  }

  /** Event `k` is the first of the `n` events that holds something. */
  ghost predicate IsFirst(events: seq<Dispatch>, n: nat, k: nat, holds: string -> bool)
    requires n <= |events|
  {
    k < n && holds(events[k].event) && forall i :: 0 <= i < k ==> !holds(events[i].event)
  }

  ghost predicate IsLast(events: seq<Dispatch>, n: nat, k: nat, holds: string -> bool)
    requires n <= |events|
  {
    k < n && holds(events[k].event) && forall i :: k < i < n ==> !holds(events[i].event)
  }

  ghost predicate NoneHolds(events: seq<Dispatch>, n: nat, holds: string -> bool)
    requires n <= |events|
  {
    forall i :: 0 <= i < n ==> !holds(events[i].event)
  }

  /** What an event gives at an instant, if it gives anything. */
  type Giver<X> = (string, nat) -> Option<X>

  /** The first thing given is kept. */
  ghost predicate KeepsFirst<X(!new)>(handle: Handler, field: Progress -> Option<X>, gives: Giver<X>) {
    forall p, event, now :: var effect := handle(p, event, now);
      effect.Continues? ==> field(effect.progress) == if field(p).Some? then field(p) else gives(event, now)
  }

  /** The last thing given is kept. */
  ghost predicate KeepsLast<X(!new)>(handle: Handler, field: Progress -> Option<X>, gives: Giver<X>) {
    forall p, event, now :: var effect := handle(p, event, now);
      effect.Continues? ==> field(effect.progress) == if gives(event, now).Some? then gives(event, now) else field(p)
  }

  function FirstGiven<X>(events: seq<Dispatch>, n: nat, gives: Giver<X>, clock: nat -> nat): Option<X>
    requires n <= |events|
    decreases n
  {
    if n == 0 then None
    else
      var first := gives(events[0].event, clock(events[0].line));
      if first.Some? then first else FirstGiven(events[1..], n - 1, gives, clock)
  }

  function LastGiven<X>(events: seq<Dispatch>, n: nat, gives: Giver<X>, clock: nat -> nat): Option<X>
    requires n <= |events|
    decreases n
  {
    if n == 0 then None
    else
      var later := LastGiven(events[1..], n - 1, gives, clock);
      if later.Some? then later else gives(events[0].event, clock(events[0].line))
  }

  lemma {:induction false} UpToDoneRest(events: seq<Dispatch>)
    requires events != [] && !IsDone(events[0].event)
    ensures UpToDone(events) == 1 + UpToDone(events[1..])
  {
  }

  lemma {:induction false} RunKeepsFirst<X(!new)>(p: Progress, f: Framing, clock: nat -> nat, handle: Handler, field: Progress -> Option<X>, gives: Giver<X>)
    requires StopsAt(handle, IsDone) && KeepsFirst(handle, field, gives) && Run(p, f, clock, handle).Ok?
    ensures field(Run(p, f, clock, handle).value)
         == if field(p).Some? then field(p) else FirstGiven(f.events, UpToDone(f.events), gives, clock)
    decreases |f.events|
  {
    if f.events != [] {
      var effect := handle(p, f.events[0].event, clock(f.events[0].line));
      if effect.Continues? {
        UpToDoneRest(f.events);
        RunKeepsFirst(effect.progress, Framing(f.events[1..], f.end), clock, handle, field, gives);
      }
    }
  }

  lemma {:induction false} RunKeepsLast<X(!new)>(p: Progress, f: Framing, clock: nat -> nat, handle: Handler, field: Progress -> Option<X>, gives: Giver<X>)
    requires StopsAt(handle, IsDone) && KeepsLast(handle, field, gives) && Run(p, f, clock, handle).Ok?
    ensures var last := LastGiven(f.events, UpToDone(f.events), gives, clock);
      field(Run(p, f, clock, handle).value) == if last.Some? then last else field(p)
    decreases |f.events|
  {
    if f.events != [] {
      var effect := handle(p, f.events[0].event, clock(f.events[0].line));
      if effect.Continues? {
        UpToDoneRest(f.events);
        RunKeepsLast(effect.progress, Framing(f.events[1..], f.end), clock, handle, field, gives);
      }
    }
  }

  /** A giver that gives exactly where something holds. */
  ghost predicate GivesWhere<X(!new)>(gives: Giver<X>, holds: string -> bool) { forall event, now :: gives(event, now).Some? <==> holds(event) }

  lemma {:induction false} Shifted(events: seq<Dispatch>, i: nat)
    requires 0 < i < |events|
    ensures events[1..][i - 1] == events[i]
  {
  }

  lemma {:induction false} NothingGiven<X(!new)>(events: seq<Dispatch>, n: nat, gives: Giver<X>, clock: nat -> nat, holds: string -> bool)
    requires n <= |events| && GivesWhere(gives, holds) && NoneHolds(events, n, holds)
    ensures FirstGiven(events, n, gives, clock).None? && LastGiven(events, n, gives, clock).None?
    decreases n
  {
    if n > 0 {
      forall i | 0 <= i < n - 1 ensures !holds(events[1..][i].event) { Shifted(events, i + 1); }
      NothingGiven(events[1..], n - 1, gives, clock, holds);
      assert gives(events[0].event, clock(events[0].line)).None?;
    }
  }

  lemma {:induction false} FirstGivenAt<X(!new)>(events: seq<Dispatch>, n: nat, gives: Giver<X>, clock: nat -> nat, holds: string -> bool, k: nat)
    requires n <= |events| && GivesWhere(gives, holds) && IsFirst(events, n, k, holds)
    ensures FirstGiven(events, n, gives, clock) == gives(events[k].event, clock(events[k].line))
    decreases n
  {
    if k > 0 {
      assert gives(events[0].event, clock(events[0].line)).None?;
      forall i | 0 <= i < k ensures events[1..][i] == events[i + 1] { Shifted(events, i + 1); }
      FirstGivenAt(events[1..], n - 1, gives, clock, holds, k - 1);
    }
  }

  lemma {:induction false} LastGivenAt<X(!new)>(events: seq<Dispatch>, n: nat, gives: Giver<X>, clock: nat -> nat, holds: string -> bool, k: nat)
    requires n <= |events| && GivesWhere(gives, holds) && IsLast(events, n, k, holds)
    ensures LastGiven(events, n, gives, clock) == gives(events[k].event, clock(events[k].line))
    decreases n
  {
    forall i | 0 <= i < n - 1 ensures events[1..][i] == events[i + 1] { Shifted(events, i + 1); }
    if k > 0 { LastGivenAt(events[1..], n - 1, gives, clock, holds, k - 1); } else { NothingGiven(events[1..], n - 1, gives, clock, holds); }
    if k > 0 { assert gives(events[k].event, clock(events[k].line)).Some?; }
  }

  // ---- What one event gives ----

  lemma {:induction false} NonEmptyIff(texts: seq<string>)
    ensures J.NonEmpty(texts) != [] <==> exists text :: text in texts && text != []
  {
    if texts != [] {
      NonEmptyIff(texts[1..]);
      assert forall text :: text in texts <==> text == texts[0] || text in texts[1..];
      if texts[0] != [] { assert texts[0] in texts; }
    }
  }

  lemma {:induction false} TextsOfIff(field: Option<J.Value>)
    ensures TextsOf(field) != [] <==> HasText(field)
  {
    if field.Some? { NonEmptyIff(J.Texts(field.value)); }
  }

  lemma {:induction false} ChoiceGives(p: Progress, choice: J.Value, now: nat)
    ensures var q := WithChoice(p, choice, now);
      && q.ttft == (if p.ttft.Some? then p.ttft else if DeltaSpeaks(choice) then Some(now) else None)
      && q.finishReason == (if p.finishReason.Some? then p.finishReason else SafeFinishReason(J.AsText(J.Get(choice, J.FinishReason))))
      && q.promptTokens == p.promptTokens && q.completionTokens == p.completionTokens
  {
    var delta := J.Get(choice, J.Delta);
    TextsOfIff(J.GetFrom(delta, J.Reasoning));
    TextsOfIff(J.GetFrom(delta, J.ReasoningContent));
    TextsOfIff(J.GetFrom(delta, J.Content));
  }

  lemma {:induction false} MetadataGives(p: Progress, v: J.Value)
    ensures var q := WithMetadata(p, v);
      && q.ttft == p.ttft && q.finishReason == p.finishReason
      && q.promptTokens == (if UsageIn(v, J.PromptTokens).Some? then UsageIn(v, J.PromptTokens) else p.promptTokens)
      && q.completionTokens == (if UsageIn(v, J.CompletionTokens).Some? then UsageIn(v, J.CompletionTokens) else p.completionTokens)
  {
  }

  lemma {:induction false} AbsorbedChoice(p: Progress, v: J.Value, now: nat, choice: J.Value)
    requires IsOnlyChoice(v, choice)
    ensures Absorb(p, v, now) == WithChoice(WithMetadata(p, v), choice, now)
    ensures forall other: J.Value :: IsOnlyChoice(v, other) ==> other == choice
  {
    SingleChoiceIs(v, true, choice);
    forall other: J.Value | IsOnlyChoice(v, other) ensures other == choice { SingleChoiceIs(v, true, other); }
  }

  lemma {:induction false} AbsorbedNone(p: Progress, v: J.Value, now: nat)
    requires !IsRefused(v) && forall choice: J.Value :: !IsOnlyChoice(v, choice)
    ensures Absorb(p, v, now) == WithMetadata(p, v)
  {
    match SingleChoice(v, true) {
      case Ok(Some(choice)) =>
        SingleChoiceIs(v, true, choice);
        assert false;
      case _ =>
    }
  }

  /** What the one choice gives for a finish reason, if there is one. */
  function FinishIn(v: J.Value): Option<string> {
    match SingleChoice(v, true)
    case Ok(Some(choice)) => SafeFinishReason(J.AsText(J.Get(choice, J.FinishReason)))
    case _ => None
  }

  lemma {:induction false} FinishInIs(v: J.Value, reason: string)
    ensures FinishIn(v) == Some(reason) <==> ValueFinishes(v, reason)
  {
    if FinishIn(v) == Some(reason) { SingleChoiceIs(v, true, SingleChoice(v, true).value.value); }
    if ValueFinishes(v, reason) {
      var choice: J.Value :| IsOnlyChoice(v, choice) && ChoiceFinishes(choice, reason);
      SingleChoiceIs(v, true, choice);
    }
  }

  /** What a value adds to the evidence. */
  lemma {:induction false} AbsorbGives(p: Progress, v: J.Value, now: nat)
    requires !IsRefused(v)
    ensures var q := Absorb(p, v, now);
      && q.ttft == (if p.ttft.Some? then p.ttft else if ValueSpeaks(v) then Some(now) else None)
      && q.finishReason == (if p.finishReason.Some? then p.finishReason else FinishIn(v))
      && q.promptTokens == (if UsageIn(v, J.PromptTokens).Some? then UsageIn(v, J.PromptTokens) else p.promptTokens)
      && q.completionTokens == (if UsageIn(v, J.CompletionTokens).Some? then UsageIn(v, J.CompletionTokens) else p.completionTokens)
  {
    MetadataGives(p, v);
    if choice: J.Value :| IsOnlyChoice(v, choice) {
      AbsorbedChoice(p, v, now, choice);
      SingleChoiceIs(v, true, choice);
      ChoiceGives(WithMetadata(p, v), choice, now);
    } else {
      AbsorbedNone(p, v, now);
      NoFinish(v);
    }
  }

  lemma {:induction false} NoFinish(v: J.Value)
    requires forall choice: J.Value :: !IsOnlyChoice(v, choice)
    ensures FinishIn(v).None? && !ValueSpeaks(v)
  {
    match SingleChoice(v, true) {
      case Ok(Some(choice)) =>
        SingleChoiceIs(v, true, choice);
        assert false;
      case _ =>
    }
  }

  // ---- What the program's handler keeps ----

  ghost function SpeaksIn(parse: string -> Option<J.Value>): string -> bool { (event: string) => Speaks(event, parse) }

  ghost function FinishesIn(parse: string -> Option<J.Value>): string -> bool {
    (event: string) => parse(event).Some? && FinishIn(parse(event).value).Some?
  }

  ghost function CountsIn(parse: string -> Option<J.Value>, name: J.Name): string -> bool {
    (event: string) => parse(event).Some? && UsageIn(parse(event).value, name).Some?
  }

  ghost function FirstTokens(parse: string -> Option<J.Value>): Giver<nat> {
    (event: string, now: nat) => if Speaks(event, parse) then Some(now) else None
  }

  ghost function FinishReasons(parse: string -> Option<J.Value>): Giver<string> {
    (event: string, now: nat) => if parse(event).Some? then FinishIn(parse(event).value) else None
  }

  ghost function TokenCounts(parse: string -> Option<J.Value>, name: J.Name): Giver<nat> {
    (event: string, now: nat) => if parse(event).Some? then UsageIn(parse(event).value, name) else None
  }

  function TtftOf(p: Progress): Option<nat> { p.ttft }
  function FinishReasonOf(p: Progress): Option<string> { p.finishReason }
  function PromptTokensOf(p: Progress): Option<nat> { p.promptTokens }
  function CompletionTokensOf(p: Progress): Option<nat> { p.completionTokens }

  lemma {:induction false} ProcessGives(p: Progress, event: string, now: nat, parse: string -> Option<J.Value>)
    requires Process(p, event, now, parse).Continues?
    ensures var q := Process(p, event, now, parse).progress;
      && q.ttft == (if p.ttft.Some? then p.ttft else FirstTokens(parse)(event, now))
      && q.finishReason == (if p.finishReason.Some? then p.finishReason else FinishReasons(parse)(event, now))
      && q.promptTokens == (var t := TokenCounts(parse, J.PromptTokens)(event, now); if t.Some? then t else p.promptTokens)
      && q.completionTokens == (var t := TokenCounts(parse, J.CompletionTokens)(event, now); if t.Some? then t else p.completionTokens)
  {
    AbsorbGives(p, parse(event).value, now);
  }

  lemma {:induction false} HandlerKeeps(parse: string -> Option<J.Value>)
    ensures KeepsFirst(HandlerOf(parse), TtftOf, FirstTokens(parse))
    ensures KeepsFirst(HandlerOf(parse), FinishReasonOf, FinishReasons(parse))
    ensures KeepsLast(HandlerOf(parse), PromptTokensOf, TokenCounts(parse, J.PromptTokens))
    ensures KeepsLast(HandlerOf(parse), CompletionTokensOf, TokenCounts(parse, J.CompletionTokens))
  {
    forall p: Progress, event: string, now: nat | HandlerOf(parse)(p, event, now).Continues?
      ensures var q := HandlerOf(parse)(p, event, now).progress;
        && q.ttft == (if p.ttft.Some? then p.ttft else FirstTokens(parse)(event, now))
        && q.finishReason == (if p.finishReason.Some? then p.finishReason else FinishReasons(parse)(event, now))
        && q.promptTokens == (var t := TokenCounts(parse, J.PromptTokens)(event, now); if t.Some? then t else p.promptTokens)
        && q.completionTokens == (var t := TokenCounts(parse, J.CompletionTokens)(event, now); if t.Some? then t else p.completionTokens)
    {
      ProcessGives(p, event, now, parse);
    }
  }

  // ---- Accepted streams ----

  /** The first token of an accepted stream came with the first event before its end whose delta holds a
      reasoning or content text that is not empty, and there is none iff there is no such event. */
  lemma {:induction false} FirstTokenIs(text: string, ending: Ending, limit: nat, clock: nat -> nat, parse: string -> Option<J.Value>)
    requires ParseStream(text, ending, limit, clock, parse).Ok?
    ensures var events, ttft := Frames(text, ending, limit).events, ParseStream(text, ending, limit, clock, parse).value.ttft;
      && (ttft.None? <==> NoneHolds(events, UpToDone(events), SpeaksIn(parse)))
      && (forall k: nat :: IsFirst(events, UpToDone(events), k, SpeaksIn(parse)) ==> ttft == Some(clock(events[k].line)))
  {
    var f := Frames(text, ending, limit);
    HandlerKeeps(parse);
    HandlerStopsWhenDone(parse);
    RunKeepsFirst(NOTHING, f, clock, HandlerOf(parse), TtftOf, FirstTokens(parse));
    FirstIs(f.events, UpToDone(f.events), FirstTokens(parse), clock, SpeaksIn(parse));
  }

  lemma {:induction false} SomeFirst(events: seq<Dispatch>, n: nat, holds: string -> bool, i: nat) returns (k: nat)
    requires i < n <= |events| && holds(events[i].event)
    ensures IsFirst(events, n, k, holds)
    decreases i
  {
    k := i;
    if j: nat :| j < i && holds(events[j].event) { k := SomeFirst(events, n, holds, j); }
  }

  lemma {:induction false} SomeLast(events: seq<Dispatch>, n: nat, holds: string -> bool, i: nat) returns (k: nat)
    requires i < n <= |events| && holds(events[i].event)
    ensures IsLast(events, n, k, holds)
    decreases n - i
  {
    k := i;
    if j: nat :| i < j < n && holds(events[j].event) { k := SomeLast(events, n, holds, j); }
  }

  lemma {:induction false} FirstIs<X(!new)>(events: seq<Dispatch>, n: nat, gives: Giver<X>, clock: nat -> nat, holds: string -> bool)
    requires n <= |events| && GivesWhere(gives, holds)
    ensures FirstGiven(events, n, gives, clock).None? <==> NoneHolds(events, n, holds)
    ensures forall k: nat :: IsFirst(events, n, k, holds) ==> FirstGiven(events, n, gives, clock) == gives(events[k].event, clock(events[k].line))
  {
    if NoneHolds(events, n, holds) {
      NothingGiven(events, n, gives, clock, holds);
    } else {
      var i: nat :| i < n && holds(events[i].event);
      var k := SomeFirst(events, n, holds, i);
      FirstGivenAt(events, n, gives, clock, holds, k);
      assert gives(events[k].event, clock(events[k].line)).Some?;
    }
    forall k: nat | IsFirst(events, n, k, holds) ensures FirstGiven(events, n, gives, clock) == gives(events[k].event, clock(events[k].line)) {
      FirstGivenAt(events, n, gives, clock, holds, k);
    }
  }

  lemma {:induction false} LastIs<X(!new)>(events: seq<Dispatch>, n: nat, gives: Giver<X>, clock: nat -> nat, holds: string -> bool)
    requires n <= |events| && GivesWhere(gives, holds)
    ensures LastGiven(events, n, gives, clock).None? <==> NoneHolds(events, n, holds)
    ensures forall k: nat :: IsLast(events, n, k, holds) ==> LastGiven(events, n, gives, clock) == gives(events[k].event, clock(events[k].line))
  {
    if NoneHolds(events, n, holds) {
      NothingGiven(events, n, gives, clock, holds);
    } else {
      var i: nat :| i < n && holds(events[i].event);
      var k := SomeLast(events, n, holds, i);
      LastGivenAt(events, n, gives, clock, holds, k);
      assert gives(events[k].event, clock(events[k].line)).Some?;
    }
    forall k: nat | IsLast(events, n, k, holds) ensures LastGiven(events, n, gives, clock) == gives(events[k].event, clock(events[k].line)) {
      LastGivenAt(events, n, gives, clock, holds, k);
    }
  }

  /** The finish reason is the first one given that is kept. */
  lemma {:induction false} FinishReasonIs(text: string, ending: Ending, limit: nat, clock: nat -> nat, parse: string -> Option<J.Value>)
    requires ParseStream(text, ending, limit, clock, parse).Ok?
    ensures var events, reason := Frames(text, ending, limit).events, ParseStream(text, ending, limit, clock, parse).value.finishReason;
      && (reason.None? <==> NoneHolds(events, UpToDone(events), FinishesIn(parse)))
      && (forall k: nat :: IsFirst(events, UpToDone(events), k, FinishesIn(parse)) ==>
            reason.Some? && Finishes(events[k].event, parse, reason.value))
  {
    var f := Frames(text, ending, limit);
    HandlerKeeps(parse);
    HandlerStopsWhenDone(parse);
    RunKeepsFirst(NOTHING, f, clock, HandlerOf(parse), FinishReasonOf, FinishReasons(parse));
    FirstIs(f.events, UpToDone(f.events), FinishReasons(parse), clock, FinishesIn(parse));
    forall k: nat | IsFirst(f.events, UpToDone(f.events), k, FinishesIn(parse))
      ensures var reason := ParseStream(text, ending, limit, clock, parse).value.finishReason;
        reason.Some? && Finishes(f.events[k].event, parse, reason.value)
    {
      var v := parse(f.events[k].event).value;
      FinishInIs(v, FinishIn(v).value);
    }
  }

  /** The token counts are the last ones given. */
  lemma {:induction false} TokenCountsAre(text: string, ending: Ending, limit: nat, clock: nat -> nat, parse: string -> Option<J.Value>)
    requires ParseStream(text, ending, limit, clock, parse).Ok?
    ensures var events, p := Frames(text, ending, limit).events, ParseStream(text, ending, limit, clock, parse).value;
      && (p.promptTokens.None? <==> NoneHolds(events, UpToDone(events), CountsIn(parse, J.PromptTokens)))
      && (forall k: nat :: IsLast(events, UpToDone(events), k, CountsIn(parse, J.PromptTokens)) ==>
            p.promptTokens.Some? && Counts(events[k].event, parse, J.PromptTokens, p.promptTokens.value))
      && (p.completionTokens.None? <==> NoneHolds(events, UpToDone(events), CountsIn(parse, J.CompletionTokens)))
      && (forall k: nat :: IsLast(events, UpToDone(events), k, CountsIn(parse, J.CompletionTokens)) ==>
            p.completionTokens.Some? && Counts(events[k].event, parse, J.CompletionTokens, p.completionTokens.value))
  {
    var f := Frames(text, ending, limit);
    HandlerKeeps(parse);
    HandlerStopsWhenDone(parse);
    RunKeepsLast(NOTHING, f, clock, HandlerOf(parse), PromptTokensOf, TokenCounts(parse, J.PromptTokens));
    RunKeepsLast(NOTHING, f, clock, HandlerOf(parse), CompletionTokensOf, TokenCounts(parse, J.CompletionTokens));
    LastIs(f.events, UpToDone(f.events), TokenCounts(parse, J.PromptTokens), clock, CountsIn(parse, J.PromptTokens));
    LastIs(f.events, UpToDone(f.events), TokenCounts(parse, J.CompletionTokens), clock, CountsIn(parse, J.CompletionTokens));
  }

  // ---- When a stream is accepted ----

  ghost predicate GoUpTo(events: seq<Dispatch>, n: nat, goes: string -> bool)
    requires n <= |events|
  {
    forall i :: 0 <= i < n ==> goes(events[i].event)
  }

  /** No event before the end fails, and the stream says that it is done, or ends properly with a finish
      reason given. */
  ghost predicate Completes(f: Framing, goes: string -> bool, finishes: string -> bool) {
    var n := UpToDone(f.events);
    GoUpTo(f.events, n, goes) && (n < |f.events| || (f.end.Closed? && !NoneHolds(f.events, n, finishes)))
  }

  lemma {:induction false} GoUpToRest(events: seq<Dispatch>, n: nat, goes: string -> bool)
    requires 0 < n <= |events|
    ensures GoUpTo(events, n, goes) <==> goes(events[0].event) && GoUpTo(events[1..], n - 1, goes)
  {
    assert forall i :: 0 < i < |events| ==> events[1..][i - 1] == events[i];
    if goes(events[0].event) && GoUpTo(events[1..], n - 1, goes) {
      forall i | 0 <= i < n ensures goes(events[i].event) { assert i > 0 ==> goes(events[1..][i - 1].event); }
    }
    if GoUpTo(events, n, goes) {
      forall i | 0 <= i < n - 1 ensures goes(events[1..][i].event) { assert goes(events[i + 1].event); }
    }
  }

  lemma {:induction false} RunCompletesIff(p: Progress, f: Framing, clock: nat -> nat, handle: Handler, goes: string -> bool, gives: Giver<string>)
    requires StopsAt(handle, IsDone) && Goes(handle, goes) && KeepsFirst(handle, FinishReasonOf, gives)
    ensures var n := UpToDone(f.events);
      Run(p, f, clock, handle).Ok? <==>
        GoUpTo(f.events, n, goes)
        && (n < |f.events| || (f.end.Closed? && (p.finishReason.Some? || FirstGiven(f.events, n, gives, clock).Some?)))
    decreases |f.events|
  {
    if f.events != [] {
      var effect := handle(p, f.events[0].event, clock(f.events[0].line));
      assert effect.Continues? <==> goes(f.events[0].event);
      assert effect.Finished? <==> IsDone(f.events[0].event);
      if !effect.Finished? {
        UpToDoneRest(f.events);
        GoUpToRest(f.events, UpToDone(f.events), goes);
        if effect.Continues? { RunCompletesIff(effect.progress, Framing(f.events[1..], f.end), clock, handle, goes, gives); }
      }
    }
  }

  /** A stream is accepted iff it completes. */
  lemma {:induction false} AcceptedIffCompletes(text: string, ending: Ending, limit: nat, clock: nat -> nat, parse: string -> Option<J.Value>)
    ensures ParseStream(text, ending, limit, clock, parse).Ok? <==> Completes(Frames(text, ending, limit), GoesIn(parse), FinishesIn(parse))
  {
    var f := Frames(text, ending, limit);
    HandlerKeeps(parse);
    HandlerGoes(parse);
    HandlerStopsWhenDone(parse);
    RunCompletesIff(NOTHING, f, clock, HandlerOf(parse), GoesIn(parse), FinishReasons(parse));
    FirstIs(f.events, UpToDone(f.events), FinishReasons(parse), clock, FinishesIn(parse));
  }
}
