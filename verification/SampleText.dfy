/** The text of one exposition sample: splitting the line, parsing the labelled key and building
    the length-prefixed identity of its series. A `string` is a Rust string slice, one character
    per Unicode scalar value; every delimiter is ASCII, so scanning bytes and scanning characters
    agree. */
module SampleText {
  import opened Common
  import Sorting

  const MAX_LABELS: nat := 32
  const MAX_SAMPLE_KEY_BYTES: nat := 2048
  const MAX_SERIES_KEY_BYTES: nat := 1024

  datatype SampleError = Invalid | LimitExceeded

  type Label = (string, string)

  // ---- Splitting a line ----

  /** Position of the first ASCII white space outside double quotes. */
  function Separator(line: string, quoted: bool, escaped: bool): (r: Option<nat>)
    ensures r.Some? ==> r.value < |line|
  {
    if line == [] then None
    else
      var c := line[0];
      if !quoted && c != '"' && IsAsciiWhitespace(c) then Some(0)
      else
        var (q, e) := QuoteState(c, quoted, escaped);
        match Separator(line[1..], q, e)
        case None => None
        case Some(i) => Some(i + 1)
  }

  function QuoteState(c: char, quoted: bool, escaped: bool): (bool, bool) {
    if quoted then
      if escaped then (true, false)
      else if c == '\\' then (true, true)
      else (c != '"', false)
    else (c == '"', escaped)
  }

  /** Characters before the first ASCII white space. */
  function Token(s: string): string {
    if s == [] || IsAsciiWhitespace(s[0]) then [] else [s[0]] + Token(s[1..])
  }

  function SplitSample(line: string): Option<(string, string)> {
    match Separator(line, false, false)
    case None => None
    case Some(i) =>
      var value := Token(TrimStart(line[i..]));
      if line[..i] == [] || value == [] then None else Some((line[..i], value))
  }

  method SplitMetricSample(line: string) returns (sample: Option<(string, string)>)
    ensures sample == SplitSample(line)
  {
    var quoted, escaped := false, false;
    var separator: Option<nat> := None;
    var index := 0;
    while index < |line|
      invariant 0 <= index <= |line| && separator.None?
      invariant Separator(line, false, false)
             == match Separator(line[index..], quoted, escaped) case None => None case Some(i) => Some(index + i)
    {
      var c := line[index];
      if quoted {
        if escaped { escaped := false; }
        else if c == '\\' { escaped := true; }
        else if c == '"' { quoted := false; }
      } else if c == '"' {
        quoted := true;
      } else if IsAsciiWhitespace(c) {
        separator := Some(index);
        break;
      }
      index := index + 1;
    }
    if separator.None? { return None; }
    var key := line[..separator.value];
    var value := Token(TrimStart(line[separator.value..]));
    return if key == [] || value == [] then None else Some((key, value));
  }

  // ---- Parsing a key ----

  predicate IsAlpha(c: char) { 'a' <= c <= 'z' || 'A' <= c <= 'Z' }

  predicate IsNameStart(c: char) { IsAlpha(c) || c == '_' }

  predicate IsNameChar(c: char) { IsNameStart(c) || '0' <= c <= '9' }

  /** End of the run of name characters that begins at `i`. */
  function NameEnd(s: string, i: nat): (n: nat)
    requires i <= |s|
    ensures i <= n <= |s|
    decreases |s| - i
  {
    if i == |s| || !IsNameChar(s[i]) then i else NameEnd(s, i + 1)
  }

  /** The closing quote of the value that begins at `i`; `None` when a line break or the end of the
      text comes first. */
  function QuotedEnd(s: string, i: nat, escaped: bool): (n: Option<nat>)
    requires i <= |s|
    ensures n.Some? ==> i <= n.value < |s| && s[n.value] == '"'
    decreases |s| - i
  {
    if i == |s| then None
    else if s[i] == '"' && !escaped then Some(i)
    else if s[i] == '\n' || s[i] == '\r' then None
    else QuotedEnd(s, i + 1, !escaped && s[i] == '\\')
  }

  function UpperBound(raw: string, parse: string -> Option<Number>): Result<Option<real>, SampleError> {
    if raw == "+Inf" then Ok(None)
    else match parse(raw)
      case Some(Finite(bound)) => if bound < 0.0 then Err(Invalid) else Ok(Some(bound))
      case _ => Err(Invalid)
  }

  datatype Parsed = Parsed(labels: seq<Label>, bound: Option<real>)

  /** What one label contributes: the bound when it is `le`, a further label otherwise. */
  datatype Progress = Progress(labels: seq<Label>, bound: Option<Option<real>>)

  predicate HasName(labels: seq<Label>, name: string) {
    exists i :: 0 <= i < |labels| && labels[i].0 == name
  }

  function AddLabel(p: Progress, name: string, raw: string, parse: string -> Option<Number>): Result<Progress, SampleError> {
    if name == "le" then
      if p.bound.Some? then Err(Invalid)
      else match UpperBound(raw, parse)
        case Err(e) => Err(e)
        case Ok(bound) => Ok(p.(bound := Some(bound)))
    else if HasName(p.labels, name) then Err(Invalid)
    else Ok(p.(labels := p.labels + [(name, raw)]))
  }

  /** One `name="value"` and where it ends. */
  datatype LabelText = LabelText(name: string, raw: string, end: nat)

  function LabelAt(s: string, i: nat): (r: Option<LabelText>)
    requires i < |s|
    ensures r.Some? ==> i < r.value.end <= |s|
  {
    if !IsNameStart(s[i]) then None
    else
      var n := NameEnd(s, i + 1);
      if !(n + 1 < |s| && s[n] == '=' && s[n + 1] == '"') then None
      else match QuotedEnd(s, n + 2, false)
        case None => None
        case Some(v) => Some(LabelText(s[i..n], s[n + 2..v], v + 1))
  }

  /** One turn of the loop over the labels: the result is known, or the labels go on at `next`. */
  datatype Turn = Decided(result: Result<Parsed, SampleError>) | Onwards(next: nat, progress: Progress)

  function Finish(p: Progress): Result<Parsed, SampleError> {
    match p.bound case None => Err(Invalid) case Some(bound) => Ok(Parsed(p.labels, bound))
  }

  function TakeLabel(s: string, i: nat, p: Progress, count: nat, parse: string -> Option<Number>): (t: Turn)
    requires i < |s|
    ensures t.Onwards? ==> i < t.next <= |s|
  {
    if count >= MAX_LABELS then Decided(Err(LimitExceeded))
    else match LabelAt(s, i)
      case None => Decided(Err(Invalid))
      case Some(one) =>
        match AddLabel(p, one.name, one.raw, parse)
        case Err(e) => Decided(Err(e))
        case Ok(next) =>
          if one.end == |s| then Onwards(one.end, next)
          else if s[one.end] != ',' then Decided(Err(Invalid))
          else Onwards(one.end + 1, next)
  }

  function ParseLabels(s: string, i: nat, p: Progress, count: nat, parse: string -> Option<Number>): Result<Parsed, SampleError>
    requires i <= |s|
    decreases |s| - i
  {
    if i == |s| then Finish(p)
    else match TakeLabel(s, i, p, count, parse)
      case Decided(result) => result
      case Onwards(next, progress) => ParseLabels(s, next, progress, count + 1, parse)
  }

  function Find(s: string, c: char): (r: Option<nat>)
    ensures r.Some? ==> r.value < |s| && s[r.value] == c
  {
    if s == [] then None
    else if s[0] == c then Some(0)
    else match Find(s[1..], c)
      case None => None
      case Some(i) => Some(i + 1)
  }

  function ParseKey(key: string, parse: string -> Option<Number>): Result<(string, Option<real>), SampleError> {
    if Utf8Len(key) > MAX_SAMPLE_KEY_BYTES then Err(LimitExceeded)
    else match Find(key, '{')
      case None => Err(Invalid)
      case Some(open) =>
        if key[|key| - 1] != '}' || open + 1 >= |key| then Err(Invalid)
        else match ParseLabels(key[open + 1..|key| - 1], 0, Progress([], None), 0, parse)
          case Err(e) => Err(e)
          case Ok(parsed) =>
            match SeriesKey(parsed.labels)
            case Err(e) => Err(e)
            case Ok(text) => Ok((text, parsed.bound))
  }

  /** The first inner loop: advance over a label name. */
  method ScanName(labels: string, start: nat) returns (cursor: nat)
    requires start <= |labels|
    ensures cursor == NameEnd(labels, start)
  {
    cursor := start;
    while cursor < |labels| && IsNameChar(labels[cursor])
      invariant start <= cursor <= |labels| && NameEnd(labels, start) == NameEnd(labels, cursor)
    {
      cursor := cursor + 1;
    }
  }

  /** The second inner loop: advance to the closing quote of a value. */
  method ScanValue(labels: string, start: nat) returns (end: Option<nat>)
    requires start <= |labels|
    ensures end == QuotedEnd(labels, start, false)
  {
    var cursor := start;
    var escaped := false;
    while cursor < |labels| && !(labels[cursor] == '"' && !escaped)
      invariant start <= cursor <= |labels|
      invariant QuotedEnd(labels, start, false) == QuotedEnd(labels, cursor, escaped)
    {
      if labels[cursor] == '\n' || labels[cursor] == '\r' { return None; }
      if escaped { escaped := false; } else if labels[cursor] == '\\' { escaped := true; }
      cursor := cursor + 1;
    }
    return if escaped || cursor == |labels| then None else Some(cursor);
  }

  /** One turn of the cursor loop. */
  method ScanLabel(labels: string, start: nat, progress: Progress, labelCount: nat, parse: string -> Option<Number>)
    returns (turn: Turn)
    requires start < |labels|
    ensures turn == TakeLabel(labels, start, progress, labelCount, parse)
  {
    if labelCount >= MAX_LABELS { return Decided(Err(LimitExceeded)); }
    if !IsNameStart(labels[start]) { return Decided(Err(Invalid)); }
    var nameEnd := ScanName(labels, start + 1);
    if !(nameEnd + 1 < |labels| && labels[nameEnd] == '=' && labels[nameEnd + 1] == '"') {
      return Decided(Err(Invalid));
    }
    var valueEnd := ScanValue(labels, nameEnd + 2);
    if valueEnd.None? { return Decided(Err(Invalid)); }
    var added := AddLabel(progress, labels[start..nameEnd], labels[nameEnd + 2..valueEnd.value], parse);
    if added.Err? { return Decided(Err(added.error)); }
    var cursor := valueEnd.value + 1;
    if cursor == |labels| { return Onwards(cursor, added.value); }
    if labels[cursor] != ',' { return Decided(Err(Invalid)); }
    return Onwards(cursor + 1, added.value);
  }

  /** The cursor loop over the labels. */
  method ScanLabels(labels: string, parse: string -> Option<Number>) returns (result: Result<Parsed, SampleError>)
    ensures result == ParseLabels(labels, 0, Progress([], None), 0, parse)
  {
    var cursor: nat := 0;
    var progress := Progress([], None);
    var labelCount := 0;
    while cursor < |labels|
      invariant cursor <= |labels|
      invariant ParseLabels(labels, 0, Progress([], None), 0, parse) == ParseLabels(labels, cursor, progress, labelCount, parse)
      decreases |labels| - cursor
    {
      var turn := ScanLabel(labels, cursor, progress, labelCount, parse);
      if turn.Decided? { return turn.result; }
      cursor, progress, labelCount := turn.next, turn.progress, labelCount + 1;
    }
    return match progress.bound case None => Err(Invalid) case Some(bound) => Ok(Parsed(progress.labels, bound));
  }

  method ParseHistogramSampleKey(key: string, parse: string -> Option<Number>)
    returns (result: Result<(string, Option<real>), SampleError>)
    ensures result == ParseKey(key, parse)
  {
    if Utf8Len(key) > MAX_SAMPLE_KEY_BYTES { return Err(LimitExceeded); }
    var open := Find(key, '{');
    if open.None? { return Err(Invalid); }
    if key[|key| - 1] != '}' || open.value + 1 >= |key| { return Err(Invalid); }
    var parsed := ScanLabels(key[open.value + 1..|key| - 1], parse);
    if parsed.Err? { return Err(parsed.error); }
    var text := CanonicalHistogramSeriesKey(parsed.value.labels);
    match text {
      case Err(e) => return Err(e);
      case Ok(t) => return Ok((t, parsed.value.bound));
    }
  }

  // ---- Series identity ----

  function DecimalDigit(d: nat): char
    requires d < 10
  {
    '0' + d as char
  }

  function Decimal(n: nat): string {
    if n < 10 then [DecimalDigit(n)] else Decimal(n / 10) + [DecimalDigit(n % 10)]
  }

  /** A text preceded by its byte length. */
  function Prefixed(text: string): string { Decimal(Utf8Len(text)) + ":" + text }

  function Encode(labels: seq<Label>): string {
    if labels == [] then []
    else Encode(labels[..|labels| - 1]) + Prefixed(labels[|labels| - 1].0) + Prefixed(labels[|labels| - 1].1)
  }

  predicate NameLeq(a: Label, b: Label) { Sorting.StringLeq(a.0, b.0) }

  function SeriesKey(labels: seq<Label>): Result<string, SampleError> {
    var text := Encode(Sorting.Sort(labels, NameLeq));
    if Utf8Len(text) > MAX_SERIES_KEY_BYTES then Err(LimitExceeded) else Ok(text)
  }

  lemma {:induction false} EncodePrefixShorter(labels: seq<Label>, n: nat)
    requires n <= |labels|
    ensures Utf8Len(Encode(labels[..n])) <= Utf8Len(Encode(labels))
  {
    if n == |labels| {
      assert labels[..n] == labels;
    } else {
      var init := labels[..|labels| - 1];
      assert init[..n] == labels[..n];
      EncodePrefixShorter(init, n);
      var last := labels[|labels| - 1];
      Utf8LenAppend(Encode(init), Prefixed(last.0));
      Utf8LenAppend(Encode(init) + Prefixed(last.0), Prefixed(last.1));
    }
  }

  /** The limit is tested after every label; since the text only grows, that is a test of the whole. */
  method CanonicalHistogramSeriesKey(parsedLabels: seq<Label>) returns (result: Result<string, SampleError>)
    ensures result == SeriesKey(parsedLabels)
  {
    var sorted := Sorting.Sort(parsedLabels, NameLeq);
    var seriesKey: string := [];
    for i := 0 to |sorted|
      invariant seriesKey == Encode(sorted[..i])
      invariant Utf8Len(seriesKey) <= MAX_SERIES_KEY_BYTES
    {
      seriesKey := seriesKey + Prefixed(sorted[i].0) + Prefixed(sorted[i].1);
      assert sorted[..i + 1][..i] == sorted[..i];
      if Utf8Len(seriesKey) > MAX_SERIES_KEY_BYTES {
        EncodePrefixShorter(sorted, i + 1);
        return Err(LimitExceeded);
      }
    }
    assert sorted[..|sorted|] == sorted;
    return Ok(seriesKey);
  }
}
