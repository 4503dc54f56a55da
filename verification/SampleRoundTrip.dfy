/** Printing a sample and reading it back, and when two samples belong to the same series. */
module SampleRoundTrip {
  import opened Common
  import opened SampleText
  import Sorting

  // ---- Printing ----

  /** A raw label value: no line break, and every quote and every backslash is escaped. */
  predicate QuoteSafe(raw: string, escaped: bool) {
    if raw == [] then !escaped
    else
      && raw[0] != '\n' && raw[0] != '\r' && (raw[0] == '"' ==> escaped)
      && QuoteSafe(raw[1..], !escaped && raw[0] == '\\')
  }

  predicate IsName(name: string) {
    name != [] && IsNameStart(name[0]) && forall i :: 0 <= i < |name| ==> IsNameChar(name[i])
  }

  predicate WellFormed(labels: seq<Label>) {
    forall i :: 0 <= i < |labels| ==> IsName(labels[i].0) && QuoteSafe(labels[i].1, false)
  }

  ghost predicate DistinctNames(labels: seq<Label>) {
    forall i, j :: 0 <= i < j < |labels| ==> labels[i].0 != labels[j].0
  }

  function Quote(one: Label): string { one.0 + "=\"" + one.1 + "\"" }

  function PrintLabels(labels: seq<Label>, trailingComma: bool): string {
    if labels == [] then []
    else if |labels| == 1 then Quote(labels[0]) + if trailingComma then "," else ""
    else Quote(labels[0]) + "," + PrintLabels(labels[1..], trailingComma)
  }

  function PrintKey(family: string, labels: seq<Label>, trailingComma: bool): string {
    family + "{" + PrintLabels(labels, trailingComma) + "}"
  }

  /** A metric family as far as reading it back is concerned. */
  predicate IsFamily(family: string) {
    forall i :: 0 <= i < |family| ==> family[i] != '{' && family[i] != '"' && !IsAsciiWhitespace(family[i])
  }

  // ---- Reading labels back ----

  lemma {:induction false} NameEndFound(s: string, i: nat, k: nat)
    requires i <= k <= |s| && (forall j :: i <= j < k ==> IsNameChar(s[j])) && (k == |s| || !IsNameChar(s[k]))
    ensures NameEnd(s, i) == k
    decreases k - i
  {
    if i < k { NameEndFound(s, i + 1, k); }
  }

  lemma {:induction false} QuotedEndFound(s: string, i: nat, raw: string, escaped: bool)
    requires i + |raw| < |s| && s[i..i + |raw|] == raw && QuoteSafe(raw, escaped) && s[i + |raw|] == '"'
    ensures QuotedEnd(s, i, escaped) == Some(i + |raw|)
    decreases |raw|
  {
    if raw != [] {
      assert s[i] == raw[0];
      assert s[i + 1..i + 1 + |raw[1..]|] == raw[1..];
      QuotedEndFound(s, i + 1, raw[1..], !escaped && raw[0] == '\\');
    }
  }

  /** The text from `i` on begins with `part`. */
  predicate StartsAt(s: string, i: nat, part: string) { i + |part| <= |s| && s[i..i + |part|] == part }

  lemma {:induction false} StartsWithParts(s: string, i: nat, a: string, b: string)
    requires StartsAt(s, i, a + b)
    ensures StartsAt(s, i, a) && StartsAt(s, i + |a|, b)
  {
    assert s[i..i + |a|] == s[i..i + |a + b|][..|a|] == a;
    assert s[i + |a|..i + |a| + |b|] == s[i..i + |a + b|][|a|..] == b;
  }

  /** Where the parts of a printed label lie. */
  lemma {:induction false} QuoteLayout(s: string, i: nat, one: Label)
    requires StartsAt(s, i, Quote(one))
    ensures var n := i + |one.0|;
      && n + 2 + |one.1| < |s| && s[i..n] == one.0 && s[n] == '=' && s[n + 1] == '"'
      && s[n + 2..n + 2 + |one.1|] == one.1 && s[n + 2 + |one.1|] == '"'
  {
    var (name, raw) := one;
    StartsWithParts(s, i, name + "=\"" + raw, "\"");
    StartsWithParts(s, i, name + "=\"", raw);
    StartsWithParts(s, i, name, "=\"");
    var n := i + |name|;
    assert s[n] == s[n..n + 2][0] && s[n + 1] == s[n..n + 2][1];
    var v := n + 2 + |raw|;
    assert s[v] == s[v..v + 1][0];
  }

  lemma {:induction false} LabelReadBack(s: string, i: nat, one: Label)
    requires StartsAt(s, i, Quote(one)) && IsName(one.0) && QuoteSafe(one.1, false) && i < |s|
    ensures LabelAt(s, i) == Some(LabelText(one.0, one.1, i + |Quote(one)|))
  {
    QuoteLayout(s, i, one);
    var n := i + |one.0|;
    assert s[i] == s[i..n][0];
    forall j | i + 1 <= j < n ensures IsNameChar(s[j]) { assert s[j] == s[i..n][j - i] == one.0[j - i]; }
    NameEndFound(s, i + 1, n);
    QuotedEndFound(s, n + 2, one.1, false);
  }

  /** What the parser makes of a list of labels once it has told them apart. */
  function TakeLabels(labels: seq<Label>, p: Progress, count: nat, parse: string -> Option<Number>): Result<Parsed, SampleError>
    decreases |labels|
  {
    if labels == [] then Finish(p)
    else if count >= MAX_LABELS then Err(LimitExceeded)
    else match AddLabel(p, labels[0].0, labels[0].1, parse)
      case Err(e) => Err(e)
      case Ok(next) => TakeLabels(labels[1..], next, count + 1, parse)
  }

  /** The text from `i` on is that of some labels. */
  predicate Shows(s: string, i: nat, labels: seq<Label>, trailingComma: bool) {
    i <= |s| && s[i..] == PrintLabels(labels, trailingComma)
  }

  lemma {:induction false} ShowsNothing(s: string, i: nat, trailingComma: bool)
    requires Shows(s, i, [], trailingComma)
    ensures i == |s|
  {
  }

  /** The turn over the first of the labels. */
  function TurnOver(labels: seq<Label>, end: nat, p: Progress, count: nat, parse: string -> Option<Number>): Turn
    requires labels != []
  {
    if count >= MAX_LABELS then Decided(Err(LimitExceeded))
    else match AddLabel(p, labels[0].0, labels[0].1, parse)
      case Err(e) => Decided(Err(e))
      case Ok(next) => Onwards(end, next)
  }

  lemma {:induction false} TurnReadsBack(
    s: string, i: nat, labels: seq<Label>, trailingComma: bool, p: Progress, count: nat, parse: string -> Option<Number>)
    returns (end: nat)
    requires labels != [] && Shows(s, i, labels, trailingComma) && IsName(labels[0].0) && QuoteSafe(labels[0].1, false)
    ensures i < end <= |s| && Shows(s, end, labels[1..], trailingComma)
    ensures TakeLabel(s, i, p, count, parse) == TurnOver(labels, end, p, count, parse)
  {
    FirstLabelText(s, i, labels, trailingComma);
    LabelReadBack(s, i, labels[0]);
    var stop := i + |Quote(labels[0])|;
    end := if |labels| == 1 && !trailingComma then stop else stop + 1;
  }

  lemma {:induction false} ParseTurns(s: string, i: nat, p: Progress, count: nat, parse: string -> Option<Number>, turn: Turn)
    requires i < |s| && TakeLabel(s, i, p, count, parse) == turn
    ensures ParseLabels(s, i, p, count, parse)
         == match turn case Decided(result) => result case Onwards(next, progress) => ParseLabels(s, next, progress, count + 1, parse)
  {
  }

  lemma {:induction false} TakeTurns(labels: seq<Label>, end: nat, p: Progress, count: nat, parse: string -> Option<Number>)
    requires labels != []
    ensures TakeLabels(labels, p, count, parse)
         == match TurnOver(labels, end, p, count, parse)
            case Decided(result) => result
            case Onwards(_, progress) => TakeLabels(labels[1..], progress, count + 1, parse)
  {
  }

  /** Printed labels are told apart again: parsing the text is taking the labels one by one, errors
      included. */
  lemma {:induction false} LabelsReadBack(
    s: string, i: nat, labels: seq<Label>, trailingComma: bool, p: Progress, count: nat, parse: string -> Option<Number>)
    requires Shows(s, i, labels, trailingComma) && WellFormed(labels)
    ensures ParseLabels(s, i, p, count, parse) == TakeLabels(labels, p, count, parse)
    decreases |labels|
  {
    if labels == [] {
      ShowsNothing(s, i, trailingComma);
    } else {
      var end := TurnReadsBack(s, i, labels, trailingComma, p, count, parse);
      var turn := TurnOver(labels, end, p, count, parse);
      ParseTurns(s, i, p, count, parse, turn);
      TakeTurns(labels, end, p, count, parse);
      if turn.Onwards? { LabelsReadBack(s, end, labels[1..], trailingComma, turn.progress, count + 1, parse); }
    }
  }

  /** The labels other than the bound. */
  function WithoutBound(labels: seq<Label>): seq<Label> {
    if labels == [] then []
    else if labels[0].0 == "le" then WithoutBound(labels[1..])
    else [labels[0]] + WithoutBound(labels[1..])
  }

  /** Labels with distinct names, none of them taken, and the bound among them or behind us. */
  ghost predicate Readable(labels: seq<Label>, p: Progress, raw: string, bound: Option<real>) {
    && DistinctNames(labels)
    && (forall i :: 0 <= i < |labels| ==>
          if labels[i].0 == "le" then p.bound.None? && labels[i].1 == raw else !HasName(p.labels, labels[i].0))
    && (("le", raw) in labels || p.bound == Some(bound))
  }

  lemma {:induction false} ReadableRest(labels: seq<Label>, p: Progress, next: Progress, raw: string, bound: Option<real>)
    requires labels != [] && Readable(labels, p, raw, bound)
    requires next == if labels[0].0 == "le" then p.(bound := Some(bound)) else p.(labels := p.labels + [labels[0]])
    ensures Readable(labels[1..], next, raw, bound)
  {
    forall i | 0 <= i < |labels| - 1
      ensures var l := labels[1..][i];
        if l.0 == "le" then next.bound.None? && l.1 == raw else !HasName(next.labels, l.0)
    {
      assert labels[0].0 != labels[i + 1].0;
    }
    if ("le", raw) in labels && labels[0].0 != "le" {
      var i :| 0 <= i < |labels| && labels[i] == ("le", raw);
      assert labels[1..][i - 1] == labels[i];
    }
  }

  function After(p: Progress, first: Label, bound: Option<real>): Progress {
    if first.0 == "le" then p.(bound := Some(bound)) else p.(labels := p.labels + [first])
  }

  lemma {:induction false} ReadableAdded(labels: seq<Label>, p: Progress, parse: string -> Option<Number>, raw: string, bound: Option<real>)
    requires labels != [] && Readable(labels, p, raw, bound) && UpperBound(raw, parse) == Ok(bound)
    ensures AddLabel(p, labels[0].0, labels[0].1, parse) == Ok(After(p, labels[0], bound))
  {
  }

  lemma {:induction false} BoundSetApart(labels: seq<Label>, p: Progress, bound: Option<real>)
    requires labels != []
    ensures After(p, labels[0], bound).labels + WithoutBound(labels[1..]) == p.labels + WithoutBound(labels)
  {
    if labels[0].0 != "le" { assert p.labels + [labels[0]] + WithoutBound(labels[1..]) == p.labels + ([labels[0]] + WithoutBound(labels[1..])); }
  }

  lemma {:induction false} TakeReadable(
    labels: seq<Label>, p: Progress, count: nat, parse: string -> Option<Number>, raw: string, bound: Option<real>)
    requires Readable(labels, p, raw, bound) && UpperBound(raw, parse) == Ok(bound) && count + |labels| <= MAX_LABELS
    ensures TakeLabels(labels, p, count, parse) == Ok(Parsed(p.labels + WithoutBound(labels), bound))
    decreases |labels|
  {
    if labels == [] {
      assert p.labels + WithoutBound(labels) == p.labels;
    } else {
      var next := After(p, labels[0], bound);
      ReadableAdded(labels, p, parse, raw, bound);
      ReadableRest(labels, p, next, raw, bound);
      TakeReadable(labels[1..], next, count + 1, parse, raw, bound);
      BoundSetApart(labels, p, bound);
    }
  }

  /** How a printed list of labels begins and goes on. */
  lemma {:induction false} FirstLabelText(s: string, i: nat, labels: seq<Label>, trailingComma: bool)
    requires labels != [] && i <= |s| && s[i..] == PrintLabels(labels, trailingComma)
    ensures StartsAt(s, i, Quote(labels[0])) && i < i + |Quote(labels[0])| <= |s|
    ensures var end := i + |Quote(labels[0])|;
      if |labels| == 1 && !trailingComma then end == |s|
      else end < |s| && s[end] == ',' && s[end + 1..] == PrintLabels(labels[1..], trailingComma)
  {
    var q := Quote(labels[0]);
    var end := i + |q|;
    var tail := if |labels| > 1 then "," + PrintLabels(labels[1..], trailingComma) else if trailingComma then "," else "";
    assert s[i..] == q + tail;
    assert s[i..end] == s[i..][..|q|] == q;
    assert s[end..] == s[i..][|q|..] == tail;
    if tail != [] { assert s[end] == s[end..][0]; assert s[end + 1..] == s[end..][1..]; }
  }

  lemma {:induction false} FindAfter(before: string, c: char, rest: string)
    requires forall i :: 0 <= i < |before| ==> before[i] != c
    ensures Find(before + [c] + rest, c) == Some(|before|)
  {
    if before != [] {
      assert (before + [c] + rest)[1..] == before[1..] + [c] + rest;
      FindAfter(before[1..], c, rest);
    }
  }

  /** A printed key in the limits is read back as the series key of its labels and its bound, in
      whatever order the labels stand and whether or not a comma trails. */
  lemma {:induction false} KeyReadBack(
    family: string, labels: seq<Label>, trailingComma: bool, parse: string -> Option<Number>, raw: string,
    bound: Option<real>, text: string)
    requires IsFamily(family) && WellFormed(labels) && DistinctNames(labels) && |labels| <= MAX_LABELS
    requires ("le", raw) in labels && UpperBound(raw, parse) == Ok(bound)
    requires Utf8Len(PrintKey(family, labels, trailingComma)) <= MAX_SAMPLE_KEY_BYTES
    requires SeriesKey(WithoutBound(labels)) == Ok(text)
    ensures ParseKey(PrintKey(family, labels, trailingComma), parse) == Ok((text, bound))
  {
    var printed := PrintLabels(labels, trailingComma);
    var key := PrintKey(family, labels, trailingComma);
    assert key == family + ['{'] + (printed + "}");
    FindAfter(family, '{', printed + "}");
    assert key[|family| + 1..|key| - 1] == printed;
    LabelsReadBack(printed, 0, labels, trailingComma, Progress([], None), 0, parse);
    NothingTaken(labels, raw, bound);
    TakeReadable(labels, Progress([], None), 0, parse, raw, bound);
    assert [] + WithoutBound(labels) == WithoutBound(labels);
  }

  lemma {:induction false} NothingTaken(labels: seq<Label>, raw: string, bound: Option<real>)
    requires DistinctNames(labels) && ("le", raw) in labels
    ensures Readable(labels, Progress([], None), raw, bound)
  {
    var j :| 0 <= j < |labels| && labels[j] == ("le", raw);
    assert forall i :: 0 <= i < |labels| && labels[i].0 == "le" ==> i == j;
  }

  // ---- Splitting a printed line ----

  /** State of the quote scanner behind a text, if no separator lies in it. */
  function Scan(s: string, quoted: bool, escaped: bool): Option<(bool, bool)> {
    if s == [] then Some((quoted, escaped))
    else if !quoted && s[0] != '"' && IsAsciiWhitespace(s[0]) then None
    else
      var (q, e) := QuoteState(s[0], quoted, escaped);
      Scan(s[1..], q, e)
  }

  lemma {:induction false} ScanAppend(a: string, b: string, quoted: bool, escaped: bool)
    ensures Scan(a + b, quoted, escaped)
         == match Scan(a, quoted, escaped) case None => None case Some((q, e)) => Scan(b, q, e)
  {
    if a == [] {
      assert a + b == b;
    } else {
      assert (a + b)[1..] == a[1..] + b;
      var (q, e) := QuoteState(a[0], quoted, escaped);
      ScanAppend(a[1..], b, q, e);
    }
  }

  lemma {:induction false} SeparatorAfter(key: string, rest: string, quoted: bool, escaped: bool)
    requires Scan(key, quoted, escaped).Some? && !Scan(key, quoted, escaped).value.0
    requires rest != [] && IsAsciiWhitespace(rest[0])
    ensures Separator(key + rest, quoted, escaped) == Some(|key|)
  {
    if key == [] {
      assert key + rest == rest;
    } else {
      assert (key + rest)[1..] == key[1..] + rest;
      var (q, e) := QuoteState(key[0], quoted, escaped);
      SeparatorAfter(key[1..], rest, q, e);
    }
  }

  lemma {:induction false} ScanPlain(s: string)
    requires forall i :: 0 <= i < |s| ==> s[i] != '"' && !IsAsciiWhitespace(s[i])
    ensures Scan(s, false, false) == Some((false, false))
  {
    if s != [] { ScanPlain(s[1..]); }
  }

  lemma {:induction false} ScanRaw(raw: string, escaped: bool)
    requires QuoteSafe(raw, escaped)
    ensures Scan(raw, true, escaped) == Some((true, false))
  {
    if raw != [] { ScanRaw(raw[1..], !escaped && raw[0] == '\\'); }
  }

  lemma {:induction false} ScanLabelText(one: Label)
    requires IsName(one.0) && QuoteSafe(one.1, false)
    ensures Scan(Quote(one), false, false) == Some((false, false))
  {
    ScanPlain(one.0);
    ScanAppend(one.0, "=\"", false, false);
    assert Scan("=\"", false, false) == Some((true, false)) by {
      assert "=\""[1..] == "\"" && "\""[1..] == "";
    }
    ScanRaw(one.1, false);
    ScanAppend(one.0 + "=\"", one.1, false, false);
    ScanAppend(one.0 + "=\"" + one.1, "\"", false, false);
    assert Scan("\"", true, false) == Some((false, false)) by { assert "\""[1..] == ""; }
  }

  lemma {:induction false} ScanComma()
    ensures Scan(",", false, false) == Some((false, false))
  {
    ScanPlain(",");
  }

  lemma {:induction false} ScanLabelTexts(labels: seq<Label>, trailingComma: bool)
    requires WellFormed(labels)
    ensures Scan(PrintLabels(labels, trailingComma), false, false) == Some((false, false))
  {
    ScanComma();
    if labels != [] {
      ScanLabelText(labels[0]);
      if |labels| == 1 {
        ScanAppend(Quote(labels[0]), if trailingComma then "," else "", false, false);
      } else {
        ScanLabelTexts(labels[1..], trailingComma);
        ScanAppend(Quote(labels[0]), ",", false, false);
        ScanAppend(Quote(labels[0]) + ",", PrintLabels(labels[1..], trailingComma), false, false);
      }
    }
  }

  lemma {:induction false} ScanKey(family: string, labels: seq<Label>, trailingComma: bool)
    requires IsFamily(family) && WellFormed(labels)
    ensures Scan(PrintKey(family, labels, trailingComma), false, false) == Some((false, false))
  {
    ScanPlain(family);
    ScanPlain("{");
    ScanPlain("}");
    ScanLabelTexts(labels, trailingComma);
    ScanAppend(family, "{", false, false);
    ScanAppend(family + "{", PrintLabels(labels, trailingComma), false, false);
    ScanAppend(family + "{" + PrintLabels(labels, trailingComma), "}", false, false);
  }

  lemma {:induction false} TokenOfPlain(value: string, rest: string)
    requires forall i :: 0 <= i < |value| ==> !IsAsciiWhitespace(value[i])
    requires rest == [] || IsAsciiWhitespace(rest[0])
    ensures Token(value + rest) == value
  {
    if value == [] {
      assert value + rest == rest;
    } else {
      assert (value + rest)[1..] == value[1..] + rest;
      TokenOfPlain(value[1..], rest);
    }
  }

  lemma {:induction false} TrimOneSpace(s: string)
    requires s != [] && !IsWhitespace(s[0])
    ensures TrimStart(" " + s) == s
  {
    assert (" " + s)[1..] == s;
  }

  lemma {:induction false} TextReadBack(key: string, value: string, rest: string)
    requires key != [] && Scan(key, false, false) == Some((false, false))
    requires value != [] && !IsWhitespace(value[0])
    requires forall i :: 0 <= i < |value| ==> !IsAsciiWhitespace(value[i])
    requires rest == [] || IsAsciiWhitespace(rest[0])
    ensures SplitSample(key + " " + value + rest) == Some((key, value))
  {
    var tail := " " + (value + rest);
    assert key + " " + value + rest == key + tail;
    SeparatorAfter(key, tail, false, false);
    TrimOneSpace(value + rest);
    TokenOfPlain(value, rest);
    SplitAt(key, tail, value);
  }

  lemma {:induction false} SplitAt(key: string, tail: string, value: string)
    requires key != [] && value != [] && Separator(key + tail, false, false) == Some(|key|) && Token(TrimStart(tail)) == value
    ensures SplitSample(key + tail) == Some((key, value))
  {
    assert (key + tail)[..|key|] == key && (key + tail)[|key|..] == tail;
  }

  /** A printed line, with or without something after the value, splits into its key and value. */
  lemma {:induction false} LineReadBack(family: string, labels: seq<Label>, trailingComma: bool, value: string, rest: string)
    requires IsFamily(family) && WellFormed(labels)
    requires value != [] && !IsWhitespace(value[0])
    requires forall i :: 0 <= i < |value| ==> !IsAsciiWhitespace(value[i])
    requires rest == [] || IsAsciiWhitespace(rest[0])
    ensures SplitSample(PrintKey(family, labels, trailingComma) + " " + value + rest)
         == Some((PrintKey(family, labels, trailingComma), value))
  {
    var key := PrintKey(family, labels, trailingComma);
    ScanKey(family, labels, trailingComma);
    TextReadBack(key, value, rest);
  }

  // ---- Identity of series ----

  predicate IsDigit(c: char) { '0' <= c <= '9' }

  lemma {:induction false} DecimalDigits(n: nat)
    ensures Decimal(n) != [] && forall i :: 0 <= i < |Decimal(n)| ==> IsDigit(Decimal(n)[i])
  {
    if n >= 10 { DecimalDigits(n / 10); }
  }

  lemma {:induction false} DecimalInjective(m: nat, n: nat)
    requires Decimal(m) == Decimal(n)
    ensures m == n
  {
    DecimalDigits(m / 10);
    DecimalDigits(n / 10);
    var dm, dn := DecimalDigit(m % 10), DecimalDigit(n % 10);
    assert Decimal(m)[|Decimal(m)| - 1] == dm && Decimal(n)[|Decimal(n)| - 1] == dn;
    assert dm as int - '0' as int == m % 10 && dn as int - '0' as int == n % 10;
    if m >= 10 && n >= 10 {
      assert Decimal(m)[..|Decimal(m)| - 1] == Decimal(m / 10);
      assert Decimal(n)[..|Decimal(n)| - 1] == Decimal(n / 10);
      DecimalInjective(m / 10, n / 10);
    } else {
      assert |Decimal(m)| == 1 <==> m < 10;
      assert |Decimal(n)| == 1 <==> n < 10;
    }
  }

  lemma {:induction false} DigitsUpToColon(d: string, e: string, x: string, y: string)
    requires (forall i :: 0 <= i < |d| ==> IsDigit(d[i])) && (forall i :: 0 <= i < |e| ==> IsDigit(e[i]))
    requires d + ":" + x == e + ":" + y
    ensures d == e && x == y
  {
    FindAfter(d, ':', x);
    FindAfter(e, ':', y);
    var s := d + ":" + x;
    assert d == s[..|d|] == e;
    assert x == s[|d| + 1..] == y;
  }

  /** A length-prefixed text can be cut off the front of what follows it. */
  lemma {:induction false} PrefixedCut(a: string, b: string, x: string, y: string)
    requires Prefixed(a) + x == Prefixed(b) + y
    ensures a == b && x == y
  {
    DecimalDigits(Utf8Len(a));
    DecimalDigits(Utf8Len(b));
    assert Prefixed(a) + x == Decimal(Utf8Len(a)) + ":" + (a + x);
    assert Prefixed(b) + y == Decimal(Utf8Len(b)) + ":" + (b + y);
    DigitsUpToColon(Decimal(Utf8Len(a)), Decimal(Utf8Len(b)), a + x, b + y);
    DecimalInjective(Utf8Len(a), Utf8Len(b));
    EqualBytePrefixes(a, b, x, y);
  }

  function Both(l: Label): string { Prefixed(l.0) + Prefixed(l.1) }

  lemma {:induction false} EncodeLast(labels: seq<Label>)
    requires labels != []
    ensures Encode(labels) == Encode(labels[..|labels| - 1]) + Both(labels[|labels| - 1])
  {
    var init, last := Encode(labels[..|labels| - 1]), labels[|labels| - 1];
    assert (init + Prefixed(last.0)) + Prefixed(last.1) == init + (Prefixed(last.0) + Prefixed(last.1));
  }

  /** The encoding, label by label from the front. */
  lemma {:induction false} EncodeFromFront(labels: seq<Label>)
    requires labels != []
    ensures Encode(labels) == Both(labels[0]) + Encode(labels[1..])
  {
    var last := |labels| - 1;
    EncodeLast(labels);
    if last > 0 {
      var middle := labels[1..][..last - 1];
      EncodeFromFront(labels[..last]);
      assert labels[..last][1..] == middle;
      EncodeLast(labels[1..]);
      Regroup(Both(labels[0]), Encode(middle), Both(labels[last]));
    } else {
      assert labels[..0] == [] && labels[1..] == [];
      assert [] + Both(labels[0]) == Both(labels[0]) + [];
    }
  }

  lemma {:induction false} Regroup(a: string, b: string, c: string)
    ensures (a + b) + c == a + (b + c)
  {
  }

  lemma {:induction false} EncodeFront(labels: seq<Label>)
    requires labels != []
    ensures Encode(labels) == Prefixed(labels[0].0) + (Prefixed(labels[0].1) + Encode(labels[1..]))
  {
    EncodeFromFront(labels);
    Regroup(Prefixed(labels[0].0), Prefixed(labels[0].1), Encode(labels[1..]));
  }

  lemma {:induction false} PrefixedNonEmpty(a: string)
    ensures Prefixed(a) != []
  {
  }

  lemma {:induction false} EncodeInjective(a: seq<Label>, b: seq<Label>)
    requires Encode(a) == Encode(b)
    ensures a == b
  {
    if a != [] { EncodeFront(a); PrefixedNonEmpty(a[0].0); }
    if b != [] { EncodeFront(b); PrefixedNonEmpty(b[0].0); }
    if a != [] && b != [] {
      PrefixedCut(a[0].0, b[0].0, Prefixed(a[0].1) + Encode(a[1..]), Prefixed(b[0].1) + Encode(b[1..]));
      PrefixedCut(a[0].1, b[0].1, Encode(a[1..]), Encode(b[1..]));
      EncodeInjective(a[1..], b[1..]);
      assert a == [a[0]] + a[1..] && b == [b[0]] + b[1..];
    }
  }

  lemma {:induction false} NameOrder()
    ensures Sorting.TotalPreorder(NameLeq)
  {
    forall x: Label, y: Label ensures NameLeq(x, y) || NameLeq(y, x) { Sorting.StringLeqTotal(x.0, y.0); }
    forall x: Label, y: Label, z: Label | NameLeq(x, y) && NameLeq(y, z) ensures NameLeq(x, z) {
      Sorting.StringLeqTransitive(x.0, y.0, z.0);
    }
  }

  lemma {:induction false} DistinctNamesTieFree(labels: seq<Label>)
    requires DistinctNames(labels)
    ensures Sorting.TiesAreEqual(labels, NameLeq)
  {
    forall x, y | x in labels && y in labels && NameLeq(x, y) && NameLeq(y, x) ensures x == y {
      Sorting.StringLeqAntisymmetric(x.0, y.0);
      var i, j :| 0 <= i < |labels| && 0 <= j < |labels| && labels[i] == x && labels[j] == y;
    }
  }

  lemma {:induction false} DistinctCounts(labels: seq<Label>, l: Label)
    requires DistinctNames(labels)
    ensures multiset(labels)[l] == if l in labels then 1 else 0
  {
    if labels != [] {
      assert labels == [labels[0]] + labels[1..];
      DistinctCounts(labels[1..], l);
      forall i | 0 <= i < |labels| - 1 ensures labels[1..][i] != labels[0] {
        assert labels[0].0 != labels[i + 1].0;
      }
    }
  }

  ghost function LabelSet(labels: seq<Label>): set<Label> { set l | l in labels }

  /** Two labelled samples have the same series key iff they have the same set of labels; in
      particular the order of the labels is forgotten. */
  lemma {:induction false} SameKeyIffSameLabels(a: seq<Label>, b: seq<Label>)
    requires DistinctNames(a) && DistinctNames(b)
    ensures Encode(Sorting.Sort(a, NameLeq)) == Encode(Sorting.Sort(b, NameLeq)) <==> LabelSet(a) == LabelSet(b)
  {
    if LabelSet(a) == LabelSet(b) {
      forall l: Label ensures multiset(a)[l] == multiset(b)[l] {
        DistinctCounts(a, l);
        DistinctCounts(b, l);
        assert l in a <==> l in LabelSet(a);
        assert l in b <==> l in LabelSet(b);
      }
      assert multiset(a) == multiset(b);
      NameOrder();
      DistinctNamesTieFree(a);
      Sorting.SortForgetsOrder(a, b, NameLeq);
    }
    if Encode(Sorting.Sort(a, NameLeq)) == Encode(Sorting.Sort(b, NameLeq)) {
      EncodeInjective(Sorting.Sort(a, NameLeq), Sorting.Sort(b, NameLeq));
      assert multiset(a) == multiset(b);
      forall l ensures l in a <==> l in b {
        assert l in a <==> l in multiset(a);
        assert l in b <==> l in multiset(b);
      }
    }
  }

  lemma {:induction false} WithoutBoundDistinct(labels: seq<Label>)
    requires DistinctNames(labels)
    ensures DistinctNames(WithoutBound(labels))
    ensures LabelSet(WithoutBound(labels)) == set l | l in labels && l.0 != "le"
  {
    WithoutBoundKeeps(labels);
    if labels != [] {
      WithoutBoundDistinct(labels[1..]);
      WithoutBoundKeeps(labels[1..]);
      var rest := WithoutBound(labels[1..]);
      assert labels == [labels[0]] + labels[1..];
      forall i | 0 <= i < |rest| ensures rest[i].0 != labels[0].0 {
        var j :| 0 <= j < |labels| - 1 && labels[1..][j] == rest[i];
        assert labels[0].0 != labels[j + 1].0;
      }
      if labels[0].0 != "le" {
        assert WithoutBound(labels) == [labels[0]] + rest;
        assert LabelSet([labels[0]] + rest) == {labels[0]} + LabelSet(rest);
      }
    }
  }

  lemma {:induction false} WithoutBoundKeeps(labels: seq<Label>)
    ensures forall l :: l in WithoutBound(labels) ==> l in labels && l.0 != "le"
  {
    if labels != [] { WithoutBoundKeeps(labels[1..]); }
  }

  /** The order of the labels and a trailing comma make no difference to what is read. */
  lemma {:induction false} ReorderedKeyReadsTheSame(
    family: string, a: seq<Label>, aComma: bool, b: seq<Label>, bComma: bool, parse: string -> Option<Number>, raw: string)
    requires IsFamily(family) && WellFormed(a) && WellFormed(b) && DistinctNames(a) && DistinctNames(b)
    requires LabelSet(a) == LabelSet(b) && ("le", raw) in a && UpperBound(raw, parse).Ok?
    requires |a| <= MAX_LABELS && |b| <= MAX_LABELS && SeriesKey(WithoutBound(a)).Ok?
    requires Utf8Len(PrintKey(family, a, aComma)) <= MAX_SAMPLE_KEY_BYTES
    requires Utf8Len(PrintKey(family, b, bComma)) <= MAX_SAMPLE_KEY_BYTES
    ensures ParseKey(PrintKey(family, a, aComma), parse) == ParseKey(PrintKey(family, b, bComma), parse)
    ensures ParseKey(PrintKey(family, a, aComma), parse).Ok?
  {
    WithoutBoundDistinct(a);
    WithoutBoundDistinct(b);
    assert LabelSet(WithoutBound(a)) == LabelSet(WithoutBound(b)) by {
      forall l: Label ensures l in a <==> l in b { assert l in LabelSet(a) <==> l in LabelSet(b); }
    }
    SameKeyIffSameLabels(WithoutBound(a), WithoutBound(b));
    assert ("le", raw) in LabelSet(b);
    var text, bound := SeriesKey(WithoutBound(a)).value, UpperBound(raw, parse).value;
    KeyReadBack(family, a, aComma, parse, raw, bound, text);
    KeyReadBack(family, b, bComma, parse, raw, bound, text);
  }

  // ---- What is accepted was printed ----

  lemma {:induction false} NameEndMeans(s: string, i: nat)
    requires i <= |s|
    ensures forall j :: i <= j < NameEnd(s, i) ==> IsNameChar(s[j])
    decreases |s| - i
  {
    if i < |s| && IsNameChar(s[i]) { NameEndMeans(s, i + 1); }
  }

  lemma {:induction false} QuotedEndMeans(s: string, i: nat, escaped: bool)
    requires i <= |s| && QuotedEnd(s, i, escaped).Some?
    ensures QuoteSafe(s[i..QuotedEnd(s, i, escaped).value], escaped)
    decreases |s| - i
  {
    var v := QuotedEnd(s, i, escaped).value;
    if !(s[i] == '"' && !escaped) {
      QuotedEndMeans(s, i + 1, !escaped && s[i] == '\\');
      assert s[i..v][1..] == s[i + 1..v];
    }
  }

  lemma {:induction false} Split(s: string, i: nat, j: nat, k: nat)
    requires i <= j <= k <= |s|
    ensures s[i..k] == s[i..j] + s[j..k]
  {
  }

  lemma {:induction false} TwoChars(s: string, n: nat)
    requires n + 1 < |s|
    ensures s[n..n + 1] == [s[n]] && s[n..n + 2] == [s[n], s[n + 1]]
  {
  }

  lemma {:induction false} QuoteFromLayout(s: string, i: nat, n: nat, v: nat)
    requires i < n && n + 2 <= v < |s| && s[n] == '=' && s[n + 1] == '"' && s[v] == '"'
    ensures Quote((s[i..n], s[n + 2..v])) == s[i..v + 1]
  {
    TwoChars(s, n);
    Split(s, i, n, n + 2);
    Split(s, i, n + 2, v);
    Split(s, i, v, v + 1);
    assert s[v..v + 1] == "\"";
  }

  /** A label that is read is a printed one. */
  lemma {:induction false} LabelIsPrinted(s: string, i: nat)
    requires i < |s| && LabelAt(s, i).Some?
    ensures var one := LabelAt(s, i).value;
      IsName(one.name) && QuoteSafe(one.raw, false) && Quote((one.name, one.raw)) == s[i..one.end]
  {
    var n := NameEnd(s, i + 1);
    NameEndMeans(s, i + 1);
    QuotedEndMeans(s, n + 2, false);
    QuoteFromLayout(s, i, n, QuotedEnd(s, n + 2, false).value);
  }

  /** The labels of a text from its first label and the labels after it. */
  lemma {:induction false} FirstPrinted(s: string, i: nat, end: nat, one: Label, rest: seq<Label>, trailingComma: bool)
    requires i < end <= |s| && s[i..end] == Quote(one)
    requires if end == |s| then rest == [] else s[end] == ',' && s[end + 1..] == PrintLabels(rest, trailingComma)
    ensures s[i..] == PrintLabels([one] + rest, if rest == [] then end < |s| else trailingComma)
  {
    assert ([one] + rest)[1..] == rest;
    assert s[i..] == s[i..end] + s[end..];
    if end < |s| {
      assert s[end..] == [','] + s[end + 1..];
      assert s[i..] == Quote(one) + "," + s[end + 1..];
      if rest == [] { assert s[i..] == Quote(one) + ","; }
    } else {
      assert s[i..] == Quote(one) + "";
    }
  }

  lemma {:induction false} FirstTaken(one: Label, rest: seq<Label>, p: Progress, next: Progress, count: nat, parse: string -> Option<Number>)
    requires count < MAX_LABELS && AddLabel(p, one.0, one.1, parse) == Ok(next)
    ensures TakeLabels([one] + rest, p, count, parse) == TakeLabels(rest, next, count + 1, parse)
  {
    assert ([one] + rest)[1..] == rest;
  }

  /** Where a parse that succeeds goes on after its first label. */
  lemma {:induction false} ParseGoesOn(s: string, i: nat, p: Progress, count: nat, parse: string -> Option<Number>)
    returns (one: LabelText, next: Progress, at: nat)
    requires i < |s| && ParseLabels(s, i, p, count, parse).Ok?
    ensures LabelAt(s, i) == Some(one) && AddLabel(p, one.name, one.raw, parse) == Ok(next) && count < MAX_LABELS
    ensures i < one.end <= |s| && at == (if one.end == |s| then |s| else one.end + 1) && (one.end < |s| ==> s[one.end] == ',')
    ensures ParseLabels(s, i, p, count, parse) == ParseLabels(s, at, next, count + 1, parse)
  {
    one := LabelAt(s, i).value;
    next := AddLabel(p, one.name, one.raw, parse).value;
    at := if one.end == |s| then |s| else one.end + 1;
    assert TakeLabel(s, i, p, count, parse) == Onwards(at, next);
  }

  lemma {:induction false} OneMoreWellFormed(one: Label, rest: seq<Label>)
    requires IsName(one.0) && QuoteSafe(one.1, false) && WellFormed(rest)
    ensures WellFormed([one] + rest)
  {
  }

  /** Labels that are read are printed ones, taken one by one. */
  lemma {:induction false} LabelsArePrinted(s: string, i: nat, p: Progress, count: nat, parse: string -> Option<Number>)
    returns (labels: seq<Label>, trailingComma: bool)
    requires i <= |s| && ParseLabels(s, i, p, count, parse).Ok?
    ensures s[i..] == PrintLabels(labels, trailingComma) && WellFormed(labels) && (i == |s| ==> labels == [])
    ensures TakeLabels(labels, p, count, parse) == ParseLabels(s, i, p, count, parse)
    decreases |s| - i
  {
    if i == |s| { return [], false; }
    var text, next, at := ParseGoesOn(s, i, p, count, parse);
    var one := (text.name, text.raw);
    LabelIsPrinted(s, i);
    var rest, comma := LabelsArePrinted(s, at, next, count + 1, parse);
    FirstPrinted(s, i, text.end, one, rest, comma);
    FirstTaken(one, rest, p, next, count, parse);
    OneMoreWellFormed(one, rest);
    labels, trailingComma := [one] + rest, if rest == [] then text.end < |s| else comma;
  }

  /** What taking labels shows about them. */
  ghost predicate TakenFrom(labels: seq<Label>, p: Progress, parsed: Parsed, parse: string -> Option<Number>) {
    && DistinctNames(labels) && parsed.labels == p.labels + WithoutBound(labels)
    && (forall i :: 0 <= i < |labels| && labels[i].0 != "le" ==> !HasName(p.labels, labels[i].0))
    && (if p.bound.Some? then parsed.bound == p.bound.value && !HasName(labels, "le")
        else exists raw: string :: ("le", raw) in labels && UpperBound(raw, parse) == Ok(parsed.bound))
  }

  lemma {:induction false} OneMoreTaken(one: Label, rest: seq<Label>, p: Progress, next: Progress, parsed: Parsed, parse: string -> Option<Number>)
    requires AddLabel(p, one.0, one.1, parse) == Ok(next) && TakenFrom(rest, next, parsed, parse)
    ensures TakenFrom([one] + rest, p, parsed, parse)
  {
    var labels := [one] + rest;
    assert labels[1..] == rest && labels[0] == one;
    assert forall i :: 0 < i < |labels| ==> labels[i] == rest[i - 1];
    if one.0 == "le" {
      assert ("le", one.1) in labels;
      forall i | 0 <= i < |rest| ensures rest[i].0 != one.0 { assert !HasName(rest, "le"); }
    } else {
      assert next.labels[|p.labels|] == one;
      forall i | 0 <= i < |rest| ensures rest[i].0 != one.0 && (rest[i].0 != "le" ==> !HasName(p.labels, rest[i].0)) {
        if rest[i].0 != "le" {
          assert !HasName(next.labels, rest[i].0);
          assert forall k :: 0 <= k < |p.labels| ==> p.labels[k] == next.labels[k];
        }
      }
      assert p.labels + ([one] + WithoutBound(rest)) == next.labels + WithoutBound(rest);
      if p.bound.None? {
        var raw: string :| ("le", raw) in rest && UpperBound(raw, parse) == Ok(parsed.bound);
        assert ("le", raw) in labels;
      }
    }
  }

  lemma {:induction false} TakenAreDistinct(labels: seq<Label>, p: Progress, count: nat, parse: string -> Option<Number>)
    requires TakeLabels(labels, p, count, parse).Ok? && count <= MAX_LABELS
    ensures TakenFrom(labels, p, TakeLabels(labels, p, count, parse).value, parse) && count + |labels| <= MAX_LABELS
    decreases |labels|
  {
    if labels == [] {
      assert p.labels + WithoutBound([]) == p.labels;
    } else {
      var next := AddLabel(p, labels[0].0, labels[0].1, parse).value;
      TakenAreDistinct(labels[1..], next, count + 1, parse);
      OneMoreTaken(labels[0], labels[1..], p, next, TakeLabels(labels, p, count, parse).value, parse);
      assert [labels[0]] + labels[1..] == labels;
    }
  }

  /** The key is a printed one, of labels with distinct names that fit the limits. */
  ghost predicate IsReading(
    key: string, family: string, labels: seq<Label>, trailingComma: bool, parse: string -> Option<Number>, text: string, bound: Option<real>)
  {
    && key == PrintKey(family, labels, trailingComma) && (forall i :: 0 <= i < |family| ==> family[i] != '{')
    && WellFormed(labels) && DistinctNames(labels) && |labels| <= MAX_LABELS && SeriesKey(WithoutBound(labels)) == Ok(text)
    && exists raw: string :: ("le", raw) in labels && UpperBound(raw, parse) == Ok(bound)
  }

  lemma {:induction false} FindMeans(s: string, c: char)
    requires Find(s, c).Some?
    ensures forall i :: 0 <= i < Find(s, c).value ==> s[i] != c
  {
    if s[0] != c { FindMeans(s[1..], c); }
  }

  lemma {:induction false} KeyParts(key: string, open: nat)
    requires open + 1 < |key| && key[open] == '{' && key[|key| - 1] == '}'
    ensures key == key[..open] + "{" + key[open + 1..|key| - 1] + "}"
  {
    assert key[open..open + 1] == "{" && key[|key| - 1..] == "}";
  }

  /** What an accepted key is made of. */
  lemma {:induction false} AcceptedParts(key: string, parse: string -> Option<Number>) returns (open: nat, parsed: Parsed)
    requires ParseKey(key, parse).Ok?
    ensures open + 1 < |key| && key[open] == '{' && key[|key| - 1] == '}' && forall i :: 0 <= i < open ==> key[i] != '{'
    ensures ParseLabels(key[open + 1..|key| - 1], 0, Progress([], None), 0, parse) == Ok(parsed)
    ensures SeriesKey(parsed.labels) == Ok(ParseKey(key, parse).value.0) && parsed.bound == ParseKey(key, parse).value.1
  {
    FindMeans(key, '{');
    open := Find(key, '{').value;
    parsed := ParseLabels(key[open + 1..|key| - 1], 0, Progress([], None), 0, parse).value;
  }

  /** Whatever key the parser accepts is a printed key of labels with distinct names, a bound among
      them, and what it returns is their series key and that bound. */
  lemma {:induction false} AcceptedKeyIsPrinted(key: string, parse: string -> Option<Number>)
    returns (family: string, labels: seq<Label>, trailingComma: bool)
    requires ParseKey(key, parse).Ok?
    ensures IsReading(key, family, labels, trailingComma, parse, ParseKey(key, parse).value.0, ParseKey(key, parse).value.1)
  {
    var open, parsed := AcceptedParts(key, parse);
    family := key[..open];
    var inner := key[open + 1..|key| - 1];
    labels, trailingComma := LabelsArePrinted(inner, 0, Progress([], None), 0, parse);
    assert inner[0..] == inner;
    KeyParts(key, open);
    TakenAreDistinct(labels, Progress([], None), 0, parse);
    assert [] + WithoutBound(labels) == WithoutBound(labels);
  }

  /** The labels an accepted key carries. */
  ghost predicate Carries(key: string, labels: seq<Label>, parse: string -> Option<Number>)
    requires ParseKey(key, parse).Ok?
  {
    exists family: string, trailingComma: bool ::
      IsReading(key, family, labels, trailingComma, parse, ParseKey(key, parse).value.0, ParseKey(key, parse).value.1)
  }

  /** Two accepted keys have the same series key iff they carry the same labels besides the bound. */
  lemma {:induction false} AcceptedKeysSameIff(x: string, y: string, parse: string -> Option<Number>)
    returns (a: seq<Label>, b: seq<Label>)
    requires ParseKey(x, parse).Ok? && ParseKey(y, parse).Ok?
    ensures Carries(x, a, parse) && Carries(y, b, parse)
    ensures ParseKey(x, parse).value.0 == ParseKey(y, parse).value.0 <==> LabelSet(WithoutBound(a)) == LabelSet(WithoutBound(b))
  {
    var family, comma;
    family, a, comma := AcceptedKeyIsPrinted(x, parse);
    family, b, comma := AcceptedKeyIsPrinted(y, parse);
    WithoutBoundDistinct(a);
    WithoutBoundDistinct(b);
    SameKeyIffSameLabels(WithoutBound(a), WithoutBound(b));
  }
}
