/** Printing events as a stream and having the framer read them back. */
module EventStreamRoundTrip {
  import opened Common
  import opened EventStream

  // ---- Printing ----

  /** The lines a server may send between two blank ones. `Other` is a field the parser does not know. */
  datatype Wire =
    | Comment(text: string, crlf: bool)
    | Other(text: string, crlf: bool)
    | DataLine(space: string, text: string, crlf: bool)
    | Separator(crlf: bool)

  function Body(w: Wire): string {
    match w
    case Comment(text, _) => ":" + text
    case Other(text, _) => text
    case DataLine(space, text, _) => DATA + space + text
    case Separator(_) => []
  }

  function LineEnd(crlf: bool): string { if crlf then "\r\n" else "\n" }

  function PrintWire(w: Wire): string { Body(w) + LineEnd(w.crlf) }

  function PrintWires(wires: seq<Wire>): (r: seq<string>)
    ensures |r| == |wires| && forall i :: 0 <= i < |r| ==> r[i] == PrintWire(wires[i])
  {
    seq(|wires|, i requires 0 <= i < |wires| => PrintWire(wires[i]))
  }

  function Print(wires: seq<Wire>): string { Concat(PrintWires(wires)) }

  /** One line of text: no line feed in it, no carriage return at its end. */
  predicate OneLine(s: string) {
    (forall i | 0 <= i < |s| :: s[i] != '\n') && (s != [] ==> s[|s| - 1] != '\r')
  }

  predicate WellFormed(w: Wire) {
    && OneLine(Body(w))
    && (w.Other? ==> w.text != [] && w.text[0] != ':' && !StartsWith(w.text, DATA))
    && (w.DataLine? ==> (forall i | 0 <= i < |w.space| :: IsWhitespace(w.space[i])) && (w.text != [] ==> !IsWhitespace(w.text[0])))
  }

  function KindOf(w: Wire): Line {
    match w
    case Comment(_, _) => Ignored
    case Other(_, _) => Ignored
    case DataLine(_, text, _) => Data(text)
    case Separator(_) => Blank
  }

  // ---- Reading one line back ----

  lemma {:induction false} LineLengthIs(text: string, n: nat)
    requires 0 < n <= |text| && text[n - 1] == '\n' && forall i :: 0 <= i < n - 1 ==> text[i] != '\n'
    ensures LineLength(text) == n
  {
    if n > 1 { LineLengthIs(text[1..], n - 1); }
  }

  /** A printed line: one line feed, at its end. */
  predicate IsLine(s: string) { s != [] && s[|s| - 1] == '\n' && forall i | 0 <= i < |s| - 1 :: s[i] != '\n' }

  lemma {:induction false} WireIsLine(w: Wire)
    requires OneLine(Body(w))
    ensures IsLine(PrintWire(w))
  {
    var s := PrintWire(w);
    forall i | 0 <= i < |s| - 1 ensures s[i] != '\n' {
      if i < |Body(w)| { assert s[i] == Body(w)[i]; }
    }
  }

  lemma {:induction false} FirstLine(line: string, rest: string)
    requires IsLine(line)
    ensures var text := line + rest; text != [] && HasLine(text) && Head(text) == line && Tail(text) == rest
  {
    var text, n := line + rest, |line|;
    forall i | 0 <= i < n - 1 ensures text[i] != '\n' { assert text[i] == line[i]; }
    LineLengthIs(text, n);
  }

  lemma {:induction false} TrimOne(s: string, c: char)
    requires c == '\r' || c == '\n'
    ensures TrimLineEnd(s + [c]) == TrimLineEnd(s)
  {
    assert (s + [c])[..|s|] == s;
  }

  lemma {:induction false} TrimsBack(w: Wire)
    requires OneLine(Body(w))
    ensures TrimLineEnd(PrintWire(w)) == Body(w)
  {
    var body := Body(w);
    assert TrimLineEnd(body) == body;
    if w.crlf {
      assert PrintWire(w) == (body + ['\r']) + ['\n'];
      TrimOne(body + ['\r'], '\n');
      TrimOne(body, '\r');
    } else {
      TrimOne(body, '\n');
    }
  }

  lemma {:induction false} TrimsSpace(space: string, text: string)
    requires (forall i :: 0 <= i < |space| ==> IsWhitespace(space[i])) && (text != [] ==> !IsWhitespace(text[0]))
    ensures TrimStart(space + text) == text
  {
    if space != [] {
      assert (space + text)[1..] == space[1..] + text;
      TrimsSpace(space[1..], text);
    } else {
      assert space + text == text;
    }
  }

  lemma {:induction false} DataReadsBack(space: string, text: string)
    requires (forall i :: 0 <= i < |space| ==> IsWhitespace(space[i])) && (text != [] ==> !IsWhitespace(text[0]))
    ensures ValueOf(DATA + space + text) == Data(text)
  {
    var value := DATA + space + text;
    assert value[..|DATA|] == DATA && value[|DATA|..] == space + text;
    assert value[0] == DATA[0] == 'd';
    TrimsSpace(space, text);
  }

  lemma {:induction false} WireReadsBack(w: Wire)
    requires WellFormed(w)
    ensures LineOf(PrintWire(w)) == KindOf(w)
  {
    TrimsBack(w);
    if w.DataLine? { DataReadsBack(w.space, w.text); }
  }

  // ---- Reading a stream back ----

  function Kinds(wires: seq<Wire>): (r: seq<Line>)
    ensures |r| == |wires| && forall i :: 0 <= i < |r| ==> r[i] == KindOf(wires[i])
  {
    seq(|wires|, i requires 0 <= i < |wires| => KindOf(wires[i]))
  }

  function KindsOf(marks: seq<Mark>): (r: seq<Line>)
    ensures |r| == |marks| && forall i :: 0 <= i < |r| ==> r[i] == marks[i].kind
  {
    seq(|marks|, i requires 0 <= i < |marks| => marks[i].kind)
  }

  function LinesOf(items: seq<Read>): (r: seq<string>)
    ensures |r| == |items| && forall i :: 0 <= i < |r| ==> r[i] == items[i].line
  {
    seq(|items|, i requires 0 <= i < |items| => items[i].line)
  }

  ghost predicate ReadsAs(r: Reading, lines: seq<string>) { r.end == Closed && LinesOf(r.lines) == lines }

  lemma {:induction false} OneMoreLine(first: string, bytes: nat, limit: nat, later: Reading, lines: seq<string>)
    requires bytes + Utf8Len(first) <= limit && ReadsAs(later, lines)
    ensures ReadsAs(ReadStep(first, bytes, limit, later), [first] + lines)
  {
  }

  lemma {:induction false} FirstReadsBack(first: string, rest: string, lines: seq<string>, limit: nat, bytes: nat)
    requires IsLine(first) && bytes + Utf8Len(first) <= limit
    requires ReadsAs(ReadLines(rest, Eof, limit, bytes + Utf8Len(first)), lines)
    ensures ReadsAs(ReadLines(first + rest, Eof, limit, bytes), [first] + lines)
  {
    FirstLine(first, rest);
    OneMoreLine(first, bytes, limit, ReadLines(rest, Eof, limit, bytes + Utf8Len(first)), lines);
  }

  lemma {:induction false} LinesReadBack(lines: seq<string>, limit: nat, bytes: nat)
    requires forall i :: 0 <= i < |lines| ==> IsLine(lines[i])
    requires bytes + Utf8Len(Concat(lines)) <= limit
    ensures ReadsAs(ReadLines(Concat(lines), Eof, limit, bytes), lines)
    decreases |lines|
  {
    if lines != [] {
      Utf8LenAppend(lines[0], Concat(lines[1..]));
      LinesReadBack(lines[1..], limit, bytes + Utf8Len(lines[0]));
      FirstReadsBack(lines[0], Concat(lines[1..]), lines[1..], limit, bytes);
      assert lines == [lines[0]] + lines[1..];
    }
  }

  lemma {:induction false} WiresReadBack(wires: seq<Wire>, limit: nat)
    requires forall i :: 0 <= i < |wires| ==> WellFormed(wires[i])
    requires Utf8Len(Print(wires)) <= limit
    ensures var r := ReadLines(Print(wires), Eof, limit, 0); r.end == Closed && KindsOf(Marks(r.lines)) == Kinds(wires)
  {
    var lines := PrintWires(wires);
    forall i | 0 <= i < |lines| ensures IsLine(lines[i]) { WireIsLine(wires[i]); }
    LinesReadBack(lines, limit, 0);
    MarksOfLines(ReadLines(Concat(lines), Eof, limit, 0).lines, wires);
  }

  lemma {:induction false} MarksOfLines(items: seq<Read>, wires: seq<Wire>)
    requires LinesOf(items) == PrintWires(wires) && forall i :: 0 <= i < |wires| ==> WellFormed(wires[i])
    ensures KindsOf(Marks(items)) == Kinds(wires)
  {
    assert |items| == |LinesOf(items)| == |wires|;
    forall i | 0 <= i < |wires| ensures KindsOf(Marks(items))[i] == Kinds(wires)[i] {
      assert items[i].line == LinesOf(items)[i] == PrintWire(wires[i]);
      WireReadsBack(wires[i]);
    }
  }

  // ---- Grouping ----

  /** Texts of events. */
  function Texts(events: seq<Dispatch>): (r: seq<string>)
    ensures |r| == |events| && forall i :: 0 <= i < |r| ==> r[i] == events[i].event
  {
    seq(|events|, i requires 0 <= i < |events| => events[i].event)
  }

  /** The same grouping, looking at texts only. */
  function GroupTexts(kinds: seq<Line>, event: string): seq<string> {
    if kinds == [] then (if event == [] then [] else [event])
    else match kinds[0]
      case Ignored => GroupTexts(kinds[1..], event)
      case Data(data) => GroupTexts(kinds[1..], Grown(event, data))
      case Blank => (if event == [] then [] else [event]) + GroupTexts(kinds[1..], [])
  }

  lemma {:induction false} GroupIsGroupTexts(marks: seq<Mark>, event: string, line: nat, bytes: nat)
    ensures Texts(Group(marks, true, event, line, bytes)) == GroupTexts(KindsOf(marks), event)
    decreases |marks|
  {
    if marks != [] {
      assert KindsOf(marks)[1..] == KindsOf(marks[1..]);
      var read := marks[0].bytes;
      match marks[0].kind {
        case Ignored => GroupIsGroupTexts(marks[1..], event, line + 1, read);
        case Data(data) => GroupIsGroupTexts(marks[1..], Grown(event, data), line + 1, read);
        case Blank =>
          GroupIsGroupTexts(marks[1..], [], line + 1, read);
          if event != [] {
            var later := Group(marks[1..], true, [], line + 1, read);
            assert Texts([Dispatch(event, line, read)] + later) == [event] + Texts(later);
          }
      }
    }
  }

  /** The data lines among some lines. */
  function DataOf(wires: seq<Wire>): seq<string> {
    if wires == [] then []
    else DataOf(wires[..|wires| - 1]) + if wires[|wires| - 1].DataLine? then [wires[|wires| - 1].text] else []
  }

  /** The text of an event with these data lines. */
  function Join(lines: seq<string>): string {
    if lines == [] then []
    else if |lines| == 1 then lines[0]
    else Join(lines[..|lines| - 1]) + ['\n'] + lines[|lines| - 1]
  }

  /** A group of lines between separators; it makes an event when it holds data. */
  predicate IsGroup(wires: seq<Wire>) {
    && (forall i | 0 <= i < |wires| :: WellFormed(wires[i]) && !wires[i].Separator?)
    && (DataOf(wires) != [] ==> DataOf(wires)[0] != [])
  }

  function EventOf(wires: seq<Wire>): seq<string> { if DataOf(wires) == [] then [] else [Join(DataOf(wires))] }

  lemma {:induction false} FirstOfPrefix(wires: seq<Wire>)
    requires wires != []
    ensures DataOf(wires[..|wires| - 1]) != [] ==> DataOf(wires)[0] == DataOf(wires[..|wires| - 1])[0]
  {
  }

  lemma {:induction false} JoinNotEmpty(lines: seq<string>)
    requires lines != [] && lines[0] != []
    ensures Join(lines) != []
  {
  }

  lemma {:induction false} JoinMore(lines: seq<string>, last: string)
    requires lines != [] ==> lines[0] != []
    ensures Join(lines + [last]) == Grown(Join(lines), last)
  {
    assert (lines + [last])[..|lines|] == lines;
    if lines != [] { JoinNotEmpty(lines); }
  }

  lemma {:induction false} OneKind(w: Wire, rest: seq<Line>, event: string)
    requires !w.Separator?
    ensures GroupTexts([KindOf(w)] + rest, event) == GroupTexts(rest, if w.DataLine? then Grown(event, w.text) else event)
  {
    assert ([KindOf(w)] + rest)[1..] == rest;
  }

  lemma {:induction false} KindsSplit(wires: seq<Wire>, rest: seq<Line>)
    requires wires != []
    ensures Kinds(wires) + rest == Kinds(wires[..|wires| - 1]) + ([KindOf(wires[|wires| - 1])] + rest)
  {
  }

  lemma {:induction false} DataOfMore(wires: seq<Wire>)
    requires wires != [] && IsGroup(wires)
    ensures var init, last := wires[..|wires| - 1], wires[|wires| - 1];
      Join(DataOf(wires)) == if last.DataLine? then Grown(Join(DataOf(init)), last.text) else Join(DataOf(init))
  {
    var init, last := wires[..|wires| - 1], wires[|wires| - 1];
    FirstOfPrefix(wires);
    if last.DataLine? {
      JoinMore(DataOf(init), last.text);
    } else {
      assert DataOf(wires) == DataOf(init) + [] == DataOf(init);
    }
  }

  /** Going through a group collects the joined data lines. */
  lemma {:induction false} GroupCollects(wires: seq<Wire>, rest: seq<Line>)
    requires IsGroup(wires)
    ensures GroupTexts(Kinds(wires) + rest, []) == GroupTexts(rest, Join(DataOf(wires)))
    decreases |wires|
  {
    if wires == [] {
      assert Kinds(wires) + rest == rest;
    } else {
      var init, last := wires[..|wires| - 1], wires[|wires| - 1];
      PrefixIsGroup(wires);
      KindsSplit(wires, rest);
      GroupCollects(init, [KindOf(last)] + rest);
      OneKind(last, rest, Join(DataOf(init)));
      DataOfMore(wires);
    }
  }

  lemma {:induction false} PrefixIsGroup(wires: seq<Wire>)
    requires wires != [] && IsGroup(wires)
    ensures IsGroup(wires[..|wires| - 1])
    ensures WellFormed(wires[|wires| - 1]) && !wires[|wires| - 1].Separator?
  {
    FirstOfPrefix(wires);
    var init := wires[..|wires| - 1];
    forall i | 0 <= i < |init| ensures WellFormed(init[i]) && !init[i].Separator? {
      assert wires[i] == init[i];
    }
  }

  // ---- Whole streams ----

  /** Groups each followed by a separator line, and a last group that the end of the stream closes. */
  datatype Block = Block(wires: seq<Wire>, crlf: bool)

  function Wires(blocks: seq<Block>, tail: seq<Wire>): seq<Wire> {
    if blocks == [] then tail else blocks[0].wires + [Separator(blocks[0].crlf)] + Wires(blocks[1..], tail)
  }

  function Events(blocks: seq<Block>, tail: seq<Wire>): seq<string> {
    if blocks == [] then EventOf(tail) else EventOf(blocks[0].wires) + Events(blocks[1..], tail)
  }

  lemma {:induction false} PendingIsEvent(wires: seq<Wire>, rest: seq<Line>)
    requires IsGroup(wires)
    ensures GroupTexts([], Join(DataOf(wires))) == EventOf(wires)
    ensures GroupTexts([Blank] + rest, Join(DataOf(wires))) == EventOf(wires) + GroupTexts(rest, [])
  {
    assert ([Blank] + rest)[1..] == rest;
    if DataOf(wires) != [] { JoinNotEmpty(DataOf(wires)); }
  }

  lemma {:induction false} KindsAppend(a: seq<Wire>, b: seq<Wire>)
    ensures Kinds(a + b) == Kinds(a) + Kinds(b)
  {
  }

  lemma {:induction false} BlockKinds(group: seq<Wire>, crlf: bool, later: seq<Wire>)
    ensures Kinds(group + [Separator(crlf)] + later) == Kinds(group) + ([Blank] + Kinds(later))
  {
    KindsAppend(group + [Separator(crlf)], later);
    KindsAppend(group, [Separator(crlf)]);
    assert Kinds([Separator(crlf)]) == [Blank];
  }

  lemma {:induction false} BlocksGroup(blocks: seq<Block>, tail: seq<Wire>)
    requires (forall i :: 0 <= i < |blocks| ==> IsGroup(blocks[i].wires)) && IsGroup(tail)
    ensures GroupTexts(Kinds(Wires(blocks, tail)), []) == Events(blocks, tail)
    decreases |blocks|
  {
    if blocks == [] {
      assert Kinds(tail) + [] == Kinds(tail);
      GroupCollects(tail, []);
      PendingIsEvent(tail, []);
    } else {
      var group, later := blocks[0].wires, Wires(blocks[1..], tail);
      BlockKinds(group, blocks[0].crlf, later);
      GroupCollects(group, [Blank] + Kinds(later));
      PendingIsEvent(group, Kinds(later));
      BlocksGroup(blocks[1..], tail);
    }
  }

  lemma {:induction false} WiresWellFormed(blocks: seq<Block>, tail: seq<Wire>)
    requires (forall i :: 0 <= i < |blocks| ==> IsGroup(blocks[i].wires)) && IsGroup(tail)
    ensures forall i :: 0 <= i < |Wires(blocks, tail)| ==> WellFormed(Wires(blocks, tail)[i])
    decreases |blocks|
  {
    if blocks != [] { WiresWellFormed(blocks[1..], tail); }
  }

  /** Events printed as data lines, with either line ending and with comments and unknown fields
      anywhere between, come back exactly, in order, each as the text of its joined data lines. */
  lemma {:induction false} PrintedEventsComeBack(blocks: seq<Block>, tail: seq<Wire>, limit: nat)
    requires (forall i :: 0 <= i < |blocks| ==> IsGroup(blocks[i].wires)) && IsGroup(tail)
    requires Utf8Len(Print(Wires(blocks, tail))) <= limit
    ensures Texts(Frames(Print(Wires(blocks, tail)), Eof, limit).events) == Events(blocks, tail)
    ensures Frames(Print(Wires(blocks, tail)), Eof, limit).end == Closed
  {
    var wires := Wires(blocks, tail);
    WiresWellFormed(blocks, tail);
    WiresReadBack(wires, limit);
    var r := ReadLines(Print(wires), Eof, limit, 0);
    GroupIsGroupTexts(Marks(r.lines), [], 0, 0);
    BlocksGroup(blocks, tail);
  }
}
