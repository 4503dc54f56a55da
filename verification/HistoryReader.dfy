/** Reading a history file line by line through a buffered reader, appending records to it, and the
    checks a stored record has to pass that mirror the live code. */
module HistoryReader {
  import opened Common
  import H = Histogram
  import C = Collector
  import T = Trend

  const NEWLINE: Byte := 10
  const MAX_RECORD_BYTES: nat := 0x400_0000
  const SCHEMA_VERSION: nat := 3

  type Bytes = seq<Byte>

  // ---- Lines of a text ----

  /** Length of the first line, its newline included; the last line may have none. */
  function LineLength(text: Bytes): (n: nat)
    ensures n <= |text| && (text != [] ==> n > 0)
    ensures forall i :: 0 <= i < n - 1 ==> text[i] != NEWLINE
    ensures n < |text| ==> text[n - 1] == NEWLINE
  {
    if text == [] then 0
    else if text[0] == NEWLINE then 1
    else 1 + LineLength(text[1..])
  }

  function SplitLines(text: Bytes): seq<Bytes> {
    if text == [] then [] else [text[..LineLength(text)]] + SplitLines(text[LineLength(text)..])
  }

  lemma {:induction false} LinesConcatenate(text: Bytes)
    ensures Concat(SplitLines(text)) == text
  {
    if text != [] {
      var n := LineLength(text);
      var later := SplitLines(text[n..]);
      LinesConcatenate(text[n..]);
      ConcatFirst(text[..n], later);
      assert text[..n] + text[n..] == text;
    }
  }

  lemma {:induction false} ConcatFirst<X>(first: seq<X>, later: seq<seq<X>>)
    ensures Concat([first] + later) == first + Concat(later)
  {
    assert ([first] + later)[1..] == later;
  }

  /** The first newline decides the first line. */
  lemma {:induction false} LineLengthIs(text: Bytes, n: nat)
    requires 0 < n <= |text| && text[n - 1] == NEWLINE && forall i :: 0 <= i < n - 1 ==> text[i] != NEWLINE
    ensures LineLength(text) == n
  {
    if n > 1 { LineLengthIs(text[1..], n - 1); }
  }

  lemma {:induction false} LineLengthWithout(text: Bytes, part: Bytes, rest: Bytes)
    requires text == part + rest && forall i :: 0 <= i < |part| ==> part[i] != NEWLINE
    ensures LineLength(text) == |part| + LineLength(rest)
  {
    if part != [] {
      assert text[1..] == part[1..] + rest;
      LineLengthWithout(text[1..], part[1..], rest);
    } else {
      assert text == rest;
    }
  }

  function Position(bytes: Bytes): (p: Option<nat>)
    ensures p.Some? ==> p.value < |bytes| && bytes[p.value] == NEWLINE && forall i :: 0 <= i < p.value ==> bytes[i] != NEWLINE
    ensures p.None? ==> forall i :: 0 <= i < |bytes| ==> bytes[i] != NEWLINE
  {
    if bytes == [] then None
    else if bytes[0] == NEWLINE then Some(0)
    else match Position(bytes[1..]) case None => None case Some(p) => Some(p + 1)
  }

  // ---- The reader ----

  /** A buffered reader over a text that arrives in arbitrary non-empty chunks, and the line buffer
      that is reused for every line. */
  class LineReader {
    var chunks: seq<Bytes>
    var output: Bytes

    ghost predicate Valid()
      reads this
    {
      forall i :: 0 <= i < |chunks| ==> chunks[i] != []
    }

    /** What has not been consumed yet. */
    ghost function Rest(): Bytes
      reads this
    {
      Concat(chunks)
    }

    constructor (chunks: seq<Bytes>)
      requires forall i :: 0 <= i < |chunks| ==> chunks[i] != []
      ensures Valid() && Rest() == Concat(chunks) && output == []
    {
      this.chunks, output := chunks, [];
    }

    /** The buffered bytes; empty only at the end of the text. */
    function FillBuf(): Bytes
      reads this
    {
      if chunks == [] then [] else chunks[0]
    }

    method Consume(n: nat)
      requires Valid() && n <= |FillBuf()|
      modifies this`chunks
      ensures Valid() && Rest() == old(Rest())[n..]
      ensures |chunks| <= old(|chunks|) && (n > 0 ==> |Rest()| < old(|Rest()|))
    {
      if n == 0 { return; }
      ghost var before := Rest();
      assert before == chunks[0] + Concat(chunks[1..]);
      if n == |chunks[0]| {
        chunks := chunks[1..];
      } else {
        var left := [chunks[0][n..]] + chunks[1..];
        assert left[0] == chunks[0][n..] && left[1..] == chunks[1..];
        chunks := left;
      }
      assert Rest() == before[n..];
    }

    lemma {:induction false} RestStarts()
      requires Valid()
      ensures |FillBuf()| <= |Rest()| && FillBuf() == Rest()[..|FillBuf()|]
      ensures FillBuf() == [] <==> Rest() == []
    {
      if chunks != [] { assert Rest() == chunks[0] + Concat(chunks[1..]); }
    }

    /** One turn of the loop: take what the buffer holds of the line, unless that exceeds the limit.
        `taken` is `None` when it does. */
    method TakePart(limit: nat) returns (taken: Option<nat>, complete: bool)
      requires Valid() && Rest() != [] && |output| <= limit
      modifies this
      ensures Valid() && |output| <= limit
      ensures taken.None? ==> |old(output)| + LineLength(old(Rest())) > limit
      ensures taken.Some? ==>
        && 0 < taken.value <= |old(Rest())| && Rest() == old(Rest())[taken.value..]
        && output == old(output) + old(Rest())[..taken.value]
        && LineLength(old(Rest())) == taken.value + if complete then 0 else LineLength(Rest())
    {
      RestStarts();
      var available := FillBuf();
      var newline := Position(available);
      var consumed := match newline case None => |available| case Some(p) => p + 1;
      FirstPart(Rest(), available, newline, consumed);
      if |output| + consumed > limit { return None, false; }
      output := output + available[..consumed];
      Consume(consumed);
      return Some(consumed), newline.Some?;
    }

    /** `k` bytes of the text are in the line buffer, the rest is still to come. */
    ghost predicate At(text: Bytes, k: nat)
      reads this
    {
      Valid() && k <= |text| && output == text[..k] && Rest() == text[k..]
    }

    method TakeFurther(limit: nat, ghost text: Bytes, ghost k: nat) returns (ghost next: nat, tooLong: bool, complete: bool)
      requires At(text, k) && k < |text| && k <= limit && LineLength(text) == k + LineLength(text[k..])
      modifies this
      ensures |output| <= limit && Valid()
      ensures tooLong ==> LineLength(text) > limit
      ensures !tooLong ==> k < next <= limit && At(text, next)
      ensures !tooLong ==> LineLength(text) == next + if complete then 0 else LineLength(text[next..])
    {
      var taken, finished := TakePart(limit);
      if taken.None? { return 0, true, false; }
      NextPart(text, k, taken.value);
      return k + taken.value, false, finished;
    }

    /** Reads the first line of what is left, whatever the chunks. It fails iff that line is longer
        than the limit, and the line buffer never is. */
    method ReadBoundedLine(limit: nat) returns (more: Result<bool, ()>)
      requires Valid()
      modifies this
      ensures Valid() && |output| <= limit
      ensures more.Err? <==> LineLength(old(Rest())) > limit
      ensures more.Ok? ==> more.value == (old(Rest()) != []) && At(old(Rest()), LineLength(old(Rest())))
    {
      ghost var text := Rest();
      ghost var k: nat := 0;
      output := [];
      var complete := false;
      while !complete
        invariant At(text, k) && k <= limit
        invariant LineLength(text) == k + if complete then 0 else LineLength(text[k..])
        invariant complete ==> k > 0
        decreases |text| - k, !complete
      {
        RestStarts();
        if FillBuf() == [] { return Ok(output != []); }
        var tooLong: bool;
        k, tooLong, complete := TakeFurther(limit, text, k);
        if tooLong { return Err(()); }
      }
      return Ok(true);
    }
  }

  lemma {:induction false} NextPart(text: Bytes, n: nat, k: nat)
    requires n + k <= |text|
    ensures text[n..][k..] == text[n + k..] && text[..n] + text[n..][..k] == text[..n + k]
  {
  }

  /** What one buffer says about the first line of the text it begins. */
  lemma {:induction false} FirstPart(rest: Bytes, available: Bytes, newline: Option<nat>, consumed: nat)
    requires |available| <= |rest| && available == rest[..|available|] && newline == Position(available)
    requires consumed == match newline case None => |available| case Some(p) => p + 1
    ensures newline.Some? ==> LineLength(rest) == consumed
    ensures newline.None? ==> LineLength(rest) == consumed + LineLength(rest[consumed..])
  {
    match newline
    case Some(p) => LineLengthIs(rest, consumed);
    case None => LineLengthWithout(rest, available, rest[consumed..]);
  }

  // ---- Reading the whole file ----

  predicate AllFit(lines: seq<Bytes>, limit: nat) { forall i | 0 <= i < |lines| :: |lines[i]| <= limit }

  predicate IsBlank(line: Bytes) {
    forall i | 0 <= i < |line| :: line[i] == 32 || line[i] == 9 || line[i] == 10 || line[i] == 12 || line[i] == 13
  }

  /** The lines that hold records. */
  function Records(lines: seq<Bytes>): seq<Bytes> {
    if lines == [] then []
    else (if IsBlank(lines[0]) then [] else [lines[0]]) + Records(lines[1..])
  }

  /** Parsing a record and checking its report on its own: the schema version it has if it passes. */
  type Checker = Bytes -> Option<nat>

  /** A passing record of a supported version, the same as that of the records before it, if any. */
  predicate Admits(check: Checker, version: Option<nat>, record: Bytes) {
    var found := check(record);
    found.Some? && 1 <= found.value <= SCHEMA_VERSION && (version.Some? ==> found.value == version.value)
  }

  /** What reading a text line by line comes to, once a version has been seen. */
  function ReadThrough(text: Bytes, limit: nat, check: Checker, version: Option<nat>): Result<seq<Bytes>, ()>
    decreases |text|
  {
    if text == [] then Ok([])
    else if LineLength(text) > limit then Err(())
    else
      var line, rest := text[..LineLength(text)], text[LineLength(text)..];
      if IsBlank(line) then ReadThrough(rest, limit, check, version)
      else if !Admits(check, version, line) then Err(())
      else Prepend(line, ReadThrough(rest, limit, check, check(line)))
  }

  function Prepend(first: Bytes, later: Result<seq<Bytes>, ()>): Result<seq<Bytes>, ()> {
    match later case Err(e) => Err(e) case Ok(records) => Ok([first] + records)
  }

  function PrependAll(found: seq<Bytes>, later: Result<seq<Bytes>, ()>): Result<seq<Bytes>, ()> {
    match later case Err(e) => Err(e) case Ok(records) => Ok(found + records)
  }

  lemma {:induction false} PrependTwice(found: seq<Bytes>, next: Bytes, later: Result<seq<Bytes>, ()>)
    ensures PrependAll(found, Prepend(next, later)) == PrependAll(found + [next], later)
  {
    if later.Ok? { assert found + ([next] + later.value) == (found + [next]) + later.value; }
  }

  /** The loop over the lines of a file: it ends at the first line that is too long or does not hold a
      record of the version of the others. */
  method ReadRecords(reader: LineReader, limit: nat, check: Checker) returns (records: Result<seq<Bytes>, ()>)
    requires reader.Valid()
    modifies reader
    ensures records == ReadThrough(old(reader.Rest()), limit, check, None)
  {
    ghost var text := reader.Rest();
    ghost var rest := text;
    var found: seq<Bytes>, version := [], None;
    var finished := false;
    assert PrependAll([], ReadThrough(text, limit, check, None)) == ReadThrough(text, limit, check, None) by {
      PrependNothing(ReadThrough(text, limit, check, None));
    }
    while !finished
      invariant reader.Valid() && reader.Rest() == rest && (finished ==> rest == [])
      invariant ReadThrough(text, limit, check, None) == PrependAll(found, ReadThrough(rest, limit, check, version))
      decreases |rest|, !finished
    {
      var more := reader.ReadBoundedLine(limit);
      if more.Err? { return Err(()); }
      if !more.value {
        finished := true;
      } else {
        ghost var later := rest[LineLength(rest)..];
        if !IsBlank(reader.output) {
          if !Admits(check, version, reader.output) { return Err(()); }
          version := check(reader.output);
          PrependTwice(found, reader.output, ReadThrough(later, limit, check, version));
          found := found + [reader.output];
        }
        rest := later;
      }
    }
    assert found + [] == found;
    return Ok(found);
  }

  /** A file without records is refused. */
  method Analyze(reader: LineReader, check: Checker) returns (records: Option<seq<Bytes>>)
    requires reader.Valid()
    modifies reader
    ensures records == match ReadThrough(old(reader.Rest()), MAX_RECORD_BYTES, check, None)
                       case Err(_) => None
                       case Ok(all) => if all == [] then None else Some(all)
  {
    var all := ReadRecords(reader, MAX_RECORD_BYTES, check);
    return if all.Err? || all.value == [] then None else Some(all.value);
  }

  lemma {:induction false} PrependNothing(later: Result<seq<Bytes>, ()>)
    ensures PrependAll([], later) == later
  {
    if later.Ok? { assert [] + later.value == later.value; }
  }

  /** Records that all pass, of one supported version, that of those before if there are any. */
  predicate OneVersion(records: seq<Bytes>, check: Checker, version: Option<nat>) {
    && (forall i | 0 <= i < |records| ::
          check(records[i]).Some? && 1 <= check(records[i]).value <= SCHEMA_VERSION && (version.Some? ==> check(records[i]) == version))
    && (forall i | 0 <= i < |records| :: check(records[i]) == check(records[0]))
  }

  lemma {:induction false} OneVersionUnfolds(first: Bytes, rest: seq<Bytes>, check: Checker, version: Option<nat>)
    ensures OneVersion([first] + rest, check, version) <==> Admits(check, version, first) && OneVersion(rest, check, check(first))
  {
    var records := [first] + rest;
    assert forall i :: 0 <= i < |rest| ==> rest[i] == records[i + 1];
    assert records[0] == first;
    if Admits(check, version, first) && OneVersion(rest, check, check(first)) {
      forall i | 0 <= i < |records| ensures Admits(check, version, records[i]) && check(records[i]) == check(first) {
        assert i > 0 ==> records[i] == rest[i - 1] && Admits(check, check(first), rest[i - 1]);
      }
    }
    if OneVersion(records, check, version) {
      forall i | 0 <= i < |rest| ensures Admits(check, check(first), rest[i]) && check(rest[i]) == check(rest[0]) {
        assert Admits(check, version, records[i + 1]) && check(records[i + 1]) == check(records[0]) == check(records[1]);
      }
    }
  }

  /** Reading depends on the lines of the text alone, not on how it was cut into chunks: it succeeds iff
      no line with its newline exceeds the limit and all records pass and have one supported version,
      and then yields the lines that hold records, in order. */
  lemma {:induction false} ReadThroughIs(text: Bytes, limit: nat, check: Checker, version: Option<nat>)
    ensures ReadThrough(text, limit, check, version)
         == if AllFit(SplitLines(text), limit) && OneVersion(Records(SplitLines(text)), check, version)
            then Ok(Records(SplitLines(text))) else Err(())
    decreases |text|
  {
    if text != [] {
      if LineLength(text) > limit {
        LongLine(text, limit);
      } else {
        var line, rest := text[..LineLength(text)], text[LineLength(text)..];
        LinesUnfold(text, limit);
        if IsBlank(line) {
          ReadThroughIs(rest, limit, check, version);
          assert [] + Records(SplitLines(rest)) == Records(SplitLines(rest));
        } else {
          ReadThroughIs(rest, limit, check, check(line));
          OneVersionUnfolds(line, Records(SplitLines(rest)), check, version);
        }
      }
    }
  }

  lemma {:induction false} LinesUnfold(text: Bytes, limit: nat)
    requires text != [] && LineLength(text) <= limit
    ensures AllFit(SplitLines(text), limit) <==> AllFit(SplitLines(text[LineLength(text)..]), limit)
    ensures Records(SplitLines(text))
         == (if IsBlank(text[..LineLength(text)]) then [] else [text[..LineLength(text)]]) + Records(SplitLines(text[LineLength(text)..]))
  {
    var lines := SplitLines(text);
    assert lines[0] == text[..LineLength(text)] && lines[1..] == SplitLines(text[LineLength(text)..]);
    FitsApart(lines, limit);
  }

  lemma {:induction false} FitsApart(lines: seq<Bytes>, limit: nat)
    requires lines != []
    ensures AllFit(lines, limit) <==> |lines[0]| <= limit && AllFit(lines[1..], limit)
  {
    if |lines[0]| <= limit && AllFit(lines[1..], limit) {
      forall i | 0 <= i < |lines| ensures |lines[i]| <= limit { assert i > 0 ==> lines[i] == lines[1..][i - 1]; }
    }
    if AllFit(lines, limit) {
      forall i | 0 <= i < |lines| - 1 ensures |lines[1..][i]| <= limit { assert lines[1..][i] == lines[i + 1]; }
    }
  }

  lemma {:induction false} LongLine(text: Bytes, limit: nat)
    requires LineLength(text) > limit
    ensures !AllFit(SplitLines(text), limit)
  {
    assert SplitLines(text)[0] == text[..LineLength(text)];
  }

  // ---- Appending ----

  /** Collects one encoded record, refusing to grow beyond its limit. */
  class BoundedWriter {
    var bytes: Bytes
    const limit: nat
    var exceeded: bool

    ghost predicate Valid()
      reads this
    {
      |bytes| <= limit
    }

    constructor (limit: nat)
      ensures Valid() && bytes == [] && this.limit == limit && !exceeded
    {
      bytes, exceeded := [], false;
      this.limit := limit;
    }

    method Write(buffer: Bytes) returns (ok: bool)
      requires Valid()
      modifies this
      ensures Valid()
      ensures ok <==> old(|bytes|) + |buffer| <= limit
      ensures bytes == if ok then old(bytes) + buffer else old(bytes)
      ensures exceeded == (old(exceeded) || !ok)
    {
      if |buffer| > limit - |bytes| {
        exceeded := true;
        return false;
      }
      bytes := bytes + buffer;
      return true;
    }
  }

  lemma {:induction false} ConcatPrefix<X>(pieces: seq<seq<X>>, n: nat)
    requires n < |pieces|
    ensures Concat(pieces[..n + 1]) == Concat(pieces[..n]) + pieces[n]
    ensures |Concat(pieces[..n + 1])| <= |Concat(pieces)|
  {
    assert pieces[..n + 1] == pieces[..n] + [pieces[n]];
    ConcatAppend(pieces[..n], [pieces[n]]);
    assert Concat([pieces[n]]) == pieces[n] by { assert [pieces[n]][1..] == []; }
    assert pieces == pieces[..n + 1] + pieces[n + 1..];
    ConcatAppend(pieces[..n + 1], pieces[n + 1..]);
  }

  /** One append: the encoder writes the record in pieces; a record that with its newline exceeds the
      limit is refused and the file left as it is. */
  method Append(file: Bytes, pieces: seq<Bytes>, limit: nat) returns (after: Option<Bytes>)
    requires limit > 0
    ensures after == if |Concat(pieces)| + 1 <= limit then Some(file + Concat(pieces) + [NEWLINE]) else None
  {
    var writer := new BoundedWriter(limit - 1);
    for i := 0 to |pieces|
      invariant writer.Valid() && fresh(writer) && writer.limit == limit - 1 && writer.bytes == Concat(pieces[..i])
    {
      ConcatPrefix(pieces, i);
      var ok := writer.Write(pieces[i]);
      if !ok { return None; }
    }
    assert pieces[..|pieces|] == pieces;
    var record := writer.bytes + [NEWLINE];
    assert file + Concat(pieces) + [NEWLINE] == file + record;
    return Some(file + record);
  }

  /** A file after a list of records has been appended to it, one by one. */
  function Appended(records: seq<Bytes>): Bytes {
    if records == [] then [] else Appended(records[..|records| - 1]) + records[|records| - 1] + [NEWLINE]
  }

  predicate NewlineFree(record: Bytes) { forall i | 0 <= i < |record| :: record[i] != NEWLINE }

  function Terminated(records: seq<Bytes>): (r: seq<Bytes>)
    ensures |r| == |records| && forall i :: 0 <= i < |r| ==> r[i] == records[i] + [NEWLINE]
  {
    seq(|records|, i requires 0 <= i < |records| => records[i] + [NEWLINE])
  }

  lemma {:induction false} AppendedFront(records: seq<Bytes>)
    requires records != []
    ensures Appended(records) == records[0] + [NEWLINE] + Appended(records[1..])
  {
    var last := |records| - 1;
    if last == 0 {
      assert records[..0] == [] && Appended(records[1..]) == [];
      assert Appended(records) == [] + records[0] + [NEWLINE];
    } else {
      AppendedFront(records[..last]);
      var middle := Appended(records[1..][..last - 1]);
      assert records[..last][1..] == records[1..][..last - 1];
      assert Appended(records[1..]) == middle + records[last] + [NEWLINE];
      Regroup(records[0], middle, records[last]);
    }
  }

  lemma {:induction false} Regroup(first: Bytes, middle: Bytes, last: Bytes)
    ensures first + [NEWLINE] + middle + last + [NEWLINE] == first + [NEWLINE] + (middle + last + [NEWLINE])
  {
  }

  lemma {:induction false} AppendedLines(records: seq<Bytes>)
    requires forall i :: 0 <= i < |records| ==> NewlineFree(records[i])
    ensures SplitLines(Appended(records)) == Terminated(records)
  {
    if records == [] {
      assert Terminated(records) == [];
    } else {
      AppendedFront(records);
      var text, n := Appended(records), |records[0]| + 1;
      assert text[..n] == records[0] + [NEWLINE] && text[n..] == Appended(records[1..]);
      LineLengthIs(text, n);
      AppendedLines(records[1..]);
      assert Terminated(records) == [records[0] + [NEWLINE]] + Terminated(records[1..]);
    }
  }

  lemma {:induction false} NoneBlank(lines: seq<Bytes>)
    requires forall i :: 0 <= i < |lines| ==> !IsBlank(lines[i])
    ensures Records(lines) == lines
  {
    if lines != [] { NoneBlank(lines[1..]); }
  }

  /** Records without newline that are not blank, were small enough to be appended and pass with one
      supported version come back, in order, each on its line: whatever reads this file through
      `ReadRecords` gets them. */
  lemma {:induction false} AppendedRecordsReadBack(records: seq<Bytes>, limit: nat, check: Checker)
    requires forall i :: 0 <= i < |records| ==> NewlineFree(records[i]) && !IsBlank(records[i]) && |records[i]| + 1 <= limit
    requires OneVersion(Terminated(records), check, None)
    ensures ReadThrough(Appended(records), limit, check, None) == Ok(Terminated(records))
  {
    AppendedLines(records);
    ReadThroughIs(Appended(records), limit, check, None);
    forall i | 0 <= i < |records| ensures !IsBlank(Terminated(records)[i]) {
      var j :| 0 <= j < |records[i]| && !(records[i][j] == 32 || records[i][j] == 9 || records[i][j] == 10 || records[i][j] == 12 || records[i][j] == 13);
      assert Terminated(records)[i][j] == records[i][j];
    }
    NoneBlank(Terminated(records));
  }

  // ---- Stored histograms and rates ----

  /** The history check of one histogram, written separately from the live one. */
  method ValidateHistogram(h: H.RuntimeHistogram) returns (valid: bool)
    ensures valid == if h.buckets == [] then h.seriesCount <= 1 else 1 <= h.seriesCount <= H.MAX_SERIES && H.IsCumulative(h.buckets)
  {
    if h.buckets == [] { return h.seriesCount <= 1; }
    if !(1 <= h.seriesCount <= H.MAX_SERIES) || !(2 <= |h.buckets| <= H.MAX_BUCKETS) || h.buckets[|h.buckets| - 1].upper.Some? {
      return false;
    }
    var buckets := h.buckets;
    var previousBound: Option<real> := None;
    var previousCount := 0.0;
    for index := 0 to |buckets|
      invariant forall i :: 0 <= i < index ==> (buckets[i].upper.None? <==> i == |buckets| - 1)
      invariant forall i :: 0 <= i < index && i < |buckets| - 1 ==> buckets[i].upper.value >= 0.0
      invariant forall i, j :: 0 <= i < j < index && j < |buckets| - 1 ==> buckets[i].upper.value < buckets[j].upper.value
      invariant forall i :: 0 <= i < index ==> buckets[i].count >= 0.0
      invariant forall i, j :: 0 <= i <= j < index ==> buckets[i].count <= buckets[j].count
      invariant previousCount == if index == 0 then 0.0 else buckets[index - 1].count
      invariant index == 0 ==> previousBound == None
      invariant 0 < index < |buckets| ==> previousBound == buckets[index - 1].upper
    {
      var bucket := buckets[index];
      if bucket.count < 0.0 || bucket.count < previousCount { return false; }
      previousCount := bucket.count;
      if bucket.upper.Some? && bucket.upper.value >= 0.0 && (previousBound.None? || bucket.upper.value > previousBound.value) {
        previousBound := bucket.upper;
      } else if !(bucket.upper.None? && index + 1 == |buckets| && previousBound.Some?) {
        return false;
      }
    }
    return true;
  }

  ghost predicate StorableHistogram(h: H.RuntimeHistogram) {
    if h.buckets == [] then h.seriesCount <= 1 else 1 <= h.seriesCount <= H.MAX_SERIES && H.IsCumulative(h.buckets)
  }

  /** What is left of a snapshot when it is stored: the series are private. */
  function AsStored(h: H.RuntimeHistogram): H.RuntimeHistogram { h.(series := []) }

  /** On non-empty bucket lists the two validators accept exactly the same stored snapshots. */
  lemma {:induction false} ValidatorsAgree(h: H.RuntimeHistogram)
    requires h.buckets != []
    ensures StorableHistogram(AsStored(h)) <==> H.IsValid(AsStored(h))
  {
  }

  /** Whatever the accumulator finishes with, be it a histogram or the empty one, can be stored. */
  lemma {:induction false} FinishedHistogramsAreStorable(t: C.Table)
    ensures StorableHistogram(AsStored(C.FinishOf(t)))
  {
    var h := C.FinishOf(t);
    if h != C.EMPTY {
      assert t.Open?;
      var rows := C.Rows(t.cells);
      var series := H.SortSeries(C.Entries(rows, C.KeyList(rows.Keys)));
      H.TotalIsCumulative(series);
    }
  }

  predicate StorableRate(r: Option<real>) { r.None? || r.value >= 0.0 }

  predicate StorableInterval(i: Option<H.Interval>) { i.None? || H.StoredIntervalValid(i.value) }

  /** The history check of the rates of an endpoint. */
  predicate StorableRates(r: T.Rates) {
    && r.interval >= 0.0
    && StorableRate(r.requests) && StorableRate(r.errors) && StorableRate(r.promptTokens) && StorableRate(r.generationTokens)
    && StorableRate(r.preemptions) && StorableRate(r.meanLatencyMs) && StorableRate(r.meanTtftMs) && StorableRate(r.meanTpotMs)
    && (HasRates(r) ==> r.interval > 0.0)
    && StorableInterval(r.requestLatency) && StorableInterval(r.timeToFirstToken)
    && StorableInterval(r.timePerOutputToken) && StorableInterval(r.queueTime)
  }

  predicate HasRates(r: T.Rates) {
    || r.requests.Some? || r.errors.Some? || r.promptTokens.Some? || r.generationTokens.Some? || r.preemptions.Some?
    || r.meanLatencyMs.Some? || r.meanTtftMs.Some? || r.meanTpotMs.Some?
    || r.requestLatency.Some? || r.timeToFirstToken.Some? || r.timePerOutputToken.Some? || r.queueTime.Some?
  }

  lemma {:induction false} RateStorable(before: Option<real>, after: Option<real>, elapsed: real)
    requires elapsed > 0.0
    ensures StorableRate(T.Rate(before, after, elapsed))
  {
    if T.MonotonicDelta(before, after).Some? { H.DivideMonotone(0.0, T.MonotonicDelta(before, after).value, elapsed); }
  }

  lemma {:induction false} MeanStorable(beforeSum: Option<real>, beforeCount: Option<real>, afterSum: Option<real>, afterCount: Option<real>)
    ensures StorableRate(T.MeanMs(beforeSum, beforeCount, afterSum, afterCount))
  {
    var sum, count := T.MonotonicDelta(beforeSum, afterSum), T.MonotonicDelta(beforeCount, afterCount);
    if sum.Some? && count.Some? && count.value > 0.0 { H.DivideMonotone(0.0, sum.value, count.value); }
  }

  lemma {:induction false} IntervalStorable(before: H.RuntimeHistogram, after: H.RuntimeHistogram)
    ensures StorableInterval(H.IntervalOf(before, after))
  {
    if H.IntervalOf(before, after).Some? { H.LiveIntervalsAreStorable(before, after); }
  }

  /** Rates the tracker derives always pass the history check. */
  lemma {:induction false} DerivedRatesAreStorable(before: T.Counters, after: T.Counters, elapsed: real)
    requires elapsed > 0.0
    ensures StorableRates(T.RatesOf(before, after, elapsed))
  {
    var b, a, x, y := before.values, after.values, before.histograms, after.histograms;
    RateStorable(b.requestsCompleted, a.requestsCompleted, elapsed);
    RateStorable(b.requestErrors, a.requestErrors, elapsed);
    RateStorable(b.promptTokens, a.promptTokens, elapsed);
    RateStorable(b.generationTokens, a.generationTokens, elapsed);
    RateStorable(b.preemptions, a.preemptions, elapsed);
    MeanStorable(b.latencySum, b.latencyCount, a.latencySum, a.latencyCount);
    MeanStorable(b.ttftSum, b.ttftCount, a.ttftSum, a.ttftCount);
    MeanStorable(b.tpotSum, b.tpotCount, a.tpotSum, a.tpotCount);
    IntervalStorable(x.requestLatency, y.requestLatency);
    IntervalStorable(x.timeToFirstToken, y.timeToFirstToken);
    IntervalStorable(x.timePerOutputToken, y.timePerOutputToken);
    IntervalStorable(x.queueTime, y.queueTime);
  }
}
