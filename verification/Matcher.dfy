/** The incremental Knuth-Morris-Pratt matcher that watches generated text for the configured
    expectation while seeing it only in arbitrary pieces. */
module Matcher {
  import opened Common
  import U = Utf8

  /** `k` is the length of a proper prefix of `s` that is also a suffix of it. */
  predicate IsBorder<T(==)>(s: seq<T>, k: nat) {
    k < |s| && s[..k] == s[|s| - k..]
  }

  ghost predicate IsLongestBorder<T>(s: seq<T>, k: nat) {
    && IsBorder(s, k)
    && (forall j: nat :: IsBorder(s, j) ==> j <= k)
  }

  /** Entry `i` of a prefix table is the longest border of the first `i + 1` elements; the first
      `n` entries are in place and the others still hold the initial zero. */
  ghost predicate IsPartialTable<T>(needle: seq<T>, table: seq<nat>, n: nat) {
    && n <= |needle| == |table|
    && (forall i :: 0 <= i < n ==> IsLongestBorder(needle[..i + 1], table[i]))
    && (forall i :: n <= i < |table| ==> table[i] == 0)
  }

  ghost predicate IsPrefixTable<T>(needle: seq<T>, table: seq<nat>) {
    IsPartialTable(needle, table, |needle|)
  }

  /** `k` elements of the needle end the text. */
  predicate EndsWith<T(==)>(text: seq<T>, needle: seq<T>, k: nat) {
    k <= |needle| && k <= |text| && text[|text| - k..] == needle[..k]
  }

  /** Shorter matches at the end of a text are borders of the longer ones. */
  lemma {:induction false} ShorterMatchIsBorder<T>(text: seq<T>, needle: seq<T>, k: nat, j: nat)
    requires EndsWith(text, needle, k) && j < k
    ensures EndsWith(text, needle, j) <==> IsBorder(needle[..k], j)
  {
    assert needle[..k][..j] == needle[..j];
    assert needle[..k][k - j..] == text[|text| - k..][k - j..] == text[|text| - j..];
  }

  /** Extending a match by one element. */
  lemma {:induction false} ExtendMatch<T>(text: seq<T>, b: T, needle: seq<T>, k: nat)
    requires 0 < k <= |needle|
    ensures EndsWith(text + [b], needle, k) <==> EndsWith(text, needle, k - 1) && needle[k - 1] == b
  {
    var t := text + [b];
    if k <= |t| {
      assert t[|t| - k..] == text[|text| - (k - 1)..] + [b];
      assert needle[..k] == needle[..k - 1] + [needle[k - 1]];
      if t[|t| - k..] == needle[..k] {
        assert t[|t| - k..][..k - 1] == needle[..k][..k - 1];
        assert t[|t| - k..][k - 1] == needle[..k][k - 1];
      }
    }
  }

  /** The longest way in which the needle may be under way at the end of a text. */
  ghost predicate IsLongestMatch<T>(text: seq<T>, needle: seq<T>, k: nat) {
    && EndsWith(text, needle, k)
    && (forall j: nat :: EndsWith(text, needle, j) ==> j <= k)
  }

  /** The longest match, found by trying the longer ones first. */
  function LongestUpTo<T(==)>(text: seq<T>, needle: seq<T>, k: nat): nat {
    if k == 0 || EndsWith(text, needle, k) then k else LongestUpTo(text, needle, k - 1)
  }

  lemma {:induction false} LongestFound<T>(text: seq<T>, needle: seq<T>, k: nat)
    ensures EndsWith(text, needle, LongestUpTo(text, needle, k))
    ensures forall j: nat :: EndsWith(text, needle, j) && j <= k ==> j <= LongestUpTo(text, needle, k)
  {
    if k > 0 && !EndsWith(text, needle, k) { LongestFound(text, needle, k - 1); }
    assert EndsWith(text, needle, 0);
  }

  lemma {:induction false} LongestIsUnique<T>(text: seq<T>, needle: seq<T>, k: nat)
    ensures IsLongestMatch(text, needle, k) <==> k == LongestUpTo(text, needle, |needle|)
  {
    LongestFound(text, needle, |needle|);
  }

  /** No match at the end of the text that `b` would extend is longer than `k`. */
  ghost predicate CoversExtensions<T>(text: seq<T>, needle: seq<T>, k: nat, b: T) {
    forall j: nat :: j < |needle| && EndsWith(text, needle, j) && needle[j] == b ==> j <= k
  }

  /** One fallback along the prefix table discards no match that the next element could extend. */
  lemma {:induction false} Fallback<T>(text: seq<T>, needle: seq<T>, table: seq<nat>, n: nat, k: nat, b: T)
    requires IsPartialTable(needle, table, n)
    requires 0 < k <= n && k < |needle| && EndsWith(text, needle, k) && needle[k] != b
    requires CoversExtensions(text, needle, k, b)
    ensures table[k - 1] < k && EndsWith(text, needle, table[k - 1])
    ensures CoversExtensions(text, needle, table[k - 1], b)
  {
    var f := table[k - 1];
    assert IsLongestBorder(needle[..k], f);
    ShorterMatchIsBorder(text, needle, k, f);
    forall j: nat | j < |needle| && EndsWith(text, needle, j) && needle[j] == b ensures j <= f {
      assert j < k;
      ShorterMatchIsBorder(text, needle, k, j);
    }
  }

  /** After the fallbacks, comparing with the new element yields the longest match of the longer
      text, provided the needle had not occurred before. */
  lemma {:induction false} Advance<T>(text: seq<T>, needle: seq<T>, k: nat, b: T)
    requires k < |needle| && EndsWith(text, needle, k)
    requires k == 0 || needle[k] == b
    requires CoversExtensions(text, needle, k, b)
    ensures IsLongestMatch(text + [b], needle, if needle[k] == b then k + 1 else 0)
  {
    var r := if needle[k] == b then k + 1 else 0;
    if r > 0 { ExtendMatch(text, b, needle, r); }
    forall j: nat | EndsWith(text + [b], needle, j) ensures j <= r {
      if j > 0 { ExtendMatch(text, b, needle, j); }
    }
  }

  /** Borders of `needle[..i + 1]` are matches at the end of `needle[1..i + 1]`. */
  lemma {:induction false} BordersAreMatches<T>(needle: seq<T>, i: nat, k: nat)
    requires i < |needle| && k <= i
    ensures IsBorder(needle[..i + 1], k) <==> EndsWith(needle[1..i + 1], needle, k)
  {
    assert needle[..i + 1][..k] == needle[..k];
    assert needle[..i + 1][i + 1 - k..] == needle[1..i + 1][i - k..];
  }

  lemma {:induction false} LongestBorderIsLongestMatch<T>(needle: seq<T>, i: nat, k: nat)
    requires i < |needle| && IsLongestMatch(needle[1..i + 1], needle, k)
    ensures IsLongestBorder(needle[..i + 1], k)
  {
    BordersAreMatches(needle, i, k);
    var p := needle[..i + 1];
    forall j: nat | IsBorder(p, j) ensures j <= k { BordersAreMatches(needle, i, j); }
  }

  /** The inner loop of both the table construction and the matching: fall back until the element
      `b` extends the match or nothing is matched. */
  method FallBack<T(==)>(needle: seq<T>, table: array<nat>, ghost n: nat, ghost text: seq<T>, start: nat, b: T)
    returns (matched: nat, ghost steps: nat)
    requires IsPartialTable(needle, table[..], n) && start <= n && start < |needle|
    requires EndsWith(text, needle, start) && CoversExtensions(text, needle, start, b)
    ensures steps + matched <= start
    ensures IsLongestMatch(text + [b], needle, if needle[matched] == b then matched + 1 else 0)
    ensures needle[matched] == b || matched == 0
  {
    matched, steps := start, 0;
    while matched > 0 && needle[matched] != b
      invariant matched <= start && EndsWith(text, needle, matched)
      invariant CoversExtensions(text, needle, matched, b)
      invariant steps + matched <= start
      decreases matched
    {
      Fallback(text, needle, table[..], n, matched, b);
      matched := table[matched - 1];
      steps := steps + 1;
    }
    Advance(text, needle, matched, b);
  }

  /** Fill the table in place; the fallbacks taken in all never outnumber the elements. */
  method PrefixTable<T(==)>(needle: seq<T>) returns (table: array<nat>, ghost fallbacks: nat)
    ensures fresh(table) && IsPrefixTable(needle, table[..])
    ensures fallbacks <= |needle|
  {
    table := new nat[|needle|](_ => 0);
    fallbacks := 0;
    if |needle| == 0 { return; }
    assert IsBorder(needle[..1], 0);
    var matched: nat := 0;
    for index := 1 to |needle|
      invariant IsPartialTable(needle, table[..], index)
      invariant IsLongestMatch(needle[1..index], needle, matched)
      invariant matched < index
      invariant fallbacks + matched <= index
    {
      ghost var steps;
      matched, steps := FallBack(needle, table, index, needle[1..index], matched, needle[index]);
      fallbacks := fallbacks + steps;
      assert needle[1..index + 1] == needle[1..index] + [needle[index]];
      ghost var was := table[..];
      if needle[matched] == needle[index] {
        matched := matched + 1;
        table[index] := matched;
      }
      assert table[..] == was[index := matched];
      LongestBorderIsLongestMatch(needle, index, matched);
      ExtendTable(needle, was, index, matched);
    }
  }

  lemma {:induction false} ExtendTable<T>(needle: seq<T>, table: seq<nat>, n: nat, k: nat)
    requires n < |needle| && IsPartialTable(needle, table, n) && IsLongestBorder(needle[..n + 1], k)
    ensures IsPartialTable(needle, table[n := k], n + 1)
  {
  }

  lemma {:induction false} OccursAtEndIff<T>(needle: seq<T>, text: seq<T>)
    requires |needle| <= |text|
    ensures OccursAt(needle, text, |text| - |needle|) <==> EndsWith(text, needle, |needle|)
  {
    assert needle[..|needle|] == needle;
    assert text[|text| - |needle|..|text|] == text[|text| - |needle|..];
  }

  lemma {:induction false} OccursAtBefore<T>(needle: seq<T>, text: seq<T>, b: T, i: nat)
    requires i + |needle| <= |text|
    ensures OccursAt(needle, text + [b], i) <==> OccursAt(needle, text, i)
  {
    assert (text + [b])[i..i + |needle|] == text[i..i + |needle|];
  }

  /** A text contains the needle iff some prefix of it ends with the needle. */
  lemma {:induction false} OccursInLonger<T>(needle: seq<T>, text: seq<T>, b: T)
    ensures Occurs(needle, text + [b]) <==> Occurs(needle, text) || EndsWith(text + [b], needle, |needle|)
  {
    var t := text + [b];
    if |needle| <= |t| { OccursAtEndIff(needle, t); }
    if Occurs(needle, text) {
      var i :| OccursAt(needle, text, i);
      OccursAtBefore(needle, text, b, i);
    }
    if Occurs(needle, t) {
      var i :| OccursAt(needle, t, i);
      if i + |needle| <= |text| { OccursAtBefore(needle, text, b, i); }
    }
  }

  lemma {:induction false} OccursInExtension<T>(needle: seq<T>, text: seq<T>, more: seq<T>)
    requires Occurs(needle, text)
    ensures Occurs(needle, text + more)
  {
    var i :| OccursAt(needle, text, i);
    assert (text + more)[i..i + |needle|] == text[i..i + |needle|];
    assert OccursAt(needle, text + more, i);
  }

  /** The needle occurs at a position before `k`, found by looking. */
  predicate OccursBefore<T(==)>(needle: seq<T>, text: seq<T>, k: nat) {
    k > 0 && (OccursBefore(needle, text, k - 1) || OccursAt(needle, text, k - 1))
  }

  lemma {:induction false} OccursBeforeIff<T>(needle: seq<T>, text: seq<T>, k: nat)
    ensures OccursBefore(needle, text, k) <==> exists i :: 0 <= i < k && OccursAt(needle, text, i)
  {
    if k > 0 { OccursBeforeIff(needle, text, k - 1); }
  }

  lemma {:induction false} OccursIff<T>(needle: seq<T>, text: seq<T>)
    ensures OccursBefore(needle, text, |text| + 1) <==> Occurs(needle, text)
  {
    OccursBeforeIff(needle, text, |text| + 1);
  }

  /** The longest border of a list, found by trying the longer ones first. */
  function BorderUpTo<T(==)>(s: seq<T>, k: nat): nat {
    if k == 0 || IsBorder(s, k) then k else BorderUpTo(s, k - 1)
  }

  lemma {:induction false} BorderFound<T>(s: seq<T>, k: nat)
    requires s != []
    ensures IsBorder(s, BorderUpTo(s, k)) && forall j: nat :: IsBorder(s, j) && j <= k ==> j <= BorderUpTo(s, k)
  {
    if k > 0 && !IsBorder(s, k) { BorderFound(s, k - 1); }
    assert s[..0] == s[|s|..];
  }

  /** The prefix table as a function of the needle. */
  function BorderTable<T(==)>(needle: seq<T>, n: nat): (r: seq<nat>)
    requires n <= |needle|
    ensures |r| == n
  {
    if n == 0 then [] else BorderTable(needle, n - 1) + [BorderUpTo(needle[..n], n)]
  }

  lemma {:induction false} BorderTableAt<T>(needle: seq<T>, n: nat, i: nat)
    requires i < n <= |needle|
    ensures IsLongestBorder(needle[..i + 1], BorderTable(needle, n)[i])
  {
    if i < n - 1 { BorderTableAt(needle, n - 1, i); } else { BorderFound(needle[..n], n); }
  }

  lemma {:induction false} TableIsBorderTable<T>(needle: seq<T>, table: seq<nat>)
    ensures IsPrefixTable(needle, table) <==> table == BorderTable(needle, |needle|)
  {
    var t := BorderTable(needle, |needle|);
    forall i: nat | i < |needle| ensures IsLongestBorder(needle[..i + 1], t[i]) { BorderTableAt(needle, |needle|, i); }
    if IsPrefixTable(needle, table) {
      forall i: nat | i < |needle| ensures table[i] == t[i] {
        assert IsLongestBorder(needle[..i + 1], table[i]) && IsLongestBorder(needle[..i + 1], t[i]);
      }
    }
  }

  // ---- The pieces of a text ----

  /** Some character is not white space. */
  predicate HasVisible(s: string) { exists i | 0 <= i < |s| :: !IsWhitespace(s[i]) }

  /** The bytes of some pieces, one after another. */
  function Bytes(pieces: seq<string>): seq<Byte> {
    if pieces == [] then [] else Bytes(pieces[..|pieces| - 1]) + U.Encode(pieces[|pieces| - 1])
  }

  predicate AnyVisible(pieces: seq<string>) {
    pieces != [] && (AnyVisible(pieces[..|pieces| - 1]) || HasVisible(pieces[|pieces| - 1]))
  }

  lemma {:induction false} ConcatLast(pieces: seq<string>)
    requires pieces != []
    ensures Concat(pieces) == Concat(pieces[..|pieces| - 1]) + pieces[|pieces| - 1]
  {
    var init, last := pieces[..|pieces| - 1], pieces[|pieces| - 1];
    assert pieces == init + [last];
    ConcatAppend(init, [last]);
    assert [last][1..] == [];
  }

  lemma {:induction false} BytesOfPieces(pieces: seq<string>)
    ensures Bytes(pieces) == U.Encode(Concat(pieces))
  {
    if pieces != [] {
      var init, last := pieces[..|pieces| - 1], pieces[|pieces| - 1];
      BytesOfPieces(init);
      ConcatLast(pieces);
      U.EncodeAppend(Concat(init), last);
    }
  }

  lemma {:induction false} VisibleInAppend(a: string, b: string)
    ensures HasVisible(a + b) <==> HasVisible(a) || HasVisible(b)
  {
    if HasVisible(a) {
      var i :| 0 <= i < |a| && !IsWhitespace(a[i]);
      assert !IsWhitespace((a + b)[i]);
    }
    if HasVisible(b) {
      var i :| 0 <= i < |b| && !IsWhitespace(b[i]);
      assert !IsWhitespace((a + b)[|a| + i]);
    }
  }

  lemma {:induction false} VisiblePieces(pieces: seq<string>)
    ensures HasVisible(Concat(pieces)) <==> AnyVisible(pieces)
  {
    if pieces != [] {
      var init, last := pieces[..|pieces| - 1], pieces[|pieces| - 1];
      VisiblePieces(init);
      ConcatLast(pieces);
      VisibleInAppend(Concat(init), last);
    }
  }

  class OutputMatcher {
    ghost const expectation: Option<string>
    const needle: Option<seq<Byte>>
    const prefix: array<nat>
    var matched: nat
    var hasNonWhitespace: bool
    var expectationMet: Option<bool>
    ghost var pushed: seq<string>
    /** Fallbacks taken so far, and bytes looked at so far. */
    ghost var fallbacks: nat
    ghost var examined: nat

    /** Between pushes: the verdict is exactly substring containment, and an undecided matcher
        sits on the longest match at the end of everything pushed. */
    ghost predicate Valid()
      reads this, prefix
    {
      && needle == (match expectation case None => None case Some(e) => Some(U.Encode(e)))
      && hasNonWhitespace == AnyVisible(pushed)
      && fallbacks + matched <= examined <= |Bytes(pushed)|
      && match needle
         case None => expectationMet == None
         case Some(n) =>
           && prefix[..] == BorderTable(n, |n|)
           && expectationMet == Some(OccursBefore(n, Bytes(pushed), |Bytes(pushed)| + 1))
           && (!expectationMet.value ==> matched == LongestUpTo(Bytes(pushed), n, |n|) && matched < |n|)
    }

    constructor (expectation: Option<string>)
      ensures Valid() && fresh(this) && fresh(prefix) && this.expectation == expectation && pushed == []
    {
      this.expectation := expectation;
      var text := match expectation case None => None case Some(e) => Some(U.Encode(e));
      needle := text;
      var table: array<nat>;
      ghost var steps;
      match text {
        case None =>
          table := new nat[0];
        case Some(n) =>
          table, steps := PrefixTable(n);
      }
      prefix := table;
      matched := 0;
      hasNonWhitespace := false;
      expectationMet := match text case None => None case Some(n) => Some(|n| == 0);
      pushed, fallbacks, examined := [], 0, 0;
      if text.Some? {
        assert |text.value| == 0 ==> OccursAt(text.value, [], 0);
        LongestIsUnique([], text.value, 0);
        OccursIff(text.value, []);
        TableIsBorderTable(text.value, table[..]);
      }
    }

    /** The verdict is about the concatenated text alone: the expectation is met iff it is a substring of
        it, and there was output iff some character of it is not white space. */
    lemma {:induction false} Verdict()
      requires Valid()
      ensures expectationMet.Some? <==> expectation.Some?
      ensures expectation.Some? ==> expectationMet.value == Occurs(expectation.value, Concat(pushed))
      ensures hasNonWhitespace <==> HasVisible(Concat(pushed))
    {
      BytesOfPieces(pushed);
      if expectation.Some? {
        U.BytesOccurIff(expectation.value, Concat(pushed));
        OccursIff(U.Encode(expectation.value), Bytes(pushed));
      }
      VisiblePieces(pushed);
    }

    /** The loop body for one byte: the needle is complete iff it now occurs in the text. */
    method Examine(n: seq<Byte>, ghost text: seq<Byte>, byte: Byte)
      requires needle == Some(n) && IsPrefixTable(n, prefix[..])
      requires IsLongestMatch(text, n, matched) && matched < |n| && !Occurs(n, text)
      modifies `matched, `fallbacks, `examined
      ensures IsLongestMatch(text + [byte], n, matched) && matched <= |n|
      ensures matched == |n| <==> Occurs(n, text + [byte])
      ensures fallbacks + matched <= old(fallbacks) + old(matched) + 1
      ensures examined == old(examined) + 1
    {
      ghost var steps;
      var m;
      m, steps := FallBack(n, prefix, |n|, text, matched, byte);
      matched, fallbacks, examined := m, fallbacks + steps, examined + 1;
      if n[matched] == byte {
        matched := matched + 1;
      }
      OccursInLonger(n, text, byte);
    }

    /** Whatever the cut into pieces, the verdict after a push is containment in all the bytes so
        far, and the fallbacks so far are no more than those bytes. */
    method Push(piece: string)
      requires Valid()
      modifies this
      ensures Valid() && pushed == old(pushed) + [piece]
    {
      hasNonWhitespace := hasNonWhitespace || HasVisible(piece);
      ghost var before := Bytes(pushed);
      var bytes := U.Encode(piece);
      pushed := pushed + [piece];
      assert pushed[..|pushed| - 1] == old(pushed);
      if needle.Some? {
        OccursIff(needle.value, before);
        OccursIff(needle.value, before + bytes);
        TableIsBorderTable(needle.value, prefix[..]);
      }
      if expectationMet != Some(false) {
        if expectationMet == Some(true) { OccursInExtension(needle.value, before, bytes); }
        return;
      }
      LongestIsUnique(before, needle.value, matched);
      Scan(needle.value, before, bytes);
      LongestIsUnique(before + bytes, needle.value, matched);
    }

    method Scan(n: seq<Byte>, ghost before: seq<Byte>, bytes: seq<Byte>)
      requires needle == Some(n) && IsPrefixTable(n, prefix[..])
      requires expectationMet == Some(false)
      requires IsLongestMatch(before, n, matched) && matched < |n| && !Occurs(n, before)
      requires fallbacks + matched <= examined <= |before|
      modifies `matched, `fallbacks, `examined, `expectationMet
      ensures expectationMet == Some(Occurs(n, before + bytes))
      ensures fallbacks + matched <= examined <= |before + bytes|
      ensures !Occurs(n, before + bytes) ==> IsLongestMatch(before + bytes, n, matched) && matched < |n|
    {
      assert before + bytes[..0] == before;
      for i := 0 to |bytes|
        invariant expectationMet == Some(false)
        invariant !Occurs(n, before + bytes[..i])
        invariant IsLongestMatch(before + bytes[..i], n, matched) && matched < |n|
        invariant fallbacks + matched <= examined <= |before| + i
      {
        ghost var text := before + bytes[..i];
        Examine(n, text, bytes[i]);
        assert before + bytes[..i + 1] == text + [bytes[i]];
        if matched == |n| {
          expectationMet := Some(true);
          OccursInExtension(n, text + [bytes[i]], bytes[i + 1..]);
          assert before + bytes == text + [bytes[i]] + bytes[i + 1..];
          return;
        }
      }
      assert bytes[..|bytes|] == bytes;
    }
  }
}
