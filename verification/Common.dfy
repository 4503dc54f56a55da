/** Result shapes and byte-level facts about text shared by the other modules. */
module Common {

  datatype Option<+T> = None | Some(value: T) {
    function GetOr(default: T): T {
      match this
      case None => default
      case Some(v) => v
    }
  }

  datatype Result<+T, +E> = Ok(value: T) | Err(error: E)

  /** The outcome of parsing a decimal floating-point literal. Which literals parse, and to
      what, is a parameter of the modules that need it. */
  datatype Number = Finite(value: real) | NonFinite

  /** One byte of UTF-8 text. */
  type Byte = b: int | 0 <= b < 256

  /** The largest value of the 64-bit unsigned integers. */
  const U64_MAX: nat := 0xFFFF_FFFF_FFFF_FFFF

  /** Arithmetic that stops at the largest 64-bit value. */
  function SaturatingAdd(a: nat, b: nat): nat { if a + b > U64_MAX then U64_MAX else a + b }

  function SaturatingMul(a: nat, b: nat): nat { if a * b > U64_MAX then U64_MAX else a * b }

  function Min(a: int, b: int): int { if a <= b then a else b }

  function Max(a: int, b: int): int { if a <= b then b else a }

  /** Number of bytes UTF-8 spends on one Unicode scalar value. */
  function CharBytes(c: char): (n: nat)
    ensures 1 <= n <= 4
  {
    var v := c as int;
    if v < 0x80 then 1 else if v < 0x800 then 2 else if v < 0x1_0000 then 3 else 4
  }

  /** The byte length of a string slice. */
  function Utf8Len(s: string): nat {
    if s == [] then 0 else CharBytes(s[0]) + Utf8Len(s[1..])
  }

  lemma {:induction false} Utf8LenAppend(a: string, b: string)
    ensures Utf8Len(a + b) == Utf8Len(a) + Utf8Len(b)
  {
    if a == [] {
      assert a + b == b;
    } else {
      assert (a + b)[1..] == a[1..] + b;
      Utf8LenAppend(a[1..], b);
    }
  }

  lemma {:induction false} Utf8LenAtLeastChars(s: string)
    ensures Utf8Len(s) >= |s|
  {
    if s != [] { Utf8LenAtLeastChars(s[1..]); }
  }

  /** Two prefixes of one text that occupy equally many bytes are equal. */
  lemma {:induction false} EqualBytePrefixes(a: string, b: string, x: string, y: string)
    requires a + x == b + y && Utf8Len(a) == Utf8Len(b)
    ensures a == b && x == y
  {
    if a == [] {
      Utf8LenAtLeastChars(b);
      assert b + y == y;
      assert a + x == x;
    } else if b == [] {
      Utf8LenAtLeastChars(a);
    } else {
      assert a[0] == (a + x)[0] == (b + y)[0] == b[0];
      assert (a + x)[1..] == a[1..] + x && (b + y)[1..] == b[1..] + y;
      EqualBytePrefixes(a[1..], b[1..], x, y);
    }
  }

  /** Unicode `White_Space`. */
  predicate IsWhitespace(c: char) {
    var v := c as int;
    9 <= v <= 13 || v == 0x20 || v == 0x85 || v == 0xA0 || v == 0x1680 || 0x2000 <= v <= 0x200A
    || v == 0x2028 || v == 0x2029 || v == 0x202F || v == 0x205F || v == 0x3000
  }

  predicate IsAsciiWhitespace(c: char) {
    c == ' ' || c == '\t' || c == '\n' || c as int == 12 || c == '\r'
  }

  function TrimStart(s: string): (r: string)
  {
    if s == [] || !IsWhitespace(s[0]) then s else TrimStart(s[1..])
  }

  function TrimEnd(s: string): (r: string)
  {
    if s == [] || !IsWhitespace(s[|s| - 1]) then s else TrimEnd(s[..|s| - 1])
  }

  function Trim(s: string): string { TrimEnd(TrimStart(s)) }

  /** `needle` is a contiguous run of `text`. */
  ghost predicate Occurs<T>(needle: seq<T>, text: seq<T>) {
    exists i :: OccursAt(needle, text, i)
  }

  predicate OccursAt<T(==)>(needle: seq<T>, text: seq<T>, i: int) {
    0 <= i <= |text| - |needle| && text[i..i + |needle|] == needle
  }

  /** Concatenation of a list of pieces. */
  function Concat<T>(pieces: seq<seq<T>>): seq<T> {
    if pieces == [] then [] else pieces[0] + Concat(pieces[1..])
  }

  lemma {:induction false} ConcatAppend<T>(a: seq<seq<T>>, b: seq<seq<T>>)
    ensures Concat(a + b) == Concat(a) + Concat(b)
  {
    if a == [] {
      assert a + b == b;
    } else {
      assert (a + b)[1..] == a[1..] + b;
      ConcatAppend(a[1..], b);
    }
  }

  /** The positions at which a list holds something. */
  ghost function Where<T>(items: seq<T>, holds: T -> bool): set<nat> { set i: nat | i < |items| && holds(items[i]) }

  lemma {:induction false} WhereGrows<T>(items: seq<T>, holds: T -> bool)
    requires items != []
    ensures |Where(items, holds)| == |Where(items[..|items| - 1], holds)| + if holds(items[|items| - 1]) then 1 else 0
  {
    var last := |items| - 1;
    var before := Where(items[..last], holds);
    assert forall i: nat :: i < last ==> items[..last][i] == items[i];
    if holds(items[last]) {
      assert Where(items, holds) == before + {last};
    } else {
      assert Where(items, holds) == before;
    }
  }
}
