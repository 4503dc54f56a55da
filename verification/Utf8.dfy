/** UTF-8, and why looking for the bytes of one text in the bytes of another is looking for the text. */
module Utf8 {
  import opened Common

  /** The low six bits of a value, marked as a continuation. */
  function Continuation(v: nat): Byte { 0x80 + v % 64 }

  function EncodeChar(c: char): (r: seq<Byte>)
    ensures |r| == CharBytes(c)
  {
    var v := c as int;
    if v < 0x80 then [v]
    else if v < 0x800 then [0xC0 + v / 64, Continuation(v)]
    else if v < 0x1_0000 then [0xE0 + v / 4096, Continuation(v / 64), Continuation(v)]
    else [0xF0 + v / 262144, Continuation(v / 4096), Continuation(v / 64), Continuation(v)]
  }

  function Encode(s: string): seq<Byte> {
    if s == [] then [] else EncodeChar(s[0]) + Encode(s[1..])
  }

  lemma {:induction false} EncodeLength(s: string)
    ensures |Encode(s)| == Utf8Len(s)
  {
    if s != [] { EncodeLength(s[1..]); }
  }

  lemma {:induction false} EncodeAppend(a: string, b: string)
    ensures Encode(a + b) == Encode(a) + Encode(b)
  {
    if a == [] {
      assert a + b == b;
    } else {
      assert (a + b)[1..] == a[1..] + b;
      EncodeAppend(a[1..], b);
      assert EncodeChar(a[0]) + (Encode(a[1..]) + Encode(b)) == (EncodeChar(a[0]) + Encode(a[1..])) + Encode(b);
    }
  }

  predicate IsContinuation(b: Byte) { 0x80 <= b < 0xC0 }

  /** The number of bytes a character takes, read off its first byte. */
  function LengthFrom(b: Byte): nat { if b < 0x80 then 1 else if b < 0xE0 then 2 else if b < 0xF0 then 3 else 4 }

  lemma {:induction false} CharShape(c: char)
    ensures !IsContinuation(EncodeChar(c)[0]) && LengthFrom(EncodeChar(c)[0]) == |EncodeChar(c)|
    ensures forall i :: 0 < i < |EncodeChar(c)| ==> IsContinuation(EncodeChar(c)[i])
  {
  }

  lemma {:induction false} TwoDigits(v: nat, w: nat)
    requires v / 64 == w / 64 && v % 64 == w % 64
    ensures v == w
  {
  }

  lemma {:induction false} Nested(v: nat)
    ensures v / 4096 == v / 64 / 64 && v / 262144 == v / 64 / 64 / 64
  {
  }

  lemma {:induction false} CharInjective(c: char, d: char)
    requires EncodeChar(c) == EncodeChar(d)
    ensures c == d
  {
    var v, w := c as int, d as int;
    CharShape(c);
    CharShape(d);
    assert EncodeChar(c)[0] == EncodeChar(d)[0];
    assert |EncodeChar(c)| == |EncodeChar(d)|;
    Nested(v);
    Nested(w);
    if 0x80 <= v < 0x800 {
      assert EncodeChar(c)[1] == EncodeChar(d)[1];
      TwoDigits(v, w);
    } else if 0x800 <= v < 0x1_0000 {
      assert EncodeChar(c)[1] == EncodeChar(d)[1] && EncodeChar(c)[2] == EncodeChar(d)[2];
      TwoDigits(v / 64, w / 64);
      TwoDigits(v, w);
    } else if v >= 0x1_0000 {
      assert EncodeChar(c)[1] == EncodeChar(d)[1] && EncodeChar(c)[2] == EncodeChar(d)[2] && EncodeChar(c)[3] == EncodeChar(d)[3];
      TwoDigits(v / 4096, w / 4096);
      TwoDigits(v / 64, w / 64);
      TwoDigits(v, w);
    }
  }

  /** A text whose bytes begin with the bytes of another begins with it. */
  lemma {:induction false} PrefixOfBytes(n: string, s: string)
    requires Encode(n) <= Encode(s)
    ensures n <= s
  {
    if n != [] {
      CharShape(n[0]);
      assert s != [];
      CharShape(s[0]);
      var x, y := Encode(n), Encode(s);
      assert x[0] == EncodeChar(n[0])[0] && y[0] == EncodeChar(s[0])[0] && x[0] == y[0];
      var k := |EncodeChar(n[0])|;
      assert EncodeChar(n[0]) == x[..k] == y[..k] == EncodeChar(s[0]);
      CharInjective(n[0], s[0]);
      assert x[k..] == Encode(n[1..]) && y[k..] == Encode(s[1..]);
      PrefixOfBytes(n[1..], s[1..]);
    }
  }

  /** A byte that is no continuation begins a character. */
  lemma {:induction false} Boundary(t: string, k: nat) returns (i: nat)
    requires k < |Encode(t)| && !IsContinuation(Encode(t)[k])
    ensures i < |t| && Encode(t)[k..] == Encode(t[i..])
  {
    CharShape(t[0]);
    var n := |EncodeChar(t[0])|;
    if k == 0 {
      i := 0;
      assert t[0..] == t;
    } else {
      assert forall j :: 0 < j < n ==> Encode(t)[j] == EncodeChar(t[0])[j];
      var j := Boundary(t[1..], k - n);
      i := j + 1;
      assert Encode(t)[k..] == Encode(t[1..])[k - n..];
      assert t[1..][j..] == t[i..];
    }
  }

  /** Searching the bytes finds a text exactly when the text is there. */
  lemma {:induction false} BytesOccurIff(n: string, t: string)
    ensures Occurs(Encode(n), Encode(t)) <==> Occurs(n, t)
  {
    if Occurs(n, t) {
      var i :| OccursAt(n, t, i);
      var before, after := t[..i], t[i + |n|..];
      assert t == before + (n + after);
      EncodeAppend(before, n + after);
      EncodeAppend(n, after);
      var k := |Encode(before)|;
      assert Encode(t)[k..k + |Encode(n)|] == Encode(n);
      assert OccursAt(Encode(n), Encode(t), k);
    }
    if Occurs(Encode(n), Encode(t)) {
      var k :| OccursAt(Encode(n), Encode(t), k);
      if n == [] {
        assert OccursAt(n, t, 0);
      } else {
        CharShape(n[0]);
        EncodedFrom(n, t, k);
      }
    }
  }

  lemma {:induction false} EncodedFrom(n: string, t: string, k: nat)
    requires n != [] && OccursAt(Encode(n), Encode(t), k) && Encode(n) != [] && !IsContinuation(Encode(n)[0])
    ensures Occurs(n, t)
  {
    var x, y := Encode(n), Encode(t);
    assert y[k] == y[k..k + |x|][0] == x[0];
    var i := Boundary(t, k);
    assert x == y[k..k + |x|] == y[k..][..|x|];
    PrefixOfBytes(n, t[i..]);
    assert t[i..][..|n|] == n;
    assert OccursAt(n, t, i);
  }
}
