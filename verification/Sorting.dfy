/** The library's comparison sort, known only through what it promises: an ordered rearrangement
    of its input. Such a rearrangement is unique once tied elements are equal, which is what makes
    the results computed from it independent of arrival order. */
module Sorting {

  ghost predicate TotalPreorder<T(!new)>(leq: (T, T) -> bool) {
    && (forall x, y :: leq(x, y) || leq(y, x))
    && (forall x, y, z :: leq(x, y) && leq(y, z) ==> leq(x, z))
  }

  ghost predicate Ordered<T>(s: seq<T>, leq: (T, T) -> bool) {
    forall i, j :: 0 <= i < j < |s| ==> leq(s[i], s[j])
  }

  function Insert<T>(x: T, s: seq<T>, leq: (T, T) -> bool): (r: seq<T>)
    ensures multiset(r) == multiset(s)[x := multiset(s)[x] + 1]
    ensures |r| == |s| + 1
  {
    if s == [] then [x]
    else if leq(x, s[0]) then
      assert ([x] + s)[1..] == s;
      [x] + s
    else
      assert s == [s[0]] + s[1..];
      [s[0]] + Insert(x, s[1..], leq)
  }

  function Sort<T>(s: seq<T>, leq: (T, T) -> bool): (r: seq<T>)
    ensures multiset(r) == multiset(s)
    ensures |r| == |s|
  {
    if s == [] then []
    else
      assert s == [s[0]] + s[1..];
      Insert(s[0], Sort(s[1..], leq), leq)
  }

  lemma {:induction false} InsertOrdered<T(!new)>(x: T, s: seq<T>, leq: (T, T) -> bool)
    requires TotalPreorder(leq) && Ordered(s, leq)
    ensures Ordered(Insert(x, s, leq), leq)
  {
    if s != [] && !leq(x, s[0]) {
      InsertOrdered(x, s[1..], leq);
      var r := Insert(x, s[1..], leq);
      forall j | 0 <= j < |r| ensures leq(s[0], r[j]) {
        assert r[j] in multiset(r);
        if r[j] != x {
          assert r[j] in multiset(s[1..]);
          assert r[j] in s[1..];
        }
      }
    }
  }

  lemma {:induction false} SortOrdered<T(!new)>(s: seq<T>, leq: (T, T) -> bool)
    requires TotalPreorder(leq)
    ensures Ordered(Sort(s, leq), leq)
  {
    if s != [] {
      SortOrdered(s[1..], leq);
      InsertOrdered(s[0], Sort(s[1..], leq), leq);
    }
  }

  /** Ties only between equal elements. */
  ghost predicate TiesAreEqual<T>(s: seq<T>, leq: (T, T) -> bool) {
    forall x, y :: x in s && y in s && leq(x, y) && leq(y, x) ==> x == y
  }

  /** An ordered arrangement of a bag of elements without distinguishable ties is unique. */
  lemma {:induction false} OrderedUnique<T(!new)>(s: seq<T>, t: seq<T>, leq: (T, T) -> bool)
    requires TotalPreorder(leq) && Ordered(s, leq) && Ordered(t, leq)
    requires multiset(s) == multiset(t) && TiesAreEqual(s, leq)
    ensures s == t
  {
    assert |multiset(s)| == |s| && |multiset(t)| == |t|;
    if s != [] {
      LeastFirst(s, t, leq);
      TailBag(s);
      TailBag(t);
      OrderedUnique(s[1..], t[1..], leq);
      assert s == [s[0]] + s[1..] && t == [t[0]] + t[1..];
    }
  }

  lemma {:induction false} TailBag<T>(s: seq<T>)
    requires s != []
    ensures multiset(s[1..]) == multiset(s) - multiset{s[0]}
  {
    assert s == [s[0]] + s[1..];
  }

  lemma {:induction false} LeastFirst<T(!new)>(s: seq<T>, t: seq<T>, leq: (T, T) -> bool)
    requires TotalPreorder(leq) && Ordered(s, leq) && Ordered(t, leq)
    requires multiset(s) == multiset(t) && TiesAreEqual(s, leq) && s != [] && t != []
    ensures s[0] == t[0]
  {
    assert s[0] in multiset(t) && t[0] in multiset(s);
    assert s[0] in t && t[0] in s;
    assert leq(t[0], s[0]) && leq(s[0], t[0]);
  }

  /** Sorting forgets the order in which the elements arrived. */
  lemma {:induction false} SortForgetsOrder<T(!new)>(s: seq<T>, t: seq<T>, leq: (T, T) -> bool)
    requires TotalPreorder(leq) && multiset(s) == multiset(t) && TiesAreEqual(s, leq)
    ensures Sort(s, leq) == Sort(t, leq)
  {
    SortOrdered(s, leq);
    SortOrdered(t, leq);
    var r := Sort(s, leq);
    forall x, y | x in r && y in r && leq(x, y) && leq(y, x) ensures x == y {
      assert x in multiset(r) && y in multiset(r);
      assert x in multiset(s) && y in multiset(s);
    }
    OrderedUnique(Sort(s, leq), Sort(t, leq), leq);
  }

  /** A list that is already in order is left as it is. */
  lemma {:induction false} SortOfOrdered<T(!new)>(s: seq<T>, leq: (T, T) -> bool)
    requires TotalPreorder(leq) && Ordered(s, leq) && TiesAreEqual(s, leq)
    ensures Sort(s, leq) == s
  {
    SortOrdered(s, leq);
    OrderedUnique(s, Sort(s, leq), leq);
  }

  /** Byte order on strings, which on UTF-8 text is the order of the scalar values. */
  predicate StringLeq(a: string, b: string) {
    a == [] || (b != [] && (a[0] < b[0] || (a[0] == b[0] && StringLeq(a[1..], b[1..]))))
  }

  lemma {:induction false} StringLeqTotal(a: string, b: string)
    ensures StringLeq(a, b) || StringLeq(b, a)
  {
    if a != [] && b != [] { StringLeqTotal(a[1..], b[1..]); }
  }

  lemma {:induction false} StringLeqTransitive(a: string, b: string, c: string)
    requires StringLeq(a, b) && StringLeq(b, c)
    ensures StringLeq(a, c)
  {
    if a != [] && a[0] == b[0] == c[0] { StringLeqTransitive(a[1..], b[1..], c[1..]); }
  }

  lemma {:induction false} StringLeqAntisymmetric(a: string, b: string)
    requires StringLeq(a, b) && StringLeq(b, a)
    ensures a == b
  {
    if a != [] { StringLeqAntisymmetric(a[1..], b[1..]); }
  }

  /** If one step commutes with another, folding it over a list depends only on which elements
      the list holds. */
  function Fold<S, T>(step: (S, T) -> S, state: S, items: seq<T>): S {
    if items == [] then state else Fold(step, step(state, items[0]), items[1..])
  }

  ghost predicate Commutes<S(!new), T(!new)>(step: (S, T) -> S) {
    forall s, a, b :: step(step(s, a), b) == step(step(s, b), a)
  }

  lemma {:induction false} FoldAppend<S, T>(step: (S, T) -> S, state: S, a: seq<T>, b: seq<T>)
    ensures Fold(step, state, a + b) == Fold(step, Fold(step, state, a), b)
  {
    if a == [] {
      assert a + b == b;
    } else {
      assert (a + b)[1..] == a[1..] + b;
      FoldAppend(step, step(state, a[0]), a[1..], b);
    }
  }

  /** Under a commuting step the element at position `k` may be taken first. */
  lemma {:induction false} FoldPull<S(!new), T(!new)>(step: (S, T) -> S, state: S, items: seq<T>, k: nat)
    requires Commutes(step) && k < |items|
    ensures Fold(step, state, items) == Fold(step, step(state, items[k]), items[..k] + items[k + 1..])
  {
    if k == 0 {
      assert items[..0] + items[1..] == items[1..];
    } else {
      var rest := items[..k] + items[k + 1..];
      FoldPull(step, step(state, items[0]), items[1..], k - 1);
      assert items[1..][..k - 1] + items[1..][k..] == rest[1..];
      assert items[1..][k - 1] == items[k];
      assert step(step(state, items[0]), items[k]) == step(step(state, items[k]), items[0]);
    }
  }

  lemma {:induction false} CommutingFold<S(!new), T(!new)>(step: (S, T) -> S, state: S, a: seq<T>, b: seq<T>)
    requires Commutes(step) && multiset(a) == multiset(b)
    ensures Fold(step, state, a) == Fold(step, state, b)
  {
    assert |multiset(a)| == |a| && |multiset(b)| == |b|;
    if a != [] {
      assert a[0] in multiset(b);
      var k :| 0 <= k < |b| && b[k] == a[0];
      FoldPull(step, state, b, k);
      var rest := b[..k] + b[k + 1..];
      assert b == b[..k] + [b[k]] + b[k + 1..];
      assert a == [a[0]] + a[1..];
      assert multiset(rest) == multiset(b) - multiset{a[0]} == multiset(a[1..]);
      CommutingFold(step, step(state, a[0]), a[1..], rest);
    }
  }
}
