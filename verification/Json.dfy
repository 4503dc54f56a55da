/** JSON values as far as completion responses are read, and what is read from them. */
module Json {
  import opened Common

  /** `Num` carries the value when it is an unsigned 64-bit integer. */
  datatype Value =
    | Null
    | Bool(flag: bool)
    | Num(unsigned: Option<nat>)
    | Str(text: string)
    | Arr(items: seq<Value>)
    | Obj(fields: seq<Field>)

  /** The member names the parser looks for, and any other. */
  datatype Name =
    | Error | Usage | PromptTokens | CompletionTokens | Choices | Index | FinishReason | Delta
    | Reasoning | ReasoningContent | Content | Message | Text | Unknown(name: string)

  datatype Field = Field(key: Name, value: Value)

  function Find(fields: seq<Field>, key: Name): Option<Value> {
    if fields == [] then None
    else if fields[0].key == key then Some(fields[0].value)
    else Find(fields[1..], key)
  }

  function Get(v: Value, key: Name): Option<Value> { if v.Obj? then Find(v.fields, key) else None }

  function GetFrom(v: Option<Value>, key: Name): Option<Value> { if v.Some? then Get(v.value, key) else None }

  function AsText(v: Option<Value>): Option<string> { if v.Some? && v.value.Str? then Some(v.value.text) else None }

  function AsUnsigned(v: Option<Value>): Option<nat> { if v.Some? && v.value.Num? then v.value.unsigned else None }

  lemma {:induction false} FoundIsSmaller(fields: seq<Field>, key: Name)
    ensures Find(fields, key).Some? ==> exists i :: 0 <= i < |fields| && fields[i].value == Find(fields, key).value
  {
    if fields != [] && fields[0].key != key {
      FoundIsSmaller(fields[1..], key);
      if Find(fields, key).Some? {
        var i :| 0 <= i < |fields| - 1 && fields[1..][i].value == Find(fields, key).value;
        assert fields[i + 1] == fields[1..][i];
      }
    }
  }

  /** The texts of a content value in reading order: a string is one, a list is read item by item, an
      object by its `text`. */
  function Texts(v: Value): seq<string>
    decreases v, 1
  {
    match v
    case Str(text) => [text]
    case Arr(items) => TextsOf(v, |items|)
    case Obj(fields) =>
      FoundIsSmaller(fields, Text);
      (match Find(fields, Text) case None => [] case Some(inner) => Texts(inner))
    case _ => []
  }

  /** The texts of the first `n` items of a list. */
  function TextsOf(v: Value, n: nat): seq<string>
    requires v.Arr? && n <= |v.items|
    decreases v, 0, n
  {
    if n == 0 then [] else TextsOf(v, n - 1) + Texts(v.items[n - 1])
  }

  function NonEmpty(texts: seq<string>): (r: seq<string>)
    ensures forall i :: 0 <= i < |r| ==> r[i] != []
  {
    if texts == [] then [] else (if texts[0] == [] then [] else [texts[0]]) + NonEmpty(texts[1..])
  }

  lemma {:induction false} NonEmptyAppend(a: seq<string>, b: seq<string>)
    ensures NonEmpty(a + b) == NonEmpty(a) + NonEmpty(b)
  {
    if a == [] {
      assert a + b == b;
    } else {
      assert (a + b)[1..] == a[1..] + b;
      NonEmptyAppend(a[1..], b);
    }
  }

  lemma {:induction false} NonEmptyConcat(texts: seq<string>)
    ensures Concat(NonEmpty(texts)) == Concat(texts)
  {
    if texts != [] {
      NonEmptyConcat(texts[1..]);
      var head := if texts[0] == [] then [] else [texts[0]];
      ConcatAppend(head, NonEmpty(texts[1..]));
      if head != [] { assert head[1..] == []; }
    }
  }
}
