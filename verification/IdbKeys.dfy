/** The IndexedDB key decoder of src-python/doubao_chats.py:254-298. */
module IdbKeys {
  import opened Basics
  import opened Bytes

  const NULL: byte := 0
  const STRING: byte := 1
  const DATE: byte := 2
  const NUMBER: byte := 3
  const ARRAY: byte := 4
  const MIN: byte := 5
  const BINARY: byte := 6

  /** A key as it was stored: text by its UTF-16 code units, two bytes each, and numbers
      and dates by the eight bytes of their double. */
  datatype Key =
    | Null
    | Min
    | Text(units: seq<(byte, byte)>)
    | Number(double: seq<byte>)
    | Date(double: seq<byte>)
    | Array(items: seq<Key>)
    | Binary(bytes: seq<byte>)

  predicate WellFormed(k: Key)
    decreases k
  {
    match k
    case Number(d) => |d| == 8
    case Date(d) => |d| == 8
    case Array(items) => forall i :: 0 <= i < |items| ==> WellFormed(items[i])
    case _ => true
  }

  function UnitBytes(units: seq<(byte, byte)>): (s: seq<byte>)
    ensures |s| == 2 * |units|
  {
    if units == [] then [] else [units[0].0, units[0].1] + UnitBytes(units[1..])
  }

  function Encode(k: Key): (s: seq<byte>)
    ensures s != []
    decreases k
  {
    match k
    case Null => [NULL]
    case Min => [MIN]
    case Text(units) => [STRING] + (Varint(|units|) + UnitBytes(units))
    case Number(d) => [NUMBER] + d
    case Date(d) => [DATE] + d
    case Array(items) => [ARRAY] + (Varint(|items|) + EncodeAll(items))
    case Binary(s) => [BINARY] + (Varint(|s|) + s)
  }

  function EncodeAll(items: seq<Key>): seq<byte>
    decreases items
  {
    if items == [] then [] else Encode(items[0]) + EncodeAll(items[1..])
  }

  /** What decoding gives: null and min are one value, and so are numbers and dates. */
  datatype Value = Nil | Characters(bytes: seq<byte>) | Double(bytes: seq<byte>) | List(items: seq<Value>) | Raw(bytes: seq<byte>)

  function Meaning(k: Key): Value
    decreases k
  {
    match k
    case Null => Nil
    case Min => Nil
    case Text(units) => Characters(UnitBytes(units))
    case Number(d) => Double(d)
    case Date(d) => Double(d)
    case Array(items) => List(Meanings(items))
    case Binary(s) => Raw(s)
  }

  function Meanings(items: seq<Key>): (vs: seq<Value>)
    ensures |vs| == |items|
    decreases items
  {
    if items == [] then [] else [Meaning(items[0])] + Meanings(items[1..])
  }

  // ------------------------------------------------------------------ spans

  /** Where the key that starts at i ends; None stands for an exception. */
  function Span(b: seq<byte>, i: nat): (end: Option<nat>)
    ensures end.Some? ==> i < |b| && i < end.value
    decreases |b| - i, 0
  {
    if i >= |b| then None
    else if b[i] == NULL || b[i] == MIN then Some(i + 1)
    else if b[i] == NUMBER || b[i] == DATE then Some(i + 9)
    else if b[i] == STRING || b[i] == BINARY || b[i] == ARRAY then
      match VarintAt(b, i + 1)
      case None => None
      case Some((n, j)) => if b[i] == STRING then Some(j + 2 * n) else if b[i] == BINARY then Some(j + n) else Spans(b, j, n)
    else None
  }

  function Spans(b: seq<byte>, i: nat, n: nat): (end: Option<nat>)
    ensures end.Some? ==> i <= end.value
    decreases |b| - i, 1, n
  {
    if n == 0 then Some(i)
    else
      var first := Span(b, i);
      if first.None? then None else Spans(b, first.value, n - 1)
  }

  /** _idb_key_span */
  method KeySpan(b: seq<byte>, i: nat) returns (end: Option<nat>)
    ensures end == Span(b, i)
    decreases |b| - i
  {
    if i >= |b| { return None; }
    var t := b[i];
    if t == NULL || t == MIN { return Some(i + 1); }
    if t == NUMBER || t == DATE { return Some(i + 9); }
    if t != STRING && t != BINARY && t != ARRAY { return None; }
    var size := ReadVarint(b, i + 1);
    if size.None? { return None; }
    var n, j := size.value.0, size.value.1;
    if t == STRING { return Some(j + n * 2); }
    if t == BINARY { return Some(j + n); }
    for k := 0 to n
      invariant i < j && Spans(b, size.value.1, n) == Spans(b, j, n - k)
    {
      var item := KeySpan(b, j);
      if item.None? { return None; }
      j := item.value;
    }
    return Some(j);
  }

  /** The tags as IndexedDB has them. */
  lemma Tags(units: seq<(byte, byte)>, d: seq<byte>, items: seq<Key>, s: seq<byte>)
    ensures Encode(Null)[0] == 0 && Encode(Text(units))[0] == 1 && Encode(Date(d))[0] == 2 && Encode(Number(d))[0] == 3
    ensures Encode(Array(items))[0] == 4 && Encode(Min)[0] == 5 && Encode(Binary(s))[0] == 6
  {
  }

  /** No key starts with any other tag, or past the end. */
  lemma OtherTagsFail(b: seq<byte>, i: nat)
    requires i >= |b| || b[i] > 6
    ensures Span(b, i) == None && (i == 0 ==> Decode(b) == None)
  {
  }

  lemma {:induction false} SpanOfKey(b: seq<byte>, i: nat, k: Key)
    requires WellFormed(k) && At(b, i, Encode(k))
    ensures Span(b, i) == Some(i + |Encode(k)|)
    decreases k
  {
    hide At, Varint, VarintAt;
    match k
    case Text(units) => LengthPrefix(b, i, STRING, |units|, UnitBytes(units));
    case Binary(s) => LengthPrefix(b, i, BINARY, |s|, s);
    case Array(items) =>
      LengthPrefix(b, i, ARRAY, |items|, EncodeAll(items));
      SpansOfKeys(b, i + 1 + |Varint(|items|)|, items);
    case Number(d) => FirstByte(b, i, NUMBER, d);
    case Date(d) => FirstByte(b, i, DATE, d);
    case Null => AtByte(b, i, [NULL], 0);
    case Min => AtByte(b, i, [MIN], 0);
  }

  lemma LengthPrefix(b: seq<byte>, i: nat, t: byte, n: nat, rest: seq<byte>)
    requires At(b, i, [t] + (Varint(n) + rest))
    ensures b[i] == t && VarintAt(b, i + 1) == Some((n, i + 1 + |Varint(n)|)) && At(b, i + 1 + |Varint(n)|, rest)
  {
    hide At, Varint, VarintAt;
    FirstByte(b, i, t, Varint(n) + rest);
    AtSplit(b, i + 1, Varint(n), rest);
    VarintRoundTrip(b, i + 1, n);
  }

  lemma {:induction false} SpansOfKeys(b: seq<byte>, i: nat, items: seq<Key>)
    requires (forall k :: 0 <= k < |items| ==> WellFormed(items[k])) && At(b, i, EncodeAll(items))
    ensures Spans(b, i, |items|) == Some(i + |EncodeAll(items)|)
    decreases items
  {
    hide At, Encode, Span;
    if items != [] {
      FirstOfKeys(b, i, items);
      SpanOfKey(b, i, items[0]);
      SpansOfKeys(b, i + |Encode(items[0])|, items[1..]);
    }
  }

  /** A key's span is the length of its encoding, however deeply it is nested and whatever
      bytes follow it. */
  lemma SpanIsEncodedLength(k: Key, rest: seq<byte>)
    requires WellFormed(k)
    ensures Span(Encode(k) + rest, 0) == Some(|Encode(k)|)
  {
    var b := Encode(k) + rest;
    AllOf(b);
    AtSplit(b, 0, Encode(k), rest);
    SpanOfKey(b, 0, k);
  }

  // --------------------------------------------------------------- decoding

  function Decode(b: seq<byte>): Option<Value>
    decreases |b|, 1, 0
  {
    if b == [] then None
    else if b[0] == NULL || b[0] == MIN then Some(Nil)
    else if b[0] == NUMBER || b[0] == DATE then if |b| < 9 then None else Some(Double(b[1..9]))
    else if b[0] == STRING || b[0] == ARRAY || b[0] == BINARY then
      match VarintAt(b, 1)
      case None => None
      case Some((n, i)) =>
        if b[0] == STRING then Some(Characters(Slice(b, i, i + 2 * n)))
        else if b[0] == BINARY then Some(Raw(Slice(b, i, i + n)))
        else
          var items := Elements(b, i, n);
          if items.None? then None else Some(List(items.value))
    else None
  }

  /** The n keys from i on, each decoded from its own span. */
  function Elements(b: seq<byte>, i: nat, n: nat): Option<seq<Value>>
    requires i > 0
    decreases |b|, 0, n
  {
    if n == 0 then Some([])
    else
      var end := Span(b, i);
      if end.None? then None
      else
        var first, rest := Decode(Slice(b, i, end.value)), Elements(b, end.value, n - 1);
        if first.None? || rest.None? then None else Some([first.value] + rest.value)
  }

  /** decode_idb_key */
  method DecodeIdbKey(b: seq<byte>) returns (v: Option<Value>)
    ensures v == Decode(b)
    decreases |b|
  {
    if b == [] { return None; }
    var t := b[0];
    if t == NULL || t == MIN { return Some(Nil); }
    if t == NUMBER || t == DATE { return if |b| < 9 then None else Some(Double(b[1..9])); }
    if t != STRING && t != BINARY && t != ARRAY { return None; }
    var size := ReadVarint(b, 1);
    if size.None? { return None; }
    var n, i := size.value.0, size.value.1;
    if t == STRING { return Some(Characters(Slice(b, i, i + n * 2))); }
    if t == BINARY { return Some(Raw(Slice(b, i, i + n))); }
    var out := [];
    PrependNone(Elements(b, i, n));
    for k := 0 to n
      invariant i > 0
      invariant Elements(b, size.value.1, n) == Prepend(out, Elements(b, i, n - k))
    {
      ghost var before := Elements(b, i, n - k);
      var end := KeySpan(b, i);
      if end.None? { return None; }
      var item := DecodeIdbKey(Slice(b, i, end.value));
      if item.None? { return None; }
      PrependOne(out, item.value, Elements(b, end.value, n - k - 1));
      i := end.value;
      out := out + [item.value];
    }
    Nothing(out);
    return Some(List(out));
  }

  function Prepend(out: seq<Value>, rest: Option<seq<Value>>): Option<seq<Value>> {
    if rest.None? then None else Some(out + rest.value)
  }

  lemma PrependNone(rest: Option<seq<Value>>)
    ensures Prepend([], rest) == rest
  {
    if rest.Some? { Nothing(rest.value); }
  }

  lemma PrependOne(out: seq<Value>, v: Value, rest: Option<seq<Value>>)
    ensures rest.Some? ==> Prepend(out, Some([v] + rest.value)) == Prepend(out + [v], rest)
  {
    if rest.Some? { Assoc(out, [v], rest.value); }
  }

  /** A buffer that is one length-prefixed key. */
  lemma PrefixedKey(t: byte, n: nat, rest: seq<byte>)
    ensures var b := [t] + (Varint(n) + rest);
      && VarintAt(b, 1) == Some((n, 1 + |Varint(n)|))
      && At(b, 1 + |Varint(n)|, rest) && Slice(b, 1 + |Varint(n)|, 1 + |Varint(n)| + |rest|) == rest
  {
    hide At, Varint, VarintAt;
    var b := [t] + (Varint(n) + rest);
    AllOf(b);
    LengthPrefix(b, 0, t, n, rest);
    SliceIs(b, 1 + |Varint(n)|, rest);
  }

  lemma DecodeOfText(units: seq<(byte, byte)>)
    ensures Decode(Encode(Text(units))) == Some(Characters(UnitBytes(units)))
  {
    PrefixedKey(STRING, |units|, UnitBytes(units));
  }

  lemma DecodeOfBinary(s: seq<byte>)
    ensures Decode(Encode(Binary(s))) == Some(Raw(s))
  {
    PrefixedKey(BINARY, |s|, s);
  }

  lemma DecodeOfArray(b: seq<byte>, n: nat, i: nat, vs: seq<Value>)
    requires b != [] && b[0] == ARRAY && i > 0 && VarintAt(b, 1) == Some((n, i)) && Elements(b, i, n) == Some(vs)
    ensures Decode(b) == Some(List(vs))
  {
  }

  lemma DecodeOfDouble(t: byte, d: seq<byte>)
    requires (t == NUMBER || t == DATE) && |d| == 8
    ensures Decode([t] + d) == Some(Double(d))
  {
    assert ([t] + d)[1..9] == d;
  }

  lemma {:induction false} DecodeOfKey(k: Key)
    requires WellFormed(k)
    ensures Decode(Encode(k)) == Some(Meaning(k))
    decreases k
  {
    match k
    case Text(units) => DecodeOfText(units);
    case Binary(s) => DecodeOfBinary(s);
    case Number(d) => DecodeOfDouble(NUMBER, d);
    case Date(d) => DecodeOfDouble(DATE, d);
    case Array(items) =>
      var b, i := [ARRAY] + (Varint(|items|) + EncodeAll(items)), 1 + |Varint(|items|)|;
      PrefixedKey(ARRAY, |items|, EncodeAll(items));
      hide At, VarintAt, Varint, Decode, Elements;
      ElementsOfKeys(b, i, items);
      DecodeOfArray(b, |items|, i, Meanings(items));
    case _ =>
  }

  lemma {:induction false} ElementsOfKeys(b: seq<byte>, i: nat, items: seq<Key>)
    requires i > 0 && (forall k :: 0 <= k < |items| ==> WellFormed(items[k])) && At(b, i, EncodeAll(items))
    ensures Elements(b, i, |items|) == Some(Meanings(items))
    decreases items
  {
    hide At, Encode, Decode, Span, Elements;
    if items == [] {
      NoElements(b, i);
    } else {
      var end := i + |Encode(items[0])|;
      FirstOfKeys(b, i, items);
      SpanOfKey(b, i, items[0]);
      SliceIs(b, i, Encode(items[0]));
      DecodeOfKey(items[0]);
      ElementsOfKeys(b, end, items[1..]);
      ElementsStep(b, i, |items|, end, Meaning(items[0]), Meanings(items[1..]));
    }
  }

  lemma NoElements(b: seq<byte>, i: nat)
    requires i > 0
    ensures Elements(b, i, 0) == Some([])
  {
  }

  lemma FirstOfKeys(b: seq<byte>, i: nat, items: seq<Key>)
    requires items != [] && At(b, i, EncodeAll(items))
    ensures At(b, i, Encode(items[0])) && At(b, i + |Encode(items[0])|, EncodeAll(items[1..]))
    ensures |EncodeAll(items)| == |Encode(items[0])| + |EncodeAll(items[1..])|
  {
    hide At, Encode;
    AtSplit(b, i, Encode(items[0]), EncodeAll(items[1..]));
  }

  lemma ElementsStep(b: seq<byte>, i: nat, n: nat, end: nat, first: Value, rest: seq<Value>)
    requires i > 0 && n > 0 && Span(b, i) == Some(end) && Decode(Slice(b, i, end)) == Some(first)
    requires Elements(b, end, n - 1) == Some(rest)
    ensures Elements(b, i, n) == Some([first] + rest)
  {
  }

  /** The round trip as the log reader makes it: the span of a key somewhere in a buffer is
      cut out and decoded, and gives the key back. */
  lemma KeyRoundTrip(b: seq<byte>, i: nat, k: Key)
    requires WellFormed(k) && At(b, i, Encode(k))
    ensures Span(b, i).Some? && Decode(Slice(b, i, Span(b, i).value)) == Some(Meaning(k))
  {
    SpanOfKey(b, i, k);
    SliceIs(b, i, Encode(k));
    DecodeOfKey(k);
  }
}
