/** The Snappy decoder of src-python/doubao_chats.py:67-109, against the operations it decodes. */
module Snappy {
  import opened Basics
  import opened Bytes

  // ------------------------------------------------------------- operations

  /** The four ways to spell a literal's length beyond the short one. */
  datatype Op =
    | ShortLiteral(bytes: seq<byte>)
    | LongLiteral(bytes: seq<byte>, width: nat)
    | Copy1(offset: nat, length: nat)
    | Copy2(offset: nat, length: nat)
    | Copy4(offset: nat, length: nat)
  {
    predicate WellFormed() {
      match this
      case ShortLiteral(s) => 1 <= |s| <= 60
      case LongLiteral(s, width) => 1 <= width <= 4 && |s| >= 1 && |s| - 1 < Power(width)
      case Copy1(offset, length) => 1 <= offset < 2048 && 4 <= length <= 11
      case Copy2(offset, length) => 1 <= offset < Power(2) && 1 <= length <= 64
      case Copy4(offset, length) => 1 <= offset < Power(4) && 1 <= length <= 64
    }

    predicate Literal() { ShortLiteral? || LongLiteral? }
  }

  function Encode(op: Op): (s: seq<byte>)
    requires op.WellFormed()
    ensures s != []
  {
    match op
    case ShortLiteral(s) => [(|s| - 1) * 4] + s
    case LongLiteral(s, width) => [(59 + width) * 4] + LittleEndian(|s| - 1, width) + s
    case Copy1(offset, length) => [offset / 256 * 32 + (length - 4) * 4 + 1, offset % 256]
    case Copy2(offset, length) => [(length - 1) * 4 + 2] + LittleEndian(offset, 2)
    case Copy4(offset, length) => [(length - 1) * 4 + 3] + LittleEndian(offset, 4)
  }

  function Residue(k: nat, n: nat): (r: nat)
    requires n > 0
    ensures r < n
  {
    k % n
  }

  /** The last `offset` bytes of out, repeated for as long as needed: a copy may overlap
      what it writes. */
  function Repeated(out: seq<byte>, offset: nat, length: nat): (s: seq<byte>)
    requires 1 <= offset <= |out|
    ensures |s| == length
  {
    seq(length, k requires 0 <= k < length => out[|out| - offset + Residue(k, offset)])
  }

  /** What an operation adds to the output. */
  function Meaning(out: seq<byte>, op: Op): seq<byte>
    requires op.WellFormed() && (!op.Literal() ==> op.offset <= |out|)
  {
    if op.Literal() then out + op.bytes else out + Repeated(out, op.offset, op.length)
  }

  /** Every copy reaches back no further than what has been written. */
  predicate Runnable(ops: seq<Op>, out: seq<byte>)
    decreases |ops|
  {
    ops == [] || (ops[0].WellFormed() && (!ops[0].Literal() ==> ops[0].offset <= |out|)
                  && Runnable(ops[1..], Meaning(out, ops[0])))
  }

  function Output(ops: seq<Op>, out: seq<byte>): seq<byte>
    requires Runnable(ops, out)
    decreases |ops|
  {
    if ops == [] then out else Output(ops[1..], Meaning(out, ops[0]))
  }

  function EncodeAll(ops: seq<Op>, out: seq<byte>): seq<byte>
    requires Runnable(ops, out)
    decreases |ops|
  {
    if ops == [] then [] else Encode(ops[0]) + EncodeAll(ops[1..], Meaning(out, ops[0]))
  }

  // ---------------------------------------------------------------- decoder

  datatype Tag = LiteralTag(length: nat, next: nat) | CopyTag(length: nat, offset: nat, next: nat)

  /** The element that starts at i, before its literal bytes; None when src ends too soon. */
  function TagAt(src: seq<byte>, i: nat): (t: Option<Tag>)
    requires i < |src|
    ensures t.Some? ==> t.value.next > i
  {
    var t: nat := src[i];
    if t % 4 == 0 then
      var n := t / 4 + 1;
      if n > 60 then Some(LiteralTag(FromLittleEndian(Slice(src, i + 1, i + 1 + (n - 60))) + 1, i + 1 + (n - 60)))
      else Some(LiteralTag(n, i + 1))
    else if t % 4 == 1 then
      if i + 1 >= |src| then None else Some(CopyTag(t / 4 % 8 + 4, t / 32 * 256 + src[i + 1] as nat, i + 2))
    else if t % 4 == 2 then Some(CopyTag(t / 4 + 1, FromLittleEndian(Slice(src, i + 1, i + 3)), i + 3))
    else Some(CopyTag(t / 4 + 1, FromLittleEndian(Slice(src, i + 1, i + 5)), i + 5))
  }

  /** None stands for the decoder's exceptions. */
  function Decoded(src: seq<byte>, i: nat, out: seq<byte>): Option<seq<byte>>
    decreases |src| - i
  {
    if i >= |src| then Some(out)
    else
      match TagAt(src, i)
      case None => None
      case Some(LiteralTag(n, j)) => Decoded(src, j + n, out + Slice(src, j, j + n))
      case Some(CopyTag(n, offset, j)) =>
        if offset == 0 || offset > |out| then None else Decoded(src, j, out + Repeated(out, offset, n))
  }

  function Decompressed(src: seq<byte>): Option<seq<byte>> {
    match VarintAt(src, 0)
    case None => None
    case Some(size) => Decoded(src, size.1, [])
  }

  /** Byte by byte from the end of the growing output, as the decoder copies. */
  method CopyBack(out: seq<byte>, offset: nat, length: nat) returns (longer: seq<byte>)
    requires 1 <= offset <= |out|
    ensures longer == out + Repeated(out, offset, length)
  {
    longer := out;
    for k := 0 to length
      invariant longer == out + Repeated(out, offset, k)
    {
      NextRepeated(out, offset, k);
      longer := longer + [longer[|longer| - offset]];
    }
  }

  /** The byte `offset` back from the end continues the period. */
  lemma NextRepeated(out: seq<byte>, offset: nat, k: nat)
    requires 1 <= offset <= |out|
    ensures var longer := out + Repeated(out, offset, k);
      out + Repeated(out, offset, k + 1) == longer + [longer[|longer| - offset]]
  {
    hide Residue, Repeated;
    var front, next := Repeated(out, offset, k), out[|out| - offset + Residue(k, offset)];
    OneMore(out, offset, k);
    OffsetBack(out, offset, k);
    Assoc(out, front, [next]);
  }

  lemma OneMore(out: seq<byte>, offset: nat, k: nat)
    requires 1 <= offset <= |out|
    ensures Repeated(out, offset, k + 1) == Repeated(out, offset, k) + [out[|out| - offset + Residue(k, offset)]]
  {
    hide Residue;
  }

  lemma OffsetBack(out: seq<byte>, offset: nat, k: nat)
    requires 1 <= offset <= |out|
    ensures var longer := out + Repeated(out, offset, k);
      longer[|longer| - offset] == out[|out| - offset + Residue(k, offset)]
  {
    hide Repeated, Residue;
    ResidueSteps(k, offset);
    if k >= offset {
      RepeatedAt(out, offset, k, k - offset);
    }
  }

  lemma RepeatedAt(out: seq<byte>, offset: nat, n: nat, k: nat)
    requires 1 <= offset <= |out| && k < n
    ensures Repeated(out, offset, n)[k] == out[|out| - offset + Residue(k, offset)]
  {
    hide Residue;
  }

  lemma ResidueSteps(k: nat, n: nat)
    requires n > 0
    ensures k < n ==> Residue(k, n) == k
    ensures k >= n ==> Residue(k - n, n) == Residue(k, n)
  {
    if k >= n { ModuloStep(k, n); }
  }

  lemma ModuloStep(k: nat, n: nat)
    requires 1 <= n <= k
    ensures (k - n) % n == k % n
  {
    var q, r := k / n, k % n;
    assert k - n == n * (q - 1) + r;
    ModuloUnique(k - n, n, q - 1, r);
  }

  lemma ModuloUnique(a: nat, n: nat, q: int, r: nat)
    requires n > 0 && a == n * q + r && r < n
    ensures a % n == r
  {
    var p := a / n;
    assert a == n * p + a % n;
    Monotone(n, p + 1, q);
    Monotone(n, q + 1, p);
  }

  lemma Monotone(n: nat, a: int, b: int)
    ensures a <= b ==> n * a <= n * b
  {
  }

  method SnappyDecompress(src: seq<byte>) returns (r: Option<seq<byte>>)
    ensures r == Decompressed(src)
  {
    var size := ReadVarint(src, 0);
    if size.None? { return None; }
    var i, out := size.value.1, [];
    while i < |src|
      invariant Decoded(src, i, out) == Decompressed(src)
      decreases |src| - i
    {
      var t := TagAt(src, i);
      match t {
      case None => return None;
      case Some(LiteralTag(n, j)) =>
        out := out + Slice(src, j, j + n);
        i := j + n;
      case Some(CopyTag(n, offset, j)) =>
        if offset == 0 || offset > |out| { return None; }
        out := CopyBack(out, offset, n);
        i := j;
      }
    }
    return Some(out);
  }

  // ------------------------------------------------------------- inversion

  /** The tag the decoder makes of an operation. */
  function TagOf(op: Op, i: nat): Tag
    requires op.WellFormed()
  {
    match op
    case ShortLiteral(s) => LiteralTag(|s|, i + 1)
    case LongLiteral(s, width) => LiteralTag(|s|, i + 1 + width)
    case Copy1(offset, length) => CopyTag(length, offset, i + 2)
    case Copy2(offset, length) => CopyTag(length, offset, i + 3)
    case Copy4(offset, length) => CopyTag(length, offset, i + 5)
  }

  lemma LongLiteralTag(src: seq<byte>, i: nat, op: Op)
    requires op.LongLiteral? && op.WellFormed() && At(src, i, Encode(op))
    ensures TagAt(src, i) == Some(TagOf(op, i)) && At(src, i + 1 + op.width, op.bytes)
  {
    var size := LittleEndian(|op.bytes| - 1, op.width);
    AtSplit(src, i, [(59 + op.width) * 4] + size, op.bytes);
    FirstByte(src, i, (59 + op.width) * 4, size);
    SliceIs(src, i + 1, size);
    LittleEndianRoundTrip(|op.bytes| - 1, op.width);
  }

  lemma ShortLiteralTag(src: seq<byte>, i: nat, op: Op)
    requires op.ShortLiteral? && op.WellFormed() && At(src, i, Encode(op))
    ensures TagAt(src, i) == Some(TagOf(op, i)) && At(src, i + 1, op.bytes)
  {
    FirstByte(src, i, (|op.bytes| - 1) * 4, op.bytes);
  }

  lemma Copy1Bits(offset: nat, length: nat)
    requires offset < 2048 && 4 <= length <= 11
    ensures var t := offset / 256 * 32 + (length - 4) * 4 + 1;
      t < 256 && t % 4 == 1 && t / 4 % 8 == length - 4 && t / 32 == offset / 256
  {
  }

  lemma Copy1Tag(src: seq<byte>, i: nat, op: Op)
    requires op.Copy1? && op.WellFormed() && At(src, i, Encode(op))
    ensures TagAt(src, i) == Some(TagOf(op, i))
  {
    Copy1Bits(op.offset, op.length);
    var t := op.offset / 256 * 32 + (op.length - 4) * 4 + 1;
    assert [t] + [op.offset % 256] == Encode(op);
    FirstByte(src, i, t, [op.offset % 256]);
    AtByte(src, i + 1, [op.offset % 256], 0);
  }

  lemma Copy2Tag(src: seq<byte>, i: nat, op: Op)
    requires op.Copy2? && op.WellFormed() && At(src, i, Encode(op))
    ensures TagAt(src, i) == Some(TagOf(op, i))
  {
    FirstByte(src, i, (op.length - 1) * 4 + 2, LittleEndian(op.offset, 2));
    SliceIs(src, i + 1, LittleEndian(op.offset, 2));
    LittleEndianRoundTrip(op.offset, 2);
  }

  lemma Copy4Tag(src: seq<byte>, i: nat, op: Op)
    requires op.Copy4? && op.WellFormed() && At(src, i, Encode(op))
    ensures TagAt(src, i) == Some(TagOf(op, i))
  {
    FirstByte(src, i, (op.length - 1) * 4 + 3, LittleEndian(op.offset, 4));
    SliceIs(src, i + 1, LittleEndian(op.offset, 4));
    LittleEndianRoundTrip(op.offset, 4);
  }

  lemma TagIsRead(src: seq<byte>, i: nat, op: Op)
    requires op.WellFormed() && At(src, i, Encode(op))
    ensures TagAt(src, i) == Some(TagOf(op, i))
    ensures op.Literal() ==> At(src, TagOf(op, i).next, op.bytes)
  {
    match op
    case ShortLiteral(_) => ShortLiteralTag(src, i, op);
    case LongLiteral(_, _) => LongLiteralTag(src, i, op);
    case Copy1(_, _) => Copy1Tag(src, i, op);
    case Copy2(_, _) => Copy2Tag(src, i, op);
    case Copy4(_, _) => Copy4Tag(src, i, op);
  }

  lemma TagEnds(op: Op, i: nat)
    requires op.WellFormed()
    ensures i + |Encode(op)| == TagOf(op, i).next + if op.Literal() then |op.bytes| else 0
    ensures i < TagOf(op, i).next
  {
  }

  lemma LiteralStep(src: seq<byte>, i: nat, s: seq<byte>, j: nat, out: seq<byte>)
    requires i < |src| && TagAt(src, i) == Some(LiteralTag(|s|, j)) && At(src, j, s)
    ensures Decoded(src, i, out) == Decoded(src, j + |s|, out + s)
  {
    SliceIs(src, j, s);
  }

  lemma CopyStep(src: seq<byte>, i: nat, n: nat, offset: nat, j: nat, out: seq<byte>)
    requires i < |src| && i < j && TagAt(src, i) == Some(CopyTag(n, offset, j)) && 1 <= offset <= |out|
    ensures Decoded(src, i, out) == Decoded(src, j, out + Repeated(out, offset, n))
  {
  }

  lemma LiteralIsDecoded(src: seq<byte>, i: nat, op: Op, out: seq<byte>)
    requires op.WellFormed() && op.Literal() && At(src, i, Encode(op))
    ensures Decoded(src, i, out) == Decoded(src, i + |Encode(op)|, out + op.bytes)
  {
    hide At, Encode, Decoded;
    TagIsRead(src, i, op);
    TagEnds(op, i);
    LiteralStep(src, i, op.bytes, TagOf(op, i).next, out);
  }

  lemma CopyIsDecoded(src: seq<byte>, i: nat, op: Op, out: seq<byte>)
    requires op.WellFormed() && !op.Literal() && op.offset <= |out| && At(src, i, Encode(op))
    ensures Decoded(src, i, out) == Decoded(src, i + |Encode(op)|, out + Repeated(out, op.offset, op.length))
  {
    hide At, Encode, Decoded, Repeated;
    TagIsRead(src, i, op);
    TagEnds(op, i);
    CopyStep(src, i, op.length, op.offset, TagOf(op, i).next, out);
  }

  lemma OpIsDecoded(src: seq<byte>, i: nat, op: Op, out: seq<byte>)
    requires op.WellFormed() && (!op.Literal() ==> op.offset <= |out|) && At(src, i, Encode(op))
    ensures Decoded(src, i, out) == Decoded(src, i + |Encode(op)|, Meaning(out, op))
  {
    if op.Literal() { LiteralIsDecoded(src, i, op, out); } else { CopyIsDecoded(src, i, op, out); }
  }

  lemma FirstOfOps(src: seq<byte>, i: nat, ops: seq<Op>, out: seq<byte>)
    requires ops != [] && Runnable(ops, out) && At(src, i, EncodeAll(ops, out))
    ensures var first, next := |Encode(ops[0])|, Meaning(out, ops[0]);
      && At(src, i, Encode(ops[0])) && At(src, i + first, EncodeAll(ops[1..], next))
      && |EncodeAll(ops, out)| == first + |EncodeAll(ops[1..], next)|
  {
    hide At, Encode, Repeated;
    AtSplit(src, i, Encode(ops[0]), EncodeAll(ops[1..], Meaning(out, ops[0])));
  }

  /** A copy that reaches back beyond what has been written fails the whole stream. */
  lemma CopyPastStartFails(src: seq<byte>, i: nat, op: Op, out: seq<byte>)
    requires op.WellFormed() && !op.Literal() && op.offset > |out| && At(src, i, Encode(op))
    ensures Decoded(src, i, out) == None
  {
    hide At, Encode, Repeated;
    TagIsRead(src, i, op);
    StartsInside(src, i, op);
  }

  lemma StartsInside(src: seq<byte>, i: nat, op: Op)
    requires op.WellFormed() && At(src, i, Encode(op))
    ensures i < |src|
  {
  }

  /** A literal that the stream cuts short gives what there is of it, and ends the output. */
  lemma CutLiteralEnds(src: seq<byte>, i: nat, n: nat, j: nat, out: seq<byte>)
    requires i < |src| && TagAt(src, i) == Some(LiteralTag(n, j)) && j <= |src| <= j + n
    ensures Decoded(src, i, out) == Some(out + src[j..])
  {
    assert Slice(src, j, j + n) == src[j..];
    EndIsOutput(src, j + n, out + src[j..]);
  }

  lemma NothingDecoded(src: seq<byte>, out: seq<byte>)
    ensures Decoded(src, |src|, out) == Some(out)
  {
  }

  lemma EndIsOutput(src: seq<byte>, i: nat, out: seq<byte>)
    requires i >= |src|
    ensures Decoded(src, i, out) == Some(out)
  {
  }

  lemma {:induction false} OpsAreDecoded(src: seq<byte>, i: nat, ops: seq<Op>, out: seq<byte>)
    requires Runnable(ops, out) && At(src, i, EncodeAll(ops, out)) && i + |EncodeAll(ops, out)| == |src|
    ensures Decoded(src, i, out) == Some(Output(ops, out))
    decreases |ops|
  {
    hide At, Encode, Decoded, Meaning;
    if ops == [] {
      NothingDecoded(src, out);
    } else {
      FirstOfOps(src, i, ops, out);
      OpIsDecoded(src, i, ops[0], out);
      OpsAreDecoded(src, i + |Encode(ops[0])|, ops[1..], Meaning(out, ops[0]));
    }
  }

  /** Decoding a stream gives what its operations mean, for literals of every length form
      and copies of every offset form, overlapping or not. The announced size is not looked at. */
  lemma DecompressionInvertsEncoding(size: nat, ops: seq<Op>)
    requires Runnable(ops, [])
    ensures Decompressed(Varint(size) + EncodeAll(ops, [])) == Some(Output(ops, []))
  {
    var src := Varint(size) + EncodeAll(ops, []);
    AllOf(src);
    AtSplit(src, 0, Varint(size), EncodeAll(ops, []));
    VarintRoundTrip(src, 0, size);
    OpsAreDecoded(src, |Varint(size)|, ops, []);
  }
}
