/** Bytes and fixed-width numbers, as the decoders read them. */
module Bytes {
  import opened Basics

  type byte = x: int | 0 <= x < 256

  function Power(k: nat): nat { if k == 0 then 1 else 256 * Power(k - 1) }

  // ------------------------------------------------------------ fixed width

  /** The k low bytes of n, most significant first. */
  function BigEndian(n: nat, k: nat): (s: seq<byte>)
    ensures |s| == k
  {
    if k == 0 then [] else BigEndian(n / 256, k - 1) + [n % 256]
  }

  function FromBigEndian(s: seq<byte>): nat {
    if s == [] then 0 else FromBigEndian(s[..|s| - 1]) * 256 + s[|s| - 1]
  }

  function LittleEndian(n: nat, k: nat): (s: seq<byte>)
    ensures |s| == k
  {
    if k == 0 then [] else [n % 256] + LittleEndian(n / 256, k - 1)
  }

  function FromLittleEndian(s: seq<byte>): nat {
    if s == [] then 0 else s[0] + 256 * FromLittleEndian(s[1..])
  }

  lemma {:induction false} BigEndianRoundTrip(n: nat, k: nat)
    requires n < Power(k)
    ensures FromBigEndian(BigEndian(n, k)) == n
  {
    if k > 0 {
      BigEndianRoundTrip(n / 256, k - 1);
      assert BigEndian(n, k)[..k - 1] == BigEndian(n / 256, k - 1);
    }
  }

  lemma {:induction false} FromBigEndianRoundTrip(s: seq<byte>)
    ensures FromBigEndian(s) < Power(|s|)
    ensures BigEndian(FromBigEndian(s), |s|) == s
  {
    if s != [] {
      FromBigEndianRoundTrip(s[..|s| - 1]);
      assert s == s[..|s| - 1] + [s[|s| - 1]];
    }
  }

  lemma {:induction false} LittleEndianRoundTrip(n: nat, k: nat)
    requires n < Power(k)
    ensures FromLittleEndian(LittleEndian(n, k)) == n
  {
    if k > 0 {
      LittleEndianRoundTrip(n / 256, k - 1);
      assert LittleEndian(n, k)[1..] == LittleEndian(n / 256, k - 1);
    }
  }

  // --------------------------------------------------------- exclusive or

  function Two(k: nat): nat { if k == 0 then 1 else 2 * Two(k - 1) }

  /** Exclusive or of the k low bits. */
  function XorBits(a: nat, b: nat, k: nat): (r: nat)
    ensures r < Two(k)
  {
    if k == 0 then 0 else (a % 2 + b % 2) % 2 + 2 * XorBits(a / 2, b / 2, k - 1)
  }

  lemma ParityTwice(a: nat, b: nat)
    ensures ((a % 2 + b % 2) % 2 + b % 2) % 2 == a % 2
  {
  }

  lemma {:induction false} XorBitsTwice(a: nat, b: nat, k: nat)
    requires a < Two(k)
    ensures XorBits(XorBits(a, b, k), b, k) == a
  {
    if k > 0 {
      var bit, x := (a % 2 + b % 2) % 2, XorBits(a / 2, b / 2, k - 1);
      XorBitsTwice(a / 2, b / 2, k - 1);
      ParityTwice(a, b);
      Halve(bit, x);
    }
  }

  lemma Halve(bit: nat, x: nat)
    requires bit < 2
    ensures (bit + 2 * x) / 2 == x && (bit + 2 * x) % 2 == bit
  {
  }

  lemma TwoToTheEight()
    ensures Two(8) == 256
  {
    assert Two(4) == 16;
  }

  function Xor(a: byte, b: byte): byte {
    TwoToTheEight();
    XorBits(a, b, 8)
  }

  lemma XorTwice(a: byte, b: byte)
    ensures Xor(Xor(a, b), b) == a
  {
    TwoToTheEight();
    XorBitsTwice(a, b, 8);
  }

  function Bit(a: nat, k: nat): nat { if k == 0 then a % 2 else Bit(a / 2, k - 1) }

  /** A bit of the result is set when the two bits differ. */
  lemma {:induction false} BitOfXor(a: nat, b: nat, k: nat, n: nat)
    requires k < n
    ensures Bit(XorBits(a, b, n), k) == if Bit(a, k) != Bit(b, k) then 1 else 0
  {
    Halve((a % 2 + b % 2) % 2, XorBits(a / 2, b / 2, n - 1));
    if k > 0 { BitOfXor(a / 2, b / 2, k - 1, n - 1); }
  }

  lemma {:induction false} XorBitsZero(b: nat, k: nat)
    requires b < Two(k)
    ensures XorBits(0, b, k) == b
  {
    if k > 0 { XorBitsZero(b / 2, k - 1); }
  }

  lemma XorZero(b: byte)
    ensures Xor(0, b) == b
  {
    TwoToTheEight();
    XorBitsZero(b, 8);
  }

  // ------------------------------------------------------------- sequences

  function Concat<T>(s: seq<seq<T>>): seq<T> {
    if s == [] then [] else s[0] + Concat(s[1..])
  }

  lemma Assoc<T>(a: seq<T>, b: seq<T>, c: seq<T>)
    ensures (a + b) + c == a + (b + c)
  {
  }

  lemma Nothing<T>(a: seq<T>)
    ensures a + [] == a && [] + a == a
  {
  }

  lemma SplitAt<T>(a: seq<T>, n: nat)
    requires n <= |a|
    ensures a == a[..n] + a[n..]
  {
  }

  lemma SplitTwice<T>(a: seq<T>, n: nat, m: nat)
    requires n + m <= |a|
    ensures a[..n + m] == a[..n] + a[n..][..m] && a[n + m..] == a[n..][m..]
  {
  }

  /** Cutting off a beginning that b continues. */
  lemma CutFront<T>(a: seq<T>, n: nat, b: seq<T>)
    requires n <= |a|
    ensures a + b == a[..n] + (a[n..] + b)
  {
  }

  /** A Python slice, which stops at the end of its sequence. */
  function Slice(s: seq<byte>, lo: nat, hi: nat): seq<byte>
    requires lo <= hi
  {
    if lo >= |s| then [] else if hi > |s| then s[lo..] else s[lo..hi]
  }

  /** The bytes of s stand in raw at pos. */
  predicate At(raw: seq<byte>, pos: nat, s: seq<byte>) {
    pos + |s| <= |raw| && raw[pos..pos + |s|] == s
  }

  lemma AtByte(raw: seq<byte>, pos: nat, s: seq<byte>, k: nat)
    requires At(raw, pos, s) && k < |s|
    ensures pos + |s| <= |raw| && raw[pos + k] == s[k]
  {
    assert raw[pos..pos + |s|][k] == raw[pos + k];
  }

  lemma AtSplit(raw: seq<byte>, pos: nat, a: seq<byte>, b: seq<byte>)
    requires At(raw, pos, a + b)
    ensures At(raw, pos, a) && At(raw, pos + |a|, b)
    ensures pos + |a| + |b| <= |raw|
  {
    var s := raw[pos..pos + |a + b|];
    assert (a + b)[..|a|] == a && (a + b)[|a|..] == b;
    assert s[..|a|] == raw[pos..pos + |a|] && s[|a|..] == raw[pos + |a|..pos + |a + b|];
  }

  lemma SliceIs(raw: seq<byte>, pos: nat, s: seq<byte>)
    requires At(raw, pos, s)
    ensures pos + |s| <= |raw| && Slice(raw, pos, pos + |s|) == s
  {
    if s == [] { assert Slice(raw, pos, pos) == []; }
  }

  lemma AllOf(raw: seq<byte>)
    ensures At(raw, 0, raw)
  {
    assert raw[0..|raw|] == raw;
  }

  lemma FirstByte(src: seq<byte>, i: nat, t: byte, rest: seq<byte>)
    requires At(src, i, [t] + rest)
    ensures src[i] == t && At(src, i + 1, rest)
  {
    AtSplit(src, i, [t], rest);
    AtByte(src, i, [t], 0);
  }

  // ---------------------------------------------------------------- varints

  /** Seven bits to a byte, least significant first; the top bit announces more. */
  function Varint(n: nat): (s: seq<byte>)
    ensures |s| > 0
  {
    if n < 128 then [n] else [n % 128 + 128] + Varint(n / 128)
  }

  /** The number that starts at i, and where it ends; None when the bytes run out. */
  function VarintAt(b: seq<byte>, i: nat): (r: Option<(nat, nat)>)
    ensures r.Some? ==> i < r.value.1 <= |b|
    decreases |b| - i
  {
    if i >= |b| then None
    else if b[i] < 128 then Some((b[i], i + 1))
    else
      var rest := VarintAt(b, i + 1);
      if rest.None? then None else Some((b[i] % 128 + 128 * rest.value.0, rest.value.1))
  }

  /** Varints of every size are read back, wherever they stand. */
  lemma {:induction false} VarintRoundTrip(b: seq<byte>, i: nat, n: nat)
    requires At(b, i, Varint(n))
    ensures VarintAt(b, i) == Some((n, i + |Varint(n)|))
    decreases n
  {
    AtByte(b, i, Varint(n), 0);
    if n >= 128 {
      AtSplit(b, i, [n % 128 + 128], Varint(n / 128));
      VarintRoundTrip(b, i + 1, n / 128);
    }
  }

  lemma Grows(weight: nat, bits: nat)
    requires bits < 128
    ensures bits * weight + weight <= 128 * weight
  {
    assert (bits + 1) * weight <= 128 * weight;
  }

  lemma Distributes(weight: nat, bits: nat, v: nat)
    ensures weight * (bits + 128 * v) == bits * weight + (128 * weight) * v
  {
    assert weight * (bits + 128 * v) == weight * bits + weight * (128 * v);
  }

  lemma Shifted(n: nat, weight: nat, bits: nat, v: nat)
    requires n < weight && bits < 128
    ensures n + bits * weight < 128 * weight
    ensures n + weight * (bits + 128 * v) == (n + bits * weight) + (128 * weight) * v
  {
    Grows(weight, bits);
    Distributes(weight, bits, v);
  }

  /** What is read in all when n has been collected and the rest weighs `weight`. */
  function Collected(n: nat, weight: nat, rest: Option<(nat, nat)>): Option<(nat, nat)> {
    if rest.None? then None else Some((n + weight * rest.value.0, rest.value.1))
  }

  lemma CollectOne(b: seq<byte>, j: nat, n: nat, weight: nat)
    requires j < |b| && n < weight
    ensures var more := n + b[j] % 128 * weight;
      && more < 128 * weight
      && Collected(n, weight, VarintAt(b, j))
         == if b[j] < 128 then Some((more, j + 1)) else Collected(more, 128 * weight, VarintAt(b, j + 1))
  {
    var rest := VarintAt(b, j + 1);
    Shifted(n, weight, b[j] % 128, if rest.Some? then rest.value.0 else 0);
  }

  /** _varint (doubao_chats.py:35-45). The bits or-ed in lie above those collected, so
      or-ing them is adding them. */
  method ReadVarint(b: seq<byte>, i: nat) returns (r: Option<(nat, nat)>)
    ensures r == VarintAt(b, i)
  {
    var n: nat, weight: nat, j: nat := 0, 1, i;
    while true
      invariant n < weight && VarintAt(b, i) == Collected(n, weight, VarintAt(b, j))
      decreases |b| - j
    {
      if j >= |b| { return None; }
      CollectOne(b, j, n, weight);
      var c := b[j];
      j := j + 1;
      n := n + c % 128 * weight;
      if c < 128 { return Some((n, j)); }
      weight := 128 * weight;
    }
  }
}
