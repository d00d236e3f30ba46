/**
 The streaming WebSocket parser of src-python/device_proxy.py:1527-1607, against the frame
 format and reassembly rules of sections 5.2 to 5.4 of RFC 6455.
 */
module WebSocket {
  import opened Bytes
  import opened Basics

  // ------------------------------------------------------------ wire format

  /** How a frame spells its payload length; the parser takes any form that can hold it. */
  datatype LengthForm = Short | Medium | Long

  /** `rsv` are the three reserved bits; `mask` the masking key of a client's frame. */
  datatype Frame = Frame(fin: bool, rsv: nat, opcode: nat, form: LengthForm, mask: Option<seq<byte>>, payload: seq<byte>)
  {
    predicate Valid() {
      && rsv < 8 && opcode < 16
      && (mask.Some? ==> |mask.value| == 4)
      && match form
         case Short => |payload| < 126
         case Medium => |payload| < Power(2)
         case Long => |payload| < Power(8)
    }

    /** A data frame that announces more to come. */
    predicate Silent() { opcode <= 2 && !fin }
  }

  function Masked(payload: seq<byte>, mask: Option<seq<byte>>): (s: seq<byte>)
    requires mask.Some? ==> |mask.value| == 4
    ensures |s| == |payload|
  {
    if mask.None? then payload else seq(|payload|, i requires 0 <= i < |payload| => Xor(payload[i], mask.value[i % 4]))
  }

  function Extension(f: Frame): seq<byte> {
    match f.form
    case Short => []
    case Medium => BigEndian(|f.payload|, 2)
    case Long => BigEndian(|f.payload|, 8)
  }

  function LengthCode(f: Frame): nat {
    match f.form
    case Short => |f.payload|
    case Medium => 126
    case Long => 127
  }

  function MaskBytes(f: Frame): seq<byte> { if f.mask.None? then [] else f.mask.value }

  function Encode(f: Frame): (s: seq<byte>)
    requires f.Valid()
    ensures |s| >= 2
  {
    [(if f.fin then 128 else 0) + 16 * f.rsv + f.opcode, (if f.mask.Some? then 128 else 0) + LengthCode(f)]
    + Extension(f) + MaskBytes(f) + Masked(f.payload, f.mask)
  }

  predicate AllValid(fs: seq<Frame>) { forall k :: 0 <= k < |fs| ==> fs[k].Valid() }

  function EncodeAll(fs: seq<Frame>): seq<byte>
    requires AllValid(fs)
  {
    if fs == [] then [] else Encode(fs[0]) + EncodeAll(fs[1..])
  }

  lemma MaskTwice(payload: seq<byte>, mask: Option<seq<byte>>)
    requires mask.Some? ==> |mask.value| == 4
    ensures Masked(Masked(payload, mask), mask) == payload
  {
    if mask.Some? {
      forall i | 0 <= i < |payload| ensures Masked(Masked(payload, mask), mask)[i] == payload[i] {
        XorTwice(payload[i], mask.value[i % 4]);
      }
    }
  }

  // --------------------------------------------------- no frame begins another

  /** What the first bytes of a buffer say about its first frame. */
  datatype Header = Header(fin: bool, rsv: nat, opcode: nat, form: LengthForm, masked: bool)
  {
    function ExtensionSize(): nat { if form.Short? then 0 else if form.Medium? then 2 else 8 }
    function Size(): nat { 2 + ExtensionSize() + if masked then 4 else 0 }
  }

  function HeaderOf(buf: seq<byte>): Header
    requires |buf| >= 2
  {
    var code := buf[1] % 128;
    Header(buf[0] >= 128, buf[0] / 16 % 8, buf[0] % 16, if code == 126 then Medium else if code == 127 then Long else Short,
           buf[1] >= 128)
  }

  function PayloadSize(buf: seq<byte>): nat
    requires |buf| >= 2 && |buf| >= 2 + HeaderOf(buf).ExtensionSize()
  {
    if HeaderOf(buf).form.Short? then buf[1] % 128 else FromBigEndian(buf[2..2 + HeaderOf(buf).ExtensionSize()])
  }

  predicate Complete(buf: seq<byte>) {
    && |buf| >= 2 && |buf| >= HeaderOf(buf).Size()
    && |buf| >= HeaderOf(buf).Size() + PayloadSize(buf)
  }

  /** The frame a complete buffer begins with. */
  function Decode(buf: seq<byte>): Frame
    requires Complete(buf)
  {
    var h := HeaderOf(buf);
    var n := h.Size();
    var mask := if h.masked then Some(buf[n - 4..n]) else None;
    Frame(h.fin, h.rsv, h.opcode, h.form, mask, Masked(buf[n..n + PayloadSize(buf)], mask))
  }

  lemma EncodedHeader(f: Frame, rest: seq<byte>)
    requires f.Valid()
    ensures var s := Encode(f) + rest;
      && HeaderOf(s) == Header(f.fin, f.rsv, f.opcode, f.form, f.mask.Some?)
      && s[1] % 128 == LengthCode(f)
  {
    var s := Encode(f) + rest;
    assert s[0] == Encode(f)[0] && s[1] == Encode(f)[1];
  }

  lemma EncodedLength(f: Frame, rest: seq<byte>)
    requires f.Valid()
    ensures var s := Encode(f) + rest;
      |s| >= HeaderOf(s).Size() && PayloadSize(s) == |f.payload|
  {
    var s, n := Encode(f) + rest, |Extension(f)|;
    EncodedHeader(f, rest);
    assert s[2..2 + n] == Extension(f);
    if !f.form.Short? { BigEndianRoundTrip(|f.payload|, n); }
  }

  /** Decoding undoes encoding, whatever follows. */
  lemma DecodeEncoded(f: Frame, rest: seq<byte>)
    requires f.Valid()
    ensures Complete(Encode(f) + rest) && Decode(Encode(f) + rest) == f
  {
    var s := Encode(f) + rest;
    EncodedHeader(f, rest);
    EncodedLength(f, rest);
    var n := HeaderOf(s).Size();
    if f.mask.Some? { assert s[n - 4..n] == f.mask.value; }
    assert s[n..n + |f.payload|] == Masked(f.payload, f.mask);
    MaskTwice(f.payload, f.mask);
  }

  lemma HeaderBytes(buf: seq<byte>)
    requires |buf| >= 2
    ensures var h := HeaderOf(buf);
      && h.rsv < 8 && h.opcode < 16
      && buf[0] == (if h.fin then 128 else 0) + 16 * h.rsv + h.opcode
      && buf[1] == (if h.masked then 128 else 0) + buf[1] % 128
  {
    var b := buf[0];
    assert b / 16 < 16 && b == b / 16 * 16 + b % 16;
    assert b / 16 % 8 == if b >= 128 then b / 16 - 8 else b / 16;
  }

  lemma DecodedParts(buf: seq<byte>)
    requires Complete(buf)
    ensures var f, h := Decode(buf), HeaderOf(buf);
      var e, n := 2 + h.ExtensionSize(), h.Size();
      && f.Valid()
      && Extension(f) == buf[2..e] && MaskBytes(f) == buf[e..n]
      && Masked(f.payload, f.mask) == buf[n..n + PayloadSize(buf)]
      && LengthCode(f) == buf[1] % 128
  {
    var f, h := Decode(buf), HeaderOf(buf);
    var e, n := 2 + h.ExtensionSize(), h.Size();
    HeaderBytes(buf);
    if !h.form.Short? { FromBigEndianRoundTrip(buf[2..e]); }
    MaskTwice(buf[n..n + PayloadSize(buf)], f.mask);
  }

  /** Every complete buffer begins with the encoding of a valid frame. */
  lemma EncodeDecoded(buf: seq<byte>)
    requires Complete(buf)
    ensures var f, n := Decode(buf), HeaderOf(buf).Size() + PayloadSize(buf);
      f.Valid() && Encode(f) == buf[..n]
  {
    var f, h := Decode(buf), HeaderOf(buf);
    var e, n := 2 + h.ExtensionSize(), h.Size();
    DecodedParts(buf);
    HeaderBytes(buf);
    FourParts(buf, 2, e, n, n + PayloadSize(buf));
    FirstTwo(buf, (if f.fin then 128 else 0) + 16 * f.rsv + f.opcode, (if f.mask.Some? then 128 else 0) + LengthCode(f));
  }

  lemma FirstTwo<T>(s: seq<T>, x: T, y: T)
    requires |s| >= 2 && s[0] == x && s[1] == y
    ensures s[..2] == [x, y]
  {
  }

  lemma FourParts<T>(s: seq<T>, a: nat, b: nat, c: nat, d: nat)
    requires a <= b <= c <= d <= |s|
    ensures s[..a] + s[a..b] + s[b..c] + s[c..d] == s[..d]
  {
  }

  /** So a buffer begins with at most one frame. */
  lemma FramesArePrefixFree(f: Frame, rest: seq<byte>, g: Frame, more: seq<byte>)
    requires f.Valid() && g.Valid() && Encode(f) + rest == Encode(g) + more
    ensures f == g && rest == more
  {
    DecodeEncoded(f, rest);
    DecodeEncoded(g, more);
    assert rest == (Encode(f) + rest)[|Encode(f)|..];
    assert more == (Encode(g) + more)[|Encode(g)|..];
  }

  // ------------------------------------------------------------- reassembly

  /** A delivered message; a stray continuation is delivered without an opcode. */
  datatype Message = Message(opcode: Option<nat>, payload: seq<byte>)

  /** The messages delivered so far and the fragments of the next. */
  datatype Assembly = Assembly(fragOpcode: Option<nat>, fragData: seq<byte>, emitted: seq<Message>)
  {
    /** What the rules of section 5.4 make of one more frame. */
    function Deliver(f: Frame): Assembly {
      if f.opcode == 0 then
        if f.fin then Assembly(None, [], emitted + [Message(fragOpcode, fragData + f.payload)])
        else this.(fragData := fragData + f.payload)
      else if f.opcode <= 2 && !f.fin then this.(fragOpcode := Some(f.opcode), fragData := f.payload)
      else this.(emitted := emitted + [Message(Some(f.opcode), f.payload)])
    }
  }

  function DeliverAll(a: Assembly, fs: seq<Frame>): Assembly
    decreases |fs|
  {
    if fs == [] then a else DeliverAll(a.Deliver(fs[0]), fs[1..])
  }

  const NOTHING := Assembly(None, [], [])

  /** The messages of a stream of frames. */
  function Messages(fs: seq<Frame>): seq<Message> { DeliverAll(NOTHING, fs).emitted }

  lemma {:induction false} DeliverJoin(a: Assembly, fs: seq<Frame>, gs: seq<Frame>)
    ensures DeliverAll(a, fs + gs) == DeliverAll(DeliverAll(a, fs), gs)
    decreases |fs|
  {
    if fs == [] {
      assert fs + gs == gs;
    } else {
      assert (fs + gs)[1..] == fs[1..] + gs;
      DeliverJoin(a.Deliver(fs[0]), fs[1..], gs);
    }
  }

  lemma {:induction false} EmittedGrows(a: Assembly, fs: seq<Frame>)
    ensures a.emitted <= DeliverAll(a, fs).emitted
    decreases |fs|
  {
    if fs != [] { EmittedGrows(a.Deliver(fs[0]), fs[1..]); }
  }

  predicate Control(f: Frame) { f.opcode >= 8 }

  function PayloadsOf(fs: seq<Frame>): seq<byte> {
    if fs == [] then [] else (if fs[0].opcode == 0 then fs[0].payload else []) + PayloadsOf(fs[1..])
  }

  function ControlsOf(fs: seq<Frame>): seq<Message> {
    if fs == [] then []
    else (if Control(fs[0]) then [Message(Some(fs[0].opcode), fs[0].payload)] else []) + ControlsOf(fs[1..])
  }

  lemma {:induction false} MiddleFrames(a: Assembly, fs: seq<Frame>)
    requires forall k :: 0 <= k < |fs| ==> Control(fs[k]) || (fs[k].opcode == 0 && !fs[k].fin)
    ensures DeliverAll(a, fs) == Assembly(a.fragOpcode, a.fragData + PayloadsOf(fs), a.emitted + ControlsOf(fs))
    decreases |fs|
  {
    if fs != [] {
      MiddleFrames(a.Deliver(fs[0]), fs[1..]);
      Assoc(a.fragData, if fs[0].opcode == 0 then fs[0].payload else [], PayloadsOf(fs[1..]));
      Assoc(a.emitted, if Control(fs[0]) then [Message(Some(fs[0].opcode), fs[0].payload)] else [], ControlsOf(fs[1..]));
      Nothing(a.fragData);
      Nothing(a.emitted);
    } else {
      Nothing(a.fragData);
      Nothing(a.emitted);
    }
  }

  /** Section 5.4: a fragmented message comes out whole, under the opcode of its first
      frame, after the control frames that were injected into it. */
  lemma FragmentsBecomeOneMessage(a: Assembly, first: Frame, middle: seq<Frame>, last: Frame)
    requires first.opcode == 1 || first.opcode == 2
    requires !first.fin && last.opcode == 0 && last.fin
    requires forall k :: 0 <= k < |middle| ==> Control(middle[k]) || (middle[k].opcode == 0 && !middle[k].fin)
    ensures DeliverAll(a, [first] + middle + [last])
         == Assembly(None, [], a.emitted + ControlsOf(middle)
                               + [Message(Some(first.opcode), first.payload + PayloadsOf(middle) + last.payload)])
  {
    DeliverJoin(a, [first] + middle, [last]);
    DeliverJoin(a, [first], middle);
    assert DeliverAll(a, [first]) == a.Deliver(first) by { assert [first][1..] == []; }
    MiddleFrames(a.Deliver(first), middle);
    assert [last][1..] == [];
  }

  /** What one frame does, whatever is open: a whole frame goes out at once under its own
      opcode and leaves the open message alone; a first fragment opens a message in place of
      any other; a continuation extends what is open, and the last one sends it, under no
      opcode when nothing was open. */
  lemma OneFrame(a: Assembly, f: Frame)
    ensures f.opcode != 0 && (f.fin || f.opcode > 2) ==>
      a.Deliver(f) == Assembly(a.fragOpcode, a.fragData, a.emitted + [Message(Some(f.opcode), f.payload)])
    ensures (f.opcode == 1 || f.opcode == 2) && !f.fin ==> a.Deliver(f) == Assembly(Some(f.opcode), f.payload, a.emitted)
    ensures f.opcode == 0 && !f.fin ==> a.Deliver(f) == Assembly(a.fragOpcode, a.fragData + f.payload, a.emitted)
    ensures f.opcode == 0 && f.fin ==>
      a.Deliver(f) == Assembly(None, [], a.emitted + [Message(a.fragOpcode, a.fragData + f.payload)])
  {
  }

  /** One message for each frame, of its opcode and payload. */
  function OneForEach(fs: seq<Frame>): seq<Message> {
    if fs == [] then [] else [Message(Some(fs[0].opcode), fs[0].payload)] + OneForEach(fs[1..])
  }

  lemma {:induction false} WholeFramesDeliver(a: Assembly, fs: seq<Frame>)
    requires forall k :: 0 <= k < |fs| ==> fs[k].opcode != 0 && (fs[k].fin || fs[k].opcode > 2)
    ensures DeliverAll(a, fs) == Assembly(a.fragOpcode, a.fragData, a.emitted + OneForEach(fs))
    decreases |fs|
  {
    if fs == [] {
      Nothing(a.emitted);
    } else {
      OneFrame(a, fs[0]);
      WholeFramesDeliver(a.Deliver(fs[0]), fs[1..]);
      Assoc(a.emitted, [Message(Some(fs[0].opcode), fs[0].payload)], OneForEach(fs[1..]));
    }
  }

  // ---------------------------------------------------------------- feeding

  datatype Parser = Parser(buf: seq<byte>, assembly: Assembly)

  const START := Parser([], NOTHING)

  function FrameSize(buf: seq<byte>): (n: nat)
    requires Complete(buf)
    ensures 2 <= n <= |buf|
  {
    HeaderOf(buf).Size() + PayloadSize(buf)
  }

  /** What one call of feed does with a buffer: it stops after a silent frame, even
      when more complete frames follow. */
  function Drain(p: Parser): Parser
    decreases |p.buf|
  {
    if !Complete(p.buf) then p
    else
      var f := Decode(p.buf);
      var q := Parser(p.buf[FrameSize(p.buf)..], p.assembly.Deliver(f));
      if f.Silent() then q else Drain(q)
  }

  function Fed(p: Parser, chunk: seq<byte>): Parser { Drain(p.(buf := p.buf + chunk)) }

  function FedAll(p: Parser, chunks: seq<seq<byte>>): Parser
    decreases |chunks|
  {
    if chunks == [] then p else FedAll(Fed(p, chunks[0]), chunks[1..])
  }

  /** From p to q the first n of the frames have been delivered; the rest is in q's
      buffer, but for the bytes still missing. */
  predicate Through(p: Parser, q: Parser, fs: seq<Frame>, n: nat, missing: seq<byte>)
    requires AllValid(fs)
  {
    && n <= |fs|
    && q.assembly == DeliverAll(p.assembly, fs[..n])
    && q.buf + missing == EncodeAll(fs[n..])
  }

  /** Not stopped short, unless behind a silent frame. */
  predicate StoppedSilent(fs: seq<Frame>, n: nat) {
    n < |fs| ==> n > 0 && fs[n - 1].Silent()
  }

  lemma FirstFrame(buf: seq<byte>, fs: seq<Frame>, missing: seq<byte>)
    requires AllValid(fs) && buf + missing == EncodeAll(fs) && Complete(buf)
    ensures fs != [] && Decode(buf) == fs[0] && buf[FrameSize(buf)..] + missing == EncodeAll(fs[1..])
  {
    var f, m := Decode(buf), FrameSize(buf);
    EncodeDecoded(buf);
    CutFront(buf, m, missing);
    FramesArePrefixFree(f, buf[m..] + missing, fs[0], EncodeAll(fs[1..]));
  }

  lemma ThroughOne(p: Parser, q: Parser, fs: seq<Frame>, missing: seq<byte>)
    requires AllValid(fs) && fs != [] && q.assembly == p.assembly.Deliver(fs[0]) && q.buf + missing == EncodeAll(fs[1..])
    ensures Through(p, q, fs, 1, missing)
  {
    assert fs[..1] == [fs[0]] && [fs[0]][1..] == [];
  }

  lemma ThroughJoin(p: Parser, q: Parser, r: Parser, fs: seq<Frame>, n: nat, more: seq<byte>, m: nat, missing: seq<byte>)
    requires AllValid(fs) && Through(p, q, fs, n, more) && Through(q, r, fs[n..], m, missing)
    ensures Through(p, r, fs, n + m, missing)
  {
    DeliverJoin(p.assembly, fs[..n], fs[n..][..m]);
    SplitTwice(fs, n, m);
  }

  lemma {:induction false} DrainGoesThrough(p: Parser, fs: seq<Frame>, missing: seq<byte>) returns (n: nat)
    requires AllValid(fs) && p.buf + missing == EncodeAll(fs)
    ensures Through(p, Drain(p), fs, n, missing)
    ensures missing == [] ==> StoppedSilent(fs, n)
    ensures forall k :: 0 <= k < n - 1 ==> !fs[k].Silent()
    decreases |p.buf|
  {
    n := 0;
    if Complete(p.buf) {
      FirstFrame(p.buf, fs, missing);
      var q := Parser(p.buf[FrameSize(p.buf)..], p.assembly.Deliver(fs[0]));
      ThroughOne(p, q, fs, missing);
      n := 1;
      if !fs[0].Silent() {
        var k := DrainGoesThrough(q, fs[1..], missing);
        ThroughJoin(p, q, Drain(q), fs, 1, missing, k, missing);
        n := 1 + k;
        assert forall i :: 1 <= i < n ==> fs[i] == fs[1..][i - 1];
      }
    } else if missing == [] && fs != [] {
      assert p.buf + [] == p.buf;
      DecodeEncoded(fs[0], EncodeAll(fs[1..]));
      assert false;
    }
  }

  lemma ThroughNone(p: Parser, fs: seq<Frame>, missing: seq<byte>)
    requires AllValid(fs) && p.buf + missing == EncodeAll(fs)
    ensures Through(p, p, fs, 0, missing)
  {
    assert fs[..0] == [] && fs[0..] == fs;
  }

  lemma StopsJoin(fs: seq<Frame>, n: nat, m: nat)
    requires n <= |fs| && StoppedSilent(fs[n..], m)
    ensures StoppedSilent(fs, n + m)
  {
    if n + m < |fs| && m > 0 { assert fs[n..][m - 1] == fs[n + m - 1]; }
  }

  lemma FedGoesThrough(p: Parser, chunk: seq<byte>, fs: seq<Frame>, missing: seq<byte>) returns (n: nat)
    requires AllValid(fs) && p.buf + (chunk + missing) == EncodeAll(fs)
    ensures Through(p, Fed(p, chunk), fs, n, missing)
    ensures missing == [] ==> StoppedSilent(fs, n)
    ensures forall k :: 0 <= k < n - 1 ==> !fs[k].Silent()
  {
    Assoc(p.buf, chunk, missing);
    n := DrainGoesThrough(p.(buf := p.buf + chunk), fs, missing);
  }

  lemma {:induction false} FeedingGoesThrough(p: Parser, fs: seq<Frame>, chunks: seq<seq<byte>>) returns (n: nat)
    requires AllValid(fs) && p.buf + Concat(chunks) == EncodeAll(fs)
    ensures Through(p, FedAll(p, chunks), fs, n, [])
    ensures if chunks == [] then n == 0 else StoppedSilent(fs, n)
    decreases |chunks|
  {
    hide Encode, EncodeAll, DeliverAll, Fed, Drain;
    if chunks == [] {
      n := 0;
      ThroughNone(p, fs, []);
    } else {
      var chunk, others := chunks[0], chunks[1..];
      var next := Fed(p, chunk);
      var k := FedGoesThrough(p, chunk, fs, Concat(others));
      var m := FeedingGoesThrough(next, fs[k..], others);
      ThroughJoin(p, next, FedAll(next, others), fs, k, Concat(others), m, []);
      if others != [] { StopsJoin(fs, k, m); }
      n := k + m;
    }
  }

  /** Refinement. However the bytes of a stream of frames are cut into chunks, the messages
      delivered are the reference reassembly of the frames got through so far, the rest
      of the stream waits in the buffer, and nothing is delivered early, twice or out of order. */
  lemma FeedingRefinesReassembly(fs: seq<Frame>, chunks: seq<seq<byte>>) returns (n: nat)
    requires AllValid(fs) && Concat(chunks) == EncodeAll(fs)
    ensures n <= |fs|
    ensures FedAll(START, chunks).assembly.emitted == Messages(fs[..n]) <= Messages(fs)
    ensures FedAll(START, chunks).buf == EncodeAll(fs[n..])
    ensures n < |fs| ==> n > 0 && fs[n - 1].Silent()
  {
    Nothing(Concat(chunks));
    n := FeedingGoesThrough(START, fs, chunks);
    Nothing(FedAll(START, chunks).buf);
    SplitAt(fs, n);
    DeliverJoin(NOTHING, fs[..n], fs[n..]);
    EmittedGrows(DeliverAll(NOTHING, fs[..n]), fs[n..]);
    if fs != [] { assert |EncodeAll(fs)| >= 2; }
  }

  function SilentFrames(fs: seq<Frame>): nat {
    if fs == [] then 0 else (if fs[0].Silent() then 1 else 0) + SilentFrames(fs[1..])
  }

  lemma {:induction false} SilentJoin(fs: seq<Frame>, gs: seq<Frame>)
    ensures SilentFrames(fs + gs) == SilentFrames(fs) + SilentFrames(gs)
    decreases |fs|
  {
    if fs == [] {
      assert fs + gs == gs;
    } else {
      assert (fs + gs)[1..] == fs[1..] + gs;
      SilentJoin(fs[1..], gs);
    }
  }

  /** Behind a stop there are fewer silent frames. */
  lemma SilentLeft(fs: seq<Frame>, n: nat)
    requires n < |fs| && StoppedSilent(fs, n)
    ensures SilentFrames(fs[n..]) < SilentFrames(fs)
  {
    assert fs == fs[..n - 1] + ([fs[n - 1]] + fs[n..]);
    SilentJoin(fs[..n - 1], [fs[n - 1]] + fs[n..]);
    SilentJoin([fs[n - 1]], fs[n..]);
    assert [fs[n - 1]][1..] == [];
  }

  function Nudged(p: Parser, times: nat): Parser
    decreases times
  {
    if times == 0 then p else Nudged(Fed(p, []), times - 1)
  }

  /** Each empty feed gets the parser past one more silent frame. */
  lemma {:induction false} NudgesFinish(p: Parser, fs: seq<Frame>, times: nat)
    requires AllValid(fs) && p.buf == EncodeAll(fs) && (fs != [] ==> times > SilentFrames(fs))
    ensures Nudged(p, times) == Parser([], DeliverAll(p.assembly, fs))
    decreases times
  {
    if times > 0 {
      var q := Fed(p, []);
      Nothing(p.buf);
      Nothing(q.buf);
      var n := DrainGoesThrough(p, fs, []);
      SplitAt(fs, n);
      DeliverJoin(p.assembly, fs[..n], fs[n..]);
      if n < |fs| { SilentLeft(fs, n); }
      NudgesFinish(q, fs[n..], times - 1);
    }
  }

  /** Completeness. Once all bytes have been fed, one empty feed for each silent frame
      delivers the whole reassembly; without silent frames none is needed. */
  lemma NudgesDeliverEverything(fs: seq<Frame>, chunks: seq<seq<byte>>)
    requires AllValid(fs) && Concat(chunks) == EncodeAll(fs)
    ensures Nudged(FedAll(START, chunks), SilentFrames(fs)).assembly.emitted == Messages(fs)
    ensures Nudged(FedAll(START, chunks), SilentFrames(fs)).buf == []
  {
    var q := FedAll(START, chunks);
    Nothing(Concat(chunks));
    Nothing(q.buf);
    var n := FeedingGoesThrough(START, fs, chunks);
    SplitAt(fs, n);
    DeliverJoin(NOTHING, fs[..n], fs[n..]);
    if fs != [] {
      assert |EncodeAll(fs)| >= 2;
      if n < |fs| { SilentLeft(fs, n); }
    }
    NudgesFinish(q, fs[n..], SilentFrames(fs));
  }

  /** Every frame but the silent ones delivers one message. */
  lemma {:induction false} MessagesAreCounted(a: Assembly, fs: seq<Frame>)
    ensures |DeliverAll(a, fs).emitted| + SilentFrames(fs) == |a.emitted| + |fs|
    decreases |fs|
  {
    if fs != [] { MessagesAreCounted(a.Deliver(fs[0]), fs[1..]); }
  }

  lemma {:induction false} OnlySilent(fs: seq<Frame>)
    ensures SilentFrames(fs) <= |fs|
    ensures SilentFrames(fs) == |fs| <==> forall k :: 0 <= k < |fs| ==> fs[k].Silent()
    decreases |fs|
  {
    if fs != [] {
      OnlySilent(fs[1..]);
      assert forall k :: 1 <= k < |fs| ==> fs[k] == fs[1..][k - 1];
    }
  }

  /** What frames still to come would deliver. */
  lemma RestDelivers(a: Assembly, fs: seq<Frame>)
    ensures DeliverAll(a, fs).emitted == a.emitted <==> forall k :: 0 <= k < |fs| ==> fs[k].Silent()
  {
    MessagesAreCounted(a, fs);
    OnlySilent(fs);
    EmittedGrows(a, fs);
  }

  predicate Delivered(fs: seq<Frame>, chunks: seq<seq<byte>>) { FedAll(START, chunks).assembly.emitted == Messages(fs) }

  /** A frame that delivers something comes after a silent one. */
  predicate Hidden(fs: seq<Frame>) { exists i, j :: 0 <= i < j < |fs| && fs[i].Silent() && !fs[j].Silent() }

  lemma NothingHiddenIsDelivered(fs: seq<Frame>, chunks: seq<seq<byte>>)
    requires AllValid(fs) && Concat(chunks) == EncodeAll(fs) && !Hidden(fs)
    ensures Delivered(fs, chunks)
  {
    var n := FeedingRefinesReassembly(fs, chunks);
    var rest := fs[n..];
    forall k | 0 <= k < |rest| ensures rest[k].Silent() { assert rest[k] == fs[n + k]; }
    SplitAt(fs, n);
    DeliverJoin(NOTHING, fs[..n], rest);
    RestDelivers(DeliverAll(NOTHING, fs[..n]), rest);
  }

  /** The stream in one piece. */
  lemma OneChunkStopsEarly(fs: seq<Frame>)
    requires AllValid(fs) && Hidden(fs)
    ensures Concat([EncodeAll(fs)]) == EncodeAll(fs) && !Delivered(fs, [EncodeAll(fs)])
  {
    var s := EncodeAll(fs);
    Nothing(s);
    var whole: seq<seq<byte>> := [s];
    assert whole[1..] == [];
    var n := FedGoesThrough(START, s, fs, []);
    var i, j :| 0 <= i < j < |fs| && fs[i].Silent() && !fs[j].Silent();
    var rest := fs[n..];
    assert n <= i + 1;
    assert rest[j - n] == fs[j];
    SplitAt(fs, n);
    DeliverJoin(NOTHING, fs[..n], rest);
    RestDelivers(DeliverAll(NOTHING, fs[..n]), rest);
    assert FedAll(START, whole) == Fed(START, s);
  }

  /** When a stream needs no nudges: its messages are all delivered, however it is cut into
      chunks, if and only if no frame that delivers something comes after a silent one. */
  lemma DeliveredExactlyWhenNothingIsHidden(fs: seq<Frame>)
    requires AllValid(fs)
    ensures (forall chunks: seq<seq<byte>> :: Concat(chunks) == EncodeAll(fs) ==> Delivered(fs, chunks)) <==> !Hidden(fs)
  {
    if Hidden(fs) {
      OneChunkStopsEarly(fs);
    } else {
      forall chunks: seq<seq<byte>> | Concat(chunks) == EncodeAll(fs) ensures Delivered(fs, chunks) { NothingHiddenIsDelivered(fs, chunks); }
    }
  }

  /** A stream without fragments comes out as it is, frame by frame, however it is cut. */
  lemma WholeFramesComeOut(fs: seq<Frame>, chunks: seq<seq<byte>>)
    requires AllValid(fs) && Concat(chunks) == EncodeAll(fs)
    requires forall k :: 0 <= k < |fs| ==> fs[k].opcode != 0 && (fs[k].fin || fs[k].opcode > 2)
    ensures FedAll(START, chunks).assembly.emitted == OneForEach(fs)
  {
    NothingHiddenIsDelivered(fs, chunks);
    WholeFramesDeliver(NOTHING, fs);
    Nothing(OneForEach(fs));
  }

  /** Without the nudges the refinement is no equality: one feed of a fragmented message's
      bytes delivers nothing, however complete they are. */
  lemma OneFeedStopsBehindSilent(first: Frame, rest: seq<Frame>)
    requires first.Valid() && AllValid(rest) && first.Silent()
    ensures var q := Fed(START, Encode(first) + EncodeAll(rest));
      q.assembly.emitted == [] && q.buf == EncodeAll(rest)
  {
    var s := Encode(first) + EncodeAll(rest);
    Nothing(s);
    DecodeEncoded(first, EncodeAll(rest));
    EncodeDecoded(s);
    SplitAt(s, FrameSize(s));
    FramesArePrefixFree(first, EncodeAll(rest), Decode(s), s[FrameSize(s)..]);
  }

  // --------------------------------------------------------------- on the wire

  /** The first two bytes: the final bit, the reserved bits and the opcode; the mask bit and
      the length, or what stands for it. */
  lemma FirstBytes(f: Frame)
    requires f.Valid()
    ensures var s := Encode(f);
      && s[0] / 128 == (if f.fin then 1 else 0) && s[0] / 16 % 8 == f.rsv && s[0] % 16 == f.opcode
      && s[1] / 128 == (if f.mask.Some? then 1 else 0)
      && s[1] % 128 == match f.form case Short => |f.payload| case Medium => 126 case Long => 127
  {
    EncodedHeader(f, []);
    Nothing(Encode(f));
  }

  /** Two bytes of length, high byte first. */
  lemma HighByteFirst(n: nat)
    requires n < 65536
    ensures BigEndian(n, 2) == [n / 256, n % 256]
  {
    assert BigEndian(n / 256, 1) == BigEndian(n / 256 / 256, 0) + [n / 256 % 256];
  }

  /** Masking is exclusive or with the key, over and over: zeros show it. */
  lemma ZerosShowKey(n: nat, key: seq<byte>)
    requires |key| == 4
    ensures Masked(seq(n, _ => 0), Some(key)) == seq(n, i requires 0 <= i < n => key[i % 4])
  {
    forall i | 0 <= i < n ensures Xor(0, key[i % 4]) == key[i % 4] { XorZero(key[i % 4]); }
  }

  // ------------------------------------------------------------- the parser

  const WS_BUF_MAX := 10 * 1024 * 1024

  /** _WSMessageParser; the callback's calls are kept in `emitted`. */
  class MessageParser {
    var buf: seq<byte>
    var fragOpcode: Option<nat>
    var fragData: seq<byte>
    var emitted: seq<Message>

    constructor ()
      ensures State() == START
    {
      buf, fragOpcode, fragData, emitted := [], None, [], [];
    }

    function State(): Parser
      reads this
    {
      Parser(buf, Assembly(fragOpcode, fragData, emitted))
    }

    /** Append to the buffer and parse until no message comes; false when the buffer is over
        its limit and the tunnel is to be closed. */
    method Feed(data: seq<byte>) returns (ok: bool)
      modifies this
      ensures ok <==> |old(buf)| + |data| <= 10_485_760
      ensures State() == if ok then Fed(old(State()), data) else old(State()).(buf := old(buf) + data)
    {
      buf := buf + data;
      if |buf| > WS_BUF_MAX { return false; }
      var more := true;
      while more
        invariant if more then Drain(State()) == Fed(old(State()), data) else State() == Fed(old(State()), data)
        decreases more, |buf|
      {
        var message := TryParse();
        more := message.Some?;
        if more { emitted := emitted + [message.value]; }
      }
      return true;
    }

    /** Take one frame off the buffer; a message, if it completes one. */
    method TryParse() returns (message: Option<Message>)
      modifies this`buf, this`fragOpcode, this`fragData
      ensures Complete(old(buf)) <==> |buf| < |old(buf)|
      ensures if !Complete(old(buf)) then message == None && State() == old(State())
              else
                var f, a := Decode(old(buf)), old(State()).assembly.Deliver(Decode(old(buf)));
                && buf == old(buf)[FrameSize(old(buf))..]
                && fragOpcode == a.fragOpcode && fragData == a.fragData
                && (message.None? <==> f.Silent())
                && a.emitted == if message.Some? then emitted + [message.value] else emitted
    {
      if |buf| < 2 { return None; }
      var fin, opcode, masked := buf[0] >= 128, buf[0] % 16, buf[1] >= 128;
      var length, idx := buf[1] % 128, 2;
      if length == 126 {
        if |buf| < idx + 2 { return None; }
        length := FromBigEndian(buf[idx..idx + 2]);
        idx := idx + 2;
      } else if length == 127 {
        if |buf| < idx + 8 { return None; }
        length := FromBigEndian(buf[idx..idx + 8]);
        idx := idx + 8;
      }
      var mask := None;
      if masked {
        if |buf| < idx + 4 { return None; }
        mask := Some(buf[idx..idx + 4]);
        idx := idx + 4;
      }
      if |buf| < idx + length { return None; }
      var payload := buf[idx..idx + length];
      buf := buf[idx + length..];
      if masked { payload := Unmask(payload, mask.value); }
      message := DeliverFrame(fin, opcode, payload);
    }

    /** The mask is repeated to the payload's length and xored away. */
    static method Unmask(payload: seq<byte>, mask: seq<byte>) returns (clear: seq<byte>)
      requires |mask| == 4
      ensures clear == Masked(payload, Some(mask))
    {
      var full: seq<byte> := [];
      for k := 0 to |payload| / 4 + 1
        invariant |full| == 4 * k && forall i :: 0 <= i < |full| ==> full[i] == mask[i % 4]
      {
        full := full + mask;
      }
      clear := [];
      for i := 0 to |payload|
        invariant |clear| == i && forall j :: 0 <= j < i ==> clear[j] == Xor(payload[j], mask[j % 4])
      {
        clear := clear + [Xor(payload[i], full[i])];
      }
    }

    method DeliverFrame(fin: bool, opcode: nat, payload: seq<byte>) returns (message: Option<Message>)
      modifies this`fragOpcode, this`fragData
      ensures forall f: Frame :: f.fin == fin && f.opcode == opcode && f.payload == payload ==>
        var a := old(State()).assembly.Deliver(f);
        && fragOpcode == a.fragOpcode && fragData == a.fragData
        && (message.None? <==> f.Silent())
        && a.emitted == if message.Some? then emitted + [message.value] else emitted
    {
      if opcode == 0 {
        fragData := fragData + payload;
        if !fin { return None; }
        message := Some(Message(fragOpcode, fragData));
        fragOpcode := None;
        fragData := [];
      } else if opcode == 1 || opcode == 2 {
        if fin { return Some(Message(Some(opcode), payload)); }
        fragOpcode := Some(opcode);
        fragData := payload;
        return None;
      } else {
        return Some(Message(Some(opcode), payload));
      }
    }
  }
}
