/**
 The LevelDB log reader of src-python/doubao_chats.py:115-134, against the writer whose
 files it reads: 32768-byte blocks, records that never leave their block, and batches cut
 into fragments where a block ends.
 */
module LevelLog {
  import opened Bytes

  const BLOCK: nat := 32768
  const HEADER: nat := 7

  // ------------------------------------------------------------- the writer

  const FULL: byte := 1
  const FIRST: byte := 2
  const MIDDLE: byte := 3
  const LAST: byte := 4

  /** The reader never looks at checksums, so any will do. */
  type Checksum = (byte, seq<byte>) -> (byte, byte, byte, byte)

  function Record(crc: Checksum, kind: byte, fragment: seq<byte>): (s: seq<byte>)
    ensures |s| == HEADER + |fragment|
  {
    var c := crc(kind, fragment);
    [c.0, c.1, c.2, c.3] + LittleEndian(|fragment|, 2) + [kind] + fragment
  }

  /** Zeros where a block has no room for another header. */
  function Trailer(pos: nat): (s: seq<byte>)
    ensures |s| < HEADER && ((pos + |s|) % BLOCK) + HEADER <= BLOCK
  {
    var left := BLOCK - pos % BLOCK;
    if left < HEADER then seq(left, _ => 0) else []
  }

  /** What fits behind the next header. */
  function Room(pos: nat): nat { BLOCK - HEADER - (pos + |Trailer(pos)|) % BLOCK }

  function Chunk(crc: Checksum, kind: byte, fragment: seq<byte>, pos: nat): (s: seq<byte>)
    ensures |s| == |Trailer(pos)| + HEADER + |fragment|
  {
    Trailer(pos) + Record(crc, kind, fragment)
  }

  function KindOf(begin: bool, end: bool): byte {
    if begin && end then FULL else if begin then FIRST else if end then LAST else MIDDLE
  }

  /** The bytes that add a batch, or what is left of it, at a position of the file. */
  function Write(crc: Checksum, batch: seq<byte>, begin: bool, pos: nat): (s: seq<byte>)
    decreases |batch|, if Room(pos) == 0 then 1 else 0
  {
    var n := Room(pos);
    if |batch| <= n then Chunk(crc, KindOf(begin, true), batch, pos)
    else
      var chunk := Chunk(crc, KindOf(begin, false), batch[..n], pos);
      chunk + Write(crc, batch[n..], false, pos + |chunk|)
  }

  function WriteAll(crc: Checksum, batches: seq<seq<byte>>, pos: nat): seq<byte>
    decreases |batches|
  {
    if batches == [] then []
    else
      var first := Write(crc, batches[0], true, pos);
      first + WriteAll(crc, batches[1..], pos + |first|)
  }

  // ------------------------------------------------------------- the reader

  /** The batches read from a position on, with `buf` collected so far. */
  function Read(raw: seq<byte>, pos: nat, buf: seq<byte>): seq<seq<byte>>
    decreases |raw| - pos
  {
    if pos + HEADER > |raw| then []
    else if pos % BLOCK + HEADER > BLOCK then Read(raw, pos + (BLOCK - pos % BLOCK), buf)
    else
      var n, kind := FromLittleEndian(raw[pos + 4..pos + 6]), raw[pos + 6];
      var payload, next := Slice(raw, pos + 7, pos + 7 + n), pos + 7 + n;
      if kind == FULL || kind == LAST then [buf + payload] + Read(raw, next, [])
      else if kind == FIRST || kind == MIDDLE then Read(raw, next, buf + payload)
      else Read(raw, next, buf)
  }

  method ReadWalBatches(raw: seq<byte>) returns (batches: seq<seq<byte>>)
    ensures batches == Read(raw, 0, [])
  {
    var pos, buf := 0, [];
    batches := [];
    while pos + HEADER <= |raw|
      invariant batches + Read(raw, pos, buf) == Read(raw, 0, [])
      decreases |raw| - pos
    {
      var off := pos % BLOCK;
      if off + HEADER > BLOCK {
        pos := pos + (BLOCK - off);
        continue;
      }
      var n, kind := FromLittleEndian(raw[pos + 4..pos + 6]), raw[pos + 6];
      var payload := Slice(raw, pos + 7, pos + 7 + n);
      ghost var rest := Read(raw, pos, buf);
      pos := pos + 7 + n;
      if kind == FULL || kind == LAST {
        Assoc(batches, [buf + payload], Read(raw, pos, []));
        batches := batches + [buf + payload];
        buf := [];
      } else if kind == FIRST || kind == MIDDLE {
        buf := buf + payload;
      }
    }
    Nothing(batches);
  }

  // -------------------------------------------------------------- round trip

  lemma RecordFields(raw: seq<byte>, pos: nat, crc: Checksum, kind: byte, fragment: seq<byte>)
    requires At(raw, pos, Record(crc, kind, fragment)) && |fragment| < Power(2)
    ensures FromLittleEndian(raw[pos + 4..pos + 6]) == |fragment| && raw[pos + 6] == kind
    ensures Slice(raw, pos + 7, pos + 7 + |fragment|) == fragment
  {
    var c := crc(kind, fragment);
    var four: seq<byte> := [c.0, c.1, c.2, c.3];
    AtSplit(raw, pos, four + LittleEndian(|fragment|, 2) + [kind], fragment);
    AtSplit(raw, pos, four + LittleEndian(|fragment|, 2), [kind]);
    AtSplit(raw, pos, four, LittleEndian(|fragment|, 2));
    LittleEndianRoundTrip(|fragment|, 2);
    AtByte(raw, pos + 6, [kind], 0);
    if fragment == [] { assert Slice(raw, pos + 7, pos + 7) == []; }
  }

  lemma TrailerIsSkipped(raw: seq<byte>, pos: nat, buf: seq<byte>)
    requires pos + |Trailer(pos)| + HEADER <= |raw|
    ensures Read(raw, pos, buf) == Read(raw, pos + |Trailer(pos)|, buf)
  {
  }

  lemma RecordIsRead(raw: seq<byte>, pos: nat, crc: Checksum, kind: byte, fragment: seq<byte>, buf: seq<byte>)
    requires At(raw, pos, Record(crc, kind, fragment)) && |fragment| <= BLOCK
    requires pos % 32768 + 7 <= 32768 && 1 <= kind <= 4
    ensures Read(raw, pos, buf)
         == if kind == FULL || kind == LAST then [buf + fragment] + Read(raw, pos + HEADER + |fragment|, [])
            else Read(raw, pos + HEADER + |fragment|, buf + fragment)
  {
    assert Power(2) == 65536;
    RecordFields(raw, pos, crc, kind, fragment);
  }

  /** One written fragment, with the trailer before it. */
  lemma ChunkIsRead(raw: seq<byte>, pos: nat, crc: Checksum, kind: byte, fragment: seq<byte>, buf: seq<byte>)
    requires At(raw, pos, Chunk(crc, kind, fragment, pos))
    requires |fragment| <= Room(pos) && 1 <= kind <= 4
    ensures var next := pos + |Chunk(crc, kind, fragment, pos)|;
      Read(raw, pos, buf) == if kind == FULL || kind == LAST then [buf + fragment] + Read(raw, next, [])
                             else Read(raw, next, buf + fragment)
  {
    hide At, Read, Record, Trailer;
    AtSplit(raw, pos, Trailer(pos), Record(crc, kind, fragment));
    TrailerIsSkipped(raw, pos, buf);
    RecordIsRead(raw, pos + |Trailer(pos)|, crc, kind, fragment, buf);
  }

  /** A batch is put together again from its fragments, however many blocks they span. */
  lemma {:induction false} BatchIsRead(raw: seq<byte>, pos: nat, crc: Checksum, batch: seq<byte>, begin: bool, buf: seq<byte>)
    requires At(raw, pos, Write(crc, batch, begin, pos))
    ensures Read(raw, pos, buf) == [buf + batch] + Read(raw, pos + |Write(crc, batch, begin, pos)|, [])
    decreases |batch|, if Room(pos) == 0 then 1 else 0
  {
    hide At, Read, Write, Chunk, Room, Trailer, KindOf;
    if |batch| <= Room(pos) {
      LastIsRead(raw, pos, crc, batch, begin, buf);
    } else {
      var n := Room(pos);
      var next := pos + |Chunk(crc, KindOf(begin, false), batch[..n], pos)|;
      FrontIsRead(raw, pos, crc, batch, begin, buf);
      RoomAfterFullBlock(pos);
      BatchIsRead(raw, next, crc, batch[n..], false, buf + batch[..n]);
      Rejoin(buf, batch, n);
    }
  }

  lemma LastIsRead(raw: seq<byte>, pos: nat, crc: Checksum, batch: seq<byte>, begin: bool, buf: seq<byte>)
    requires At(raw, pos, Write(crc, batch, begin, pos)) && |batch| <= Room(pos)
    ensures Read(raw, pos, buf) == [buf + batch] + Read(raw, pos + |Write(crc, batch, begin, pos)|, [])
  {
    hide At, Read, Chunk;
    ChunkIsRead(raw, pos, crc, KindOf(begin, true), batch, buf);
  }

  lemma Rejoin(buf: seq<byte>, batch: seq<byte>, n: nat)
    requires n <= |batch|
    ensures buf + batch[..n] + batch[n..] == buf + batch
  {
  }

  lemma FrontIsRead(raw: seq<byte>, pos: nat, crc: Checksum, batch: seq<byte>, begin: bool, buf: seq<byte>)
    requires At(raw, pos, Write(crc, batch, begin, pos)) && |batch| > Room(pos)
    ensures var front, back := batch[..Room(pos)], batch[Room(pos)..];
      var next := pos + |Chunk(crc, KindOf(begin, false), front, pos)|;
      && Read(raw, pos, buf) == Read(raw, next, buf + front)
      && At(raw, next, Write(crc, back, false, next))
      && pos + |Write(crc, batch, begin, pos)| == next + |Write(crc, back, false, next)|
  {
    var front, back := batch[..Room(pos)], batch[Room(pos)..];
    var chunk := Chunk(crc, KindOf(begin, false), front, pos);
    AtSplit(raw, pos, chunk, Write(crc, back, false, pos + |chunk|));
    ChunkIsRead(raw, pos, crc, KindOf(begin, false), front, buf);
  }

  /** A fragment that filled its block is followed by one that has a block to itself. */
  lemma RoomAfterFullBlock(pos: nat)
    ensures Room(pos + |Trailer(pos)| + HEADER + Room(pos)) == BLOCK - HEADER
  {
    var start := pos + |Trailer(pos)|;
    assert (start + HEADER + Room(pos)) % BLOCK == 0;
  }

  lemma {:induction false} BatchesAreRead(raw: seq<byte>, pos: nat, crc: Checksum, batches: seq<seq<byte>>)
    requires At(raw, pos, WriteAll(crc, batches, pos)) && pos + |WriteAll(crc, batches, pos)| == |raw|
    ensures Read(raw, pos, []) == batches
    decreases |batches|
  {
    if batches != [] {
      var first := Write(crc, batches[0], true, pos);
      hide At, Read, Write;
      AtSplit(raw, pos, first, WriteAll(crc, batches[1..], pos + |first|));
      BatchIsRead(raw, pos, crc, batches[0], true, []);
      BatchesAreRead(raw, pos + |first|, crc, batches[1..]);
      Nothing(batches[0]);
    }
  }

  /** Reading a log gives back the batches that were written to it, whatever their number
      and sizes, and whatever the checksums. */
  lemma LogRoundTrip(crc: Checksum, batches: seq<seq<byte>>)
    ensures Read(WriteAll(crc, batches, 0), 0, []) == batches
  {
    AllOf(WriteAll(crc, batches, 0));
    BatchesAreRead(WriteAll(crc, batches, 0), 0, crc, batches);
  }

  /** A record of any other kind is passed over, whatever it carries. */
  lemma OtherKindsAreSkipped(raw: seq<byte>, pos: nat, crc: Checksum, kind: byte, fragment: seq<byte>, buf: seq<byte>)
    requires At(raw, pos, Record(crc, kind, fragment)) && |fragment| <= BLOCK
    requires pos % 32768 + 7 <= 32768 && !(1 <= kind <= 4)
    ensures Read(raw, pos, buf) == Read(raw, pos + HEADER + |fragment|, buf)
  {
    assert Power(2) == 65536;
    RecordFields(raw, pos, crc, kind, fragment);
  }

  /** No record begins in the last six bytes of a block of 32768: reading goes on with the next. */
  lemma BlockTailIsSkipped(raw: seq<byte>, pos: nat, buf: seq<byte>)
    requires pos % 32768 > 32761 && pos + 7 <= |raw|
    ensures Read(raw, pos, buf) == Read(raw, (pos / 32768 + 1) * 32768, buf)
  {
    assert pos == pos / 32768 * 32768 + pos % 32768;
  }

  /** What is left when a header no longer fits is no batch, and neither are fragments
      without their last. */
  lemma TornTail(raw: seq<byte>, pos: nat, buf: seq<byte>)
    requires |raw| < pos + 7
    ensures Read(raw, pos, buf) == []
  {
  }

  /** A fragment as LevelDB lays it down: four bytes of checksum, two of length, low byte
      first, and its place in the batch - 1 alone, 2 first, 3 in between, 4 last. */
  lemma RecordLayout(crc: Checksum, begin: bool, end: bool, fragment: seq<byte>)
    requires |fragment| <= BLOCK
    ensures var s := Record(crc, KindOf(begin, end), fragment);
      && |s| == 7 + |fragment| && s[7..] == fragment
      && s[4] == |fragment| % 256 && s[5] == |fragment| / 256
      && s[6] == if begin then (if end then 1 else 2) else (if end then 4 else 3)
  {
    var n := |fragment|;
    assert LittleEndian(n, 2) == [n % 256] + LittleEndian(n / 256, 1);
    assert LittleEndian(n / 256, 1) == [n / 256 % 256] + LittleEndian(n / 256 / 256, 0);
  }

  /** What the writer lays down is a log: no record's header or payload leaves its block. */
  lemma RecordsStayInTheirBlocks(pos: nat, n: nat)
    requires n <= Room(pos)
    ensures var start := pos + |Trailer(pos)|;
      start / BLOCK == (start + HEADER + n - 1) / BLOCK
  {
    var start := pos + |Trailer(pos)|;
    assert start == start / BLOCK * BLOCK + start % BLOCK;
  }
}
