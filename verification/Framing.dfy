/** The data-channel envelope and the splitting of a payload into envelopes
    (data_channel_framing.cpp, PackMessage and its little-endian helpers). */
module Framing {
  import opened Common

  const HEADER_SIZE: nat := 17
  const VERSION: byte := 1
  const CHUNK_PAYLOAD_MAX: nat := 65519
  const MAX_MESSAGE_BYTES: nat := 16 * 1024 * 1024
  const MAX_CHUNKS: nat := 257
  const U16: nat := 0x1_0000
  const U32: nat := 0x1_0000_0000

  function Magic(): seq<byte> {
    [0x43, 0x4B, 0x44, 0x43]
  }

  datatype Envelope = Envelope(id: nat, index: nat, count: nat, payload: seq<byte>)

  /** What a receiver demands of an envelope. */
  predicate WellFormed(e: Envelope) {
    e.id < U32 && 1 <= e.count <= MAX_CHUNKS && e.index < e.count && |e.payload| < U32
  }

  function U16LE(v: nat): (b: seq<byte>)
    requires v < U16
    ensures |b| == 2
  {
    [v % 256, v / 256]
  }

  function U32LE(v: nat): (b: seq<byte>)
    requires v < U32
    ensures |b| == 4
  {
    [v % 256, v / 256 % 256, v / 65536 % 256, v / 16777216]
  }

  function ReadU16LE(b: seq<byte>, at: nat): (v: nat)
    requires at + 2 <= |b|
    ensures v < U16
  {
    var b0: nat, b1: nat := b[at], b[at + 1];
    b0 + 256 * b1
  }

  function ReadU32LE(b: seq<byte>, at: nat): (v: nat)
    requires at + 4 <= |b|
    ensures v < U32
  {
    var b0: nat, b1: nat, b2: nat, b3: nat := b[at], b[at + 1], b[at + 2], b[at + 3];
    b0 + 256 * b1 + 65536 * b2 + 16777216 * b3
  }

  /** Reading is the inverse of writing, on both sides. */
  lemma LittleEndian16(b: seq<byte>, at: nat, v: nat)
    requires at + 2 <= |b| && v < U16
    ensures ReadU16LE(b, at) == v <==> b[at..at + 2] == U16LE(v)
  {
    if b[at..at + 2] == U16LE(v) {
      assert b[at..at + 2][0] == b[at] && b[at..at + 2][1] == b[at + 1];
    }
  }

  lemma LittleEndian32(b: seq<byte>, at: nat, v: nat)
    requires at + 4 <= |b| && v < U32
    ensures ReadU32LE(b, at) == v <==> b[at..at + 4] == U32LE(v)
  {
    var s := b[at..at + 4];
    assert s[0] == b[at] && s[1] == b[at + 1] && s[2] == b[at + 2] && s[3] == b[at + 3];
    Digits256(s[0], s[1], s[2], s[3], v);
  }

  /** A 32-bit number has one expansion to base 256. */
  lemma Digits256(b0: byte, b1: byte, b2: byte, b3: byte, v: nat)
    requires v < U32
    ensures var n0: nat, n1: nat, n2: nat, n3: nat := b0, b1, b2, b3;
            n0 + 256 * n1 + 65536 * n2 + 16777216 * n3 == v <==>
            n0 == v % 256 && n1 == v / 256 % 256 && n2 == v / 65536 % 256 && n3 == v / 16777216
  {
    var n0: nat, n1: nat, n2: nat, n3: nat := b0, b1, b2, b3;
    LastDigit(n0, n1 + 256 * n2 + 65536 * n3, v);
    LastDigit(n1, n2 + 256 * n3, v / 256);
    LastDigit(n2, n3, v / 65536);
    DividedTwice(v);
    DividedTwice(v / 256);
  }

  lemma LastDigit(digit: nat, rest: nat, v: nat)
    requires digit < 256
    ensures digit + 256 * rest == v <==> digit == v % 256 && rest == v / 256
  {
  }

  lemma DividedTwice(v: nat)
    ensures v / 256 / 256 == v / 65536
  {
  }

  /** The bytes of an envelope. */
  function Encode(e: Envelope): (b: seq<byte>)
    requires WellFormed(e)
    ensures |b| == HEADER_SIZE + |e.payload|
  {
    Magic() + [VERSION] + U32LE(e.id) + U16LE(e.index) + U16LE(e.count) + U32LE(|e.payload|) + e.payload
  }

  /** The header checks of PushChunk, in source order; None is a dropped buffer. */
  function Parse(raw: seq<byte>): Option<Envelope> {
    if |raw| < HEADER_SIZE || raw[..4] != Magic() || raw[4] != VERSION then None
    else
      var id, index, count, len :=
        ReadU32LE(raw, 5), ReadU16LE(raw, 9), ReadU16LE(raw, 11), ReadU32LE(raw, 13);
      if count < 1 || count > MAX_CHUNKS || HEADER_SIZE + len > |raw| || index >= count then None
      else Some(Envelope(id, index, count, raw[HEADER_SIZE..HEADER_SIZE + len]))
  }

  lemma EncodeLayout(e: Envelope, raw: seq<byte>)
    requires WellFormed(e)
    requires |raw| >= HEADER_SIZE + |e.payload|
    ensures Encode(e) <= raw <==>
            raw[..4] == Magic() && raw[4] == VERSION && raw[5..9] == U32LE(e.id) &&
            raw[9..11] == U16LE(e.index) && raw[11..13] == U16LE(e.count) &&
            raw[13..17] == U32LE(|e.payload|) && raw[17..17 + |e.payload|] == e.payload
  {
    var b := Encode(e);
    var p := raw[..|b|];
    assert b[..4] == Magic() && b[4] == VERSION && b[5..9] == U32LE(e.id);
    assert b[9..11] == U16LE(e.index) && b[11..13] == U16LE(e.count);
    assert b[13..17] == U32LE(|e.payload|) && b[17..] == e.payload;
    assert p[..4] == raw[..4] && p[4] == raw[4] && p[5..9] == raw[5..9] && p[9..11] == raw[9..11];
    assert p[11..13] == raw[11..13] && p[13..17] == raw[13..17] && p[17..] == raw[17..|b|];
    assert p == p[..4] + [p[4]] + p[5..9] + p[9..11] + p[11..13] + p[13..17] + p[17..];
  }

  /** A buffer is accepted exactly when it starts with the encoding of a well-formed
      envelope, and it is read as that envelope; bytes after the payload are ignored. */
  lemma ParseIffEncoded(raw: seq<byte>, e: Envelope)
    ensures Parse(raw) == Some(e) <==> WellFormed(e) && Encode(e) <= raw
  {
    if WellFormed(e) && |raw| >= HEADER_SIZE + |e.payload| {
      EncodeLayout(e, raw);
      LittleEndian32(raw, 5, e.id);
      LittleEndian16(raw, 9, e.index);
      LittleEndian16(raw, 11, e.count);
      LittleEndian32(raw, 13, |e.payload|);
    }
  }

  /** Which buffers a receiver accepts, and what it reads off their bytes. */
  lemma AcceptedBytes(raw: seq<byte>)
    ensures |raw| < 17 || raw[..5] != [0x43, 0x4B, 0x44, 0x43, 1] ==> Parse(raw) == None
    ensures |raw| >= 17 && raw[..5] == [0x43, 0x4B, 0x44, 0x43, 1] ==>
              var b := (k: int) requires 0 <= k < |raw| => raw[k] as int;
              var id := b(5) + 256 * b(6) + 65536 * b(7) + 16777216 * b(8);
              var index, count := b(9) + 256 * b(10), b(11) + 256 * b(12);
              var len := b(13) + 256 * b(14) + 65536 * b(15) + 16777216 * b(16);
              if 1 <= count <= 257 && index < count && 17 + len <= |raw|
              then Parse(raw) == Some(Envelope(id, index, count, raw[17..17 + len]))
              else Parse(raw) == None
  {
    if |raw| >= 17 {
      assert raw[..5] == raw[..4] + [raw[4]] && [0x43, 0x4B, 0x44, 0x43, 1] == Magic() + [VERSION];
      assert raw[..5][..4] == raw[..4] && raw[..5][4] == raw[4];
    }
  }

  lemma AcceptedIsWellFormed(raw: seq<byte>)
    ensures Parse(raw).Some? ==> WellFormed(Parse(raw).value)
  {
    if Parse(raw).Some? {
      ParseIffEncoded(raw, Parse(raw).value);
    }
  }

  /** max(1, ceil(n / CHUNK_PAYLOAD_MAX)), computed as PackMessage of data_channel_framing.cpp does. */
  function ChunkCount(n: nat): nat {
    if n == 0 then 1 else (n + CHUNK_PAYLOAD_MAX - 1) / CHUNK_PAYLOAD_MAX
  }

  /** The part of the payload that chunk `i` carries. */
  function Slice(payload: seq<byte>, i: nat): seq<byte>
    requires i < ChunkCount(|payload|)
  {
    var start := i * CHUNK_PAYLOAD_MAX;
    payload[start..Min(start + CHUNK_PAYLOAD_MAX, |payload|)]
  }

  /** The shape of the split: no chunk is empty unless the payload is, and only the last
      one may be short. */
  lemma ChunkCountBounds(n: nat)
    ensures ChunkCount(n) >= 1
    ensures n <= ChunkCount(n) * CHUNK_PAYLOAD_MAX
    ensures n > 0 ==> (ChunkCount(n) - 1) * CHUNK_PAYLOAD_MAX < n
    ensures n <= MAX_MESSAGE_BYTES ==> ChunkCount(n) <= MAX_CHUNKS
  {
  }

  function ChunkEnvelope(id: nat, payload: seq<byte>, i: nat): (e: Envelope)
    requires id < U32 && |payload| <= MAX_MESSAGE_BYTES && i < ChunkCount(|payload|)
    ensures WellFormed(e)
  {
    ChunkCountBounds(|payload|);
    Envelope(id, i, ChunkCount(|payload|), Slice(payload, i))
  }

  function PackedChunk(id: nat, payload: seq<byte>, i: nat): (b: seq<byte>)
    requires id < U32 && |payload| <= MAX_MESSAGE_BYTES && i < ChunkCount(|payload|)
    ensures |b| <= 65536
  {
    Encode(ChunkEnvelope(id, payload, i))
  }

  /** No packed chunk is rejected, and every header reads back to what was written. */
  lemma PackedChunkParses(id: nat, payload: seq<byte>, i: nat)
    requires id < U32 && |payload| <= MAX_MESSAGE_BYTES && i < ChunkCount(|payload|)
    ensures Parse(PackedChunk(id, payload, i)) ==
            Some(Envelope(id, i, ChunkCount(|payload|), Slice(payload, i)))
  {
    ParseIffEncoded(PackedChunk(id, payload, i), ChunkEnvelope(id, payload, i));
  }

  /** What is on the wire, byte by byte. */
  lemma PackedChunkBytes(id: nat, payload: seq<byte>, i: nat)
    requires id < 0x1_0000_0000 && |payload| <= 16 * 1024 * 1024
    requires i < if payload == [] then 1 else (|payload| + 65518) / 65519
    ensures i < ChunkCount(|payload|)
    ensures var b := PackedChunk(id, payload, i);
            var count := if payload == [] then 1 else (|payload| + 65518) / 65519;
            var part := payload[65519 * i..Min(65519 * i + 65519, |payload|)];
            && b[..5] == [0x43, 0x4B, 0x44, 0x43, 1]
            && b[5..9] == [id % 256, id / 256 % 256, id / 65536 % 256, id / 16777216]
            && b[9..11] == [i % 256, i / 256] && b[11..13] == [count % 256, count / 256]
            && b[13..17] == [|part| % 256, |part| / 256 % 256, |part| / 65536 % 256, |part| / 16777216]
            && b[17..] == part
  {
    ChunkCountBounds(|payload|);
    var e, b := ChunkEnvelope(id, payload, i), PackedChunk(id, payload, i);
    EncodeLayout(e, b);
    assert b[..5] == b[..4] + [b[4]] && Magic() + [VERSION] == [0x43, 0x4B, 0x44, 0x43, 1];
  }

  /** The slices of chunks 0..i, joined in index order. */
  function JoinedSlices(payload: seq<byte>, i: nat): seq<byte>
    requires i <= ChunkCount(|payload|)
  {
    if i == 0 then [] else JoinedSlices(payload, i - 1) + Slice(payload, i - 1)
  }

  lemma {:induction false} JoinedSlicesPrefix(payload: seq<byte>, i: nat)
    requires i <= ChunkCount(|payload|)
    ensures JoinedSlices(payload, i) == payload[..Min(i * CHUNK_PAYLOAD_MAX, |payload|)]
  {
    if i > 0 {
      JoinedSlicesPrefix(payload, i - 1);
      ChunkCountBounds(|payload|);
      var start := (i - 1) * CHUNK_PAYLOAD_MAX;
      assert start <= |payload|;
      assert payload[..start] + payload[start..Min(start + CHUNK_PAYLOAD_MAX, |payload|)]
          == payload[..Min(start + CHUNK_PAYLOAD_MAX, |payload|)];
    }
  }

  /** The chunk payloads concatenate to the message. */
  lemma SlicesRebuildPayload(payload: seq<byte>)
    ensures JoinedSlices(payload, ChunkCount(|payload|)) == payload
  {
    JoinedSlicesPrefix(payload, ChunkCount(|payload|));
    ChunkCountBounds(|payload|);
  }

  method WriteU32LE(dst: array<byte>, at: nat, v: nat)
    requires at + 4 <= dst.Length && v < U32
    modifies dst
    ensures dst[..] == old(dst[..at]) + U32LE(v) + old(dst[at + 4..])
  {
    dst[at] := v % 256;
    dst[at + 1] := v / 256 % 256;
    dst[at + 2] := v / 65536 % 256;
    dst[at + 3] := v / 16777216 % 256;
    assert dst[..at] == old(dst[..at]) && dst[at + 4..] == old(dst[at + 4..]);
    assert dst[..] == dst[..at] + dst[at..at + 4] + dst[at + 4..];
    assert dst[at..at + 4] == U32LE(v);
  }

  method WriteU16LE(dst: array<byte>, at: nat, v: nat)
    requires at + 2 <= dst.Length && v < U16
    modifies dst
    ensures dst[..] == old(dst[..at]) + U16LE(v) + old(dst[at + 2..])
  {
    dst[at] := v % 256;
    dst[at + 1] := v / 256 % 256;
    assert dst[..at] == old(dst[..at]) && dst[at + 2..] == old(dst[at + 2..]);
    assert dst[..] == dst[..at] + dst[at..at + 2] + dst[at + 2..];
    assert dst[at..at + 2] == U16LE(v);
  }

  /** std::memcpy of a whole buffer to offset `at`. */
  method CopyInto(dst: array<byte>, at: nat, src: seq<byte>)
    requires at + |src| <= dst.Length
    modifies dst
    ensures dst[..] == old(dst[..at]) + src + old(dst[at + |src|..])
  {
    for k := 0 to |src|
      invariant dst[..at] == old(dst[..at])
      invariant dst[at..at + k] == src[..k]
      invariant dst[at + k..] == old(dst[at + k..])
    {
      dst[at + k] := src[k];
      assert dst[at..at + k + 1] == dst[at..at + k] + [src[k]];
      assert src[..k + 1] == src[..k] + [src[k]];
    }
    assert dst[..] == dst[..at] + dst[at..at + |src|] + dst[at + |src|..];
  }

  /** The envelope is laid out field by field in a fresh buffer. */
  method WriteChunk(e: Envelope) returns (chunk: seq<byte>)
    requires WellFormed(e)
    ensures chunk == Encode(e)
  {
    var buffer := new byte[HEADER_SIZE + |e.payload|];
    CopyInto(buffer, 0, Magic());
    buffer[4] := VERSION;
    assert buffer[..5] == Magic() + [VERSION];
    WriteU32LE(buffer, 5, e.id);
    assert buffer[..9] == Magic() + [VERSION] + U32LE(e.id);
    WriteU16LE(buffer, 9, e.index);
    assert buffer[..11] == Magic() + [VERSION] + U32LE(e.id) + U16LE(e.index);
    WriteU16LE(buffer, 11, e.count);
    assert buffer[..13] == Magic() + [VERSION] + U32LE(e.id) + U16LE(e.index) + U16LE(e.count);
    WriteU32LE(buffer, 13, |e.payload|);
    assert buffer[..17] == Magic() + [VERSION] + U32LE(e.id) + U16LE(e.index) + U16LE(e.count) + U32LE(|e.payload|);
    CopyInto(buffer, HEADER_SIZE, e.payload);
    chunk := buffer[..];
  }

  method PackMessage(id: nat, payload: seq<byte>) returns (r: Result<seq<seq<byte>>, string>)
    requires id < U32
    ensures r.Failure? <==> |payload| > 16 * 1024 * 1024
    ensures r.Success? ==>
              && |r.value| == ChunkCount(|payload|)
              && forall i :: 0 <= i < |r.value| ==> r.value[i] == PackedChunk(id, payload, i)
  {
    if |payload| > MAX_MESSAGE_BYTES {
      return Failure("payload too large");
    }
    var total := |payload|;
    var chunkCount := if total == 0 then 1 else (total + CHUNK_PAYLOAD_MAX - 1) / CHUNK_PAYLOAD_MAX;
    var chunks: seq<seq<byte>> := [];
    for i := 0 to chunkCount
      invariant |chunks| == i
      invariant forall k :: 0 <= k < i ==> chunks[k] == PackedChunk(id, payload, k)
    {
      ChunkCountBounds(total);
      var start := i * CHUNK_PAYLOAD_MAX;
      var len := if total == 0 then 0 else Min(CHUNK_PAYLOAD_MAX, total - start);
      assert payload[start..start + len] == Slice(payload, i);
      var chunk := WriteChunk(Envelope(id, i, chunkCount, payload[start..start + len]));
      chunks := chunks + [chunk];
    }
    return Success(chunks);
  }
}
