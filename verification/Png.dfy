/**
 * PNG files as the two art encoders write them (ISO/IEC 15948, section 5.3 for chunks and section 9.2 for filter
 * types), and the reader that gets back what went in. Compression is a pair of functions of which only one thing is
 * asked: that inflating undoes deflating.
 */
module Png {
  import opened Options
  import opened Words
  import opened Crc

  datatype Chunk = Chunk(name: seq<Byte>, data: seq<Byte>)

  datatype Image = Image(width: nat, height: nat, rgba: seq<Byte>)

  const LIMIT: nat := 0x1_0000_0000

  /** A word's four bytes, highest first. */
  function WordBytes(word: Word): (bytes: seq<Byte>)
    ensures |bytes| == 4
  {
    assert Power(8) == 256;
    [Value(word[24..]), Value(word[16..24]), Value(word[8..16]), Value(word[..8])]
  }

  /** The first byte holds the highest bits of a word, each byte in order; of a CRC, those are the lowest powers. */
  lemma BitsOfWordBytes(word: Word)
    ensures Digits(WordBytes(word)[0], 8) == word[24..]
    ensures Digits(WordBytes(word)[1], 8) == word[16..24]
    ensures Digits(WordBytes(word)[2], 8) == word[8..16]
    ensures Digits(WordBytes(word)[3], 8) == word[..8]
  {
    OctetReadsBack(word[24..]);
    OctetReadsBack(word[16..24]);
    OctetReadsBack(word[8..16]);
    OctetReadsBack(word[..8]);
  }

  lemma OctetReadsBack(bits: seq<bool>)
    requires |bits| == 8
    ensures Digits(Value(bits), 8) == bits
  {
    DigitsOfValue(bits);
  }

  type Quad = q: seq<Byte> | |q| == 4 witness BigEndian(0)

  /** What a chunk is closed with. */
  type Check = seq<Byte> -> Quad

  function CrcBytes(bytes: seq<Byte>): Quad { WordBytes(Crc32(bytes)) }

  function ChunkBytes(check: Check, name: seq<Byte>, data: seq<Byte>): (bytes: seq<Byte>)
    ensures |bytes| == 8 + |name| + |data|
  {
    BigEndian(|data|) + name + data + check(name + data)
  }

  // Both encoders' chunks.

  method SetBytes(out: array<Byte>, bytes: seq<Byte>, at: nat)
    requires at + |bytes| <= out.Length
    modifies out
    ensures out[..] == old(out[..at]) + bytes + old(out[at + |bytes|..])
  {
    for i := 0 to |bytes|
      invariant out[..] == old(out[..at]) + bytes[..i] + old(out[at + i..])
    {
      out[at + i] := bytes[i];
    }
  }

  function Zeros(count: nat): (zeros: seq<Byte>)
    ensures |zeros| == count && forall i :: 0 <= i < count ==> zeros[i] == 0
  {
    seq(count, i requires 0 <= i < count => 0)
  }

  /** The chunk of a picture sheet, laid into one buffer; a length that doesn't fit is written modulo 2^32. */
  method PictureChunk(name: seq<Byte>, data: seq<Byte>) returns (out: array<Byte>)
    requires |name| == 4
    ensures fresh(out) && out[..] == ChunkBytes(CrcBytes, name, data)
  {
    out := new Byte[12 + |data|](_ => 0);
    SetBytes(out, BigEndian(|data|), 0);
    SetBytes(out, name, 4);
    SetBytes(out, data, 8);
    assert out[..8 + |data|] == BigEndian(|data|) + name + data;
    assert out[4..8 + |data|] == name + data;
    var crc := ComputeCrc32(out[4..8 + |data|]);
    SetBytes(out, WordBytes(crc), 8 + |data|);
  }

  /** The chunk of a sprite sheet, copied together from its parts; a length that doesn't fit is an error. */
  method CanvasChunk(name: seq<Byte>, data: seq<Byte>) returns (framed: Option<seq<Byte>>)
    requires |name| == 4
    ensures framed == if |data| < LIMIT then Some(ChunkBytes(CrcBytes, name, data)) else None
  {
    if |data| >= LIMIT {
      return None;
    }
    var typed := name + data;
    var out := new Byte[|typed| + 8](_ => 0);
    SetBytes(out, BigEndian(|data|), 0);
    SetBytes(out, typed, 4);
    assert out[..|typed| + 4] == BigEndian(|data|) + typed;
    var crc := ComputeCrc32(typed);
    SetBytes(out, WordBytes(crc), |typed| + 4);
    assert out[..] == BigEndian(|data|) + typed + WordBytes(crc);
    ChunkBytesOfTyped(name, data);
    framed := Some(out[..]);
  }

  lemma ChunkBytesOfTyped(name: seq<Byte>, data: seq<Byte>)
    ensures ChunkBytes(CrcBytes, name, data) == BigEndian(|data|) + (name + data) + CrcBytes(name + data)
  {
    assert BigEndian(|data|) + (name + data) == BigEndian(|data|) + name + data;
  }

  /** A chunk's two frames are the same bytes. */
  method FrameTwice(name: seq<Byte>, data: seq<Byte>) returns (same: bool)
    requires |name| == 4
    ensures same <==> |data| < LIMIT
  {
    var one := PictureChunk(name, data);
    var other := CanvasChunk(name, data);
    same := other == Some(one[..]);
  }

  // Reading chunks back.

  function Stream(check: Check, chunks: seq<Chunk>): seq<Byte> {
    if chunks == [] then [] else ChunkBytes(check, chunks[0].name, chunks[0].data) + Stream(check, chunks[1..])
  }

  /** The first chunk of a stream, if it's all there and its CRC is right. */
  function FirstChunk(check: Check, bytes: seq<Byte>): (chunk: Option<Chunk>)
    ensures chunk.Some? ==> 12 + |chunk.value.data| <= |bytes|
  {
    if |bytes| < 12 || |bytes| < 12 + FromBigEndian(bytes[..4]) then None
    else
      var end := 8 + FromBigEndian(bytes[..4]);
      if bytes[end..end + 4] == check(bytes[4..end]) then Some(Chunk(bytes[4..8], bytes[8..end])) else None
  }

  /** Splits a stream of chunks, checking every CRC. */
  function Split(check: Check, bytes: seq<Byte>): Option<seq<Chunk>> {
    if bytes == [] then Some([])
    else
      var first := FirstChunk(check, bytes);
      if first.None? then None
      else
        var rest := Split(check, bytes[12 + |first.value.data|..]);
        if rest.None? then None else Some([first.value] + rest.value)
  }

  ghost predicate Framed(chunks: seq<Chunk>) {
    forall i :: 0 <= i < |chunks| ==> |chunks[i].name| == 4 && |chunks[i].data| < LIMIT
  }

  /** What a reader finds in the parts of a frame. */
  lemma FramedParts(length: seq<Byte>, name: seq<Byte>, data: seq<Byte>, crc: seq<Byte>, rest: seq<Byte>)
    requires |length| == 4 && |name| == 4 && |crc| == 4
    ensures var bytes := length + name + data + crc + rest;
      var end := 8 + |data|;
      && bytes[..4] == length && bytes[4..8] == name && bytes[8..end] == data && bytes[4..end] == name + data
      && bytes[end..end + 4] == crc && bytes[end + 4..] == rest
  {
  }

  lemma FirstChunkOf(check: Check, name: seq<Byte>, data: seq<Byte>, crc: seq<Byte>, rest: seq<Byte>)
    requires |name| == 4 && |crc| == 4 && |data| < LIMIT
    ensures FirstChunk(check, BigEndian(|data|) + name + data + crc + rest)
         == if crc == check(name + data) then Some(Chunk(name, data)) else None
  {
    FramedParts(BigEndian(|data|), name, data, crc, rest);
    BigEndianReadsBack(|data|);
  }

  /** Splitting a stream recovers every name and payload. */
  lemma {:induction false} SplitRecovers(check: Check, chunks: seq<Chunk>)
    requires Framed(chunks)
    ensures Split(check, Stream(check, chunks)) == Some(chunks)
  {
    if chunks != [] {
      SplitRecovers(check, chunks[1..]);
      SplitOfFirst(check, chunks[0].name, chunks[0].data, Stream(check, chunks[1..]), chunks[1..]);
      assert chunks == [Chunk(chunks[0].name, chunks[0].data)] + chunks[1..];
    }
  }

  lemma SplitOfFirst(check: Check, name: seq<Byte>, data: seq<Byte>, rest: seq<Byte>, chunks: seq<Chunk>)
    requires |name| == 4 && |data| < LIMIT && Split(check, rest) == Some(chunks)
    ensures Split(check, ChunkBytes(check, name, data) + rest) == Some([Chunk(name, data)] + chunks)
  {
    FirstOfStream(check, name, data, rest);
    SplitGoesOn(check, ChunkBytes(check, name, data) + rest, Chunk(name, data), rest, chunks);
  }

  lemma SplitGoesOn(check: Check, bytes: seq<Byte>, chunk: Chunk, rest: seq<Byte>, chunks: seq<Chunk>)
    requires bytes != [] && FirstChunk(check, bytes) == Some(chunk) && bytes[12 + |chunk.data|..] == rest
    requires Split(check, rest) == Some(chunks)
    ensures Split(check, bytes) == Some([chunk] + chunks)
  {
  }

  lemma FirstOfStream(check: Check, name: seq<Byte>, data: seq<Byte>, rest: seq<Byte>)
    requires |name| == 4 && |data| < LIMIT
    ensures FirstChunk(check, ChunkBytes(check, name, data) + rest) == Some(Chunk(name, data))
    ensures (ChunkBytes(check, name, data) + rest)[12 + |data|..] == rest
  {
    FirstChunkOf(check, name, data, check(name + data), rest);
  }

  /** A burst of up to four bytes inside a chunk's payload is never read past. */
  lemma BurstsAreNoticed(
    name: seq<Byte>, before: seq<Byte>, a: seq<Byte>, b: seq<Byte>, after: seq<Byte>, rest: seq<Byte>)
    requires |name| == 4 && |a| == |b| <= 4 && a != b && |before + a + after| < LIMIT
    ensures FirstChunk(CrcBytes,
      BigEndian(|before + a + after|) + name + (before + b + after) + CrcBytes(name + (before + a + after)) + rest)
      == None
  {
    assert name + (before + a + after) == name + before + a + after;
    assert name + (before + b + after) == name + before + b + after;
    BurstChangesCheck(name + before, a, b, after);
    CheckFails(CrcBytes, name, before + a + after, before + b + after, rest);
  }

  lemma CheckFails(check: Check, name: seq<Byte>, written: seq<Byte>, read: seq<Byte>, rest: seq<Byte>)
    requires |name| == 4 && |written| == |read| < LIMIT && check(name + written) != check(name + read)
    ensures FirstChunk(check, BigEndian(|written|) + name + read + check(name + written) + rest) == None
  {
    FirstChunkOf(check, name, read, check(name + written), rest);
  }

  lemma BurstChangesCheck(before: seq<Byte>, a: seq<Byte>, b: seq<Byte>, after: seq<Byte>)
    requires |a| == |b| <= 4 && a != b
    ensures CrcBytes(before + a + after) != CrcBytes(before + b + after)
  {
    BurstChangesCrc(before, a, b, after);
    WordBytesTellApart(Crc32(before + a + after), Crc32(before + b + after));
  }

  lemma WordBytesTellApart(a: Word, b: Word)
    requires a != b
    ensures WordBytes(a) != WordBytes(b)
  {
    if WordBytes(a) == WordBytes(b) {
      WordBytesLoseNothing(a, b);
    }
  }

  lemma WordBytesLoseNothing(a: Word, b: Word)
    requires WordBytes(a) == WordBytes(b)
    ensures a == b
  {
    DigitsOfValue(a[24..]);
    DigitsOfValue(b[24..]);
    DigitsOfValue(a[16..24]);
    DigitsOfValue(b[16..24]);
    DigitsOfValue(a[8..16]);
    DigitsOfValue(b[8..16]);
    DigitsOfValue(a[..8]);
    DigitsOfValue(b[..8]);
    assert WordBytes(a)[0] == WordBytes(b)[0] && WordBytes(a)[1] == WordBytes(b)[1];
    assert WordBytes(a)[2] == WordBytes(b)[2] && WordBytes(a)[3] == WordBytes(b)[3];
    assert a == a[..8] + a[8..16] + a[16..24] + a[24..];
    assert b == b[..8] + b[8..16] + b[16..24] + b[24..];
  }
}
