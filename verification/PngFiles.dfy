/** Whole PNG files of RGBA pixels, written line by line without a filter, and read back. */
module PngFiles {
  import opened Options
  import opened Grids
  import opened Words
  import opened Png

  function Signature(): seq<Byte> { [0x89, 0x50, 0x4e, 0x47, 0x0d, 0x0a, 0x1a, 0x0a] }

  function HeaderName(): seq<Byte> { [0x49, 0x48, 0x44, 0x52] }

  function DataName(): seq<Byte> { [0x49, 0x44, 0x41, 0x54] }

  function EndName(): seq<Byte> { [0x49, 0x45, 0x4e, 0x44] }

  /** Eight bits a channel, RGBA, deflated, no interlacing. */
  function Layout(): seq<Byte> { [8, 6, 0, 0, 0] }

  function Header(width: nat, height: nat): seq<Byte> {
    BigEndian(width) + BigEndian(height) + Layout()
  }

  function Chunks(width: nat, height: nat, packed: seq<Byte>): (chunks: seq<Chunk>)
    ensures |chunks| == 3 && forall i :: 0 <= i < 3 ==> |chunks[i].name| == 4
    ensures Framed(chunks) <==> |packed| < LIMIT
  {
    var chunks := [Chunk(HeaderName(), Header(width, height)), Chunk(DataName(), packed), Chunk(EndName(), [])];
    assert chunks[0].data == Header(width, height) && chunks[1].data == packed && chunks[2].data == [];
    chunks
  }

  function PngBytes(check: Check, width: nat, height: nat, packed: seq<Byte>): seq<Byte> {
    Signature() + Stream(check, Chunks(width, height, packed))
  }

  /** Every file is laid out alike, from its signature to its end. */
  lemma FileIsLaidOut(check: Check, width: nat, height: nat, packed: seq<Byte>)
    ensures PngBytes(check, width, height, packed)
      == [0x89] + Ascii("PNG\r\n") + [0x1a] + Ascii("\n")
         + ([0, 0, 0, 13] + Ascii("IHDR") + Header(width, height) + check(Ascii("IHDR") + Header(width, height))
            + (BigEndian(|packed|) + Ascii("IDAT") + packed + check(Ascii("IDAT") + packed))
            + ([0, 0, 0, 0] + Ascii("IEND") + check(Ascii("IEND"))))
    ensures |Header(width, height)| == 13 && Header(width, height)[8..] == [8, 6, 0, 0, 0]
  {
    StreamOfThree(check, Chunks(width, height, packed));
    assert Ascii("IHDR") == HeaderName() && Ascii("IDAT") == DataName() && Ascii("IEND") == EndName();
    assert Signature() == [0x89] + Ascii("PNG\r\n") + [0x1a] + Ascii("\n");
    assert BigEndian(13) == [0, 0, 0, 13] && BigEndian(0) == [0, 0, 0, 0];
    assert EndName() + [] == EndName();
  }

  function AtMost(a: nat, b: nat): nat { if a < b then a else b }

  /** Part of a buffer, as far as there is one. */
  function Subarray(bytes: seq<Byte>, from: nat, to: nat): (part: seq<Byte>)
    requires from <= to
    ensures |part| <= to - from
  {
    bytes[AtMost(from, |bytes|)..AtMost(to, |bytes|)]
  }

  /** A buffer cut off or filled up with zeros. */
  function Fit(bytes: seq<Byte>, length: nat): (fitted: seq<Byte>)
    ensures |fitted| == length
    ensures |bytes| == length ==> fitted == bytes
  {
    Subarray(bytes, 0, length) + Zeros(length - AtMost(length, |bytes|))
  }

  /** The lines of a picture, each after a filter byte that says there's no filter. */
  function Scanlines(rgba: seq<Byte>, stride: nat, height: nat): (lines: seq<Byte>)
    ensures |lines| == Span(height, stride + 1)
  {
    if height == 0 then []
    else Scanlines(rgba, stride, height - 1) + [0] + Fit(Line(rgba, stride, height - 1), stride)
  }

  function Line(rgba: seq<Byte>, stride: nat, y: nat): (line: seq<Byte>)
    ensures |line| <= stride
  {
    Subarray(rgba, Span(y, stride), Span(y + 1, stride))
  }

  method WriteLines(rgba: seq<Byte>, width: nat, height: nat) returns (lines: array<Byte>)
    ensures fresh(lines) && lines[..] == Scanlines(rgba, width * 4, height)
  {
    var stride := width * 4;
    lines := new Byte[Span(height, stride + 1)](_ => 0);
    for y := 0 to height
      invariant Span(y, stride + 1) <= lines.Length == Span(height, stride + 1)
      invariant lines[..] == Scanlines(rgba, stride, y) + Zeros(lines.Length - Span(y, stride + 1))
    {
      WriteLine(lines, rgba, stride, y, height);
    }
  }

  method WriteLine(lines: array<Byte>, rgba: seq<Byte>, stride: nat, y: nat, ghost height: nat)
    requires y < height && Span(y, stride + 1) <= lines.Length == Span(height, stride + 1)
    requires lines[..] == Scanlines(rgba, stride, y) + Zeros(lines.Length - Span(y, stride + 1))
    modifies lines
    ensures Span(y + 1, stride + 1) <= lines.Length
    ensures lines[..] == Scanlines(rgba, stride, y + 1) + Zeros(lines.Length - Span(y + 1, stride + 1))
  {
    SpanGrows(y + 1, height, stride + 1);
    LayLine(
      lines, Line(rgba, stride, y), Span(y, stride + 1) + 1, stride,
      Scanlines(rgba, stride, y), lines.Length - Span(y + 1, stride + 1));
  }

  /** Sets a line after its filter byte. */
  method LayLine(lines: array<Byte>, line: seq<Byte>, at: nat, stride: nat, ghost above: seq<Byte>, ghost below: nat)
    requires at == |above| + 1 && |line| <= stride && lines[..] == above + Zeros(stride + 1 + below)
    modifies lines
    ensures lines[..] == above + [0] + Fit(line, stride) + Zeros(below)
  {
    LaidLine(lines[..], above, line, stride, below);
    SetBytes(lines, line, at);
  }

  lemma LaidLine(lines: seq<Byte>, above: seq<Byte>, line: seq<Byte>, stride: nat, below: nat)
    requires lines == above + Zeros(stride + 1 + below) && |line| <= stride
    ensures lines[..|above| + 1] + line + lines[|above| + 1 + |line|..]
      == above + [0] + Fit(line, stride) + Zeros(below)
  {
    assert Fit(line, stride) == line + Zeros(stride - |line|);
  }

  /** A size that doesn't fit its field is an error. */
  method EncodePng(
    rgba: seq<Byte>, width: nat, height: nat, deflate: seq<Byte> -> seq<Byte>) returns (png: Option<seq<Byte>>)
    ensures var packed := deflate(Scanlines(rgba, width * 4, height));
      png == if width < LIMIT && height < LIMIT && |packed| < LIMIT
        then Some(PngBytes(CrcBytes, width, height, packed)) else None
  {
    if width >= LIMIT || height >= LIMIT {
      return None;
    }
    var lines := WriteLines(rgba, width, height);
    var chunks := Chunks(width, height, deflate(lines[..]));
    var stream := FrameThree(chunks);
    if stream.None? {
      return None;
    }
    png := Some(Signature() + stream.value);
  }

  method FrameThree(chunks: seq<Chunk>) returns (stream: Option<seq<Byte>>)
    requires |chunks| == 3 && forall i :: 0 <= i < 3 ==> |chunks[i].name| == 4
    ensures stream == if Framed(chunks) then Some(Stream(CrcBytes, chunks)) else None
  {
    var first := CanvasChunk(chunks[0].name, chunks[0].data);
    var second := CanvasChunk(chunks[1].name, chunks[1].data);
    var third := CanvasChunk(chunks[2].name, chunks[2].data);
    FramedThree(chunks);
    if first.None? || second.None? || third.None? {
      return None;
    }
    StreamOfThree(CrcBytes, chunks);
    stream := Some(first.value + second.value + third.value);
  }

  lemma FramedThree(chunks: seq<Chunk>)
    requires |chunks| == 3 && forall i :: 0 <= i < 3 ==> |chunks[i].name| == 4
    ensures Framed(chunks) <==> |chunks[0].data| < LIMIT && |chunks[1].data| < LIMIT && |chunks[2].data| < LIMIT
  {
  }

  lemma StreamOfThree(check: Check, chunks: seq<Chunk>)
    requires |chunks| == 3
    ensures Stream(check, chunks) == ChunkBytes(check, chunks[0].name, chunks[0].data)
      + ChunkBytes(check, chunks[1].name, chunks[1].data) + ChunkBytes(check, chunks[2].name, chunks[2].data)
  {
    StreamHead(check, chunks);
    StreamHead(check, chunks[1..]);
    StreamHead(check, chunks[1..][1..]);
    Joined(
      ChunkBytes(check, chunks[0].name, chunks[0].data), ChunkBytes(check, chunks[1].name, chunks[1].data),
      ChunkBytes(check, chunks[2].name, chunks[2].data));
  }

  lemma StreamHead(check: Check, chunks: seq<Chunk>)
    requires chunks != []
    ensures Stream(check, chunks) == ChunkBytes(check, chunks[0].name, chunks[0].data) + Stream(check, chunks[1..])
  {
  }

  lemma Joined(a: seq<Byte>, b: seq<Byte>, c: seq<Byte>)
    ensures a + (b + (c + [])) == a + b + c
  {
  }

  // Reading a file back.

  /** The pixels of lines that have no filter. */
  function Unfilter(lines: seq<Byte>, stride: nat, height: nat): Option<seq<Byte>> {
    if height == 0 then (if lines == [] then Some([]) else None)
    else if |lines| < stride + 1 || lines[|lines| - stride - 1] != 0 then None
    else
      var above := Unfilter(lines[..|lines| - stride - 1], stride, height - 1);
      if above.None? then None else Some(above.value + lines[|lines| - stride..])
  }

  function Decode(check: Check, png: seq<Byte>, inflate: seq<Byte> -> seq<Byte>): Option<Image> {
    if |png| < 8 || png[..8] != Signature() then None
    else
      var chunks := Split(check, png[8..]);
      if chunks.None? || |chunks.value| != 3 then None
      else DecodeChunks(chunks.value[0], chunks.value[1], chunks.value[2], inflate)
  }

  function DecodeChunks(header: Chunk, data: Chunk, end: Chunk, inflate: seq<Byte> -> seq<Byte>): Option<Image> {
    if header.name != HeaderName() || data.name != DataName() || end != Chunk(EndName(), []) then None
    else if |header.data| != 13 || header.data[8..] != Layout() then None
    else
      var width, height := FromBigEndian(header.data[..4]), FromBigEndian(header.data[4..8]);
      var rgba := Unfilter(inflate(data.data), width * 4, height);
      if rgba.None? then None else Some(Image(width, height, rgba.value))
  }

  lemma {:induction false} UnfilterRecovers(rgba: seq<Byte>, stride: nat, height: nat)
    ensures Unfilter(Scanlines(rgba, stride, height), stride, height) == Some(Fit(rgba, Span(height, stride)))
  {
    if height > 0 {
      UnfilterRecovers(rgba, stride, height - 1);
      var line := Line(rgba, stride, height - 1);
      UnfilterWithLast(Scanlines(rgba, stride, height - 1), Fit(line, stride), stride, height);
      FitOn(rgba, stride, height);
    }
  }

  lemma UnfilterWithLast(above: seq<Byte>, line: seq<Byte>, stride: nat, height: nat)
    requires height > 0 && |line| == stride
    ensures Unfilter(above + [0] + line, stride, height)
      == var before := Unfilter(above, stride, height - 1); if before.None? then None else Some(before.value + line)
  {
    LineParts(above, line);
  }

  lemma LineParts(above: seq<Byte>, line: seq<Byte>)
    ensures var lines := above + [0] + line;
      && lines[..|lines| - |line| - 1] == above && lines[|lines| - |line| - 1] == 0 && lines[|lines| - |line|..] == line
  {
  }

  lemma FitOn(rgba: seq<Byte>, stride: nat, height: nat)
    requires height > 0
    ensures Fit(rgba, Span(height, stride))
      == Fit(rgba, Span(height - 1, stride)) + Fit(Line(rgba, stride, height - 1), stride)
  {
  }

  /**
   * Decoding an encoded picture gives back its size and its pixels; a buffer of another length than the size asks for
   * comes back cut off or filled up, and one of that length comes back as it was.
   */
  lemma DecodeUndoesEncode(
    check: Check, rgba: seq<Byte>, width: nat, height: nat, deflate: seq<Byte> -> seq<Byte>,
    inflate: seq<Byte> -> seq<Byte>)
    requires width < LIMIT && height < LIMIT
    requires var lines := Scanlines(rgba, width * 4, height);
      |deflate(lines)| < LIMIT && inflate(deflate(lines)) == lines
    ensures var packed := deflate(Scanlines(rgba, width * 4, height));
      var decoded := Decode(check, PngBytes(check, width, height, packed), inflate);
      && decoded == Some(Image(width, height, Fit(rgba, Span(height, width * 4))))
      && (decoded == Some(Image(width, height, rgba)) <==> |rgba| == Span(height, width * 4))
  {
    var packed := deflate(Scanlines(rgba, width * 4, height));
    var chunks := Chunks(width, height, packed);
    DecodeOfStream(check, chunks, inflate);
    HeaderReadsBack(width, height);
    UnfilterRecovers(rgba, width * 4, height);
  }

  lemma DecodeOfStream(check: Check, chunks: seq<Chunk>, inflate: seq<Byte> -> seq<Byte>)
    requires |chunks| == 3 && Framed(chunks)
    ensures Decode(check, Signature() + Stream(check, chunks), inflate)
      == DecodeChunks(chunks[0], chunks[1], chunks[2], inflate)
  {
    var png := Signature() + Stream(check, chunks);
    assert png[..8] == Signature() && png[8..] == Stream(check, chunks);
    SplitRecovers(check, chunks);
  }

  lemma HeaderReadsBack(width: nat, height: nat)
    requires width < LIMIT && height < LIMIT
    ensures var header := Header(width, height);
      && FromBigEndian(header[..4]) == width && FromBigEndian(header[4..8]) == height && header[8..] == Layout()
  {
    BigEndianReadsBack(width);
    BigEndianReadsBack(height);
    assert Header(width, height)[..4] == BigEndian(width) && Header(width, height)[4..8] == BigEndian(height);
  }
}
