/** Pictures laid out in a grid as the lines of a PNG with straight alpha. */
module PictureSheets {
  import opened Options
  import opened Words
  import opened Grids
  import P = Pictures
  import opened Png
  import opened PngFiles

  // A pixel's bytes.

  function Rounded(value: real): int { (value + 0.5).Floor }

  function ToByte(value: real): Byte { Rounded(P.Clamp(value, 0.0, 1.0) * 255.0) }

  /** Straight colour and alpha, cut off at both ends. */
  function Straight(p: P.Pixel): (bytes: seq<Byte>)
    ensures |bytes| == 4
  {
    if p.alpha == 0.0 then [0, 0, 0, ToByte(p.alpha)]
    else [ToByte(p.red / p.alpha), ToByte(p.green / p.alpha), ToByte(p.blue / p.alpha), ToByte(p.alpha)]
  }

  ghost predicate IsNearest(b: Byte, value: real) {
    -0.5 <= value * 255.0 - b as real <= 0.5
  }

  /** What a channel is cut off to is the nearest byte exactly when there's nothing to cut beyond half a step. */
  lemma CutsBeyondHalfAStep(value: real)
    ensures IsNearest(ToByte(value), value) <==> -0.5 <= value * 255.0 <= 255.5
  {
  }

  /** Every byte of a premultiplied pixel is the nearest there is: nothing was cut off. */
  lemma PremultipliedIsNotCut(p: P.Pixel)
    requires P.Premultiplied(p)
    ensures IsNearest(Straight(p)[3], p.alpha)
    ensures p.alpha != 0.0 ==> IsNearest(Straight(p)[0], p.red / p.alpha)
    ensures p.alpha != 0.0 ==> IsNearest(Straight(p)[1], p.green / p.alpha)
    ensures p.alpha != 0.0 ==> IsNearest(Straight(p)[2], p.blue / p.alpha)
    ensures p.alpha == 0.0 ==> p == P.CLEAR && Straight(p) == [0, 0, 0, 0]
  {
    if p.alpha != 0.0 {
      P.StraightIsWithin(p.red, p.alpha);
      P.StraightIsWithin(p.green, p.alpha);
      P.StraightIsWithin(p.blue, p.alpha);
      CutsBeyondHalfAStep(p.red / p.alpha);
      CutsBeyondHalfAStep(p.green / p.alpha);
      CutsBeyondHalfAStep(p.blue / p.alpha);
    }
    CutsBeyondHalfAStep(p.alpha);
  }

  // The lines.

  /** Where a pixel is in the lines, each after its filter byte. */
  function InLines(x: nat, y: nat, width: nat): nat { Span(y, 4 * width + 1) + 1 + 4 * x }

  function Shows(lines: seq<Byte>, width: nat, x: nat, y: nat): seq<Byte> {
    if InLines(x, y, width) + 4 <= |lines| then lines[InLines(x, y, width)..InLines(x, y, width) + 4] else []
  }

  function FilterAt(y: nat, width: nat): nat { Span(y, 4 * width + 1) }

  ghost predicate NoFilters(lines: seq<Byte>, width: nat, height: nat) {
    forall y: nat :: y < height && FilterAt(y, width) < |lines| ==> lines[FilterAt(y, width)] == 0
  }

  lemma InLinesFits(x: nat, y: nat, width: nat, height: nat)
    requires x < width && y < height
    ensures InLines(x, y, width) + 4 <= Span(y + 1, 4 * width + 1) <= Span(height, 4 * width + 1)
  {
    SpanGrows(y + 1, height, 4 * width + 1);
  }

  /** Pixels don't overlap each other or a filter byte. */
  lemma PixelsAreApart(x: nat, y: nat, otherX: nat, otherY: nat, width: nat)
    requires x < width && otherX < width
    ensures x != otherX || y != otherY ==>
      || InLines(x, y, width) + 4 <= InLines(otherX, otherY, width)
      || InLines(otherX, otherY, width) + 4 <= InLines(x, y, width)
    ensures FilterAt(otherY, width) < InLines(x, y, width) || InLines(x, y, width) + 4 <= FilterAt(otherY, width)
  {
    if y < otherY {
      SpanGrows(y + 1, otherY, 4 * width + 1);
    } else if otherY < y {
      SpanGrows(otherY + 1, y, 4 * width + 1);
    }
  }

  /** A picture's pixel, as bytes; a picture that's smaller than the first has none there. */
  function TexelOf(image: seq<P.Pixel>, size: nat, column: nat, row: nat): (bytes: seq<Byte>)
    ensures |bytes| == 4
  {
    if At(column, row, size) < |image| then Straight(image[At(column, row, size)]) else [0, 0, 0, 0]
  }

  /** What the lines show at a place after some rows of a picture, and some pixels of the next, were laid in. */
  function Over(
    image: seq<P.Pixel>, size: nat, left: nat, top: nat, rows: nat, columns: nat, x: nat, y: nat, before: seq<Byte>)
    : seq<Byte>
  {
    if InCell(x, y, left, top, size) && (y - top < rows || (y - top == rows && x - left < columns))
    then TexelOf(image, size, x - left, y - top) else before
  }

  ghost predicate Laid(
    before: seq<Byte>, after: seq<Byte>, width: nat, height: nat, image: seq<P.Pixel>, size: nat, left: nat, top: nat,
    rows: nat, columns: nat)
  {
    forall x: nat, y: nat :: x < width && y < height ==>
      Shows(after, width, x, y) == Over(image, size, left, top, rows, columns, x, y, Shows(before, width, x, y))
  }

  function WithBytes(before: seq<Byte>, bytes: seq<Byte>, at: nat): (after: seq<Byte>)
    requires at + |bytes| <= |before|
    ensures |after| == |before|
  {
    before[..at] + bytes + before[at + |bytes|..]
  }

  lemma SetPixelShows(
    before: seq<Byte>, bytes: seq<Byte>, width: nat, height: nat, x: nat, y: nat, otherX: nat, otherY: nat)
    requires |before| == Span(height, 4 * width + 1) && |bytes| == 4 && x < width && y < height && otherX < width
    requires otherY < height
    ensures InLines(x, y, width) + 4 <= |before|
    ensures var at := InLines(x, y, width);
      Shows(WithBytes(before, bytes, at), width, otherX, otherY)
        == if x == otherX && y == otherY then bytes else Shows(before, width, otherX, otherY)
  {
    InLinesFits(x, y, width, height);
    InLinesFits(otherX, otherY, width, height);
    PixelsAreApart(x, y, otherX, otherY, width);
    SliceOutside(before, bytes, InLines(x, y, width), InLines(otherX, otherY, width));
  }

  lemma SliceOutside(before: seq<Byte>, bytes: seq<Byte>, at: nat, other: nat)
    requires |bytes| == 4 && at + 4 <= |before| && other + 4 <= |before|
    ensures var after := WithBytes(before, bytes, at);
      && |after| == |before|
      && (other == at ==> after[other..other + 4] == bytes)
      && (at + 4 <= other || other + 4 <= at ==> after[other..other + 4] == before[other..other + 4])
  {
  }

  lemma FiltersStay(before: seq<Byte>, bytes: seq<Byte>, width: nat, height: nat, x: nat, y: nat)
    requires |before| == Span(height, 4 * width + 1) && |bytes| == 4 && x < width && y < height
    requires NoFilters(before, width, height)
    ensures InLines(x, y, width) + 4 <= |before|
    ensures var at := InLines(x, y, width); NoFilters(WithBytes(before, bytes, at), width, height)
  {
    var at := InLines(x, y, width);
    InLinesFits(x, y, width, height);
    forall line: nat | line < height && FilterAt(line, width) < |before|
      ensures WithBytes(before, bytes, at)[FilterAt(line, width)] == 0
    {
      PixelsAreApart(x, y, 0, line, width);
    }
  }

  method LayPixel(
    lines: array<Byte>, width: nat, ghost height: nat, image: seq<P.Pixel>, size: nat, left: nat, top: nat, row: nat,
    column: nat, ghost before: seq<Byte>)
    requires lines.Length == Span(height, 4 * width + 1) && left + size <= width && top + size <= height
    requires row < size && column < size
    requires NoFilters(lines[..], width, height)
    requires Laid(before, lines[..], width, height, image, size, left, top, row, column)
    modifies lines
    ensures NoFilters(lines[..], width, height)
    ensures Laid(before, lines[..], width, height, image, size, left, top, row, column + 1)
  {
    ghost var middle := lines[..];
    var to := (top + row) * (width * 4 + 1) + 1 + (left + column) * 4;
    SpanIsProduct(top + row, 4 * width + 1);
    InLinesFits(left + column, top + row, width, height);
    FiltersStay(middle, TexelOf(image, size, column, row), width, height, left + column, top + row);
    SetBytes(lines, TexelOf(image, size, column, row), to);
    LaidOneMore(before, middle, lines[..], width, height, image, size, left, top, row, column);
  }

  lemma LaidOneMore(
    before: seq<Byte>, middle: seq<Byte>, after: seq<Byte>, width: nat, height: nat, image: seq<P.Pixel>, size: nat,
    left: nat, top: nat, row: nat, column: nat)
    requires |middle| == Span(height, 4 * width + 1) && left + size <= width && top + size <= height
    requires row < size && column < size
    requires Laid(before, middle, width, height, image, size, left, top, row, column)
    requires var at := InLines(left + column, top + row, width);
      at + 4 <= |middle| && after == WithBytes(middle, TexelOf(image, size, column, row), at)
    ensures Laid(before, after, width, height, image, size, left, top, row, column + 1)
  {
    forall x: nat, y: nat | x < width && y < height
      ensures Shows(after, width, x, y)
        == Over(image, size, left, top, row, column + 1, x, y, Shows(before, width, x, y))
    {
      LaidOneMoreAt(before, middle, after, width, height, image, size, left, top, row, column, x, y);
    }
  }

  lemma LaidOneMoreAt(
    before: seq<Byte>, middle: seq<Byte>, after: seq<Byte>, width: nat, height: nat, image: seq<P.Pixel>, size: nat,
    left: nat, top: nat, row: nat, column: nat, x: nat, y: nat)
    requires |middle| == Span(height, 4 * width + 1) && left + size <= width && top + size <= height
    requires row < size && column < size && x < width && y < height
    requires Shows(middle, width, x, y) == Over(image, size, left, top, row, column, x, y, Shows(before, width, x, y))
    requires var at := InLines(left + column, top + row, width);
      at + 4 <= |middle| && after == WithBytes(middle, TexelOf(image, size, column, row), at)
    ensures Shows(after, width, x, y) == Over(image, size, left, top, row, column + 1, x, y, Shows(before, width, x, y))
  {
    SetPixelShows(middle, TexelOf(image, size, column, row), width, height, left + column, top + row, x, y);
    OverOneMore(image, size, left, top, row, column, x, y, Shows(before, width, x, y));
  }

  lemma OverOneMore(
    image: seq<P.Pixel>, size: nat, left: nat, top: nat, row: nat, column: nat, x: nat, y: nat, before: seq<Byte>)
    requires row < size && column < size
    ensures Over(image, size, left, top, row, column + 1, x, y, before)
      == if x == left + column && y == top + row then TexelOf(image, size, column, row)
         else Over(image, size, left, top, row, column, x, y, before)
  {
  }

  method LayPicture(
    lines: array<Byte>, width: nat, ghost height: nat, image: seq<P.Pixel>, size: nat, left: nat, top: nat)
    requires lines.Length == Span(height, 4 * width + 1) && left + size <= width && top + size <= height
    requires NoFilters(lines[..], width, height)
    modifies lines
    ensures NoFilters(lines[..], width, height)
    ensures Laid(old(lines[..]), lines[..], width, height, image, size, left, top, size, 0)
  {
    ghost var before := lines[..];
    for row := 0 to size
      invariant NoFilters(lines[..], width, height)
      invariant Laid(before, lines[..], width, height, image, size, left, top, row, 0)
    {
      for column := 0 to size
        invariant NoFilters(lines[..], width, height)
        invariant Laid(before, lines[..], width, height, image, size, left, top, row, column)
      {
        LayPixel(lines, width, height, image, size, left, top, row, column, before);
      }
    }
  }

  // The whole sheet.

  function Rows(count: nat, columns: nat): nat
    requires columns > 0
  {
    (count + columns - 1) / columns
  }

  function SheetTexel(images: seq<seq<P.Pixel>>, size: nat, columns: nat, x: nat, y: nat): seq<Byte> {
    if size > 0 && CellAt(x, y, size, columns) < |images| then
      TexelOf(images[CellAt(x, y, size, columns)], size, x % size, y % size)
    else [0, 0, 0, 0]
  }

  /** Every place shows the pixel of the picture whose cell it's in, or nothing past the last picture. */
  ghost predicate ShowsPictures(
    lines: seq<Byte>, images: seq<seq<P.Pixel>>, size: nat, columns: nat, width: nat, height: nat)
  {
    forall x: nat, y: nat :: x < width && y < height ==>
      Shows(lines, width, x, y) == SheetTexel(images, size, columns, x, y)
  }

  /** There are as many rows as it takes, and no more. */
  lemma RowsAreEnough(count: nat, columns: nat)
    requires columns > 0
    ensures count <= Rows(count, columns) * columns < count + columns
  {
    DivisionIsCell(count + columns - 1, columns, Rows(count, columns));
  }

  /** Every pixel of every picture is shown in its place of the lines, with straight colour. */
  lemma PicturePixelIsShown(
    lines: seq<Byte>, images: seq<seq<P.Pixel>>, size: nat, columns: nat, width: nat, height: nat, index: nat,
    column: nat, row: nat, x: nat, y: nat)
    requires columns > 0 && width == columns * size && height == Rows(|images|, columns) * size
    requires ShowsPictures(lines, images, size, columns, width, height)
    requires index < |images| && column < size && row < size
    requires x == index % columns * size + column && y == index / columns * size + row
    ensures var image, at := images[index], At(column, row, size);
      Shows(lines, width, x, y) == if at < |image| then Straight(image[at]) else [0, 0, 0, 0]
  {
    PlaceInCell(index, columns, size, column, row, x, y);
    CellFits(index, |images|, columns, size);
    assert x < width && y < height;
  }

  /** What's shown at a place is its four bytes, each line after its filter byte. */
  lemma ShownBytes(lines: seq<Byte>, width: nat, height: nat, x: nat, y: nat)
    requires x < width && y < height && |lines| == Span(height, 4 * width + 1)
    ensures var at := y * (4 * width + 1) + 1 + 4 * x;
      0 <= at <= |lines| - 4 && Shows(lines, width, x, y) == lines[at..at + 4]
  {
    InLinesFits(x, y, width, height);
    SpanIsProduct(y, 4 * width + 1);
  }

  lemma TexelAfterPicture(images: seq<seq<P.Pixel>>, index: nat, size: nat, columns: nat, x: nat, y: nat)
    requires size > 0 && columns > 0 && x < columns * size && index < |images|
    ensures SheetTexel(images[..index + 1], size, columns, x, y)
      == Over(
           images[index], size, Left(index, size, columns), Top(index, size, columns), size, 0, x, y,
           SheetTexel(images[..index], size, columns, x, y))
  {
    CellIsSquare(x, y, size, columns, index);
  }

  function Left(index: nat, size: nat, columns: nat): nat
    requires columns > 0
  {
    index % columns * size
  }

  function Top(index: nat, size: nat, columns: nat): nat
    requires columns > 0
  {
    index / columns * size
  }

  lemma SheetAfterPicture(
    before: seq<Byte>, after: seq<Byte>, images: seq<seq<P.Pixel>>, index: nat, size: nat, columns: nat, width: nat,
    height: nat)
    requires columns > 0 && index < |images| && width == columns * size
    requires ShowsPictures(before, images[..index], size, columns, width, height)
    requires Laid(
      before, after, width, height, images[index], size, Left(index, size, columns), Top(index, size, columns), size, 0)
    ensures ShowsPictures(after, images[..index + 1], size, columns, width, height)
  {
    forall x: nat, y: nat | x < width && y < height
      ensures Shows(after, width, x, y) == SheetTexel(images[..index + 1], size, columns, x, y)
    {
      SomethingOfSomething(columns, size);
      TexelAfterPicture(images, index, size, columns, x, y);
    }
  }

  lemma SomethingOfSomething(columns: nat, size: nat)
    ensures columns * size > 0 ==> size > 0
  {
  }

  lemma EmptySheet(lines: seq<Byte>, size: nat, columns: nat, width: nat, height: nat)
    requires lines == Zeros(Span(height, 4 * width + 1))
    ensures ShowsPictures(lines, [], size, columns, width, height) && NoFilters(lines, width, height)
  {
    forall x: nat, y: nat | x < width && y < height ensures Shows(lines, width, x, y) == [0, 0, 0, 0] {
      InLinesFits(x, y, width, height);
    }
  }

  lemma CellFits(index: nat, count: nat, columns: nat, size: nat)
    requires columns > 0 && index < count
    ensures Left(index, size, columns) + size <= columns * size
    ensures Top(index, size, columns) + size <= Rows(count, columns) * size
  {
    PartFits(index % columns, columns, size);
    var rows := Rows(count, columns);
    DivisionIsCell(count + columns - 1, columns, rows);
    QuotientIsBelow(index, columns, rows);
    PartFits(index / columns, rows, size);
  }

  /** Lays pictures out in a grid, row by row; without a picture to take the size from there's an error. */
  method SheetLines(pictures: seq<P.Picture>, columns: nat, ghost images: seq<seq<P.Pixel>>)
    returns (lines: Option<array<Byte>>, width: nat, height: nat)
    requires columns > 0 && |images| == |pictures|
    requires forall i :: 0 <= i < |pictures| ==> pictures[i].Valid() && pictures[i].Shown() == images[i]
    ensures lines.None? <==> pictures == []
    ensures pictures != [] ==>
      width == columns * pictures[0].size && height == Rows(|pictures|, columns) * pictures[0].size
    ensures lines.Some? ==> fresh(lines.value) && lines.value.Length == Span(height, 4 * width + 1)
    ensures lines.Some? ==>
      NoFilters(lines.value[..], width, height)
      && ShowsPictures(lines.value[..], images, pictures[0].size, columns, width, height)
  {
    if pictures == [] {
      return None, 0, 0;
    }
    var size := pictures[0].size;
    width, height := columns * size, Rows(|pictures|, columns) * size;
    SpanIsProduct(height, 4 * width + 1);
    var raw := new Byte[(width * 4 + 1) * height](_ => 0);
    EmptySheet(raw[..], size, columns, width, height);
    assert images[..0] == [];
    for index := 0 to |pictures|
      invariant NoFilters(raw[..], width, height)
      invariant ShowsPictures(raw[..], images[..index], size, columns, width, height)
    {
      LayNext(raw, pictures[index].Shown(), index, size, columns, width, height, images);
    }
    assert images[..|images|] == images;
    lines := Some(raw);
  }

  method LayNext(
    lines: array<Byte>, image: seq<P.Pixel>, index: nat, size: nat, columns: nat, width: nat, ghost height: nat,
    ghost images: seq<seq<P.Pixel>>)
    requires columns > 0 && index < |images| && images[index] == image
    requires width == columns * size && height == Rows(|images|, columns) * size
    requires lines.Length == Span(height, 4 * width + 1) && NoFilters(lines[..], width, height)
    requires ShowsPictures(lines[..], images[..index], size, columns, width, height)
    modifies lines
    ensures NoFilters(lines[..], width, height)
    ensures ShowsPictures(lines[..], images[..index + 1], size, columns, width, height)
  {
    ghost var before := lines[..];
    CellFits(index, |images|, columns, size);
    LayPicture(lines, width, height, image, size, Left(index, size, columns), Top(index, size, columns));
    SheetAfterPicture(before, lines[..], images, index, size, columns, width, height);
  }

  // The file.

  /** The file of a sheet's lines; a length that doesn't fit its field is written modulo 2^32. */
  method SheetFile(lines: seq<Byte>, width: nat, height: nat, deflate: seq<Byte> -> seq<Byte>) returns (png: seq<Byte>)
    ensures png == PngBytes(CrcBytes, width, height, deflate(lines))
  {
    var stream := PictureChunks(Chunks(width, height, deflate(lines)));
    png := Signature() + stream;
  }

  method PictureChunks(chunks: seq<Chunk>) returns (stream: seq<Byte>)
    requires |chunks| == 3 && forall i :: 0 <= i < 3 ==> |chunks[i].name| == 4
    ensures stream == Stream(CrcBytes, chunks)
  {
    var header := PictureChunk(chunks[0].name, chunks[0].data);
    var data := PictureChunk(chunks[1].name, chunks[1].data);
    var end := PictureChunk(chunks[2].name, chunks[2].data);
    StreamOfThree(CrcBytes, chunks);
    stream := header[..] + data[..] + end[..];
  }

  // Reading a sheet back.

  /** What decoded pixels show at a place. */
  function Decoded(rgba: seq<Byte>, width: nat, x: nat, y: nat): seq<Byte> {
    if 4 * At(x, y, width) + 4 <= |rgba| then rgba[4 * At(x, y, width)..4 * At(x, y, width) + 4] else []
  }

  lemma {:induction false} SpanOfFour(count: nat, width: nat)
    ensures Span(count, 4 * width) == 4 * Span(count, width)
  {
    if count > 0 {
      SpanOfFour(count - 1, width);
    }
  }

  /** Lines without filters decode to what they show. */
  lemma {:induction false} LinesDecode(lines: seq<Byte>, width: nat, height: nat)
    requires |lines| == Span(height, 4 * width + 1) && NoFilters(lines, width, height)
    ensures var rgba := Unfilter(lines, 4 * width, height);
      rgba.Some? && |rgba.value| == Span(height, 4 * width)
      && forall x: nat, y: nat :: x < width && y < height ==>
           Decoded(rgba.value, width, x, y) == Shows(lines, width, x, y)
  {
    if height > 0 {
      var above, last := lines[..Span(height - 1, 4 * width + 1)], lines[|lines| - 4 * width..];
      assert lines[FilterAt(height - 1, width)] == 0;
      assert lines == above + [0] + last;
      LinesDecode(above, width, height - 1);
      UnfilterWithLast(above, last, 4 * width, height);
      var before := Unfilter(above, 4 * width, height - 1).value;
      forall x: nat, y: nat | x < width && y < height
        ensures Decoded(before + last, width, x, y) == Shows(lines, width, x, y)
      {
        PlaceDecodes(above, last, before, width, height - 1, x, y);
      }
      assert Unfilter(lines, 4 * width, height) == Some(before + last);
    }
  }

  lemma PlaceDecodes(above: seq<Byte>, last: seq<Byte>, before: seq<Byte>, width: nat, height: nat, x: nat, y: nat)
    requires |above| == Span(height, 4 * width + 1) && |last| == 4 * width && |before| == Span(height, 4 * width)
    requires x < width && y <= height
    requires y < height ==> Decoded(before, width, x, y) == Shows(above, width, x, y)
    ensures Decoded(before + last, width, x, y) == Shows(above + [0] + last, width, x, y)
  {
    if y < height {
      PlaceAboveDecodes(above, [0] + last, before, last, width, height, x, y);
      assert above + [0] + last == above + ([0] + last);
    } else {
      PlaceInLastDecodes(above + [0], last, before, width, height, x);
    }
  }

  lemma PlaceAboveDecodes(
    above: seq<Byte>, below: seq<Byte>, before: seq<Byte>, last: seq<Byte>, width: nat, height: nat, x: nat, y: nat)
    requires |above| == Span(height, 4 * width + 1) && |before| == Span(height, 4 * width)
    requires x < width && y < height && Decoded(before, width, x, y) == Shows(above, width, x, y)
    ensures Decoded(before + last, width, x, y) == Shows(above + below, width, x, y)
  {
    SpanOfFour(height, width);
    AtFits(x, y, width, height);
    InLinesFits(x, y, width, height);
    SliceBefore(before, last, 4 * At(x, y, width));
    SliceBefore(above, below, InLines(x, y, width));
  }

  lemma PlaceInLastDecodes(
    above: seq<Byte>, last: seq<Byte>, before: seq<Byte>, width: nat, height: nat, x: nat)
    requires |above| == Span(height, 4 * width + 1) + 1 && |last| == 4 * width && |before| == Span(height, 4 * width)
    requires x < width
    ensures Decoded(before + last, width, x, height) == Shows(above + last, width, x, height)
  {
    SpanOfFour(height, width);
    SliceAfter(before, last, 4 * x);
    SliceAfter(above, last, 4 * x);
  }

  lemma SliceBefore(before: seq<Byte>, after: seq<Byte>, at: nat)
    requires at + 4 <= |before|
    ensures (before + after)[at..at + 4] == before[at..at + 4]
  {
  }

  lemma SliceAfter(before: seq<Byte>, after: seq<Byte>, at: nat)
    requires at + 4 <= |after|
    ensures (before + after)[|before| + at..|before| + at + 4] == after[at..at + 4]
  {
  }

  /** The file of a sheet decodes to what the lines show. */
  lemma SheetDecodes(
    check: Check, lines: seq<Byte>, width: nat, height: nat, deflate: seq<Byte> -> seq<Byte>,
    inflate: seq<Byte> -> seq<Byte>)
    requires width < LIMIT && height < LIMIT && |lines| == Span(height, 4 * width + 1)
    requires NoFilters(lines, width, height)
    requires |deflate(lines)| < LIMIT && inflate(deflate(lines)) == lines
    ensures var image := Decode(check, PngBytes(check, width, height, deflate(lines)), inflate);
      image.Some? && image.value.width == width && image.value.height == height
      && forall x: nat, y: nat :: x < width && y < height ==>
           Decoded(image.value.rgba, width, x, y) == Shows(lines, width, x, y)
  {
    DecodeOfStream(check, Chunks(width, height, deflate(lines)), inflate);
    HeaderReadsBack(width, height);
    LinesDecode(lines, width, height);
  }
}
