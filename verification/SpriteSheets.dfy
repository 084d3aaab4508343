/**
 * Sprites painted with whole pixels, and the sheet that shows them in a grid at any zoom.
 */
module SpriteSheets {
  import opened Options
  import opened Words
  import opened Grids
  import opened Png
  import opened PngFiles

  const CELL: nat := 24
  const COLUMNS: nat := 4
  const ROWS: nat := 7

  datatype Color = Color(red: Byte, green: Byte, blue: Byte)

  type Frame = f: seq<Option<Color>> | |f| == CELL * CELL witness seq(CELL * CELL, i => None)

  // One frame.

  /** Whether something is painted at a place; nothing is outside the frame. */
  predicate PaintedAt(frame: Frame, x: int, y: int) {
    0 <= x < CELL && 0 <= y < CELL && frame[y * CELL + x].Some?
  }

  predicate NextToPainted(frame: Frame, x: int, y: int) {
    PaintedAt(frame, x - 1, y) || PaintedAt(frame, x + 1, y) || PaintedAt(frame, x, y - 1) || PaintedAt(frame, x, y + 1)
  }

  function OutlinedAt(frame: Frame, color: Color, i: nat): Option<Color>
    requires i < CELL * CELL
  {
    if frame[i].None? && NextToPainted(frame, i % CELL, i / CELL) then Some(color) else frame[i]
  }

  function Outlined(frame: Frame, color: Color): Frame {
    seq(CELL * CELL, i requires 0 <= i < CELL * CELL => OutlinedAt(frame, color, i))
  }

  class Canvas {
    const pixels: array<Option<Color>>

    ghost predicate Valid() {
      pixels.Length == CELL * CELL
    }

    function Shown(): Frame
      requires Valid()
      reads pixels
    {
      pixels[..]
    }

    constructor ()
      ensures Valid() && fresh(pixels) && forall i :: 0 <= i < CELL * CELL ==> pixels[i] == None
    {
      pixels := new Option<Color>[CELL * CELL](_ => None);
    }

    /** Paints the pixel a place is rounded to, halves upward, unless that's outside the frame. */
    method Dot(x: real, y: real, color: Option<Color>)
      requires Valid()
      modifies pixels
      ensures var column, row := (x + 0.5).Floor, (y + 0.5).Floor;
        Shown() == if 0 <= column < CELL && 0 <= row < CELL
          then old(Shown())[row * CELL + column := color] else old(Shown())
    {
      var column, row := (x + 0.5).Floor, (y + 0.5).Floor;
      if 0 <= column < CELL && 0 <= row < CELL {
        pixels[row * CELL + column] := color;
      }
    }

    /** Puts a line around everything painted so far. */
    method Outline(color: Color)
      requires Valid()
      modifies pixels
      ensures Shown() == Outlined(old(Shown()), color)
    {
      var painted: Frame := pixels[..];
      for i := 0 to CELL * CELL
        invariant forall k {:trigger pixels[k]} :: 0 <= k < i ==> pixels[k] == OutlinedAt(painted, color, k)
        invariant forall k {:trigger pixels[k]} :: i <= k < CELL * CELL ==> pixels[k] == painted[k]
      {
        if painted[i].None? && NextToPainted(painted, i % CELL, i / CELL) {
          pixels[i] := Some(color);
        }
      }
    }
  }

  /** A pixel of the frame left or right of a place, above or below it, is painted. */
  predicate HasPaintedNeighbour(frame: Frame, x: nat, y: nat)
    requires x < CELL && y < CELL
  {
    || (x > 0 && frame[y * CELL + (x - 1)].Some?)
    || (x < CELL - 1 && frame[y * CELL + (x + 1)].Some?)
    || (y > 0 && frame[(y - 1) * CELL + x].Some?)
    || (y < CELL - 1 && frame[(y + 1) * CELL + x].Some?)
  }

  /** An outline leaves every painted pixel alone, and doesn't wrap around the edges of the frame. */
  lemma OutlineGoesAround(frame: Frame, color: Color, x: nat, y: nat)
    requires x < CELL && y < CELL
    ensures var after := Outlined(frame, color)[y * CELL + x];
      && (frame[y * CELL + x].Some? ==> after == frame[y * CELL + x])
      && (frame[y * CELL + x].None? ==> after == if HasPaintedNeighbour(frame, x, y) then Some(color) else None)
  {
    assert (y * CELL + x) % CELL == x && (y * CELL + x) / CELL == y;
  }

  // The sheet's pixels.

  /** The four bytes of a pixel. */
  function PixelAt(rgba: seq<Byte>, at: nat): seq<Byte>
    requires 4 * at + 4 <= |rgba|
  {
    rgba[4 * at..4 * at + 4]
  }

  function Opaque(color: Color): seq<Byte> { [color.red, color.green, color.blue, 255] }

  function Texel(pixel: Option<Color>): seq<Byte> {
    if pixel.Some? then Opaque(pixel.value) else [0, 0, 0, 0]
  }

  /** Sets a pixel, if it's in the buffer. */
  method SetPixel(rgba: array<Byte>, color: Color, at: nat) returns (fits: bool)
    requires rgba.Length % 4 == 0
    modifies rgba
    ensures fits == (at < rgba.Length / 4)
    ensures !fits ==> rgba[..] == old(rgba[..])
    ensures fits ==> forall other: nat :: other < rgba.Length / 4 ==>
      PixelAt(rgba[..], other) == if other == at then Opaque(color) else PixelAt(old(rgba[..]), other)
  {
    fits := at * 4 + 4 <= rgba.Length;
    if fits {
      SetBytes(rgba, Opaque(color), at * 4);
      forall other: nat | other < rgba.Length / 4
        ensures PixelAt(rgba[..], other) == if other == at then Opaque(color) else PixelAt(old(rgba[..]), other)
      {
        PixelAfterSet(old(rgba[..]), Opaque(color), at, other);
      }
    }
  }

  lemma PixelAfterSet(before: seq<Byte>, pixel: seq<Byte>, at: nat, other: nat)
    requires |pixel| == 4 && 4 * at + 4 <= |before| && 4 * other + 4 <= |before|
    ensures var after := before[..at * 4] + pixel + before[at * 4 + 4..];
      |after| == |before| && PixelAt(after, other) == if other == at then pixel else PixelAt(before, other)
  {
  }

  // Filling a square of the sheet.

  /** What a buffer shows at a place; nothing, when that's not in it. */
  function Shows(rgba: seq<Byte>, width: nat, x: nat, y: nat): seq<Byte> {
    if 4 * At(x, y, width) + 4 <= |rgba| then PixelAt(rgba, At(x, y, width)) else []
  }

  /** The part of a sheet from one corner to the other shows a colour, and the rest is as it was. */
  ghost predicate Filled(
    before: seq<Byte>, after: seq<Byte>, width: nat, height: nat, left: nat, right: nat, top: nat, bottom: nat,
    color: Color)
  {
    forall x: nat, y: nat :: x < width && y < height ==>
      Shows(after, width, x, y)
      == if left <= x < right && top <= y < bottom then Opaque(color) else Shows(before, width, x, y)
  }

  lemma FillsOnePixel(before: seq<Byte>, after: seq<Byte>, width: nat, height: nat, left: nat, top: nat, color: Color)
    requires |before| == |after| == 4 * Span(height, width) && left < width
    requires forall other: nat :: other < Span(height, width) ==>
      PixelAt(after, other) == if other == At(left, top, width) then Opaque(color) else PixelAt(before, other)
    ensures Filled(before, after, width, height, left, left + 1, top, top + 1, color)
  {
    forall x: nat, y: nat | x < width && y < height
      ensures Shows(after, width, x, y)
        == if left <= x < left + 1 && top <= y < top + 1 then Opaque(color) else Shows(before, width, x, y)
    {
      AtFits(x, y, width, height);
      AtIsOnePlace(x, y, left, top, width);
    }
  }

  method FillRow(rgba: array<Byte>, width: nat, ghost height: nat, left: nat, top: nat, zoom: nat, color: Color)
    returns (fits: bool)
    requires rgba.Length == 4 * Span(height, width) && left + zoom <= width
    modifies rgba
    ensures fits <==> zoom == 0 || top < height
    ensures fits ==> Filled(old(rgba[..]), rgba[..], width, height, left, left + zoom, top, top + 1, color)
  {
    for across := 0 to zoom
      invariant across > 0 ==> top < height
      invariant Filled(old(rgba[..]), rgba[..], width, height, left, left + across, top, top + 1, color)
    {
      ghost var before := rgba[..];
      SpanIsProduct(top, width);
      fits := SetPixel(rgba, color, top * width + left + across);
      if !fits {
        PlaceOf(left + across, top, width, height);
        return;
      }
      PlaceOf(left + across, top, width, height);
      FillsOnePixel(before, rgba[..], width, height, left + across, top, color);
    }
    fits := true;
  }

  method FillSquare(rgba: array<Byte>, width: nat, ghost height: nat, left: nat, top: nat, zoom: nat, color: Color)
    returns (fits: bool)
    requires rgba.Length == 4 * Span(height, width) && left + zoom <= width && (top + zoom <= height || height <= top)
    modifies rgba
    ensures fits <==> zoom == 0 || top < height
    ensures fits ==> Filled(old(rgba[..]), rgba[..], width, height, left, left + zoom, top, top + zoom, color)
  {
    for down := 0 to zoom
      invariant down > 0 ==> top < height
      invariant Filled(old(rgba[..]), rgba[..], width, height, left, left + zoom, top, top + down, color)
    {
      fits := FillRow(rgba, width, height, left, top + down, zoom, color);
      if !fits {
        return;
      }
    }
    fits := true;
  }

  // One frame on the sheet.

  /** Which pixel of a frame shows at a place of its cell. */
  function Local(x: nat, y: nat, zoom: nat): nat
    requires zoom > 0
  {
    y / zoom * CELL + x / zoom
  }

  lemma LocalIsInside(x: nat, y: nat, zoom: nat)
    requires zoom > 0 && x < CELL * zoom && y < CELL * zoom
    ensures Local(x, y, zoom) < CELL * CELL
  {
    QuotientIsBelow(x, zoom, CELL);
    QuotientIsBelow(y, zoom, CELL);
  }

  /** A place shows a frame's pixel exactly when it's in that pixel's square. */
  lemma SquareOfPixel(x: nat, y: nat, zoom: nat, pixel: nat)
    requires zoom > 0 && x < CELL * zoom && y < CELL * zoom
    ensures Local(x, y, zoom) == pixel <==> InCell(x, y, pixel % CELL * zoom, pixel / CELL * zoom, zoom)
  {
    QuotientIsBelow(x, zoom, CELL);
    DivisionIsCell(x, zoom, pixel % CELL);
    DivisionIsCell(y, zoom, pixel / CELL);
    RowAndColumn(x / zoom, y / zoom, CELL, pixel);
  }

  /** What a sheet shows at a place after the first pixels of a frame were drawn over what it showed before. */
  function Over(frame: Frame, count: nat, zoom: nat, x: nat, y: nat, left: nat, top: nat, before: seq<Byte>): seq<Byte>
    requires count <= CELL * CELL
  {
    if InCell(x, y, left, top, CELL * zoom) then
      var pixel := Local(x - left, y - top, zoom);
      if pixel < count && frame[pixel].Some? then Opaque(frame[pixel].value) else before
    else before
  }

  ghost predicate Drawn(
    before: seq<Byte>, after: seq<Byte>, width: nat, height: nat, frame: Frame, count: nat, zoom: nat, left: nat,
    top: nat)
    requires count <= CELL * CELL
  {
    forall x: nat, y: nat :: x < width && y < height ==>
      Shows(after, width, x, y) == Over(frame, count, zoom, x, y, left, top, Shows(before, width, x, y))
  }

  lemma DrawnOneMore(
    before: seq<Byte>, middle: seq<Byte>, after: seq<Byte>, width: nat, height: nat, frame: Frame, pixel: nat,
    zoom: nat, left: nat, top: nat)
    requires pixel < CELL * CELL && Drawn(before, middle, width, height, frame, pixel, zoom, left, top)
    requires frame[pixel].None? ==> middle == after
    requires frame[pixel].Some? ==>
      var x, y := left + pixel % CELL * zoom, top + pixel / CELL * zoom;
      Filled(middle, after, width, height, x, x + zoom, y, y + zoom, frame[pixel].value)
    ensures Drawn(before, after, width, height, frame, pixel + 1, zoom, left, top)
  {
    forall x: nat, y: nat | x < width && y < height
      ensures Shows(after, width, x, y) == Over(frame, pixel + 1, zoom, x, y, left, top, Shows(before, width, x, y))
    {
      OverOneMore(frame, pixel, zoom, x, y, left, top, Shows(before, width, x, y));
    }
  }

  lemma OverOneMore(frame: Frame, pixel: nat, zoom: nat, x: nat, y: nat, left: nat, top: nat, before: seq<Byte>)
    requires pixel < CELL * CELL
    ensures Over(frame, pixel + 1, zoom, x, y, left, top, before)
      == if frame[pixel].Some? && InCell(x, y, left + pixel % CELL * zoom, top + pixel / CELL * zoom, zoom)
         then Opaque(frame[pixel].value) else Over(frame, pixel, zoom, x, y, left, top, before)
  {
    PixelIsInCell(pixel, zoom);
    if InCell(x, y, left, top, CELL * zoom) {
      SquareOfPixel(x - left, y - top, zoom, pixel);
    }
  }

  lemma PixelIsInCell(pixel: nat, zoom: nat)
    requires pixel < CELL * CELL
    ensures pixel % CELL * zoom + zoom <= CELL * zoom && pixel / CELL * zoom + zoom <= CELL * zoom
  {
    PartFits(pixel % CELL, CELL, zoom);
    PartFits(pixel / CELL, CELL, zoom);
  }

  predicate Blank(frame: Frame) { forall i :: 0 <= i < CELL * CELL ==> frame[i].None? }

  method DrawFrame(rgba: array<Byte>, frame: Frame, width: nat, ghost height: nat, left: nat, top: nat, zoom: nat)
    returns (fits: bool)
    requires rgba.Length == 4 * Span(height, width) && left + CELL * zoom <= width
    requires top + CELL * zoom <= height || height <= top
    modifies rgba
    ensures fits <==> zoom == 0 || top < height || Blank(frame)
    ensures fits ==> Drawn(old(rgba[..]), rgba[..], width, height, frame, CELL * CELL, zoom, left, top)
  {
    ghost var before := rgba[..];
    for pixel := 0 to CELL * CELL
      invariant zoom == 0 || top < height || forall i :: 0 <= i < pixel ==> frame[i].None?
      invariant Drawn(before, rgba[..], width, height, frame, pixel, zoom, left, top)
    {
      fits := DrawPixel(rgba, frame, pixel, width, height, left, top, zoom, before);
      if !fits {
        return;
      }
    }
    fits := true;
  }

  method DrawPixel(
    rgba: array<Byte>, frame: Frame, pixel: nat, width: nat, ghost height: nat, left: nat, top: nat, zoom: nat,
    ghost before: seq<Byte>)
    returns (fits: bool)
    requires rgba.Length == 4 * Span(height, width) && left + CELL * zoom <= width && pixel < CELL * CELL
    requires top + CELL * zoom <= height || height <= top
    requires Drawn(before, rgba[..], width, height, frame, pixel, zoom, left, top)
    modifies rgba
    ensures fits <==> zoom == 0 || top < height || frame[pixel].None?
    ensures fits ==> Drawn(before, rgba[..], width, height, frame, pixel + 1, zoom, left, top)
  {
    ghost var middle := rgba[..];
    fits := true;
    PixelIsInCell(pixel, zoom);
    if frame[pixel].Some? {
      fits := FillSquare(
        rgba, width, height, left + pixel % CELL * zoom, top + pixel / CELL * zoom, zoom, frame[pixel].value);
    }
    if fits {
      DrawnOneMore(before, middle, rgba[..], width, height, frame, pixel, zoom, left, top);
    }
  }

  // The whole sheet.

  function SheetWidth(zoom: nat): nat { COLUMNS * CELL * zoom }

  function SheetHeight(zoom: nat): nat { ROWS * CELL * zoom }

  function PixelOfCell(x: nat, y: nat, size: nat, zoom: nat): (pixel: nat)
    requires size > 0 && size == CELL * zoom
    ensures pixel < CELL * CELL
  {
    LocalIsInside(x % size, y % size, zoom);
    Local(x % size, y % size, zoom)
  }

  /** What the sheet shows at a place: the pixel of the frame whose cell that is, or nothing. */
  function SheetTexel(frames: seq<Frame>, size: nat, zoom: nat, x: nat, y: nat): seq<Byte>
    requires size > 0 && size == CELL * zoom
  {
    var cell := CellAt(x, y, size, COLUMNS);
    if cell < |frames| then Texel(frames[cell][PixelOfCell(x, y, size, zoom)]) else [0, 0, 0, 0]
  }

  ghost predicate ShowsFrames(rgba: seq<Byte>, frames: seq<Frame>, zoom: nat) {
    forall x: nat, y: nat :: x < SheetWidth(zoom) && y < SheetHeight(zoom) ==>
      Shows(rgba, SheetWidth(zoom), x, y) == SheetTexel(frames, CELL * zoom, zoom, x, y)
  }

  lemma PlaceInFrame(column: nat, row: nat, across: nat, down: nat, zoom: nat)
    requires column < CELL && row < CELL && across < zoom && down < zoom
    ensures column * zoom + across < CELL * zoom && row * zoom + down < CELL * zoom
    ensures Local(column * zoom + across, row * zoom + down, zoom) == row * CELL + column
  {
    PartFits(column, CELL, zoom);
    PartFits(row, CELL, zoom);
    DivisionIsCell(column * zoom + across, zoom, column);
    DivisionIsCell(row * zoom + down, zoom, row);
  }

  /** Every pixel of every frame is shown in its square of the sheet: its colour, or nothing. */
  lemma FramePixelIsShown(
    rgba: seq<Byte>, frames: seq<Frame>, zoom: nat, index: nat, column: nat, row: nat, across: nat, down: nat, x: nat,
    y: nat)
    requires ShowsFrames(rgba, frames, zoom) && index < |frames| && index < COLUMNS * ROWS
    requires column < CELL && row < CELL && across < zoom && down < zoom
    requires x == index % COLUMNS * (CELL * zoom) + (column * zoom + across)
    requires y == index / COLUMNS * (CELL * zoom) + (row * zoom + down)
    ensures Shows(rgba, SheetWidth(zoom), x, y) == match frames[index][row * CELL + column]
      case None => [0, 0, 0, 0]
      case Some(color) => [color.red, color.green, color.blue, 255]
  {
    PlaceInFrame(column, row, across, down, zoom);
    PlaceInCell(index, COLUMNS, CELL * zoom, column * zoom + across, row * zoom + down, x, y);
    CellFits(index, CELL * zoom);
    assert x < SheetWidth(zoom) && y < SheetHeight(zoom);
  }

  /** What's shown at a place is its four bytes, line by line. */
  lemma ShownBytes(rgba: seq<Byte>, width: nat, height: nat, x: nat, y: nat)
    requires x < width && y < height && |rgba| == 4 * Span(height, width)
    ensures 0 <= (y * width + x) * 4 <= |rgba| - 4
    ensures Shows(rgba, width, x, y) == rgba[(y * width + x) * 4..(y * width + x) * 4 + 4]
  {
    AtFits(x, y, width, height);
    SpanIsProduct(y, width);
  }

  lemma TexelAfterFrame(frames: seq<Frame>, index: nat, size: nat, zoom: nat, x: nat, y: nat)
    requires size > 0 && size == CELL * zoom && x < COLUMNS * size && index < |frames|
    ensures SheetTexel(frames[..index + 1], size, zoom, x, y)
      == Over(
           frames[index], CELL * CELL, zoom, x, y, index % COLUMNS * size, index / COLUMNS * size,
           SheetTexel(frames[..index], size, zoom, x, y))
  {
    CellIsSquare(x, y, size, COLUMNS, index);
  }

  lemma SheetAfterFrame(before: seq<Byte>, after: seq<Byte>, frames: seq<Frame>, index: nat, zoom: nat)
    requires index < |frames| && ShowsFrames(before, frames[..index], zoom)
    requires Drawn(
      before, after, SheetWidth(zoom), SheetHeight(zoom), frames[index], CELL * CELL, zoom,
      index % COLUMNS * (CELL * zoom), index / COLUMNS * (CELL * zoom))
    ensures ShowsFrames(after, frames[..index + 1], zoom)
  {
    forall x: nat, y: nat | x < SheetWidth(zoom) && y < SheetHeight(zoom)
      ensures Shows(after, SheetWidth(zoom), x, y) == SheetTexel(frames[..index + 1], CELL * zoom, zoom, x, y)
    {
      TexelAfterFrame(frames, index, CELL * zoom, zoom, x, y);
    }
  }

  lemma EmptySheet(rgba: seq<Byte>, zoom: nat)
    requires rgba == Zeros(4 * Span(SheetHeight(zoom), SheetWidth(zoom)))
    ensures ShowsFrames(rgba, [], zoom)
  {
    forall x: nat, y: nat | x < SheetWidth(zoom) && y < SheetHeight(zoom)
      ensures Shows(rgba, SheetWidth(zoom), x, y) == SheetTexel([], CELL * zoom, zoom, x, y)
    {
      AtFits(x, y, SheetWidth(zoom), SheetHeight(zoom));
    }
  }

  lemma CellFits(index: nat, size: nat)
    ensures index % COLUMNS * size + size <= COLUMNS * size
    ensures index < ROWS * COLUMNS ==> index / COLUMNS * size + size <= ROWS * size
    ensures index >= ROWS * COLUMNS ==> ROWS * size <= index / COLUMNS * size
  {
    PartFits(index % COLUMNS, COLUMNS, size);
    if index < ROWS * COLUMNS {
      PartFits(index / COLUMNS, ROWS, size);
    } else {
      ScalesUp(ROWS, index / COLUMNS, size);
    }
  }

  /** Lays out frames, row by row; a pixel past the last row is an error. */
  method SheetPixels(canvases: seq<Canvas>, zoom: nat, ghost frames: seq<Frame>) returns (rgba: Option<array<Byte>>)
    requires |frames| == |canvases|
    requires forall i :: 0 <= i < |canvases| ==> canvases[i].Valid() && canvases[i].Shown() == frames[i]
    ensures rgba.Some? <==> zoom == 0 || forall i :: ROWS * COLUMNS <= i < |frames| ==> Blank(frames[i])
    ensures rgba.Some? ==> fresh(rgba.value) && rgba.value.Length == 4 * Span(SheetHeight(zoom), SheetWidth(zoom))
    ensures rgba.Some? ==> ShowsFrames(rgba.value[..], frames, zoom)
  {
    var width, height := COLUMNS * CELL * zoom, ROWS * CELL * zoom;
    SpanIsProduct(height, width);
    var sheet := new Byte[width * height * 4](_ => 0);
    assert sheet[..] == Zeros(4 * Span(height, width));
    EmptySheet(sheet[..], zoom);
    assert frames[..0] == [];
    for index := 0 to |canvases|
      invariant zoom == 0 || forall i :: ROWS * COLUMNS <= i < index ==> Blank(frames[i])
      invariant ShowsFrames(sheet[..], frames[..index], zoom)
    {
      ghost var before := sheet[..];
      var fits := DrawCell(sheet, canvases[index].Shown(), index, zoom);
      if !fits {
        return None;
      }
      SheetAfterFrame(before, sheet[..], frames, index, zoom);
    }
    assert frames[..|frames|] == frames;
    rgba := Some(sheet);
  }

  method DrawCell(rgba: array<Byte>, frame: Frame, index: nat, zoom: nat) returns (fits: bool)
    requires rgba.Length == 4 * Span(SheetHeight(zoom), SheetWidth(zoom))
    modifies rgba
    ensures fits <==> zoom == 0 || index < ROWS * COLUMNS || Blank(frame)
    ensures fits ==> Drawn(
      old(rgba[..]), rgba[..], SheetWidth(zoom), SheetHeight(zoom), frame, CELL * CELL, zoom,
      index % COLUMNS * (CELL * zoom), index / COLUMNS * (CELL * zoom))
  {
    var left, top := index % COLUMNS * CELL * zoom, index / COLUMNS * CELL * zoom;
    CellFits(index, CELL * zoom);
    SameCorner(index % COLUMNS, zoom);
    SameCorner(index / COLUMNS, zoom);
    fits := DrawFrame(rgba, frame, SheetWidth(zoom), SheetHeight(zoom), left, top, zoom);
  }

  lemma SameCorner(part: nat, zoom: nat)
    ensures part * CELL * zoom == part * (CELL * zoom)
  {
  }

  /** The file of a sheet, read back, shows every frame's pixels in its cell. */
  lemma SheetSurvivesItsFile(
    rgba: seq<Byte>, frames: seq<Frame>, zoom: nat, check: Check, deflate: seq<Byte> -> seq<Byte>,
    inflate: seq<Byte> -> seq<Byte>)
    requires SheetWidth(zoom) < LIMIT && SheetHeight(zoom) < LIMIT && ShowsFrames(rgba, frames, zoom)
    requires |rgba| == 4 * Span(SheetHeight(zoom), SheetWidth(zoom))
    requires var lines := Scanlines(rgba, SheetWidth(zoom) * 4, SheetHeight(zoom));
      |deflate(lines)| < LIMIT && inflate(deflate(lines)) == lines
    ensures var lines := Scanlines(rgba, SheetWidth(zoom) * 4, SheetHeight(zoom));
      var image := Decode(check, PngBytes(check, SheetWidth(zoom), SheetHeight(zoom), deflate(lines)), inflate);
      image.Some? && image.value.width == SheetWidth(zoom) && image.value.height == SheetHeight(zoom)
      && ShowsFrames(image.value.rgba, frames, zoom)
  {
    SpanIsProduct(SheetHeight(zoom), SheetWidth(zoom));
    SpanIsProduct(SheetHeight(zoom), SheetWidth(zoom) * 4);
    FourTimes(SheetHeight(zoom), SheetWidth(zoom));
    DecodeUndoesEncode(check, rgba, SheetWidth(zoom), SheetHeight(zoom), deflate, inflate);
  }

  lemma FourTimes(a: nat, b: nat)
    ensures a * (b * 4) == 4 * (a * b)
  {
  }
}
