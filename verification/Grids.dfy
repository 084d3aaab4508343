/** Cells of one size laid out in a grid, row by row. */
module Grids {
  /** How far a count of equal parts takes. */
  function Span(count: nat, size: nat): nat {
    if count == 0 then 0 else Span(count - 1, size) + size
  }

  lemma {:induction false} SpanIsProduct(count: nat, size: nat)
    ensures Span(count, size) == count * size
  {
    if count > 0 {
      SpanIsProduct(count - 1, size);
      assert (count - 1) * size + size == count * size;
    }
  }

  lemma {:induction false} SpanGrows(fewer: nat, more: nat, size: nat)
    requires fewer <= more
    ensures Span(fewer, size) <= Span(more, size)
  {
    if fewer < more {
      SpanGrows(fewer, more - 1, size);
    }
  }

  /** Where a pixel is in a buffer that holds one line after another. */
  function At(x: nat, y: nat, width: nat): nat { Span(y, width) + x }

  lemma AtFits(x: nat, y: nat, width: nat, height: nat)
    requires x < width && y < height
    ensures At(x, y, width) < Span(height, width)
  {
    SpanGrows(y + 1, height, width);
  }

  lemma AtIsPast(x: nat, y: nat, width: nat, height: nat)
    requires y >= height
    ensures At(x, y, width) >= Span(height, width)
  {
    SpanGrows(height, y, width);
  }

  lemma AtIsOnePlace(x: nat, y: nat, otherX: nat, otherY: nat, width: nat)
    requires x < width && otherX < width
    ensures At(x, y, width) == At(otherX, otherY, width) <==> x == otherX && y == otherY
  {
    if y < otherY {
      SpanGrows(y + 1, otherY, width);
    } else if otherY < y {
      SpanGrows(otherY + 1, y, width);
    }
  }

  lemma PlaceOf(x: nat, y: nat, width: nat, height: nat)
    requires x < width
    ensures At(x, y, width) < Span(height, width) <==> y < height
  {
    if y < height {
      AtFits(x, y, width, height);
    } else {
      AtIsPast(x, y, width, height);
    }
  }

  predicate InCell(x: nat, y: nat, left: nat, top: nat, size: nat) {
    left <= x < left + size && top <= y < top + size
  }

  lemma DivisionIsCell(x: nat, size: nat, count: nat)
    requires size > 0
    ensures x / size == count <==> count * size <= x < count * size + size
    ensures x / size == count ==> x % size == x - count * size
  {
    var quotient := x / size;
    assert x == quotient * size + x % size;
    if quotient < count {
      assert (quotient + 1) * size <= count * size;
    } else if quotient > count {
      assert (count + 1) * size <= quotient * size;
    }
  }

  lemma QuotientIsBelow(x: nat, size: nat, count: nat)
    requires size > 0 && x < count * size
    ensures x / size < count
  {
    var quotient := x / size;
    assert x == quotient * size + x % size;
    ScalesUp(count, quotient, size);
  }

  lemma ScalesUp(fewer: nat, more: nat, size: nat)
    ensures fewer <= more ==> fewer * size <= more * size
  {
  }

  lemma RowAndColumn(column: nat, row: nat, columns: nat, index: nat)
    requires column < columns
    ensures row * columns + column == index <==> column == index % columns && row == index / columns
  {
    DivisionIsCell(index, columns, row);
    DivisionIsCell(index, columns, index / columns);
  }

  lemma PartFits(part: nat, parts: nat, size: nat)
    requires part < parts
    ensures part * size + size <= parts * size
  {
    assert (part + 1) * size <= parts * size;
  }

  function CellAt(x: nat, y: nat, size: nat, columns: nat): nat
    requires size > 0
  {
    y / size * columns + x / size
  }

  /** A place of a cell is in that cell, as far in as it is. */
  lemma PlaceInCell(index: nat, columns: nat, size: nat, across: nat, down: nat, x: nat, y: nat)
    requires columns > 0 && across < size && down < size
    requires x == index % columns * size + across && y == index / columns * size + down
    ensures x < columns * size && CellAt(x, y, size, columns) == index && x % size == across && y % size == down
  {
    PartFits(index % columns, columns, size);
    CellIsSquare(x, y, size, columns, index);
  }

  /** Cells don't overlap: a place is in the square a frame is drawn to exactly when that frame's cell is there. */
  lemma CellIsSquare(x: nat, y: nat, size: nat, columns: nat, index: nat)
    requires size > 0 && x < columns * size
    ensures CellAt(x, y, size, columns) == index <==> InCell(x, y, index % columns * size, index / columns * size, size)
    ensures CellAt(x, y, size, columns) == index ==>
      x % size == x - index % columns * size && y % size == y - index / columns * size
  {
    QuotientIsBelow(x, size, columns);
    DivisionIsCell(x, size, index % columns);
    DivisionIsCell(y, size, index / columns);
    RowAndColumn(x / size, y / size, columns, index);
  }
}
