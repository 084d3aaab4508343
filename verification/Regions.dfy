/** Regions of a display as finite sets of pixels, and the rectangles they are made of. */
module Regions {

  datatype Point = Point(x: int, y: int)

  datatype Rect = Rect(x: int, y: int, width: int, height: int) {
    predicate Has(p: Point) {
      x <= p.x < x + width && y <= p.y < y + height
    }

    function Points(): (points: set<Point>)
      ensures forall p :: p in points <==> Has(p)
    {
      set px, py | x <= px < x + width && y <= py < y + height :: Point(px, py)
    }

    /** The rectangle with a margin on every side. */
    function Grown(marginX: int, marginY: int): Rect {
      Rect(x - marginX, y - marginY, width + 2 * marginX, height + 2 * marginY)
    }

    function Intersect(other: Rect): (r: Rect)
      ensures forall p :: r.Has(p) <==> Has(p) && other.Has(p)
    {
      var left, top := Max(x, other.x), Max(y, other.y);
      var right, bottom := Min(x + width, other.x + other.width), Min(y + height, other.y + other.height);
      Rect(left, top, right - left, bottom - top)
    }

    predicate IsEmpty() {
      width <= 0 || height <= 0
    }
  }

  function Max(a: int, b: int): int { if a > b then a else b }

  function Min(a: int, b: int): int { if a < b then a else b }

  function Union(rects: seq<Rect>): set<Point> {
    if rects == [] then {} else Union(rects[..|rects| - 1]) + rects[|rects| - 1].Points()
  }

  predicate Near(p: Point, q: Point, reachX: int, reachY: int) {
    -reachX <= p.x - q.x <= reachX && -reachY <= p.y - q.y <= reachY
  }

  /** Whether some source lies within reach of a pixel. */
  predicate Touches(p: Point, sources: set<Point>, reachX: int, reachY: int) {
    exists q :: q in sources && Near(p, q, reachX, reachY)
  }

  /** The pixels of an area that a filter of this reach carries the sources to. */
  function Reached(sources: set<Point>, reachX: int, reachY: int, area: set<Point>): set<Point> {
    set p | p in area && Touches(p, sources, reachX, reachY)
  }

  /** A pixel is in a grown rectangle exactly when it's within reach of one of the rectangle's own pixels. */
  lemma GrownRectIsReach(rect: Rect, reachX: nat, reachY: nat, p: Point)
    requires !rect.IsEmpty()
    ensures rect.Grown(reachX, reachY).Has(p) <==> Touches(p, rect.Points(), reachX, reachY)
  {
    var closest := Point(
      Max(rect.x, Min(p.x, rect.x + rect.width - 1)), Max(rect.y, Min(p.y, rect.y + rect.height - 1)));
    assert closest in rect.Points();
    assert rect.Grown(reachX, reachY).Has(p) ==> Near(p, closest, reachX, reachY);
  }

  lemma ReachedUnion(a: set<Point>, b: set<Point>, reachX: int, reachY: int, area: set<Point>)
    ensures Reached(a + b, reachX, reachY, area) == Reached(a, reachX, reachY, area) + Reached(b, reachX, reachY, area)
  {
    forall p | p in area
      ensures Touches(p, a + b, reachX, reachY) <==> Touches(p, a, reachX, reachY) || Touches(p, b, reachX, reachY)
    {
      if Touches(p, a, reachX, reachY) {
        var q :| q in a && Near(p, q, reachX, reachY);
        assert q in a + b;
      }
      if Touches(p, b, reachX, reachY) {
        var q :| q in b && Near(p, q, reachX, reachY);
        assert q in a + b;
      }
    }
  }

  /** Some rectangles that make up a region. The order and shape of them is nobody's business. */
  method Rectangles(points: set<Point>) returns (rects: seq<Rect>)
    ensures Union(rects) == points
    ensures forall i :: 0 <= i < |rects| ==> !rects[i].IsEmpty()
  {
    rects := [];
    var left := points;
    while left != {}
      invariant left <= points && Union(rects) == points - left
      invariant forall i :: 0 <= i < |rects| ==> !rects[i].IsEmpty()
      decreases left
    {
      var p :| p in left;
      var rect := Rect(p.x, p.y, 1, 1);
      assert rect.Points() == {p} by {
        forall q | q in rect.Points() ensures q == p {}
      }
      assert (rects + [rect])[..|rects|] == rects;
      rects, left := rects + [rect], left - {p};
    }
  }

  /** Grows each rectangle of a region and keeps what lies in an area. */
  method GrowRectangles(points: set<Point>, marginX: nat, marginY: nat, area: Rect) returns (grown: set<Point>)
    ensures grown == Reached(points, marginX, marginY, area.Points())
  {
    var rects := Rectangles(points);
    grown := {};
    for i := 0 to |rects|
      invariant grown == Reached(Union(rects[..i]), marginX, marginY, area.Points())
    {
      var rect := rects[i].Grown(marginX, marginY).Intersect(area);
      GrowOne(rects[..i], rects[i], marginX, marginY, area);
      assert rects[..i + 1][..i] == rects[..i];
      grown := grown + rect.Points();
    }
    assert rects[..|rects|] == rects;
  }

  lemma GrowOne(before: seq<Rect>, rect: Rect, marginX: nat, marginY: nat, area: Rect)
    requires !rect.IsEmpty()
    ensures Reached(Union(before) + rect.Points(), marginX, marginY, area.Points())
         == Reached(Union(before), marginX, marginY, area.Points())
            + rect.Grown(marginX, marginY).Intersect(area).Points()
  {
    ReachedUnion(Union(before), rect.Points(), marginX, marginY, area.Points());
    forall p
      ensures p in Reached(rect.Points(), marginX, marginY, area.Points())
        <==> p in rect.Grown(marginX, marginY).Intersect(area).Points()
    {
      GrownRectIsReach(rect, marginX, marginY, p);
    }
  }
}
