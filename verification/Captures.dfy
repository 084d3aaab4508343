/**
 * The texture that remembers what lies behind a blurred surface on one view, and how a paint brings it up to date, as
 * functions on values. Pixels are those of the view's framebuffer; texels count from the geometry's corner.
 */
module Captures {
  import opened Options
  import opened Regions
  import opened Spread

  type Color = int

  const CAPACITY_STEP := 64

  datatype Texture = NoTexture | Texture(width: int, height: int, texels: map<Point, Color>)

  datatype Framebuffer = Framebuffer(width: nat, height: nat, pixels: map<Point, Color>) {
    function Bounds(): Rect { Rect(0, 0, width, height) }

    predicate Filled() { pixels.Keys == Bounds().Points() }
  }

  datatype Backdrop = Backdrop(geometry: Rect, shown: Rect, valid: set<Point>, texture: Texture, frame: Frame)

  const NO_RECT := Rect(0, 0, 0, 0)
  const NEW_BACKDROP := Backdrop(NO_RECT, NO_RECT, {}, NoTexture, NEW_FRAME)

  /** The edges of an actor's own clip, in pixels and rounded outwards, before they're kept to the framebuffer. */
  datatype Edges = Edges(x1: int, y1: int, x2: int, y2: int) {
    predicate Has(p: Point) { x1 <= p.x < x2 && y1 <= p.y < y2 }
  }

  /** How a view shows the stage: where, and how many pixels there are to a unit. */
  datatype Display = Display(layout: Rect, scale: nat) {
    /** The unit of the stage that a pixel shows part of. */
    function Stage(p: Point): Point
      requires scale > 0
    {
      Point(p.x / scale + layout.x, p.y / scale + layout.y)
    }
  }

  /** Everything a capture is given, with what `repainted` holds by now, and whether the driver obliges. */
  datatype Paint = Paint(
    source: Framebuffer,
    geometry: Rect,
    clip: Option<Edges>,
    display: Display,
    repainted: set<Point>,
    allocates: bool,
    blits: bool)

  datatype Captured = Captured(backdrop: Backdrop, changed: bool, kept: bool, redraws: bool)

  /** Integer division as C has it, towards zero. */
  function Quotient(a: int, b: int): int
    requires b > 0
  {
    if a >= 0 then a / b else -(-a / b)
  }

  function CapacityFor(size: int, limit: int): int {
    Max(size, Min(Quotient(size + CAPACITY_STEP - 1, CAPACITY_STEP) * CAPACITY_STEP, limit))
  }

  predicate CapacityFits(capacity: int, size: int, limit: int) {
    size <= capacity <= CapacityFor(size, limit) + CAPACITY_STEP
  }

  predicate Holds(texture: Texture, source: Framebuffer, geometry: Rect) {
    && texture.Texture?
    && CapacityFits(texture.width, geometry.width, source.width)
    && CapacityFits(texture.height, geometry.height, source.height)
  }

  function Cleared(width: int, height: int): Texture {
    Texture(width, height, map t | t in Rect(0, 0, width, height).Points() :: 0)
  }

  /** The backdrop for a geometry, and whether that took more than finding it. */
  function EnsureBackdrop(backdrop: Backdrop, source: Framebuffer, geometry: Rect, allocates: bool): (Backdrop, bool) {
    if backdrop.geometry == geometry && Holds(backdrop.texture, source, geometry) then (backdrop, false) else
    var texture :=
      if Holds(backdrop.texture, source, geometry) then Cleared(backdrop.texture.width, backdrop.texture.height)
      else if allocates then
        Cleared(CapacityFor(geometry.width, source.width), CapacityFor(geometry.height, source.height))
      else NoTexture;
    (backdrop.(geometry := geometry, shown := NO_RECT, valid := {}, texture := texture), true)
  }

  function Clamp(value: int, low: int, high: int): int {
    if value > high then high else if value < low then low else value
  }

  function ClipRect(edges: Edges, width: int, height: int): Rect {
    var x1 := Clamp(edges.x1, 0, width);
    var y1 := Clamp(edges.y1, 0, height);
    Rect(x1, y1, Clamp(edges.x2, x1, width) - x1, Clamp(edges.y2, y1, height) - y1)
  }

  function Visible(source: Framebuffer, geometry: Rect, clip: Option<Edges>): (visible: Rect)
    ensures forall p ::
      visible.Has(p) <==> geometry.Has(p) && source.Bounds().Has(p) && (clip.Some? ==> clip.value.Has(p))
  {
    var whole := geometry.Intersect(source.Bounds());
    if clip.None? then whole else whole.Intersect(ClipRect(clip.value, source.width, source.height))
  }

  /** A view's framebuffer shows exactly its part of the stage, each unit in as many pixels a side as the scale. */
  lemma StageOfView(display: Display, source: Framebuffer, p: Point)
    requires display.scale > 0 && display.layout.width >= 0 && display.layout.height >= 0
    requires source.width == display.layout.width * display.scale
    requires source.height == display.layout.height * display.scale
    ensures source.Bounds().Has(p) <==> display.layout.Has(display.Stage(p))
    ensures var unit := display.Stage(p);
      && 0 <= p.x - (unit.x - display.layout.x) * display.scale < display.scale
      && 0 <= p.y - (unit.y - display.layout.y) * display.scale < display.scale
  {
    UnitOfPixel(p.x, display.scale, display.layout.width);
    UnitOfPixel(p.y, display.scale, display.layout.height);
  }

  lemma UnitOfPixel(value: int, scale: int, count: int)
    requires scale > 0 && count >= 0
    ensures 0 <= value - value / scale * scale < scale
    ensures 0 <= value < count * scale <==> 0 <= value / scale < count
  {
    DivideAtMost(value, scale, 0);
    DivideAtMost(value, scale, count);
    assert value == value / scale * scale + value % scale;
  }

  lemma DivideAtMost(value: int, scale: nat, bound: int)
    requires scale > 0
    ensures bound * scale <= value <==> bound <= value / scale
  {
    if bound <= value / scale {
      assert bound * scale <= value / scale * scale;
    } else {
      assert (value / scale + 1) * scale <= bound * scale;
    }
  }

  /** The pixels of a framebuffer that show a region of the stage. */
  function RepaintedPixels(repainted: set<Point>, display: Display, source: Framebuffer): set<Point>
    requires display.scale > 0
  {
    set p | p in source.Bounds().Points() && display.Stage(p) in repainted
  }

  function Texel(p: Point, geometry: Rect): Point {
    Point(p.x - geometry.x, p.y - geometry.y)
  }

  function Pixel(t: Point, geometry: Rect): Point {
    Point(t.x + geometry.x, t.y + geometry.y)
  }

  /** Copies pixels, each to its own texel. */
  function Blit(texture: Texture, source: Framebuffer, pixels: set<Point>, geometry: Rect): Texture
    requires texture.Texture? && pixels <= source.pixels.Keys
  {
    texture.(texels := map t | t in texture.texels ::
      if Pixel(t, geometry) in pixels then source.pixels[Pixel(t, geometry)] else texture.texels[t])
  }

  /** The pixels that the frame has painted afresh, as far as the backdrop knows. */
  function Painted(frame: Frame, paint: Paint): set<Point>
    requires paint.display.scale > 0
  {
    if frame.repainted.Nothing? then Visible(paint.source, paint.geometry, paint.clip).Points()
    else RepaintedPixels(paint.repainted, paint.display, paint.source)
  }

  /** Moves the shown area to what's visible, unless nothing is, and says whether that changed it. */
  function ClampToShownArea(backdrop: Backdrop, visible: Rect): (Backdrop, bool) {
    if visible.Points() == {} || backdrop.shown == visible then (backdrop, false)
    else (backdrop.(shown := visible), true)
  }

  /** Takes the painted pixels that are missing, and all that were painted if they may show something else by now. */
  function Refresh(backdrop: Backdrop, visible: set<Point>, paint: Paint): Captured
    requires paint.source.Filled() && paint.display.scale > 0 && visible <= paint.source.pixels.Keys
    requires backdrop.texture.Texture?
  {
    var missing := visible - backdrop.valid;
    var painted := Painted(backdrop.frame, paint);
    var outdated := backdrop.frame.repainted.Nothing? || backdrop.frame.changed;
    var trusted := if outdated then backdrop.valid - painted else backdrop.valid;
    var captured := painted * visible - trusted;
    var blitted := captured != {} && paint.blits;
    var valid := if blitted then trusted + captured else trusted;
    Captured(
      backdrop.(
        texture :=
          if blitted then Blit(backdrop.texture, paint.source, captured, backdrop.geometry) else backdrop.texture,
        valid := valid),
      outdated || missing * captured != {},
      true,
      visible - valid != {})
  }

  function Capture(before: Backdrop, paint: Paint): Captured
    requires paint.source.Filled() && paint.display.scale > 0
  {
    var (backdrop, replaced) := EnsureBackdrop(before, paint.source, paint.geometry, paint.allocates);
    if backdrop.texture.NoTexture? then Captured(backdrop, replaced, false, false) else
    var visible := Visible(paint.source, paint.geometry, paint.clip);
    var (clamped, moved) := ClampToShownArea(backdrop, visible);
    var refreshed := Refresh(clamped, visible.Points(), paint);
    refreshed.(changed := replaced || moved || refreshed.changed)
  }

  /** A surface that isn't shown on the view forgets what it saw there. */
  function Forget(backdrop: Backdrop): Backdrop {
    backdrop.(valid := {}, frame := backdrop.frame.(changes := {}))
  }

  // What a capture promises.

  /** When a capture says nothing changed, the backdrop is as it was, to the last texel, and still there. */
  lemma UnchangedMeansUntouched(before: Backdrop, paint: Paint)
    requires paint.source.Filled() && paint.display.scale > 0
    ensures var after := Capture(before, paint); !after.changed ==> after.backdrop == before && after.kept
  {
  }

  /** A refresh takes all that was painted of what's visible, if copying works. */
  lemma RefreshTakesAll(backdrop: Backdrop, visible: set<Point>, paint: Paint)
    requires paint.source.Filled() && paint.display.scale > 0 && visible <= paint.source.pixels.Keys
    requires backdrop.texture.Texture? && paint.blits
    ensures Painted(backdrop.frame, paint) * visible <= Refresh(backdrop, visible, paint).backdrop.valid
  {
    var after := Refresh(backdrop, visible, paint).backdrop;
    var outdated := backdrop.frame.repainted.Nothing? || backdrop.frame.changed;
    var trusted := if outdated then backdrop.valid - Painted(backdrop.frame, paint) else backdrop.valid;
    forall p | p in Painted(backdrop.frame, paint) * visible ensures p in after.valid {
      assert p in trusted || p in Painted(backdrop.frame, paint) * visible - trusted;
    }
  }

  lemma RefreshOfAllIsUnchanged(backdrop: Backdrop, visible: set<Point>, paint: Paint)
    requires paint.source.Filled() && paint.display.scale > 0 && visible <= paint.source.pixels.Keys
    requires backdrop.texture.Texture? && !backdrop.frame.repainted.Nothing? && !backdrop.frame.changed
    requires Painted(backdrop.frame, paint) * visible <= backdrop.valid
    ensures !Refresh(backdrop, visible, paint).changed
  {
    assert Painted(backdrop.frame, paint) * visible - backdrop.valid == {};
  }

  /** A capture that's made again in the same frame, of a surface nothing changed behind, says that nothing changed. */
  lemma CapturedTwiceIsUnchanged(before: Backdrop, paint: Paint)
    requires paint.source.Filled() && paint.display.scale > 0
    requires !before.frame.repainted.Nothing? && !before.frame.changed && paint.blits
    ensures var first := Capture(before, paint);
      first.kept && Holds(first.backdrop.texture, paint.source, paint.geometry) ==>
        !Capture(first.backdrop, paint).changed
  {
    var backdrop := EnsureBackdrop(before, paint.source, paint.geometry, paint.allocates).0;
    if backdrop.texture.Texture? {
      var visible := Visible(paint.source, paint.geometry, paint.clip);
      var clamped := ClampToShownArea(backdrop, visible).0;
      var first := Refresh(clamped, visible.Points(), paint).backdrop;
      RefreshTakesAll(clamped, visible.Points(), paint);
      RefreshOfAllIsUnchanged(first, visible.Points(), paint);
    }
  }

  /**
   * A capture that keeps a texture asks for another redraw exactly when something visible isn't valid, which only
   * happens to pixels this frame didn't paint, or when the copy failed.
   */
  lemma CompleteOrQueued(before: Backdrop, paint: Paint)
    requires paint.source.Filled() && paint.display.scale > 0
    ensures var after := Capture(before, paint);
      var visible := Visible(paint.source, paint.geometry, paint.clip).Points();
      && (after.kept <==> after.backdrop.texture.Texture?)
      && (after.redraws <==> after.kept && !(visible <= after.backdrop.valid))
      && (paint.blits && visible <= Painted(before.frame, paint) ==> !after.redraws)
      && (after.kept && before.frame.repainted.Nothing? && !paint.blits && visible != {} ==> after.redraws)
  {
    var after := Capture(before, paint);
    var visible := Visible(paint.source, paint.geometry, paint.clip).Points();
    forall p | p in visible ensures p in after.backdrop.valid || p in visible - after.backdrop.valid {}
  }

  /**
   * What's sampled of a texture that's kept is exactly what's visible. Where nothing is, it's as much as before of the
   * same geometry, and nothing of another. A capture never moves it without saying so.
   */
  lemma ShownIsVisible(before: Backdrop, paint: Paint, p: Point)
    requires paint.source.Filled() && paint.display.scale > 0
    ensures var after := Capture(before, paint);
      var sees := exists q :: Sees(paint, q);
      var stays := before.geometry == paint.geometry && Holds(before.texture, paint.source, paint.geometry);
      && (after.kept && sees ==> (after.backdrop.shown.Has(p) <==> Sees(paint, p)))
      && (after.kept && !sees ==> after.backdrop.shown == if stays then before.shown else Rect(0, 0, 0, 0))
      && (after.backdrop.shown != before.shown ==> after.changed)
  {
    var visible := Visible(paint.source, paint.geometry, paint.clip);
    assert forall q :: Sees(paint, q) <==> visible.Has(q);
    assert forall q :: q in visible.Points() <==> visible.Has(q);
  }

  /** A pixel of the surface that's on the framebuffer and not clipped. */
  predicate Sees(paint: Paint, p: Point) {
    && paint.geometry.Has(p)
    && 0 <= p.x < paint.source.width && 0 <= p.y < paint.source.height
    && (paint.clip.Some? ==>
          paint.clip.value.x1 <= p.x < paint.clip.value.x2 && paint.clip.value.y1 <= p.y < paint.clip.value.y2)
  }

  /** The room a texture has: at least the geometry, and less than two steps more. */
  predicate Sized(backdrop: Backdrop) {
    backdrop.texture.Texture? ==>
      && backdrop.geometry.width <= backdrop.texture.width <= backdrop.geometry.width + 2 * CAPACITY_STEP - 1
      && backdrop.geometry.height <= backdrop.texture.height <= backdrop.geometry.height + 2 * CAPACITY_STEP - 1
      && backdrop.texture.texels.Keys == Rect(0, 0, backdrop.texture.width, backdrop.texture.height).Points()
  }

  lemma CapacityStaysClose(capacity: int, size: int, limit: int)
    requires size >= 0
    ensures CapacityFits(CapacityFor(size, limit), size, limit)
    ensures CapacityFits(capacity, size, limit) ==> size <= capacity <= size + 2 * CAPACITY_STEP - 1
  {
  }

  /** A texture is made with sides of whole steps, as few as will do, but never larger than the framebuffer for that. */
  lemma CapacityIsWholeSteps(size: int, limit: int)
    requires size >= 0
    ensures var capacity := CapacityFor(size, limit);
      && (size <= limit ==> size <= capacity <= limit && capacity < size + 64)
      && (size <= limit ==> capacity == limit || capacity % 64 == 0)
      && (size > limit ==> capacity == size)
  {
  }

  /** Another geometry, or a texture that doesn't fit, starts over with an empty texture; or all is left as it was. */
  lemma EnsuredStartsOver(before: Backdrop, source: Framebuffer, geometry: Rect, allocates: bool)
    ensures var (after, replaced) := EnsureBackdrop(before, source, geometry, allocates);
      && (replaced <==> before.geometry != geometry || !Holds(before.texture, source, geometry))
      && (!replaced ==> after == before)
      && (replaced ==> after.geometry == geometry && after.valid == {} && after.shown.Points() == {})
      && (replaced && after.texture.Texture? ==>
            forall t :: t in after.texture.texels ==> after.texture.texels[t] == 0)
      && (after.texture.NoTexture? <==> !Holds(before.texture, source, geometry) && !allocates)
      && after.frame == before.frame
  {
  }

  lemma EnsuredIsSized(before: Backdrop, source: Framebuffer, geometry: Rect, allocates: bool)
    requires Sized(before) && geometry.width >= 0 && geometry.height >= 0
    ensures var (after, replaced) := EnsureBackdrop(before, source, geometry, allocates);
      Sized(after) && after.geometry == geometry && (after.texture.Texture? ==> Holds(after.texture, source, geometry))
  {
    CapacityStaysClose(CapacityFor(geometry.width, source.width), geometry.width, source.width);
    CapacityStaysClose(CapacityFor(geometry.height, source.height), geometry.height, source.height);
    if before.texture.Texture? {
      CapacityStaysClose(before.texture.width, geometry.width, source.width);
      CapacityStaysClose(before.texture.height, geometry.height, source.height);
    }
  }

  lemma CapturedIsSized(before: Backdrop, paint: Paint)
    requires paint.source.Filled() && paint.display.scale > 0
    requires Sized(before) && paint.geometry.width >= 0 && paint.geometry.height >= 0
    ensures Sized(Capture(before, paint).backdrop)
  {
    EnsuredIsSized(before, paint.source, paint.geometry, paint.allocates);
  }

  /** A surface that shrinks by up to a step each way keeps the texture it was given, on the same framebuffer. */
  lemma SmallShrinkKeepsTheTexture(size: int, smaller: int, limit: int)
    requires 0 <= smaller <= size <= smaller + CAPACITY_STEP
    ensures CapacityFits(CapacityFor(size, limit), smaller, limit)
  {
    assert (size + CAPACITY_STEP - 1) / CAPACITY_STEP <= (smaller + CAPACITY_STEP - 1) / CAPACITY_STEP + 1;
  }

  /** By two steps, it always gets another one. */
  lemma LargeShrinkReallocates(size: int, smaller: int, limit: int)
    requires 0 <= smaller && smaller + 2 * CAPACITY_STEP <= size <= limit
    ensures !CapacityFits(CapacityFor(size, limit), smaller, limit)
  {
    CapacityStaysClose(CapacityFor(size, limit), smaller, limit);
  }
}
