/**
 * Square pictures of premultiplied colour, painted with soft inks and stamped onto each other. Numbers are real: the
 * rounding of single-precision colours isn't modelled.
 */
module Pictures {
  import opened Options
  import opened Grids

  datatype Pixel = Pixel(red: real, green: real, blue: real, alpha: real)

  datatype Ink = Ink(red: real, green: real, blue: real, alpha: real)

  const CLEAR := Pixel(0.0, 0.0, 0.0, 0.0)

  predicate Within(value: real, low: real, high: real) { low <= value <= high }

  predicate Premultiplied(p: Pixel) {
    && Within(p.red, 0.0, p.alpha)
    && Within(p.green, 0.0, p.alpha)
    && Within(p.blue, 0.0, p.alpha)
    && Within(p.alpha, 0.0, 1.0)
  }

  predicate InRange(ink: Ink) {
    Within(ink.red, 0.0, 1.0) && Within(ink.green, 0.0, 1.0) && Within(ink.blue, 0.0, 1.0) && ink.alpha <= 1.0
  }

  /** Lays an ink over a pixel; an ink with no alpha leaves it alone. */
  function Laid(under: Pixel, ink: Option<Ink>): Pixel {
    if ink.None? || ink.value.alpha <= 0.0 then under
    else Over(under, ink.value, 1.0 - ink.value.alpha)
  }

  function Over(under: Pixel, ink: Ink, rest: real): Pixel {
    Pixel(
      ink.red * ink.alpha + under.red * rest,
      ink.green * ink.alpha + under.green * rest,
      ink.blue * ink.alpha + under.blue * rest,
      ink.alpha + under.alpha * rest)
  }

  /**
   * Laying an ink takes every channel from what's under it towards the ink's own by as much as the ink's alpha, and
   * alpha itself towards one: a full ink covers, and one that's half there goes half the way.
   */
  lemma LaidGoesTowardsInk(under: Pixel, ink: Ink)
    requires ink.alpha > 0.0
    ensures var laid := Laid(under, Some(ink));
      && laid.red == under.red + (ink.red - under.red) * ink.alpha
      && laid.green == under.green + (ink.green - under.green) * ink.alpha
      && laid.blue == under.blue + (ink.blue - under.blue) * ink.alpha
      && laid.alpha == under.alpha + (1.0 - under.alpha) * ink.alpha
  {
    GoesTowards(under.red, ink.red, ink.alpha);
    GoesTowards(under.green, ink.green, ink.alpha);
    GoesTowards(under.blue, ink.blue, ink.alpha);
    GoesTowards(under.alpha, 1.0, ink.alpha);
  }

  lemma GoesTowards(under: real, ink: real, alpha: real)
    ensures ink * alpha + under * (1.0 - alpha) == under + (ink - under) * alpha
  {
  }

  lemma Scales(a: real, b: real, factor: real)
    requires a <= b && 0.0 <= factor
    ensures a * factor <= b * factor
  {
  }

  lemma ChannelStays(channel: real, alpha: real, rest: real, under: real, underAlpha: real)
    requires Within(channel, 0.0, 1.0) && 0.0 <= alpha && 0.0 <= rest && Within(under, 0.0, underAlpha)
    ensures Within(channel * alpha + under * rest, 0.0, alpha + underAlpha * rest)
  {
    StaysScaled(channel, 1.0, alpha);
    StaysScaled(under, underAlpha, rest);
    StaysAdded(channel * alpha, alpha, under * rest, underAlpha * rest);
  }

  lemma StaysScaled(value: real, high: real, factor: real)
    requires Within(value, 0.0, high) && 0.0 <= factor
    ensures Within(value * factor, 0.0, high * factor)
  {
    Scales(0.0, value, factor);
    Scales(value, high, factor);
  }

  lemma StaysAdded(a: real, aHigh: real, b: real, bHigh: real)
    requires Within(a, 0.0, aHigh) && Within(b, 0.0, bHigh)
    ensures Within(a + b, 0.0, aHigh + bHigh)
  {
  }

  lemma LaidStaysPremultiplied(under: Pixel, ink: Option<Ink>)
    requires Premultiplied(under) && (ink.Some? && ink.value.alpha > 0.0 ==> InRange(ink.value))
    ensures Premultiplied(Laid(under, ink))
  {
    if ink.Some? && ink.value.alpha > 0.0 {
      InkStays(under, ink.value, 1.0 - ink.value.alpha);
    }
  }

  lemma InkStays(under: Pixel, ink: Ink, rest: real)
    requires Premultiplied(under) && InRange(ink) && ink.alpha > 0.0 && ink.alpha + rest == 1.0
    ensures Premultiplied(Over(under, ink, rest))
  {
    RedStays(under, ink, rest);
    GreenStays(under, ink, rest);
    BlueStays(under, ink, rest);
    AlphaStays(ink.alpha, rest, under.alpha);
  }

  lemma RedStays(under: Pixel, ink: Ink, rest: real)
    requires Premultiplied(under) && InRange(ink) && ink.alpha > 0.0 && ink.alpha + rest == 1.0
    ensures Within(Over(under, ink, rest).red, 0.0, Over(under, ink, rest).alpha)
  {
    ChannelStays(ink.red, ink.alpha, rest, under.red, under.alpha);
  }

  lemma GreenStays(under: Pixel, ink: Ink, rest: real)
    requires Premultiplied(under) && InRange(ink) && ink.alpha > 0.0 && ink.alpha + rest == 1.0
    ensures Within(Over(under, ink, rest).green, 0.0, Over(under, ink, rest).alpha)
  {
    ChannelStays(ink.green, ink.alpha, rest, under.green, under.alpha);
  }

  lemma BlueStays(under: Pixel, ink: Ink, rest: real)
    requires Premultiplied(under) && InRange(ink) && ink.alpha > 0.0 && ink.alpha + rest == 1.0
    ensures Within(Over(under, ink, rest).blue, 0.0, Over(under, ink, rest).alpha)
  {
    ChannelStays(ink.blue, ink.alpha, rest, under.blue, under.alpha);
  }

  lemma AlphaStays(alpha: real, rest: real, under: real)
    requires 0.0 <= alpha && 0.0 <= rest && alpha + rest == 1.0 && Within(under, 0.0, 1.0)
    ensures Within(alpha + under * rest, 0.0, 1.0)
  {
    Scales(under, 1.0, rest);
    Scales(0.0, under, rest);
  }

  lemma ProductHasSign(a: real, b: real)
    requires b > 0.0
    ensures a > 0.0 <==> a * b > 0.0
    ensures a < 0.0 <==> a * b < 0.0
  {
  }

  lemma ChannelIsBelow(channel: real, alpha: real)
    requires alpha > 0.0
    ensures Within(channel, 0.0, 1.0) <==> Within(channel * alpha, 0.0, alpha)
  {
    ProductHasSign(channel, alpha);
    ProductHasSign(channel - 1.0, alpha);
    assert (channel - 1.0) * alpha == channel * alpha - alpha;
  }

  lemma LaidOverNothing(ink: Ink)
    requires ink.alpha > 0.0
    ensures Premultiplied(Laid(CLEAR, Some(ink))) <==> InRange(ink)
  {
    var laid := Laid(CLEAR, Some(ink));
    assert laid == Pixel(ink.red * ink.alpha, ink.green * ink.alpha, ink.blue * ink.alpha, ink.alpha);
    ChannelIsBelow(ink.red, ink.alpha);
    ChannelIsBelow(ink.green, ink.alpha);
    ChannelIsBelow(ink.blue, ink.alpha);
  }

  ghost predicate Keeps(ink: Ink) {
    forall under :: Premultiplied(under) ==> Premultiplied(Laid(under, Some(ink)))
  }

  /** An ink keeps every pixel premultiplied exactly when it's in range or leaves everything alone. */
  lemma InksInRangeAreTheOnesThatKeep(ink: Ink)
    ensures Keeps(ink) <==> ink.alpha <= 0.0 || InRange(ink)
  {
    if ink.alpha <= 0.0 || InRange(ink) {
      forall under | Premultiplied(under) ensures Premultiplied(Laid(under, Some(ink))) {
        LaidStaysPremultiplied(under, Some(ink));
      }
    } else {
      LaidOverNothing(ink);
    }
  }

  // Painting.

  type Inks = (real, real) -> Option<Ink>

  predicate AllPremultiplied(pixels: seq<Pixel>) {
    forall i :: 0 <= i < |pixels| ==> Premultiplied(pixels[i])
  }

  /** Where the middle of a pixel is, from -1 to 1. */
  function Place(i: nat, size: nat): real
    requires size > 0
  {
    (i as real + 0.5) / size as real * 2.0 - 1.0
  }

  function InkOf(inks: Inks, size: nat, i: nat): Option<Ink>
    requires size > 0
  {
    inks(Place(i % size, size), Place(i / size, size))
  }

  function Painted(pixels: seq<Pixel>, size: nat, inks: Inks): (painted: seq<Pixel>)
    requires size == 0 ==> pixels == []
    ensures |painted| == |pixels|
    ensures forall i {:trigger painted[i]} :: 0 <= i < |pixels| ==> painted[i] == Laid(pixels[i], InkOf(inks, size, i))
  {
    seq(|pixels|, i requires 0 <= i < |pixels| => Laid(pixels[i], InkOf(inks, size, i)))
  }

  predicate KeepsColour(ink: Option<Ink>) {
    ink.Some? && ink.value.alpha > 0.0 ==> InRange(ink.value)
  }

  ghost predicate InksInRange(inks: Inks) {
    forall x, y :: KeepsColour(inks(x, y))
  }

  lemma PaintedStaysPremultiplied(pixels: seq<Pixel>, size: nat, inks: Inks)
    requires (size == 0 ==> pixels == []) && AllPremultiplied(pixels) && InksInRange(inks)
    ensures AllPremultiplied(Painted(pixels, size, inks))
  {
    forall i | 0 <= i < |pixels| ensures Premultiplied(Painted(pixels, size, inks)[i]) {
      LaidStaysPremultiplied(pixels[i], InkOf(inks, size, i));
    }
  }

  // Sampling.

  function Clamp(value: real, low: real, high: real): real {
    var raised := if value < low then low else value;
    if raised > high then high else raised
  }

  function ClampIndex(value: int, low: int, high: int): int {
    var raised := if value < low then low else value;
    if raised > high then high else raised
  }

  function Mix(from: real, to: real, amount: real): real { from + (to - from) * amount }

  function MixPixels(from: Pixel, to: Pixel, amount: real): Pixel {
    Pixel(
      Mix(from.red, to.red, amount), Mix(from.green, to.green, amount), Mix(from.blue, to.blue, amount),
      Mix(from.alpha, to.alpha, amount))
  }

  lemma MixIsBetween(from: real, to: real, fromLimit: real, toLimit: real, amount: real)
    requires from <= fromLimit && to <= toLimit && Within(amount, 0.0, 1.0)
    ensures Mix(from, to, amount) <= Mix(fromLimit, toLimit, amount)
  {
    MixOfDifferences(from, to, fromLimit, toLimit, amount);
    MixIsPositive(fromLimit - from, toLimit - to, amount);
  }

  lemma MixOfDifferences(from: real, to: real, fromLimit: real, toLimit: real, amount: real)
    ensures Mix(fromLimit - from, toLimit - to, amount) == Mix(fromLimit, toLimit, amount) - Mix(from, to, amount)
  {
  }

  lemma MixIsPositive(from: real, to: real, amount: real)
    requires 0.0 <= from && 0.0 <= to && Within(amount, 0.0, 1.0)
    ensures 0.0 <= Mix(from, to, amount)
  {
    if from <= to {
      Scales(0.0, to - from, amount);
    } else {
      Scales(amount, 1.0, from - to);
    }
  }

  lemma MixOfSame(value: real, amount: real)
    ensures Mix(value, value, amount) == value
  {
  }

  lemma MixChannelStays(from: real, to: real, fromAlpha: real, toAlpha: real, amount: real)
    requires Within(from, 0.0, fromAlpha) && Within(to, 0.0, toAlpha) && Within(amount, 0.0, 1.0)
    ensures Within(Mix(from, to, amount), 0.0, Mix(fromAlpha, toAlpha, amount))
  {
    MixIsBetween(from, to, fromAlpha, toAlpha, amount);
    MixIsBetween(0.0, 0.0, from, to, amount);
    MixOfSame(0.0, amount);
  }

  lemma MixStaysPremultiplied(from: Pixel, to: Pixel, amount: real)
    requires Premultiplied(from) && Premultiplied(to) && Within(amount, 0.0, 1.0)
    ensures Premultiplied(MixPixels(from, to, amount))
  {
    MixChannelStays(from.red, to.red, from.alpha, to.alpha, amount);
    MixChannelStays(from.green, to.green, from.alpha, to.alpha, amount);
    MixChannelStays(from.blue, to.blue, from.alpha, to.alpha, amount);
    MixChannelStays(from.alpha, to.alpha, 1.0, 1.0, amount);
    MixOfSame(1.0, amount);
  }

  function PixelAt(pixels: seq<Pixel>, size: nat, column: nat, row: nat): Pixel
    requires |pixels| == Span(size, size) && column < size && row < size
  {
    AtFits(column, row, size, size);
    pixels[At(column, row, size)]
  }

  /** Where a place is among the middles of the pixels. */
  function Coordinate(place: real, size: nat): real { (place + 1.0) / 2.0 * size as real - 0.5 }

  function Before(coordinate: real, size: nat): (index: nat)
    requires size >= 2
    ensures index <= size - 2
  {
    ClampIndex(coordinate.Floor, 0, size - 2)
  }

  function Past(coordinate: real, size: nat): (amount: real)
    requires size >= 2
    ensures Within(amount, 0.0, 1.0)
  {
    Clamp(coordinate - Before(coordinate, size) as real, 0.0, 1.0)
  }

  /** The colour at a place, between the four pixels around it; a picture of less than two by two has none. */
  function Sample(pixels: seq<Pixel>, size: nat, x: real, y: real): Option<Pixel>
    requires |pixels| == Span(size, size)
  {
    if size < 2 then None
    else
      var u, v := Coordinate(x, size), Coordinate(y, size);
      var left, top := Before(u, size), Before(v, size);
      Some(MixFour(
        PixelAt(pixels, size, left, top), PixelAt(pixels, size, left + 1, top),
        PixelAt(pixels, size, left, top + 1), PixelAt(pixels, size, left + 1, top + 1), Past(u, size), Past(v, size)))
  }

  function MixFour(a: Pixel, b: Pixel, c: Pixel, d: Pixel, across: real, down: real): Pixel {
    MixPixels(MixPixels(a, b, across), MixPixels(c, d, across), down)
  }

  lemma MixFourStaysPremultiplied(a: Pixel, b: Pixel, c: Pixel, d: Pixel, across: real, down: real)
    requires Premultiplied(a) && Premultiplied(b) && Premultiplied(c) && Premultiplied(d)
    requires Within(across, 0.0, 1.0) && Within(down, 0.0, 1.0)
    ensures Premultiplied(MixFour(a, b, c, d, across, down))
  {
    MixStaysPremultiplied(a, b, across);
    MixStaysPremultiplied(c, d, across);
    MixStaysPremultiplied(MixPixels(a, b, across), MixPixels(c, d, across), down);
  }

  lemma SampleIsPremultiplied(pixels: seq<Pixel>, size: nat, x: real, y: real)
    requires |pixels| == Span(size, size) && AllPremultiplied(pixels) && size >= 2
    ensures Premultiplied(Sample(pixels, size, x, y).value)
  {
    var u, v := Coordinate(x, size), Coordinate(y, size);
    var left, top := Before(u, size), Before(v, size);
    PixelIsPremultiplied(pixels, size, left, top);
    PixelIsPremultiplied(pixels, size, left + 1, top);
    PixelIsPremultiplied(pixels, size, left, top + 1);
    PixelIsPremultiplied(pixels, size, left + 1, top + 1);
    MixFourStaysPremultiplied(
      PixelAt(pixels, size, left, top), PixelAt(pixels, size, left + 1, top),
      PixelAt(pixels, size, left, top + 1), PixelAt(pixels, size, left + 1, top + 1), Past(u, size), Past(v, size));
  }

  lemma PixelIsPremultiplied(pixels: seq<Pixel>, size: nat, column: nat, row: nat)
    requires |pixels| == Span(size, size) && column < size && row < size && AllPremultiplied(pixels)
    ensures Premultiplied(PixelAt(pixels, size, column, row))
  {
    AtFits(column, row, size, size);
  }

  // Stamping.

  datatype Stamp = Stamp(centerX: real, centerY: real, scale: real, cos: real, sin: real, strength: real)

  /** The straight colour of a pixel, more or less strong; none, where there's nothing. */
  function StraightInk(sampled: Option<Pixel>, strength: real): Option<Ink> {
    if sampled.None? || sampled.value.alpha == 0.0 then None
    else
      var p := sampled.value;
      Some(Ink(p.red / p.alpha, p.green / p.alpha, p.blue / p.alpha, p.alpha * strength))
  }

  /** The ink of another picture's place. A scale of nothing puts every place outside of it. */
  function TurnedInk(inside: Inks, stamp: Stamp, x: real, y: real): Option<Ink> {
    if stamp.scale == 0.0 then None
    else
      var dx, dy := (x - stamp.centerX) / stamp.scale, (y - stamp.centerY) / stamp.scale;
      inside(Along(dx, dy, stamp.cos, stamp.sin), Along(dy, -dx, stamp.cos, stamp.sin))
  }

  function Along(x: real, y: real, cos: real, sin: real): real { x * cos + y * sin }

  function Turned(inside: Inks, stamp: Stamp): Inks {
    (x, y) => TurnedInk(inside, stamp, x, y)
  }

  function InsideInks(pixels: seq<Pixel>, size: nat, strength: real): Inks
    requires |pixels| == Span(size, size)
  {
    (u, v) => InkInside(pixels, size, strength, u, v)
  }

  function StampInks(pixels: seq<Pixel>, size: nat, stamp: Stamp): Inks
    requires |pixels| == Span(size, size)
  {
    Turned(InsideInks(pixels, size, stamp.strength), stamp)
  }

  /** What a picture leaves at a place of its own, if that's inside of it. */
  function InkInside(pixels: seq<Pixel>, size: nat, strength: real, u: real, v: real): Option<Ink>
    requires |pixels| == Span(size, size)
  {
    if u >= 1.0 || u <= -1.0 || v >= 1.0 || v <= -1.0 then None
    else StraightInk(Sample(pixels, size, u, v), strength)
  }

  /** Where a stamp puts what's at a place of the other picture: turned, then scaled, then moved. */
  function StampedX(stamp: Stamp, u: real, v: real): real {
    stamp.centerX + stamp.scale * (u * stamp.cos - v * stamp.sin)
  }

  function StampedY(stamp: Stamp, u: real, v: real): real {
    stamp.centerY + stamp.scale * (u * stamp.sin + v * stamp.cos)
  }

  /** Every place of the other picture is inked where the stamp puts it, if its sine and cosine are of one angle. */
  lemma StampIsTurnedScaledAndMoved(inside: Inks, stamp: Stamp, u: real, v: real)
    requires stamp.scale != 0.0 && stamp.cos * stamp.cos + stamp.sin * stamp.sin == 1.0
    ensures TurnedInk(inside, stamp, StampedX(stamp, u, v), StampedY(stamp, u, v)) == inside(u, v)
  {
    var dx, dy := u * stamp.cos - v * stamp.sin, u * stamp.sin + v * stamp.cos;
    Unscales(stamp.centerX, stamp.scale, dx);
    Unscales(stamp.centerY, stamp.scale, dy);
    TurnsBack(u, v, stamp.cos, stamp.sin, dx, dy);
    InkOfTurned(inside, stamp, StampedX(stamp, u, v), StampedY(stamp, u, v), dx, dy);
  }

  lemma InkOfTurned(inside: Inks, stamp: Stamp, x: real, y: real, dx: real, dy: real)
    requires stamp.scale != 0.0 && (x - stamp.centerX) / stamp.scale == dx && (y - stamp.centerY) / stamp.scale == dy
    ensures TurnedInk(inside, stamp, x, y)
      == inside(Along(dx, dy, stamp.cos, stamp.sin), Along(dy, -dx, stamp.cos, stamp.sin))
  {
  }

  /** A stamped picture's middle is at the stamp's, and its sides point where the angle says. */
  lemma StampedAxes(stamp: Stamp)
    ensures StampedX(stamp, 0.0, 0.0) == stamp.centerX && StampedY(stamp, 0.0, 0.0) == stamp.centerY
    ensures StampedX(stamp, 1.0, 0.0) == stamp.centerX + stamp.scale * stamp.cos
    ensures StampedY(stamp, 1.0, 0.0) == stamp.centerY + stamp.scale * stamp.sin
    ensures StampedX(stamp, 0.0, 1.0) == stamp.centerX - stamp.scale * stamp.sin
    ensures StampedY(stamp, 0.0, 1.0) == stamp.centerY + stamp.scale * stamp.cos
  {
  }

  lemma Unscales(center: real, scale: real, distance: real)
    requires scale != 0.0
    ensures (center + scale * distance - center) / scale == distance
  {
    assert center + scale * distance - center == distance * scale;
    assert distance * scale / scale == distance;
  }

  lemma TurnsBack(u: real, v: real, cos: real, sin: real, dx: real, dy: real)
    requires cos * cos + sin * sin == 1.0 && dx == u * cos - v * sin && dy == u * sin + v * cos
    ensures Along(dx, dy, cos, sin) == u && Along(dy, -dx, cos, sin) == v
  {
    TurnsThere(u, v, cos, sin, dx, dy);
    assert u * (cos * cos + sin * sin) == u && v * (cos * cos + sin * sin) == v;
  }

  lemma TurnsThere(u: real, v: real, cos: real, sin: real, dx: real, dy: real)
    requires dx == u * cos - v * sin && dy == u * sin + v * cos
    ensures Along(dx, dy, cos, sin) == u * (cos * cos + sin * sin)
    ensures Along(dy, -dx, cos, sin) == v * (cos * cos + sin * sin)
  {
  }

  /** A picture inks its own square only, with a sample's straight colour there. */
  lemma InkInsideExactly(pixels: seq<Pixel>, size: nat, strength: real, u: real, v: real)
    requires |pixels| == Span(size, size)
    ensures InkInside(pixels, size, strength, u, v)
      == if -1.0 < u < 1.0 && -1.0 < v < 1.0 then StraightInk(Sample(pixels, size, u, v), strength) else None
  {
  }

  /** Straight colour is what alpha makes premultiplied again; it's as strong as it's stamped. */
  lemma StraightInkExactly(p: Pixel, strength: real)
    ensures var ink := StraightInk(Some(p), strength);
      && (ink.None? <==> p.alpha == 0.0)
      && (ink.Some? ==> ink.value.alpha == p.alpha * strength)
      && (ink.Some? ==> ink.value.red * p.alpha == p.red)
      && (ink.Some? ==> ink.value.green * p.alpha == p.green)
      && (ink.Some? ==> ink.value.blue * p.alpha == p.blue)
  {
    if p.alpha != 0.0 {
      TimesBack(p.red, p.alpha);
      TimesBack(p.green, p.alpha);
      TimesBack(p.blue, p.alpha);
    }
  }

  lemma TimesBack(channel: real, alpha: real)
    requires alpha != 0.0
    ensures channel / alpha * alpha == channel
  {
  }

  /** A premultiplied pixel's ink is in range exactly when its alpha is, however strong it's made. */
  lemma StraightInkInRange(p: Pixel, strength: real)
    requires Premultiplied(p) && p.alpha != 0.0
    ensures InRange(StraightInk(Some(p), strength).value) <==> p.alpha * strength <= 1.0
  {
    StraightIsWithin(p.red, p.alpha);
    StraightIsWithin(p.green, p.alpha);
    StraightIsWithin(p.blue, p.alpha);
  }

  lemma StraightIsWithin(channel: real, alpha: real)
    requires alpha > 0.0 && Within(channel, 0.0, alpha)
    ensures Within(channel / alpha, 0.0, 1.0)
  {
    ChannelIsBelow(channel / alpha, alpha);
  }

  lemma InkInsideInRange(pixels: seq<Pixel>, size: nat, strength: real, u: real, v: real)
    requires |pixels| == Span(size, size) && AllPremultiplied(pixels) && strength <= 1.0
    ensures KeepsColour(InkInside(pixels, size, strength, u, v))
  {
    if size >= 2 {
      SampleIsPremultiplied(pixels, size, u, v);
      SampledInkInRange(Sample(pixels, size, u, v).value, strength);
    }
  }

  lemma SampledInkInRange(p: Pixel, strength: real)
    requires Premultiplied(p) && strength <= 1.0
    ensures KeepsColour(StraightInk(Some(p), strength))
  {
    if p.alpha != 0.0 {
      Scales(strength, 1.0, p.alpha);
      StraightInkInRange(p, strength);
    }
  }

  lemma InsideInksInRange(pixels: seq<Pixel>, size: nat, strength: real)
    requires |pixels| == Span(size, size) && AllPremultiplied(pixels) && strength <= 1.0
    ensures InksInRange(InsideInks(pixels, size, strength))
  {
    forall u, v ensures KeepsColour(InsideInks(pixels, size, strength)(u, v)) {
      InkInsideInRange(pixels, size, strength, u, v);
    }
  }

  lemma TurnedInksInRange(inside: Inks, stamp: Stamp)
    requires InksInRange(inside)
    ensures InksInRange(Turned(inside, stamp))
  {
    forall x, y ensures KeepsColour(Turned(inside, stamp)(x, y)) {
      if stamp.scale != 0.0 {
        var dx, dy := (x - stamp.centerX) / stamp.scale, (y - stamp.centerY) / stamp.scale;
        assert KeepsColour(inside(Along(dx, dy, stamp.cos, stamp.sin), Along(dy, -dx, stamp.cos, stamp.sin)));
      }
    }
  }

  lemma StampInksInRange(pixels: seq<Pixel>, size: nat, stamp: Stamp)
    requires |pixels| == Span(size, size) && AllPremultiplied(pixels) && stamp.strength <= 1.0
    ensures InksInRange(StampInks(pixels, size, stamp))
  {
    InsideInksInRange(pixels, size, stamp.strength);
    TurnedInksInRange(InsideInks(pixels, size, stamp.strength), stamp);
  }

  // Whole pictures.

  /** How a picture is made: from nothing, painting inks and stamping other pictures. */
  datatype Making =
    | Empty
    | Paint(before: Making, inks: Inks)
    | StampOn(before: Making, other: Making, otherSize: nat, stamp: Stamp)
    | StampOnItself(before: Making, stamp: Stamp)

  function Nothing(size: nat): (pixels: seq<Pixel>)
    ensures |pixels| == Span(size, size) && forall i :: 0 <= i < |pixels| ==> pixels[i] == CLEAR
  {
    seq(Span(size, size), i requires 0 <= i < Span(size, size) => CLEAR)
  }

  /** Inks that depend on what the picture holds by then. */
  type Reading = seq<Pixel> -> Inks

  /** As far as some pixel, each with an ink of what was painted before it. */
  function PaintedAsItGoes(pixels: seq<Pixel>, size: nat, reading: Reading, count: nat): (painted: seq<Pixel>)
    requires size > 0 && count <= |pixels|
    ensures |painted| == |pixels|
  {
    if count == 0 then pixels
    else
      var at, painted := count - 1, PaintedAsItGoes(pixels, size, reading, count - 1);
      painted[at := Laid(painted[at], InkOf(reading(painted), size, at))]
  }

  function OwnInks(size: nat, stamp: Stamp): Reading {
    pixels => if |pixels| == Span(size, size) then StampInks(pixels, size, stamp) else (x, y) => None
  }

  function StampedOnItself(pixels: seq<Pixel>, size: nat, stamp: Stamp): (painted: seq<Pixel>)
    ensures |painted| == |pixels|
  {
    if size == 0 then pixels else PaintedAsItGoes(pixels, size, OwnInks(size, stamp), |pixels|)
  }

  ghost predicate ReadsInRange(reading: Reading) {
    forall pixels: seq<Pixel> :: AllPremultiplied(pixels) ==> InksInRange(reading(pixels))
  }

  /** Though inks are taken from pixels that are painted already, none gets out of range. */
  lemma {:induction false} PaintedAsItGoesStaysPremultiplied(
    pixels: seq<Pixel>, size: nat, reading: Reading, count: nat)
    requires size > 0 && count <= |pixels| && AllPremultiplied(pixels) && ReadsInRange(reading)
    ensures AllPremultiplied(PaintedAsItGoes(pixels, size, reading, count))
  {
    if count > 0 {
      var at, painted := count - 1, PaintedAsItGoes(pixels, size, reading, count - 1);
      PaintedAsItGoesStaysPremultiplied(pixels, size, reading, at);
      LaidStaysPremultiplied(painted[at], InkOf(reading(painted), size, at));
    }
  }

  lemma StampedOnItselfStaysPremultiplied(pixels: seq<Pixel>, size: nat, stamp: Stamp)
    requires AllPremultiplied(pixels) && stamp.strength <= 1.0
    ensures AllPremultiplied(StampedOnItself(pixels, size, stamp))
  {
    if size > 0 {
      forall own: seq<Pixel> | AllPremultiplied(own) ensures InksInRange(OwnInks(size, stamp)(own)) {
        if |own| == Span(size, size) {
          StampInksInRange(own, size, stamp);
        }
      }
      PaintedAsItGoesStaysPremultiplied(pixels, size, OwnInks(size, stamp), |pixels|);
    }
  }

  function Made(making: Making, size: nat): (pixels: seq<Pixel>)
    ensures |pixels| == Span(size, size)
  {
    match making
    case Empty => Nothing(size)
    case Paint(before, inks) => Painted(Made(before, size), size, inks)
    case StampOn(before, other, otherSize, stamp) =>
      Painted(Made(before, size), size, StampInks(Made(other, otherSize), otherSize, stamp))
    case StampOnItself(before, stamp) => StampedOnItself(Made(before, size), size, stamp)
  }

  /** Every ink that's painted is in range, and nothing is stamped stronger than it is. */
  ghost predicate Careful(making: Making) {
    match making
    case Empty => true
    case Paint(before, inks) => Careful(before) && InksInRange(inks)
    case StampOn(before, other, otherSize, stamp) => Careful(before) && Careful(other) && stamp.strength <= 1.0
    case StampOnItself(before, stamp) => Careful(before) && stamp.strength <= 1.0
  }

  /** However a picture is made, its colour stays premultiplied at every pixel. */
  lemma {:induction false} ColourStaysPremultiplied(making: Making, size: nat)
    requires Careful(making)
    ensures AllPremultiplied(Made(making, size))
  {
    match making
    case Empty =>
    case Paint(before, inks) =>
      ColourStaysPremultiplied(before, size);
      PaintedStaysPremultiplied(Made(before, size), size, inks);
    case StampOn(before, other, otherSize, stamp) =>
      ColourStaysPremultiplied(before, size);
      ColourStaysPremultiplied(other, otherSize);
      StampInksInRange(Made(other, otherSize), otherSize, stamp);
      PaintedStaysPremultiplied(Made(before, size), size, StampInks(Made(other, otherSize), otherSize, stamp));
    case StampOnItself(before, stamp) =>
      ColourStaysPremultiplied(before, size);
      StampedOnItselfStaysPremultiplied(Made(before, size), size, stamp);
  }

  class Picture {
    const size: nat
    const pixels: array<Pixel>

    ghost predicate Valid() { pixels.Length == Span(size, size) }

    function Shown(): (shown: seq<Pixel>)
      requires Valid()
      reads pixels
      ensures |shown| == Span(size, size)
    {
      pixels[..]
    }

    constructor (size: nat)
      ensures Valid() && this.size == size && fresh(pixels) && Shown() == Nothing(size)
    {
      this.size := size;
      pixels := new Pixel[Span(size, size)](_ => CLEAR);
    }

    method Paint(inks: Inks)
      requires Valid()
      modifies pixels
      ensures Shown() == Painted(old(Shown()), size, inks)
    {
      ghost var before, after := pixels[..], Painted(pixels[..], size, inks);
      for row := 0 to size
        invariant Upto(row, size) <= |before|
        invariant pixels[..] == after[..Upto(row, size)] + before[Upto(row, size)..]
      {
        PaintRow(inks, row, before, after);
      }
      assert after[..|after|] + before[|before|..] == after;
    }

    method PaintRow(inks: Inks, row: nat, ghost before: seq<Pixel>, ghost after: seq<Pixel>)
      requires Valid() && row < size && |before| == |after| == pixels.Length && Upto(row, size) <= |before|
      requires forall i {:trigger after[i]} :: 0 <= i < |after| ==> after[i] == Laid(before[i], InkOf(inks, size, i))
      requires pixels[..] == after[..Upto(row, size)] + before[Upto(row, size)..]
      modifies pixels
      ensures pixels[..] == after[..Upto(row + 1, size)] + before[Upto(row + 1, size)..]
    {
      for column := 0 to size
        invariant At(column, row, size) <= |before|
        invariant pixels[..] == after[..At(column, row, size)] + before[At(column, row, size)..]
      {
        AtFits(column, row, size, size);
        PaintPixel(inks, column, row);
        TakesOneMore(before, after, At(column, row, size));
      }
    }

    method PaintPixel(inks: Inks, column: nat, row: nat)
      requires Valid() && column < size && row < size && At(column, row, size) < pixels.Length
      modifies pixels
      ensures var at := At(column, row, size);
        pixels[..] == old(pixels[..])[at := Laid(old(pixels[..])[at], InkOf(inks, size, at))]
    {
      IndexOf(column, row, size);
      SpanIsProduct(row, size);
      var ink := inks(Place(column, size), Place(row, size));
      if ink.Some? && ink.value.alpha > 0.0 {
        var at := row * size + column;
        pixels[at] := Laid(pixels[at], ink);
      }
    }

    /** Lays another picture over this one, or this one over itself while it's being painted. */
    method Stamp(other: Picture, stamp: Stamp)
      requires Valid() && other.Valid() && (other != this ==> other.pixels != pixels)
      modifies pixels
      ensures other != this ==> Shown() == Painted(old(Shown()), size, StampInks(old(other.Shown()), other.size, stamp))
      ensures other == this ==> Shown() == StampedOnItself(old(Shown()), size, stamp)
    {
      if other != this {
        Paint(StampInks(other.Shown(), other.size, stamp));
      } else if size > 0 {
        PaintAsItGoes(OwnInks(size, stamp));
      }
    }

    method PaintAsItGoes(reading: Reading)
      requires Valid() && size > 0
      modifies pixels
      ensures Shown() == PaintedAsItGoes(old(Shown()), size, reading, Span(size, size))
    {
      ghost var before := pixels[..];
      for row := 0 to size
        invariant Upto(row, size) <= |before|
        invariant pixels[..] == PaintedAsItGoes(before, size, reading, Upto(row, size))
      {
        PaintRowAsItGoes(reading, row, before);
      }
    }

    method PaintRowAsItGoes(reading: Reading, row: nat, ghost before: seq<Pixel>)
      requires Valid() && row < size && |before| == pixels.Length && Upto(row, size) <= |before|
      requires pixels[..] == PaintedAsItGoes(before, size, reading, Upto(row, size))
      modifies pixels
      ensures pixels[..] == PaintedAsItGoes(before, size, reading, Upto(row + 1, size))
    {
      for column := 0 to size
        invariant At(column, row, size) <= |before|
        invariant pixels[..] == PaintedAsItGoes(before, size, reading, At(column, row, size))
      {
        AtFits(column, row, size, size);
        PaintPixel(reading(Shown()), column, row);
      }
    }
  }

  lemma TakesOneMore(before: seq<Pixel>, after: seq<Pixel>, done: nat)
    requires done < |before| == |after|
    ensures (after[..done] + before[done..])[done] == before[done]
    ensures (after[..done] + before[done..])[done := after[done]] == after[..done + 1] + before[done + 1..]
  {
  }

  function Upto(row: nat, size: nat): (index: nat)
    requires row <= size
    ensures index <= Span(size, size)
  {
    SpanGrows(row, size, size);
    Span(row, size)
  }

  lemma IndexOf(column: nat, row: nat, size: nat)
    requires column < size && row < size
    ensures At(column, row, size) % size == column && At(column, row, size) / size == row
  {
    SpanIsProduct(row, size);
    RowAndColumn(column, row, size, At(column, row, size));
  }

  // Stamping a picture where it's meant to be copies it.

  const IN_PLACE := Stamp(0.0, 0.0, 1.0, 1.0, 0.0, 1.0)

  lemma PlaceIsItsOwn(i: nat, size: nat)
    requires i < size
    ensures Coordinate(Place(i, size), size) == i as real && -1.0 < Place(i, size) < 1.0
  {
    var middle, whole := i as real + 0.5, size as real;
    DividesBack(middle, whole);
    DivisionStays(middle, whole);
  }

  lemma DividesBack(a: real, b: real)
    requires b > 0.0
    ensures (a / b * 2.0 - 1.0 + 1.0) / 2.0 * b == a
  {
    assert (a / b * 2.0 - 1.0 + 1.0) / 2.0 == a / b;
  }

  lemma DivisionStays(a: real, b: real)
    requires 0.0 < a < b
    ensures 0.0 < a / b < 1.0
  {
    var quotient := a / b;
    assert (quotient - 1.0) * b == a - b;
    ProductHasSign(quotient, b);
    ProductHasSign(quotient - 1.0, b);
  }

  lemma SampleAtMiddle(pixels: seq<Pixel>, size: nat, column: nat, row: nat)
    requires size >= 2 && |pixels| == Span(size, size) && column < size && row < size
    ensures Sample(pixels, size, Place(column, size), Place(row, size)) == Some(PixelAt(pixels, size, column, row))
  {
    PlaceIsItsOwn(column, size);
    PlaceIsItsOwn(row, size);
    var left, top := Before(column as real, size), Before(row as real, size);
    MixesToOne(
      PixelAt(pixels, size, left, top), PixelAt(pixels, size, left + 1, top), PixelAt(pixels, size, left, top + 1),
      PixelAt(pixels, size, left + 1, top + 1), if column == left then 0.0 else 1.0, if row == top then 0.0 else 1.0);
  }

  /** Between the middles of four pixels, a sample is mixed from them by how far across and down it is. */
  lemma SampleBetween(pixels: seq<Pixel>, size: nat, column: nat, row: nat, across: real, down: real)
    requires |pixels| == Span(size, size) && column + 1 < size && row + 1 < size
    requires 0.0 <= across < 1.0 && 0.0 <= down < 1.0
    ensures Sample(pixels, size, PlaceFrom(column, across, size), PlaceFrom(row, down, size)) == Some(MixFour(
      PixelAt(pixels, size, column, row), PixelAt(pixels, size, column + 1, row),
      PixelAt(pixels, size, column, row + 1), PixelAt(pixels, size, column + 1, row + 1), across, down))
  {
    CoordinateFrom(column, across, size);
    CoordinateFrom(row, down, size);
  }

  /** A place some way from the middle of a pixel to that of the next. */
  function PlaceFrom(i: nat, amount: real, size: nat): real
    requires size > 0
  {
    (i as real + amount + 0.5) / size as real * 2.0 - 1.0
  }

  lemma CoordinateFrom(i: nat, amount: real, size: nat)
    requires i + 1 < size && 0.0 <= amount < 1.0
    ensures Before(Coordinate(PlaceFrom(i, amount, size), size), size) == i
    ensures Past(Coordinate(PlaceFrom(i, amount, size), size), size) == amount
  {
    DividesBack(i as real + amount + 0.5, size as real);
    assert Coordinate(PlaceFrom(i, amount, size), size) == i as real + amount;
    assert (i as real + amount).Floor == i;
  }

  lemma MixesToOne(a: Pixel, b: Pixel, c: Pixel, d: Pixel, across: real, down: real)
    requires (across == 0.0 || across == 1.0) && (down == 0.0 || down == 1.0)
    ensures MixFour(a, b, c, d, across, down)
      == if across == 0.0 then (if down == 0.0 then a else c) else (if down == 0.0 then b else d)
  {
    MixesToEnd(a, b, across);
    MixesToEnd(c, d, across);
    MixesToEnd(MixPixels(a, b, across), MixPixels(c, d, across), down);
  }

  lemma MixesToEnd(a: Pixel, b: Pixel, amount: real)
    requires amount == 0.0 || amount == 1.0
    ensures MixPixels(a, b, amount) == if amount == 0.0 then a else b
  {
    MixEnd(a.red, b.red, amount);
    MixEnd(a.green, b.green, amount);
    MixEnd(a.blue, b.blue, amount);
    MixEnd(a.alpha, b.alpha, amount);
  }

  lemma MixEnd(a: real, b: real, amount: real)
    requires amount == 0.0 || amount == 1.0
    ensures Mix(a, b, amount) == if amount == 0.0 then a else b
  {
    if amount == 0.0 {
      assert (b - a) * 0.0 == 0.0;
    }
  }

  /** Stamped over nothing at its own size and in its place, a picture comes out as it is. */
  lemma StampInPlaceCopies(shown: seq<Pixel>, size: nat)
    requires size >= 2 && |shown| == Span(size, size) && AllPremultiplied(shown)
    ensures Painted(Nothing(size), size, StampInks(shown, size, IN_PLACE)) == shown
  {
    var inks := StampInks(shown, size, IN_PLACE);
    forall i | 0 <= i < |shown| ensures Laid(CLEAR, InkOf(inks, size, i)) == shown[i] {
      StampedPixel(shown, size, i);
    }
    AllCopied(inks, size, shown);
  }

  lemma AllCopied(inks: Inks, size: nat, shown: seq<Pixel>)
    requires size > 0 && |shown| == Span(size, size)
    requires forall i :: 0 <= i < |shown| ==> Laid(CLEAR, InkOf(inks, size, i)) == shown[i]
    ensures Painted(Nothing(size), size, inks) == shown
  {
  }

  lemma StampedPixel(shown: seq<Pixel>, size: nat, i: nat)
    requires size >= 2 && |shown| == Span(size, size) && AllPremultiplied(shown) && i < |shown|
    ensures Laid(CLEAR, InkOf(StampInks(shown, size, IN_PLACE), size, i)) == shown[i]
  {
    PixelOfIndex(shown, size, i);
    InkInPlace(shown, size, i % size, i / size);
    PixelIsCopied(InsideInks(shown, size, 1.0), size, i, shown[i]);
  }

  lemma PixelIsCopied(inside: Inks, size: nat, i: nat, p: Pixel)
    requires size > 0 && Premultiplied(p)
    requires inside(Place(i % size, size), Place(i / size, size)) == StraightInk(Some(p), 1.0)
    ensures Laid(CLEAR, InkOf(Turned(inside, IN_PLACE), size, i)) == p
  {
    InPlaceIsInside(inside, Place(i % size, size), Place(i / size, size));
    OwnInkOverNothing(p);
  }

  lemma PixelOfIndex(pixels: seq<Pixel>, size: nat, i: nat)
    requires size > 0 && |pixels| == Span(size, size) && i < |pixels|
    ensures i / size < size && PixelAt(pixels, size, i % size, i / size) == pixels[i]
  {
    SpanIsProduct(size, size);
    QuotientIsBelow(i, size, size);
    RowAndColumn(i % size, i / size, size, i);
    SpanIsProduct(i / size, size);
  }

  lemma InkInPlace(shown: seq<Pixel>, size: nat, column: nat, row: nat)
    requires size >= 2 && |shown| == Span(size, size) && column < size && row < size
    ensures InkInside(shown, size, 1.0, Place(column, size), Place(row, size))
      == StraightInk(Some(PixelAt(shown, size, column, row)), 1.0)
  {
    SampleAtMiddle(shown, size, column, row);
    PlaceIsItsOwn(column, size);
    PlaceIsItsOwn(row, size);
  }

  lemma InPlaceIsInside(inside: Inks, x: real, y: real)
    ensures TurnedInk(inside, IN_PLACE, x, y) == inside(x, y)
  {
    assert (x - 0.0) / 1.0 == x && (y - 0.0) / 1.0 == y;
  }

  lemma OwnInkOverNothing(p: Pixel)
    requires Premultiplied(p)
    ensures Laid(CLEAR, StraightInk(Some(p), 1.0)) == p
  {
  }
}
