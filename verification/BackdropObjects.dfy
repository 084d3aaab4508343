/**
 * The backdrops, surfaces and redraw clip as the objects they are. A backdrop keeps a reference to the clip it looked
 * behind with, so that a capture sees what the clip grew to since; every method is held to the function on values it
 * implements.
 */
module BackdropObjects {
  import opened Options
  import opened Regions
  import opened Captures
  import opened Fingerprints
  import B = BackdropBehind
  import S = Spread

  /** A region that several may hold, such as a view's redraw clip while its filters run. */
  class SharedRegion {
    var points: set<Point>

    constructor (points: set<Point>)
      ensures this.points == points
    {
      this.points := points;
    }
  }

  function ClipOf(clip: SharedRegion?): S.Clip
    reads clip
  {
    if clip == null then S.Full else S.Clip(clip.points)
  }

  class BackdropObject {
    var geometry: Rect
    var shown: Rect
    var valid: set<Point>
    var texture: Texture
    var repainted: SharedRegion?
    var looked: set<Point>
    var spread: set<Point>
    var changes: set<Point>
    var seen: bool
    var changed: bool
    var behindChanged: bool

    constructor ()
      ensures State(null) == NEW_BACKDROP
    {
      geometry, shown, valid, texture := NO_RECT, NO_RECT, {}, NoTexture;
      repainted, looked, spread, changes := null, {}, {}, {};
      seen, changed, behindChanged := false, false, false;
    }

    /** The frame as a value, where `clip` is the live clip of the frame under way. */
    function FrameState(clip: SharedRegion?): S.Frame
      reads this
    {
      S.Frame(
        if repainted == null then S.Nothing else if repainted == clip then S.LiveClip else S.WholeView,
        looked, spread, changes, seen, changed, behindChanged)
    }

    function State(clip: SharedRegion?): Backdrop
      reads this
    {
      Backdrop(geometry, shown, valid, texture, FrameState(clip))
    }

    method Forget()
      modifies this`valid, this`changes
      ensures State(null) == Captures.Forget(old(State(null)))
      ensures valid == {} && changes == {}
    {
      valid, changes := {}, {};
    }

    method ForgetFrame()
      modifies this
      ensures State(null) == old(State(null)).(frame := S.ForgetFrame(old(FrameState(null))))
      ensures !seen && !changed && repainted == null && looked == {} && spread == {}
      ensures changes == old(changes) && behindChanged == old(behindChanged)
    {
      seen, changed, repainted, looked := false, false, null, {};
      if spread == {} {
        return;
      }
      spread := {};
    }

    method TakeChanges() returns (taken: set<Point>)
      modifies this`changes
      ensures taken == old(changes) && changes == {}
    {
      taken, changes := changes, {};
    }

    method NoteChange(pixels: set<Point>)
      modifies this`changes, this`changed
      ensures changes == old(changes) + pixels && changed
    {
      changes, changed := changes + pixels, true;
    }

    /**
     * The first look of a frame begins by keeping what's repainted, a reference to the live clip where there is one.
     */
    method BeginLook(clip: SharedRegion?, layout: Rect, area: Rect)
      modifies this`seen, this`repainted, this`looked
      ensures FrameState(clip) == S.BeginLook(old(FrameState(clip)), ClipOf(clip), layout, area)
      ensures clip != null ==> repainted == clip
      ensures clip == null ==> repainted != null && fresh(repainted) && repainted.points == layout.Points()
    {
      seen := true;
      if clip != null {
        repainted := clip;
      } else {
        repainted := new SharedRegion(layout.Points());
      }
      looked := repainted.points * area.Points();
    }

    /** Once it's known whether anything changed, what another view noticed is used up. */
    method FinishLook(told: bool, ghost clip: SharedRegion?)
      modifies this`behindChanged, this`changes, this`changed
      ensures FrameState(clip) == S.FinishLook(old(FrameState(clip)), told)
    {
      var noticed := told || behindChanged;
      behindChanged := false;
      if noticed && looked != {} {
        NoteChange(looked);
      }
    }

    method LookAtGrowth(clip: SharedRegion, area: Rect)
      modifies this`looked, this`changes, this`changed
      ensures FrameState(clip) == S.LookAtGrowth(old(FrameState(clip)), clip.points, area)
    {
      var grown := clip.points * area.Points() - looked - spread;
      if grown == {} {
        return;
      }
      looked := looked + grown;
      NoteChange(grown);
    }

    method SpreadReach(clip: SharedRegion?, glass: S.Glass) returns (again: bool)
      modifies this`changes, this`spread, clip
      ensures S.Answer(FrameState(clip), ClipOf(clip), again)
        == S.SpreadReach(old(FrameState(clip)), old(ClipOf(clip)), glass)
    {
      var taken := TakeChanges();
      if clip == null {
        return false;
      }
      var sources := (taken + clip.points) * glass.area.Points() - spread;
      if sources == {} {
        return false;
      }
      var repaint := GrowRectangles(sources, glass.reach, glass.reach, glass.area);
      repaint := repaint - clip.points;
      spread := spread + sources;
      if repaint == {} {
        return false;
      }
      spread := spread + repaint;
      clip.points := clip.points + repaint;
      return true;
    }

    method EnsureBackdrop(source: Framebuffer, geometry: Rect, allocates: bool) returns (replaced: bool)
      modifies this`valid, this`geometry, this`shown, this`texture
      ensures (State(repainted), replaced)
        == Captures.EnsureBackdrop(old(State(repainted)), source, geometry, allocates)
    {
      replaced := this.geometry != geometry || !Holds(texture, source, geometry);
      if !replaced {
        return;
      }
      valid, this.geometry, shown := {}, geometry, NO_RECT;
      if Holds(texture, source, geometry) {
        texture := Cleared(texture.width, texture.height);
      } else if allocates {
        texture := Cleared(CapacityFor(geometry.width, source.width), CapacityFor(geometry.height, source.height));
      } else {
        texture := NoTexture;
      }
    }

    /** What `repainted` refers to holds by now, which is what the live clip grew to. */
    function Repainted(): set<Point>
      reads this, repainted
    {
      if repainted == null then {} else repainted.points
    }

    method ClampToShownArea(visible: Rect) returns (moved: bool)
      modifies this`shown
      ensures (State(repainted), moved) == Captures.ClampToShownArea(old(State(repainted)), visible)
    {
      moved := visible.Points() != {} && shown != visible;
      if moved {
        shown := visible;
      }
    }

    method Refresh(visible: set<Point>, source: Framebuffer, display: Display, blits: bool, ghost paint: Paint)
      returns (fresher: bool, redraws: bool)
      requires source.Filled() && display.scale > 0 && visible <= source.pixels.Keys && texture.Texture?
      requires paint.source == source && paint.display == display && paint.blits == blits
      requires paint.repainted == Repainted()
      requires Visible(source, paint.geometry, paint.clip).Points() == visible
      modifies this`valid, this`texture
      ensures Captured(State(repainted), fresher, true, redraws)
        == Captures.Refresh(old(State(repainted)), visible, paint)
    {
      var missing := visible - valid;
      var captured := visible;
      if repainted != null {
        captured := RepaintedPixelsOf(repainted.points, display, source);
      }
      if repainted == null || changed {
        valid := valid - captured;
      }
      captured := captured * visible - valid;
      fresher := repainted == null || changed;
      if captured != {} {
        if blits {
          texture := Blit(texture, source, captured, geometry);
          valid := valid + captured;
        }
        missing := missing * captured;
        fresher := fresher || missing != {};
      }
      redraws := visible - valid != {};
    }

    method Capture(
      source: Framebuffer, geometry: Rect, clip: Option<Edges>, display: Display, allocates: bool, blits: bool)
      returns (changed: bool, kept: bool, redraws: bool)
      requires source.Filled() && display.scale > 0
      modifies this`valid, this`geometry, this`shown, this`texture
      ensures Captured(State(repainted), changed, kept, redraws)
        == Captures.Capture(
             old(State(repainted)), Paint(source, geometry, clip, display, Repainted(), allocates, blits))
    {
      changed := EnsureBackdrop(source, geometry, allocates);
      if texture.NoTexture? {
        return changed, false, false;
      }
      var visible := Visible(source, geometry, clip);
      var moved := ClampToShownArea(visible);
      var fresher;
      fresher, redraws := Refresh(
        visible.Points(), source, display, blits,
        Paint(source, geometry, clip, display, Repainted(), allocates, blits));
      changed, kept := changed || moved || fresher, true;
    }
  }

  /** A rectangle of the stage as the pixels that show it. */
  function ScaledRect(rect: Rect, display: Display): Rect {
    Rect(
      (rect.x - display.layout.x) * display.scale, (rect.y - display.layout.y) * display.scale,
      rect.width * display.scale, rect.height * display.scale)
  }

  lemma ScaledRectShows(rect: Rect, display: Display, p: Point)
    requires display.scale > 0
    ensures ScaledRect(rect, display).Has(p) <==> rect.Has(display.Stage(p))
  {
    var left, top := rect.x - display.layout.x, rect.y - display.layout.y;
    DivideAtMost(p.x, display.scale, left);
    DivideAtMost(p.y, display.scale, top);
    DivideAtMost(p.x, display.scale, left + rect.width);
    DivideAtMost(p.y, display.scale, top + rect.height);
    assert left * display.scale + rect.width * display.scale == (left + rect.width) * display.scale;
    assert top * display.scale + rect.height * display.scale == (top + rect.height) * display.scale;
  }

  /** The pixels that show a region, one rectangle of it at a time. */
  method RepaintedPixelsOf(repainted: set<Point>, display: Display, source: Framebuffer) returns (pixels: set<Point>)
    requires display.scale > 0
    ensures pixels == RepaintedPixels(repainted, display, source)
  {
    var rects := Rectangles(repainted);
    pixels := {};
    for i := 0 to |rects|
      invariant pixels == RepaintedPixels(Union(rects[..i]), display, source)
    {
      var rect := ScaledRect(rects[i], display).Intersect(source.Bounds());
      forall p ensures p in rect.Points() <==> source.Bounds().Has(p) && rects[i].Has(display.Stage(p)) {
        ScaledRectShows(rects[i], display, p);
      }
      assert rects[..i + 1][..i] == rects[..i];
      pixels := pixels + rect.Points();
    }
    assert rects[..|rects|] == rects;
  }

  /** A blurred surface, with a backdrop for each view that asked for one. */
  class Surface {
    var cache: map<nat, BackdropObject>
    const behind: B.Behind

    constructor ()
      ensures cache == map[] && fresh(behind) && behind.mix == Mix
    {
      cache := map[];
      behind := new B.Behind();
    }

    /** What the surface keeps for a view, if only what a new backdrop holds. */
    function Held(view: nat, clip: SharedRegion?): Backdrop
      reads this, On(view)
    {
      if view in cache then cache[view].State(clip) else NEW_BACKDROP
    }

    ghost function On(view: nat): set<BackdropObject>
      reads this
    {
      if view in cache then {cache[view]} else {}
    }

    method BackdropForView(view: nat) returns (backdrop: BackdropObject)
      modifies this
      ensures view in cache && cache[view] == backdrop && old(cache.Values) <= cache.Values
      ensures view in old(cache) ==> cache == old(cache)
      ensures view !in old(cache) ==>
        cache == old(cache)[view := backdrop] && fresh(backdrop) && backdrop.State(null) == NEW_BACKDROP
    {
      if view in cache {
        return cache[view];
      }
      backdrop := new BackdropObject();
      ghost var before := cache;
      cache := cache[view := backdrop];
      assert forall other :: other in before ==> cache[other] == before[other];
    }

    /** Tells every view's backdrop but one that something behind it changed. */
    method MarkBehindChanged(except: BackdropObject?)
      modifies cache.Values`behindChanged
      ensures forall backdrop :: backdrop in cache.Values && backdrop != except ==> backdrop.behindChanged
      ensures forall backdrop :: backdrop in cache.Values && backdrop == except ==>
        backdrop.behindChanged == old(backdrop.behindChanged)
    {
      var left := cache.Values;
      while left != {}
        invariant left <= cache.Values
        invariant forall backdrop :: backdrop in cache.Values - left && backdrop != except ==> backdrop.behindChanged
        invariant forall backdrop :: backdrop in cache.Values && backdrop == except ==>
          backdrop.behindChanged == old(backdrop.behindChanged)
        decreases left
      {
        var backdrop :| backdrop in left;
        if backdrop != except {
          backdrop.behindChanged := true;
        }
        left := left - {backdrop};
      }
    }

    /**
     * Asks the scene behind, which all views share, and the other surfaces on the view. What changed elsewhere is told
     * to the other views.
     */
    method Ask(backdrop: BackdropObject, view: nat, levels: seq<B.Level>, surfaces: seq<Surface>)
      returns (here: bool, elsewhere: bool, refreshes: bool)
      requires backdrop.repainted != null
      modifies behind, cache.Values`behindChanged
      ensures here == old(behind.Tells(levels, backdrop.looked))
      ensures elsewhere == old(behind.Tells(levels, backdrop.repainted.points))
      ensures refreshes <==> SomeRefreshes(surfaces, this, view, backdrop.looked)
      ensures behind.fingerprint == B.Print(behind.mix, levels) && behind.previous == B.Placements(levels)
      ensures backdrop.behindChanged == old(backdrop.behindChanged)
      ensures forall other :: other in cache.Values && other != backdrop ==>
        other.behindChanged == (elsewhere || old(other.behindChanged))
    {
      here, elsewhere := behind.BehindChanged(levels, backdrop.repainted.points, backdrop.looked);
      if elsewhere {
        MarkBehindChanged(backdrop);
      }
      refreshes := OtherGlassRefreshes(surfaces, this, view, backdrop.looked);
    }

    /** What's found out on the first look of a frame, before the frame takes note of it. */
    method Look(
      backdrop: BackdropObject, view: nat, clip: SharedRegion?, layout: Rect, area: Rect, levels: seq<B.Level>,
      surfaces: seq<Surface>)
      returns (here: bool, elsewhere: bool, refreshes: bool)
      modifies backdrop`seen, backdrop`repainted, backdrop`looked, behind, cache.Values`behindChanged
      ensures here == old(behind.Tells(levels, S.Looked(ClipOf(clip), layout, area)))
      ensures elsewhere == old(behind.Tells(levels, S.Whole(ClipOf(clip), layout)))
      ensures refreshes <==> SomeRefreshes(surfaces, this, view, S.Looked(ClipOf(clip), layout, area))
      ensures behind.fingerprint == B.Print(behind.mix, levels) && behind.previous == B.Placements(levels)
      ensures backdrop.FrameState(clip) == S.BeginLook(old(backdrop.FrameState(clip)), ClipOf(clip), layout, area)
      ensures clip != null ==> backdrop.repainted == clip
      ensures forall other :: other in cache.Values && other != backdrop ==>
        other.behindChanged == (elsewhere || old(other.behindChanged))
    {
      backdrop.BeginLook(clip, layout, area);
      here, elsewhere, refreshes := Ask(backdrop, view, levels, surfaces);
    }

    /** The first look of a frame: at the scene behind, and at what other surfaces refresh. */
    method LookBehind(
      backdrop: BackdropObject, view: nat, clip: SharedRegion?, layout: Rect, area: Rect, levels: seq<B.Level>,
      surfaces: seq<Surface>)
      returns (ghost here: bool, ghost elsewhere: bool, ghost refreshes: bool)
      modifies backdrop, behind, cache.Values`behindChanged
      ensures here == old(behind.Tells(levels, S.Looked(ClipOf(clip), layout, area)))
      ensures elsewhere == old(behind.Tells(levels, S.Whole(ClipOf(clip), layout)))
      ensures refreshes <==> old(SomeRefreshes(surfaces, this, view, S.Looked(ClipOf(clip), layout, area)))
      ensures behind.fingerprint == B.Print(behind.mix, levels) && behind.previous == B.Placements(levels)
      ensures backdrop.State(clip) == old(backdrop.State(clip)).(
        frame := S.LookBehind(old(backdrop.FrameState(clip)), ClipOf(clip), layout, area, here || refreshes))
      ensures forall other :: other in cache.Values && other != backdrop ==>
        other.behindChanged == (elsewhere || old(other.behindChanged))
      ensures clip != null ==> backdrop.repainted == clip
    {
      var changed, told, refreshed := Look(backdrop, view, clip, layout, area, levels, surfaces);
      backdrop.FinishLook(changed || refreshed, clip);
      here, elsewhere, refreshes := changed, told, refreshed;
    }

    /** The scene behind or another surface says that something changed where this one is blurred. */
    ghost predicate IsTold(view: nat, levels: seq<B.Level>, surfaces: seq<Surface>, blurred: set<Point>)
      reads behind, Others(surfaces, this)`cache
      reads OnView(Others(surfaces, this), view)`changed, OnView(Others(surfaces, this), view)`spread
    {
      behind.Tells(levels, blurred) || SomeRefreshes(surfaces, this, view, blurred)
    }

    /** One turn of a shown surface, with the view's backdrop; `reported` is what its first look found out. */
    method TakeTurn(
      backdrop: BackdropObject, view: nat, glass: S.Glass, clip: SharedRegion?, layout: Rect, levels: seq<B.Level>,
      surfaces: seq<Surface>)
      returns (again: bool, ghost reported: bool, ghost elsewhere: bool)
      modifies backdrop, behind, cache.Values`behindChanged, clip
      ensures S.Answer(backdrop.FrameState(clip), ClipOf(clip), again)
        == S.SpreadRedrawClip(old(backdrop.FrameState(clip)), old(ClipOf(clip)), layout, glass, reported)
      ensures !old(backdrop.seen) ==>
        reported == old(IsTold(view, levels, surfaces, S.Looked(ClipOf(clip), layout, glass.area)))
      ensures elsewhere == (!old(backdrop.seen) && old(behind.Tells(levels, S.Whole(ClipOf(clip), layout))))
      ensures forall other :: other in cache.Values && other != backdrop ==>
        other.behindChanged == (elsewhere || old(other.behindChanged))
      ensures backdrop.State(clip) == old(backdrop.State(clip)).(frame := backdrop.FrameState(clip))
      ensures !old(backdrop.seen) ==>
        behind.fingerprint == B.Print(behind.mix, levels) && behind.previous == B.Placements(levels)
      ensures old(backdrop.seen) ==>
        behind.fingerprint == old(behind.fingerprint) && behind.previous == old(behind.previous)
    {
      reported, elsewhere := false, false;
      if !backdrop.seen {
        ghost var here, refreshes;
        here, elsewhere, refreshes := LookBehind(backdrop, view, clip, layout, glass.area, levels, surfaces);
        reported := here || refreshes;
      } else if clip != null {
        backdrop.LookAtGrowth(clip, glass.area);
      }
      again := false;
      if backdrop.changed {
        again := backdrop.SpreadReach(clip, glass);
      }
    }

    /** A surface's answer to a view's clip; one that isn't shown there has no `glass`. */
    method SpreadRedrawClip(
      view: nat, glass: Option<S.Glass>, clip: SharedRegion?, layout: Rect, levels: seq<B.Level>,
      surfaces: seq<Surface>)
      returns (again: bool, ghost reported: bool, ghost elsewhere: bool)
      modifies this, On(view), cache.Values`behindChanged, behind, clip
      ensures view in cache && cache == old(cache)[view := cache[view]]
      ensures view in old(cache) ==> cache == old(cache)
      ensures view !in old(cache) ==> fresh(cache[view])
      ensures glass.None? ==> !again && ClipOf(clip) == old(ClipOf(clip))
      ensures glass.None? ==> Held(view, clip) == Captures.Forget(old(Held(view, clip)))
      ensures glass.Some? ==>
        S.Answer(Held(view, clip).frame, ClipOf(clip), again)
        == S.SpreadRedrawClip(old(Held(view, clip).frame), old(ClipOf(clip)), layout, glass.value, reported)
      ensures glass.Some? ==> Held(view, clip) == old(Held(view, clip)).(frame := Held(view, clip).frame)
      ensures glass.Some? && !old(Held(view, clip).frame.seen) ==>
        reported == old(IsTold(view, levels, surfaces, S.Looked(ClipOf(clip), layout, glass.value.area)))
      ensures elsewhere == (glass.Some? && !old(Held(view, clip).frame.seen)
        && old(behind.Tells(levels, S.Whole(ClipOf(clip), layout))))
      ensures forall other :: other in old(cache.Values) && other != cache[view] ==>
        other.behindChanged == (elsewhere || old(other.behindChanged))
    {
      var backdrop := BackdropForView(view);
      reported, elsewhere, again := false, false, false;
      if glass.None? {
        backdrop.Forget();
        return;
      }
      again, reported, elsewhere := TakeTurn(backdrop, view, glass.value, clip, layout, levels, surfaces);
    }
  }

  predicate Refreshes(backdrop: BackdropObject, blurred: set<Point>)
    reads backdrop`changed, backdrop`spread
  {
    backdrop.changed && backdrop.spread * blurred != {}
  }

  ghost function Others(surfaces: seq<Surface>, me: Surface): set<Surface> {
    set other | other in surfaces && other != me
  }

  ghost function OnView(surfaces: set<Surface>, view: nat): set<BackdropObject>
    reads surfaces`cache
  {
    set other | other in surfaces && view in other.cache :: other.cache[view]
  }

  /** A surface other than this one refreshes over what it blurs on a view. */
  ghost predicate SomeRefreshes(surfaces: seq<Surface>, me: Surface, view: nat, blurred: set<Point>)
    reads Others(surfaces, me)`cache
    reads OnView(Others(surfaces, me), view)`changed, OnView(Others(surfaces, me), view)`spread
  {
    exists other :: other in OnView(Others(surfaces, me), view) && Refreshes(other, blurred)
  }

  method OtherGlassRefreshes(surfaces: seq<Surface>, me: Surface, view: nat, blurred: set<Point>)
    returns (refreshes: bool)
    ensures refreshes <==> SomeRefreshes(surfaces, me, view, blurred)
  {
    for i := 0 to |surfaces|
      invariant forall j :: 0 <= j < i ==>
        surfaces[j] != me && view in surfaces[j].cache ==> !Refreshes(surfaces[j].cache[view], blurred)
    {
      var other := surfaces[i];
      if other != me && view in other.cache && Refreshes(other.cache[view], blurred) {
        return true;
      }
    }
    return false;
  }
}
