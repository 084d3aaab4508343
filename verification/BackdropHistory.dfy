/**
 * One blurred surface over any number of views and frames: what its textures hold against what is really behind it.
 *
 * The world behind the surface changes at any time. A view shows a change in its own next frame, whose clip covers it.
 * What looks behind the surface is shared by all views. When a look answers that something changed where its view is
 * repainted, the other views are told through `behindChanged`, and what they were still owed may have been used up;
 * otherwise it's still owed to them. `pending` and `unheard` keep what no code keeps: which pixels changed since a view
 * last painted, and which changes are still to be reported to it.
 */
module BackdropHistory {
  import opened Options
  import opened Regions
  import opened Spread
  import opened Captures

  datatype View = View(
    display: Display,
    width: nat,
    height: nat,
    now: map<Point, Color>,
    known: bool,
    backdrop: Backdrop,
    pending: set<Point>,
    unheard: set<Point>)
  {
    function Bounds(): Rect { Rect(0, 0, width, height) }

    predicate Filled() { display.scale > 0 && now.Keys == Bounds().Points() }
  }

  /** Where and how a frame shows the surface, and the clips its filter finds on its turns; `Full` frames have none. */
  datatype Shown = Shown(glass: Glass, full: bool, clips: seq<set<Point>>, reported: bool, elsewhere: bool)

  /** What a paint brings beyond the frame itself. */
  datatype Drawn = Drawn(geometry: Rect, clip: Option<Edges>, pixels: map<Point, Color>, allocates: bool, blits: bool)

  datatype Event =
    | World(view: nat, now: map<Point, Color>)
    | HiddenFrame(view: nat)
    | ShownFrame(view: nat, shown: Shown, drawn: Option<Drawn>)
    | PaintElsewhere
    | ViewReplaced(view: nat, display: Display, width: nat, height: nat, now: map<Point, Color>)

  function Turns(course: Course, clips: seq<set<Point>>, layout: Rect, glass: Glass, reported: bool): Turn
    requires clips != []
  {
    if |clips| == 1 then TakeTurn(course, clips[0], layout, glass, reported)
    else
      var last := |clips| - 1;
      TakeTurn(Turns(course, clips[..last], layout, glass, reported).course, clips[last], layout, glass, false)
  }

  /** Each turn finds at least the clip the last one left, and only the last asks for no more. */
  ghost predicate Onwards(course: Course, clips: seq<set<Point>>, layout: Rect, glass: Glass, reported: bool)
    requires clips != []
  {
    |clips| > 1 ==>
      && Turns(course, clips[..|clips| - 1], layout, glass, reported).clip <= clips[|clips| - 1]
      && Onwards(course, clips[..|clips| - 1], layout, glass, reported)
  }

  /** The frame's state once the filters are done, and what the clip ended up as. */
  function Filtered(view: View, shown: Shown): (Frame, set<Point>)
    requires shown.clips != []
  {
    var layout := view.display.layout;
    if shown.full then
      var frame := ForgetFrame(view.backdrop.frame);
      (SpreadRedrawClip(frame, Full, layout, shown.glass, shown.reported).frame, layout.Points())
    else
      var turn := Turns(NewCourse(view.backdrop.frame), shown.clips, layout, shown.glass, shown.reported);
      (turn.course.frame, turn.clip)
  }

  function PaintOf(view: View, drawn: Drawn, repainted: set<Point>): Paint {
    Paint(
      Framebuffer(view.width, view.height, drawn.pixels), drawn.geometry, drawn.clip, view.display, repainted,
      drawn.allocates, drawn.blits)
  }

  /** Every other view the surface has a backdrop for is told. */
  function Marked(view: View): View {
    if view.known then view.(backdrop := view.backdrop.(frame := view.backdrop.frame.(behindChanged := true))) else view
  }

  function Heard(view: View): View {
    view.(unheard := {})
  }

  function AfterShown(view: View, shown: Shown, drawn: Option<Drawn>): View
    requires view.Filled() && shown.clips != []
    requires drawn.Some? ==> drawn.value.pixels.Keys == view.now.Keys
  {
    var (frame, clip) := Filtered(view, shown);
    var looked := view.backdrop.(frame := frame);
    view.(
      known := true,
      backdrop := if drawn.Some? then Capture(looked, PaintOf(view, drawn.value, clip)).backdrop else looked,
      pending := {},
      unheard := {})
  }

  function Others(views: seq<View>, me: nat, elsewhere: bool): seq<View> {
    seq(|views|, i requires 0 <= i < |views| =>
      if i != me && elsewhere then Heard(Marked(views[i])) else views[i])
  }

  function Next(views: seq<View>, event: Event): seq<View>
    requires Allowed(views, event)
  {
    match event
    case World(v, now) =>
      var changed := set p | p in now.Keys && now[p] != views[v].now[p];
      views[v := views[v].(now := now, pending := views[v].pending + changed, unheard := views[v].unheard + changed)]
    case HiddenFrame(v) =>
      var backdrop := Forget(views[v].backdrop.(frame := ForgetFrame(views[v].backdrop.frame)));
      views[v := views[v].(known := true, backdrop := backdrop, pending := {})]
    case ShownFrame(v, shown, drawn) =>
      Others(views, v, shown.elsewhere)[v := AfterShown(views[v], shown, drawn)]
    case PaintElsewhere =>
      Others(views, |views|, true)
    case ViewReplaced(v, display, width, height, now) =>
      views[v := View(display, width, height, now, false, NEW_BACKDROP, {}, {})]
  }

  /** The clip covers what changed, so what's in it is painted afresh. */
  ghost predicate Covers(view: View, clip: set<Point>)
    requires view.display.scale > 0
  {
    forall p :: p in view.pending ==> view.display.Stage(p) in clip
  }

  function RepaintedAtFirst(view: View, shown: Shown): set<Point>
    requires shown.clips != []
  {
    if shown.full then view.display.layout.Points() else shown.clips[0]
  }

  /**
   * What looks behind the surface reports what's owed to the view where it's asked to look, and answers that something
   * changed elsewhere if that's so anywhere the view is repainted.
   */
  ghost predicate MissesNothing(view: View, shown: Shown)
    requires view.display.scale > 0 && shown.clips != []
  {
    var repainted := RepaintedAtFirst(view, shown);
    && ((exists p :: p in view.unheard && view.display.Stage(p) in repainted * shown.glass.area.Points()) ==>
          shown.reported)
    && ((exists p :: p in view.unheard && view.display.Stage(p) in repainted) ==> shown.elsewhere)
  }

  /** A frame whose clip reaches the surface paints it, over pixels that are behind it now. */
  ghost predicate Drawable(view: View, shown: Shown, drawn: Option<Drawn>)
    requires view.Filled() && shown.clips != []
  {
    var (frame, clip) := Filtered(view, shown);
    match drawn
    case None => clip * shown.glass.area.Points() == {}
    case Some(it) =>
      && it.pixels.Keys == view.now.Keys
      && it.geometry.width >= 0 && it.geometry.height >= 0
      && forall p :: p in it.pixels && view.display.Stage(p) in clip ==> it.pixels[p] == view.now[p]
  }

  /** Nothing the backdrop trusts lies outside the part of the surface that's looked behind. */
  ghost predicate Attended(view: View, area: Rect)
    requires view.display.scale > 0
  {
    forall p :: p in view.backdrop.valid ==> area.Has(view.display.Stage(p))
  }

  ghost predicate AllowedFrame(views: seq<View>, me: nat, shown: Shown, drawn: Option<Drawn>)
    requires me < |views| && views[me].Filled()
  {
    var view := views[me];
    && shown.clips != []
    && shown.glass.area.Points() <= view.display.layout.Points()
    && (!shown.full ==>
          var course := NewCourse(view.backdrop.frame);
          && Onwards(course, shown.clips, view.display.layout, shown.glass, shown.reported)
          && !Turns(course, shown.clips, view.display.layout, shown.glass, shown.reported).again)
    && Covers(view, RepaintedAtFirst(view, shown))
    && MissesNothing(view, shown)
    && Drawable(view, shown, drawn)
  }

  ghost predicate Allowed(views: seq<View>, event: Event) {
    match event
    case World(v, now) => v < |views| && views[v].Filled() && now.Keys == views[v].now.Keys
    case HiddenFrame(v) => v < |views|
    case ShownFrame(v, shown, drawn) =>
      v < |views| && views[v].Filled() && AllowedFrame(views, v, shown, drawn)
    case PaintElsewhere => true
    case ViewReplaced(v, display, width, height, now) =>
      v < |views| && display.scale > 0 && now.Keys == Rect(0, 0, width, height).Points()
  }

  /** A backdrop's trusted pixels show what's there, apart from those in doubt. */
  ghost predicate Shows(backdrop: Backdrop, now: map<Point, Color>, doubt: set<Point>) {
    forall p :: p in backdrop.valid && backdrop.texture.Texture? ==>
      && backdrop.geometry.Has(p)
      && p in now
      && Texel(p, backdrop.geometry) in backdrop.texture.texels
      && (p in doubt || backdrop.texture.texels[Texel(p, backdrop.geometry)] == now[p])
  }

  /** What always holds of a view: doubts are pending, and the surface has been or will be told of them. */
  ghost predicate Trusted(view: View) {
    && view.Filled()
    && Sized(view.backdrop)
    && Shows(view.backdrop, view.now, view.pending)
    && view.backdrop.frame.changes == {}
    && (view.known || view.backdrop.valid == {})
    && (view.backdrop.frame.behindChanged || view.pending * view.backdrop.valid <= view.unheard)
  }

  // A paint keeps what the backdrop shows.

  lemma BlitSets(texture: Texture, source: Framebuffer, pixels: set<Point>, geometry: Rect, p: Point)
    requires texture.Texture? && pixels <= source.pixels.Keys && Texel(p, geometry) in texture.texels
    ensures var after := Blit(texture, source, pixels, geometry);
      && Texel(p, geometry) in after.texels
      && after.texels[Texel(p, geometry)]
         == if p in pixels then source.pixels[p] else texture.texels[Texel(p, geometry)]
  {
    assert Pixel(Texel(p, geometry), geometry) == p;
  }

  lemma EnsuredShows(
    before: Backdrop, source: Framebuffer, geometry: Rect, allocates: bool, now: map<Point, Color>, doubt: set<Point>)
    requires Shows(before, now, doubt)
    ensures var after := EnsureBackdrop(before, source, geometry, allocates).0;
      && Shows(after, now, doubt) && after.valid <= before.valid
      && after.frame == before.frame && after.geometry == geometry
  {
  }

  /** A texture with room for the geometry has a texel for each of its pixels. */
  lemma RoomForEveryPixel(backdrop: Backdrop, source: Framebuffer, p: Point)
    requires Sized(backdrop) && Holds(backdrop.texture, source, backdrop.geometry) && backdrop.geometry.Has(p)
    ensures Texel(p, backdrop.geometry) in backdrop.texture.texels
  {
    assert Rect(0, 0, backdrop.texture.width, backdrop.texture.height).Has(Texel(p, backdrop.geometry));
  }

  /** What's trusted of a frame's pixels is in no doubt once they're taken afresh. */
  lemma RefreshShows(backdrop: Backdrop, visible: set<Point>, paint: Paint, now: map<Point, Color>, doubt: set<Point>)
    requires paint.source.Filled() && paint.display.scale > 0 && now.Keys == paint.source.pixels.Keys
    requires visible == Visible(paint.source, paint.geometry, paint.clip).Points()
    requires backdrop.geometry == paint.geometry
    requires Sized(backdrop) && Holds(backdrop.texture, paint.source, backdrop.geometry)
    requires Shows(backdrop, now, doubt)
    requires forall p :: p in Painted(backdrop.frame, paint) && p in paint.source.pixels ==>
      paint.source.pixels[p] == now[p]
    ensures Shows(Refresh(backdrop, visible, paint).backdrop, now, Doubts(backdrop.frame, paint, doubt))
  {
    var after := Refresh(backdrop, visible, paint).backdrop;
    var painted := Painted(backdrop.frame, paint);
    var outdated := backdrop.frame.repainted.Nothing? || backdrop.frame.changed;
    var trusted := if outdated then backdrop.valid - painted else backdrop.valid;
    var captured := painted * visible - trusted;
    forall p | p in after.valid
      ensures after.geometry.Has(p) && p in now && Texel(p, after.geometry) in after.texture.texels
      ensures p in Doubts(backdrop.frame, paint, doubt) || after.texture.texels[Texel(p, after.geometry)] == now[p]
    {
      assert p in trusted || p in captured;
      RoomForEveryPixel(backdrop, paint.source, p);
      BlitSets(backdrop.texture, paint.source, captured, backdrop.geometry, p);
    }
  }

  /** The doubts a capture leaves: none among the pixels it takes afresh. */
  function Doubts(frame: Frame, paint: Paint, doubt: set<Point>): set<Point>
    requires paint.display.scale > 0
  {
    if frame.repainted.Nothing? || frame.changed then doubt - Painted(frame, paint) else doubt
  }

  lemma CaptureShows(before: Backdrop, paint: Paint, now: map<Point, Color>, doubt: set<Point>)
    requires paint.source.Filled() && paint.display.scale > 0 && now.Keys == paint.source.pixels.Keys
    requires Sized(before) && paint.geometry.width >= 0 && paint.geometry.height >= 0
    requires Shows(before, now, doubt)
    requires forall p :: p in Painted(before.frame, paint) && p in paint.source.pixels ==>
      paint.source.pixels[p] == now[p]
    ensures Shows(Capture(before, paint).backdrop, now, Doubts(before.frame, paint, doubt))
  {
    var backdrop := EnsureBackdrop(before, paint.source, paint.geometry, paint.allocates).0;
    EnsuredShows(before, paint.source, paint.geometry, paint.allocates, now, doubt);
    EnsuredIsSized(before, paint.source, paint.geometry, paint.allocates);
    if backdrop.texture.Texture? {
      var visible := Visible(paint.source, paint.geometry, paint.clip);
      RefreshShows(ClampToShownArea(backdrop, visible).0, visible.Points(), paint, now, doubt);
    }
  }

  // What the filters leave of a frame.

  lemma {:induction false} TurnsKeep(course: Course, clips: seq<set<Point>>, layout: Rect, glass: Glass, reported: bool)
    requires clips != [] && Kept(course, clips[0], glass) && !course.frame.seen
    requires Onwards(course, clips, layout, glass, reported)
    ensures var turn := Turns(course, clips, layout, glass, reported);
      && Kept(turn.course, turn.clip, glass) && turn.course.frame.seen && clips[0] <= turn.clip
      && turn.course.glimpsed == clips[0] * glass.area.Points()
      && turn.course.told == (reported || course.frame.behindChanged)
      && !turn.course.frame.behindChanged
  {
    var last := |clips| - 1;
    if last == 0 {
      TurnKeeps(course, clips[0], layout, glass, reported);
      TurnStaysSeen(course, clips[0], layout, glass, reported);
      TurnRemembers(course, clips[0], layout, glass, reported);
    } else {
      TurnsKeep(course, clips[..last], layout, glass, reported);
      var turn := Turns(course, clips[..last], layout, glass, reported);
      KeptWhenClipGrows(turn.course, turn.clip, clips[last], glass);
      TurnKeeps(turn.course, clips[last], layout, glass, false);
      TurnRemembers(turn.course, clips[last], layout, glass, false);
      TurnStaysSeen(turn.course, clips[last], layout, glass, false);
    }
  }

  /** A change pending where the surface is looked behind marks the frame as changed. */
  lemma PendingIsNoticed(views: seq<View>, me: nat, shown: Shown, drawn: Option<Drawn>, p: Point)
    requires me < |views| && Trusted(views[me]) && AllowedFrame(views, me, shown, drawn)
    requires p in views[me].pending * views[me].backdrop.valid && shown.glass.area.Has(views[me].display.Stage(p))
    ensures Filtered(views[me], shown).0.changed
  {
    var view := views[me];
    var at := view.display.Stage(p);
    var layout := view.display.layout;
    assert at in shown.glass.area.Points();
    if shown.full {
      assert at in Looked(Full, layout, shown.glass.area);
    } else {
      NewCourseIsKept(view.backdrop.frame, shown.clips[0], shown.glass);
      TurnsKeep(NewCourse(view.backdrop.frame), shown.clips, layout, shown.glass, shown.reported);
      assert at in shown.clips[0] * shown.glass.area.Points();
    }
  }

  lemma FilteredFrame(views: seq<View>, me: nat, shown: Shown, drawn: Option<Drawn>)
    requires me < |views| && Trusted(views[me]) && AllowedFrame(views, me, shown, drawn)
    ensures var (frame, clip) := Filtered(views[me], shown);
      && frame.changes == {} && !frame.repainted.Nothing?
      && forall p :: p in views[me].pending ==> views[me].display.Stage(p) in clip
  {
    var view := views[me];
    if !shown.full {
      NewCourseIsKept(view.backdrop.frame, shown.clips[0], shown.glass);
      TurnsKeep(NewCourse(view.backdrop.frame), shown.clips, view.display.layout, shown.glass, shown.reported);
    }
  }

  lemma NoDoubtLeft(backdrop: Backdrop, now: map<Point, Color>, doubt: set<Point>)
    requires Shows(backdrop, now, doubt)
    requires forall p :: p in doubt && p in now ==> p !in backdrop.valid
    ensures Shows(backdrop, now, {})
  {
  }

  /** A frame that paints the surface leaves no doubt, if it noticed whatever was in doubt. */
  lemma DrawnFrameShows(view: View, shown: Shown, drawn: Drawn)
    requires Trusted(view) && shown.clips != [] && Drawable(view, shown, Some(drawn))
    requires var (frame, clip) := Filtered(view, shown);
      && frame.changes == {} && !frame.repainted.Nothing?
      && (forall p :: p in view.pending ==> view.display.Stage(p) in clip)
      && (forall p :: p in view.pending * view.backdrop.valid ==> frame.changed)
    ensures var after := AfterShown(view, shown, Some(drawn));
      Shows(after.backdrop, after.now, {}) && Sized(after.backdrop) && after.backdrop.frame.changes == {}
  {
    var (frame, clip) := Filtered(view, shown);
    var looked := view.backdrop.(frame := frame);
    var paint := PaintOf(view, drawn, clip);
    CapturedIsSized(looked, paint);
    CaptureKeepsFrame(looked, paint);
    CaptureShows(looked, paint, view.now, view.pending * view.backdrop.valid);
    forall p | p in Doubts(frame, paint, view.pending * view.backdrop.valid) && p in view.now ensures false {
      PendingIsPainted(view, frame, paint, p);
    }
    NoDoubtLeft(Capture(looked, paint).backdrop, view.now, Doubts(frame, paint, view.pending * view.backdrop.valid));
  }

  lemma CaptureKeepsFrame(before: Backdrop, paint: Paint)
    requires paint.source.Filled() && paint.display.scale > 0
    ensures Capture(before, paint).backdrop.frame == before.frame
  {
  }

  lemma PendingIsPainted(view: View, frame: Frame, paint: Paint, p: Point)
    requires paint.display.scale > 0 && !frame.repainted.Nothing?
    requires p in paint.source.Bounds().Points() && paint.display.Stage(p) in paint.repainted
    ensures p in Painted(frame, paint)
  {
  }

  /** The frame takes the surface anew: it moved, or its texture has no room for it. */
  predicate TakenAnew(view: View, drawn: Option<Drawn>) {
    drawn.Some? &&
    (drawn.value.geometry != view.backdrop.geometry
     || !Holds(view.backdrop.texture, Framebuffer(view.width, view.height, drawn.value.pixels), drawn.value.geometry))
  }

  /** Nothing that was trusted before a surface was taken anew matters. */
  lemma TakenAnewShows(views: seq<View>, me: nat, shown: Shown, drawn: Drawn)
    requires me < |views| && Trusted(views[me]) && AllowedFrame(views, me, shown, Some(drawn))
    requires TakenAnew(views[me], Some(drawn))
    ensures var after := AfterShown(views[me], shown, Some(drawn));
      Shows(after.backdrop, after.now, {}) && Sized(after.backdrop) && after.backdrop.frame.changes == {}
  {
    var view := views[me];
    var (frame, clip) := Filtered(view, shown);
    var looked := view.backdrop.(frame := frame);
    var paint := PaintOf(view, drawn, clip);
    FilteredFrame(views, me, shown, Some(drawn));
    CapturedIsSized(looked, paint);
    CaptureKeepsFrame(looked, paint);
    assert Capture(looked, paint) == Capture(looked.(valid := {}), paint);
    CaptureShows(looked.(valid := {}), paint, view.now, {});
    NoDoubtLeft(Capture(looked, paint).backdrop, view.now, Doubts(frame, paint, {}));
  }

  /**
   * After a frame, every pixel a view trusts holds exactly what's behind it now, provided that nothing it trusted
   * before lay outside the part of the surface that's looked behind, or that the surface was taken anew.
   */
  lemma FrameShowsWhatIsThere(views: seq<View>, me: nat, shown: Shown, drawn: Option<Drawn>)
    requires me < |views| && Trusted(views[me]) && AllowedFrame(views, me, shown, drawn)
    requires Attended(views[me], shown.glass.area) || TakenAnew(views[me], drawn)
    ensures var after := AfterShown(views[me], shown, drawn);
      Shows(after.backdrop, after.now, {}) && Sized(after.backdrop) && after.backdrop.frame.changes == {}
  {
    if TakenAnew(views[me], drawn) {
      TakenAnewShows(views, me, shown, drawn.value);
    } else {
      AttendedFrameShows(views, me, shown, drawn);
    }
  }

  lemma AttendedFrameShows(views: seq<View>, me: nat, shown: Shown, drawn: Option<Drawn>)
    requires me < |views| && Trusted(views[me]) && AllowedFrame(views, me, shown, drawn)
    requires Attended(views[me], shown.glass.area)
    ensures var after := AfterShown(views[me], shown, drawn);
      Shows(after.backdrop, after.now, {}) && Sized(after.backdrop) && after.backdrop.frame.changes == {}
  {
    var view := views[me];
    var (frame, clip) := Filtered(view, shown);
    FilteredFrame(views, me, shown, drawn);
    forall p | p in view.pending * view.backdrop.valid ensures frame.changed {
      PendingIsNoticed(views, me, shown, drawn, p);
    }
    if drawn.Some? {
      DrawnFrameShows(view, shown, drawn.value);
    } else {
      assert forall p :: p in view.pending * view.backdrop.valid ==>
        view.display.Stage(p) in clip * shown.glass.area.Points();
      NoDoubtLeft(view.backdrop.(frame := frame), view.now, view.pending);
    }
  }

  // Other views.

  /** A change that a look finds where its view is repainted is told to every other view that has a backdrop. */
  lemma NoticedIsTold(views: seq<View>, me: nat, shown: Shown, drawn: Option<Drawn>, p: Point, i: nat)
    requires Allowed(views, ShownFrame(me, shown, drawn)) && i < |views| && i != me && views[i].known
    requires p in views[me].unheard && views[me].display.Stage(p) in RepaintedAtFirst(views[me], shown)
    ensures Next(views, ShownFrame(me, shown, drawn))[i].backdrop.frame.behindChanged
  {
  }

  /** What isn't told to the others is still owed to them; either way no change is lost for them. */
  lemma OthersAreTold(views: seq<View>, me: nat, elsewhere: bool, i: nat)
    requires i < |views| && i != me && Trusted(views[i])
    ensures var other := Others(views, me, elsewhere)[i];
      && Trusted(other) && other.pending == views[i].pending && other.backdrop.valid == views[i].backdrop.valid
      && (other.unheard == views[i].unheard || !other.known || other.backdrop.frame.behindChanged)
      && (!elsewhere ==> other == views[i])
  {
  }

  /** A paint that's for no view tells every view that has a backdrop. */
  lemma PaintElsewhereTellsAll(views: seq<View>, i: nat)
    requires i < |views| && views[i].known
    ensures Next(views, PaintElsewhere)[i].backdrop.frame.behindChanged
  {
  }

  /** A view has a backdrop from its first frame, shown or hidden, until it's replaced. */
  lemma KnownExactly(views: seq<View>, event: Event, i: nat)
    requires Allowed(views, event) && i < |views|
    ensures Next(views, event)[i].known
      <==> if (event.HiddenFrame? || event.ShownFrame?) && event.view == i then true
           else !(event.ViewReplaced? && event.view == i) && views[i].known
  {
  }

  /** What an event asks of the surface itself: a frame looks behind all that its view trusts, or takes it anew. */
  ghost predicate AttendedBy(views: seq<View>, event: Event)
    requires Allowed(views, event)
  {
    event.ShownFrame? ==>
      Attended(views[event.view], event.shown.glass.area) || TakenAnew(views[event.view], event.drawn)
  }

  lemma NextKeepsTrust(views: seq<View>, event: Event)
    requires Allowed(views, event) && AttendedBy(views, event)
    requires forall i :: 0 <= i < |views| ==> Trusted(views[i])
    ensures |Next(views, event)| == |views|
    ensures forall i :: 0 <= i < |views| ==> Trusted(Next(views, event)[i])
    ensures event.ShownFrame? ==> Next(views, event)[event.view].pending == {}
  {
    match event
    case World(v, now) =>
    case HiddenFrame(v) =>
    case ShownFrame(v, shown, drawn) =>
      FrameShowsWhatIsThere(views, v, shown, drawn);
      forall i | 0 <= i < |views| && i != v ensures Trusted(Next(views, event)[i]) {
        OthersAreTold(views, v, shown.elsewhere, i);
      }
    case PaintElsewhere =>
      forall i | 0 <= i < |views| ensures Trusted(Next(views, event)[i]) {
        OthersAreTold(views, |views|, true, i);
      }
    case ViewReplaced(v, display, width, height, now) =>
  }

  // Whole runs.

  ghost function Run(views: seq<View>, events: seq<Event>): Option<seq<View>> {
    if events == [] then Some(views)
    else
      var before := Run(views, events[..|events| - 1]);
      if before.None? || !Allowed(before.value, events[|events| - 1]) then None
      else Some(Next(before.value, events[|events| - 1]))
  }

  ghost predicate AllAttended(views: seq<View>, events: seq<Event>)
    requires Run(views, events).Some?
  {
    events != [] ==>
      && AllAttended(views, events[..|events| - 1])
      && AttendedBy(Run(views, events[..|events| - 1]).value, events[|events| - 1])
  }

  /**
   * Over any run of changes, frames, hidden frames, failed copies, paints elsewhere and replaced views, of surfaces
   * that stay, move or change their size, whatever a view trusts holds what was behind it when the view last painted,
   * and what changed since is still to be noticed.
   */
  lemma {:induction false} RunKeepsTrust(views: seq<View>, events: seq<Event>)
    requires Run(views, events).Some? && AllAttended(views, events)
    requires forall i :: 0 <= i < |views| ==> Trusted(views[i])
    ensures |Run(views, events).value| == |views|
    ensures forall i :: 0 <= i < |views| ==> Trusted(Run(views, events).value[i])
  {
    if events != [] {
      RunKeepsTrust(views, events[..|events| - 1]);
      NextKeepsTrust(Run(views, events[..|events| - 1]).value, events[|events| - 1]);
    }
  }

  // What the surface's own actor has to do for that.

  /**
   * What a view's frames have been given since the surface was last hidden there: the last area, and the last geometry.
   */
  datatype Sight = Unseen | Seen(area: Rect, geometry: Option<Rect>)

  function SightOf(events: seq<Event>, v: nat): Sight {
    if events == [] then Unseen
    else
      var before := SightOf(events[..|events| - 1], v);
      match events[|events| - 1]
      case HiddenFrame(view) => if view == v then Unseen else before
      case ViewReplaced(view, _, _, _, _) => if view == v then Unseen else before
      case ShownFrame(view, shown, drawn) =>
        if view != v then before
        else Seen(
          shown.glass.area,
          if drawn.Some? then Some(drawn.value.geometry) else if before.Seen? then before.geometry else None)
      case _ => before
  }

  function VisibleOf(view: View, drawn: Drawn): Rect {
    Visible(Framebuffer(view.width, view.height, drawn.pixels), drawn.geometry, drawn.clip)
  }

  /** What's visible is looked behind, and the looked-behind area only shrinks together with another geometry. */
  ghost predicate SteadyFrame(sight: Sight, view: View, shown: Shown, drawn: Option<Drawn>)
    requires view.display.scale > 0
  {
    && (drawn.Some? ==>
         forall p :: VisibleOf(view, drawn.value).Has(p) ==> shown.glass.area.Has(view.display.Stage(p)))
    && (sight.Seen? && sight.geometry.Some? ==>
         || (drawn.Some? && drawn.value.geometry != sight.geometry.value)
         || sight.area.Points() <= shown.glass.area.Points())
  }

  ghost predicate Steady(views: seq<View>, events: seq<Event>)
    requires Run(views, events).Some?
  {
    events != [] ==>
      && Steady(views, events[..|events| - 1])
      && var event := events[|events| - 1];
         event.ShownFrame? ==>
           SteadyFrame(
             SightOf(events[..|events| - 1], event.view), Run(views, events[..|events| - 1]).value[event.view],
             event.shown, event.drawn)
  }

  /** What's trusted lies where the surface was last looked behind. */
  ghost predicate Sighted(sight: Sight, view: View) {
    if sight.Seen? && sight.geometry.Some? then
      view.display.scale > 0 && view.backdrop.geometry == sight.geometry.value && Attended(view, sight.area)
    else view.backdrop.valid == {}
  }

  /** A capture trusts nothing new but what's visible, and nothing old of another geometry. */
  lemma CaptureTrustsVisible(before: Backdrop, paint: Paint)
    requires paint.source.Filled() && paint.display.scale > 0
    ensures var after := Capture(before, paint).backdrop;
      && after.geometry == paint.geometry
      && forall p :: p in after.valid ==>
           || (p in before.valid && before.geometry == paint.geometry)
           || Visible(paint.source, paint.geometry, paint.clip).Has(p)
  {
  }

  lemma FrameStaysSighted(sight: Sight, view: View, shown: Shown, drawn: Option<Drawn>)
    requires view.Filled() && shown.clips != [] && (drawn.Some? ==> drawn.value.pixels.Keys == view.now.Keys)
    requires Sighted(sight, view) && SteadyFrame(sight, view, shown, drawn)
    ensures Attended(view, shown.glass.area) || TakenAnew(view, drawn)
    ensures var geometry :=
        if drawn.Some? then Some(drawn.value.geometry) else if sight.Seen? then sight.geometry else None;
      Sighted(Seen(shown.glass.area, geometry), AfterShown(view, shown, drawn))
  {
    var (frame, clip) := Filtered(view, shown);
    if drawn.Some? {
      CaptureTrustsVisible(view.backdrop.(frame := frame), PaintOf(view, drawn.value, clip));
    }
    if sight.Seen? && sight.geometry.Some? && sight.area.Points() <= shown.glass.area.Points() {
      forall p | p in view.backdrop.valid ensures shown.glass.area.Has(view.display.Stage(p)) {
        assert view.display.Stage(p) in sight.area.Points();
      }
    }
  }

  lemma {:induction false} SteadyRunsAreSighted(views: seq<View>, events: seq<Event>)
    requires Run(views, events).Some? && Steady(views, events)
    requires forall i :: 0 <= i < |views| ==> views[i].backdrop.valid == {}
    ensures AllAttended(views, events) && |Run(views, events).value| == |views|
    ensures forall i :: 0 <= i < |views| ==> Sighted(SightOf(events, i), Run(views, events).value[i])
  {
    if events != [] {
      var most, event := events[..|events| - 1], events[|events| - 1];
      SteadyRunsAreSighted(views, most);
      var before := Run(views, most).value;
      if event.ShownFrame? {
        FrameStaysSighted(SightOf(most, event.view), before[event.view], event.shown, event.drawn);
      }
    }
  }

  /**
   * From nothing trusted, every run in which what's visible is looked behind, and the looked-behind area doesn't shrink
   * while the geometry stays, keeps what every view trusts right.
   */
  lemma SteadyRunKeepsTrust(views: seq<View>, events: seq<Event>)
    requires Run(views, events).Some? && Steady(views, events)
    requires forall i :: 0 <= i < |views| ==> Trusted(views[i]) && views[i].backdrop.valid == {}
    ensures |Run(views, events).value| == |views|
    ensures forall i :: 0 <= i < |views| ==> Trusted(Run(views, events).value[i])
  {
    SteadyRunsAreSighted(views, events);
    RunKeepsTrust(views, events);
  }

  // Exactly when a surface keeps up.

  /**
   * Whatever changes behind a view, a frame of the surface at a geometry leaves the view trusting only what's there. A
   * frame that doesn't draw the surface leaves it where it was.
   */
  ghost predicate KeepsUp(view: View, glass: Glass, geometry: Rect) {
    forall now: map<Point, Color>, shown: Shown, drawn: Option<Drawn> ::
      shown.glass == glass && geometry == (if drawn.Some? then drawn.value.geometry else view.backdrop.geometry)
      && Allowed([view], World(0, now)) && Allowed(Next([view], World(0, now)), ShownFrame(0, shown, drawn)) ==>
        Trusted(Next(Next([view], World(0, now)), ShownFrame(0, shown, drawn))[0])
  }

  /**
   * What's trusted outside the looked-behind part isn't kept up: a frame that shows a change there goes by unnoticed.
   * The geometry leaves out the actor's own clip and the looked-behind area keeps to it, so an actor whose clip shrinks
   * gets there.
   */
  lemma UnattendedGoesStale(view: View, glass: Glass, p: Point)
    requires Trusted(view) && view.pending == {} && view.unheard == {} && !view.backdrop.frame.behindChanged
    requires glass.area.Points() <= view.display.layout.Points()
    requires p in view.backdrop.valid && view.backdrop.texture.Texture? && !glass.area.Has(view.display.Stage(p))
    ensures !KeepsUp(view, glass, view.backdrop.geometry)
  {
    var changed := view.now[p := view.now[p] + 1];
    var at := view.display.Stage(p);
    var shown := Shown(glass, false, [{at}], false, true);
    assert changed.Keys == view.now.Keys;
    var views := Next([view], World(0, changed));
    assert views[0].pending == {p} && views[0].unheard == {p};
    assert {at} * glass.area.Points() == {};
    NewCourseIsKept(view.backdrop.frame, {at}, glass);
    TurnKeeps(NewCourse(view.backdrop.frame), {at}, view.display.layout, glass, false);
    assert Allowed(views, ShownFrame(0, shown, None));
    var after := Next(views, ShownFrame(0, shown, None))[0];
    assert p in after.backdrop.valid && after.backdrop.texture == view.backdrop.texture;
  }

  /** A surface keeps up exactly when it moves, or looks behind everything it trusts. */
  lemma KeepsUpWhenAttended(view: View, glass: Glass, geometry: Rect)
    requires Trusted(view) && view.pending == {} && view.unheard == {} && !view.backdrop.frame.behindChanged
    requires glass.area.Points() <= view.display.layout.Points() && view.backdrop.texture.Texture?
    ensures KeepsUp(view, glass, geometry) <==> geometry != view.backdrop.geometry || Attended(view, glass.area)
  {
    if geometry != view.backdrop.geometry || Attended(view, glass.area) {
      forall now: map<Point, Color>, shown: Shown, drawn: Option<Drawn> |
        shown.glass == glass && geometry == (if drawn.Some? then drawn.value.geometry else view.backdrop.geometry)
        && Allowed([view], World(0, now)) && Allowed(Next([view], World(0, now)), ShownFrame(0, shown, drawn))
        ensures Trusted(Next(Next([view], World(0, now)), ShownFrame(0, shown, drawn))[0])
      {
        NextKeepsTrust([view], World(0, now));
        NextKeepsTrust(Next([view], World(0, now)), ShownFrame(0, shown, drawn));
      }
    } else {
      var p :| p in view.backdrop.valid && !glass.area.Has(view.display.Stage(p));
      UnattendedGoesStale(view, glass, p);
    }
  }
}
