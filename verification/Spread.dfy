/**
 * How one blurred surface answers a view's redraw clip during a frame, as functions on values.
 *
 * The clip filters of a frame run in rounds, and each may find a clip that others have grown since its last turn.
 * `Glass` is what stays put during a frame, `Frame` is what the surface keeps, and `Course` adds what no code keeps:
 * which pixels of the ring the surface has spread from, and which it only added itself.
 */
module Spread {
  import opened Regions

  /** What `repainted` refers to: nothing, the live clip itself, or the whole view. */
  datatype Repainted = Nothing | LiveClip | WholeView

  datatype Frame = Frame(
    repainted: Repainted,
    looked: set<Point>,
    spread: set<Point>,
    changes: set<Point>,
    seen: bool,
    changed: bool,
    behindChanged: bool)

  const NEW_FRAME := Frame(Nothing, {}, {}, {}, false, false, false)

  /** The clip a filter is called with; a full redraw has none. */
  datatype Clip = Full | Clip(points: set<Point>)

  datatype Glass = Glass(area: Rect, reach: nat)

  datatype Answer = Answer(frame: Frame, clip: Clip, again: bool)

  /** How many pixels of the view a blur's reach takes, given how many pixels of the display it is. */
  function RingWidth(reach: real, scale: real): (width: int)
    requires scale > 0.0
    ensures width as real - 1.0 < reach / scale <= width as real
    ensures reach > 0.0 ==> width >= 1
  {
    -(-(reach / scale)).Floor
  }

  /** What of the view is painted again. */
  function Whole(clip: Clip, layout: Rect): set<Point> {
    if clip.Full? then layout.Points() else clip.points
  }

  function Looked(clip: Clip, layout: Rect, area: Rect): set<Point> {
    Whole(clip, layout) * area.Points()
  }

  function NoteChange(frame: Frame, pixels: set<Point>): Frame {
    frame.(changes := frame.changes + pixels, changed := true)
  }

  /** Keeps what's repainted, for the look and for the capture that follows. */
  function BeginLook(frame: Frame, clip: Clip, layout: Rect, area: Rect): Frame {
    frame.(
      seen := true, repainted := if clip.Full? then WholeView else LiveClip, looked := Looked(clip, layout, area))
  }

  /** What another view noticed for this one is used up. */
  function FinishLook(frame: Frame, reported: bool): Frame {
    var seen := frame.(behindChanged := false);
    if (reported || frame.behindChanged) && frame.looked != {} then NoteChange(seen, frame.looked) else seen
  }

  /** The surface's first turn in a frame, where `reported` says whether anything behind it is told to have changed. */
  function LookBehind(frame: Frame, clip: Clip, layout: Rect, area: Rect, reported: bool): Frame {
    FinishLook(BeginLook(frame, clip, layout, area), reported)
  }

  /** Every later turn: what the clip gained inside the area, other than the surface's own ring, counts as changed. */
  function LookAtGrowth(frame: Frame, clip: set<Point>, area: Rect): Frame {
    var grown := clip * area.Points() - frame.looked - frame.spread;
    if grown == {} then frame else NoteChange(frame.(looked := frame.looked + grown), grown)
  }

  function Sources(frame: Frame, clip: set<Point>, area: Rect): set<Point> {
    (frame.changes + clip) * area.Points() - frame.spread
  }

  function Ring(sources: set<Point>, clip: set<Point>, glass: Glass): set<Point> {
    Reached(sources, glass.reach, glass.reach, glass.area.Points()) - clip
  }

  function SpreadReach(frame: Frame, clip: Clip, glass: Glass): Answer {
    var taken := frame.(changes := {});
    if clip.Full? then Answer(taken, clip, false) else
    var sources := Sources(frame, clip.points, glass.area);
    var ring := Ring(sources, clip.points, glass);
    if sources == {} then Answer(taken, clip, false)
    else Answer(taken.(spread := frame.spread + sources + ring), Clip(clip.points + ring), ring != {})
  }

  function Look(frame: Frame, clip: Clip, layout: Rect, glass: Glass, reported: bool): Frame {
    if !frame.seen then LookBehind(frame, clip, layout, glass.area, reported)
    else if clip.Clip? then LookAtGrowth(frame, clip.points, glass.area)
    else frame
  }

  /** One turn of a shown surface. */
  function SpreadRedrawClip(frame: Frame, clip: Clip, layout: Rect, glass: Glass, reported: bool): Answer {
    var looked := Look(frame, clip, layout, glass, reported);
    if looked.changed then SpreadReach(looked, clip, glass) else Answer(looked, clip, false)
  }

  /** Before the view paints again; what another view noticed for this one stays. */
  function ForgetFrame(frame: Frame): Frame {
    frame.(repainted := Nothing, looked := {}, spread := {}, seen := false, changed := false)
  }

  // What a surface keeps over its turns in one frame.

  /**
   * A frame, with the pixels it has spread from (`core`), the pixels it added to the clip itself (`ring`), and what it
   * saw on its first turn: the part of the clip inside its area (`glimpsed`), and whether it was told of a change.
   */
  datatype Course = Course(frame: Frame, core: set<Point>, ring: set<Point>, glimpsed: set<Point>, told: bool)

  datatype Turn = Turn(course: Course, clip: set<Point>, again: bool)

  function NewCourse(frame: Frame): Course {
    Course(ForgetFrame(frame), {}, {}, {}, false)
  }

  function TakeTurn(course: Course, clip: set<Point>, layout: Rect, glass: Glass, reported: bool): Turn {
    var looked := Look(course.frame, Clip(clip), layout, glass, reported);
    var answer := SpreadRedrawClip(course.frame, Clip(clip), layout, glass, reported);
    var sources := if looked.changed then Sources(looked, clip, glass.area) else {};
    Turn(
      Course(
        answer.frame, course.core + sources, course.ring + Ring(sources, clip, glass),
        if course.frame.seen then course.glimpsed else looked.looked,
        if course.frame.seen then course.told else reported || course.frame.behindChanged),
      answer.clip.points, answer.again)
  }

  /** The first turn decides what was glimpsed and told; later ones keep it. */
  lemma TurnRemembers(course: Course, clip: set<Point>, layout: Rect, glass: Glass, reported: bool)
    ensures var after := TakeTurn(course, clip, layout, glass, reported).course;
      if course.frame.seen then
        && after.glimpsed == course.glimpsed && after.told == course.told
        && after.frame.behindChanged == course.frame.behindChanged
      else
        && after.glimpsed == clip * glass.area.Points() && after.told == (reported || course.frame.behindChanged)
        && !after.frame.behindChanged
  {
  }

  lemma TurnStaysSeen(course: Course, clip: set<Point>, layout: Rect, glass: Glass, reported: bool)
    ensures TakeTurn(course, clip, layout, glass, reported).course.frame.seen
  {
  }

  /** What a look leaves behind, before anything is spread. */
  ghost predicate Watched(course: Course, clip: set<Point>, glass: Glass) {
    var frame := course.frame;
    && frame.looked <= clip * glass.area.Points()
    && course.glimpsed <= frame.looked
    && (frame.seen ==> frame.repainted == LiveClip)
    && (frame.changed ==> frame.seen)
    && (frame.seen ==> (frame.changed <==> (course.told && course.glimpsed != {}) || frame.looked != course.glimpsed))
    && (!frame.seen ==> frame.looked == {})
  }

  /** How far the surface has spread. */
  ghost predicate Ringed(course: Course, clip: set<Point>, glass: Glass) {
    var reached := Reached(course.core, glass.reach, glass.reach, glass.area.Points());
    && course.frame.spread <= clip * glass.area.Points()
    && course.frame.spread == course.core + course.ring
    && course.core !! course.ring
    && course.ring <= reached <= clip
    && (!course.frame.changed ==> course.frame.spread == {})
  }

  /** What holds between turns, whatever other filters add to the clip in the meantime. */
  ghost predicate Kept(course: Course, clip: set<Point>, glass: Glass) {
    && course.frame.changes == {}
    && Watched(course, clip, glass)
    && Ringed(course, clip, glass)
    && course.frame.looked !! course.ring
  }

  /** What holds once the surface asks for no more. */
  ghost predicate Closed(course: Course, clip: set<Point>, glass: Glass) {
    && Kept(course, clip, glass)
    && course.frame.seen
    && (course.frame.changed ==> course.frame.spread == clip * glass.area.Points())
    && (!course.frame.changed ==> course.frame.looked == clip * glass.area.Points())
  }

  lemma NewCourseIsKept(frame: Frame, clip: set<Point>, glass: Glass)
    requires frame.changes == {}
    ensures Kept(NewCourse(frame), clip, glass)
  {
    assert Reached({}, glass.reach, glass.reach, glass.area.Points()) == {};
  }

  lemma KeptWhenClipGrows(course: Course, clip: set<Point>, bigger: set<Point>, glass: Glass)
    requires Kept(course, clip, glass) && clip <= bigger
    ensures Kept(course, bigger, glass)
  {
  }

  lemma LookIsWatched(course: Course, clip: set<Point>, layout: Rect, glass: Glass, reported: bool)
    requires Kept(course, clip, glass)
    ensures var turn := TakeTurn(course, clip, layout, glass, reported);
      turn.course.frame.seen && Watched(turn.course, clip, glass)
  {
    if course.frame.seen {
      var grown := clip * glass.area.Points() - course.frame.looked - course.frame.spread;
      assert grown != {} ==> course.frame.looked + grown != course.glimpsed;
    }
  }

  lemma LookLeavesTheRing(course: Course, clip: set<Point>, layout: Rect, glass: Glass, reported: bool)
    requires Kept(course, clip, glass)
    ensures var looked := Look(course.frame, Clip(clip), layout, glass, reported);
      && looked.changes <= clip
      && looked.spread == course.frame.spread
      && looked.looked <= clip && looked.looked !! course.ring
      && (course.frame.changed ==> looked.changed)
      && (!looked.changed ==> looked.changes == {} && looked.looked == clip * glass.area.Points())
  {
    if course.frame.seen {
      var grown := clip * glass.area.Points() - course.frame.looked - course.frame.spread;
      forall p | p in clip * glass.area.Points() ensures p in course.frame.looked + course.frame.spread + grown {}
      assert !course.frame.changed && grown == {} ==> course.frame.looked == clip * glass.area.Points();
    }
  }

  /** Spreading from what isn't spread from yet leaves the ring closed. */
  lemma ReachKeeps(course: Course, clip: set<Point>, glass: Glass, looked: Frame)
    requires Ringed(course, clip, glass)
    requires looked.spread == course.frame.spread && looked.changes <= clip && looked.changed
    ensures var sources := Sources(looked, clip, glass.area);
      var ring := Ring(sources, clip, glass);
      var answer := SpreadReach(looked, Clip(clip), glass);
      && Ringed(
           Course(answer.frame, course.core + sources, course.ring + ring, course.glimpsed, course.told), clip + ring,
           glass)
      && answer.clip.points == clip + ring
      && answer.frame.spread == (clip + ring) * glass.area.Points()
      && (answer.again <==> ring != {})
  {
    var area := glass.area.Points();
    var sources := Sources(looked, clip, glass.area);
    var ring := Ring(sources, clip, glass);
    ReachedUnion(course.core, sources, glass.reach, glass.reach, area);
    assert sources <= clip && ring !! clip;
    if sources == {} {
      assert Reached({}, glass.reach, glass.reach, area) == {};
    }
  }

  /** A turn keeps everything, only adds pixels of the area to the clip, and says so exactly when it adds some. */
  lemma TurnKeeps(course: Course, clip: set<Point>, layout: Rect, glass: Glass, reported: bool)
    requires Kept(course, clip, glass)
    ensures var turn := TakeTurn(course, clip, layout, glass, reported);
      && Kept(turn.course, turn.clip, glass)
      && clip <= turn.clip <= clip + glass.area.Points()
      && (turn.again <==> clip < turn.clip)
      && turn.course.ring == course.ring + (turn.clip - clip)
      && (!turn.again ==> Closed(turn.course, turn.clip, glass))
  {
    LookIsWatched(course, clip, layout, glass, reported);
    LookLeavesTheRing(course, clip, layout, glass, reported);
    var looked := Look(course.frame, Clip(clip), layout, glass, reported);
    if looked.changed {
      ReachKeeps(course, clip, glass, looked);
    } else {
      assert Ring({}, clip, glass) == {};
    }
  }

  /**
   * The promise of the redraw clip: once a surface that changed asks for no more, everything within reach of what it
   * spread from is repainted, and what it spread from is all of the clip inside it but its own ring.
   */
  lemma EverythingInReachIsRepainted(course: Course, clip: set<Point>, glass: Glass, p: Point, q: Point)
    requires Closed(course, clip, glass) && course.frame.changed
    requires q in clip * glass.area.Points() && q !in course.ring
    requires p in glass.area.Points() && Near(p, q, glass.reach, glass.reach)
    ensures p in clip
  {
    assert q in course.core;
    assert p in Reached(course.core, glass.reach, glass.reach, glass.area.Points());
  }

  /** A change that a surface is told of is noticed exactly when it has part of the clip to look at, then or later. */
  lemma ToldIsNoticed(course: Course, clip: set<Point>, glass: Glass)
    requires Closed(course, clip, glass)
    ensures course.frame.changed <==>
      course.glimpsed != clip * glass.area.Points() - course.ring || (course.told && clip * glass.area.Points() != {})
  {
  }

  /** Alone with a clip, a surface that changed grows it once, by its ring, and is done. */
  lemma AloneItGrowsOnce(frame: Frame, clip: set<Point>, layout: Rect, glass: Glass)
    requires frame.changes == {}
    ensures var first := TakeTurn(NewCourse(frame), clip, layout, glass, true);
      var second := TakeTurn(first.course, first.clip, layout, glass, false);
      && first.clip == clip + Reached(clip * glass.area.Points(), glass.reach, glass.reach, glass.area.Points())
      && !second.again && second.clip == first.clip
  {
    NewCourseIsKept(frame, clip, glass);
    TurnKeeps(NewCourse(frame), clip, layout, glass, true);
    var looked := Look(ForgetFrame(frame), Clip(clip), layout, glass, true);
    assert looked.changed ==> Sources(looked, clip, glass.area) == clip * glass.area.Points();
    assert clip * glass.area.Points() == {} ==>
      Reached(clip * glass.area.Points(), glass.reach, glass.reach, glass.area.Points()) == {};
  }
}
