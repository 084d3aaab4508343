/**
 * The redraw clip filters of one view, run again until none of them grows the clip: any number of blurred surfaces and
 * of filtered desktop layers, in any order.
 */
module ClipFilters {
  import opened Regions
  import opened Spread

  /**
   * A blurred surface, or a filtered layer of the desktop: how far it carries a pixel, whether it carries them at all
   * and its picture is to be made again in this frame, and whether it already grew this frame's clip.
   */
  datatype Filter =
    | Blur(glass: Glass, shown: bool, course: Course)
    | Layer(marginX: nat, marginY: nat, repaints: bool, clipGrown: bool)

  datatype Pass = Pass(filter: Filter, clip: set<Point>, again: bool)

  /** Another surface has spread over what this one blurs. */
  predicate OtherGlassRefreshes(filters: seq<Filter>, me: nat, blurred: set<Point>) {
    exists i :: 0 <= i < |filters| && i != me && Refreshes(filters[i], blurred)
  }

  predicate Refreshes(filter: Filter, blurred: set<Point>) {
    filter.Blur? && filter.course.frame.changed && filter.course.frame.spread * blurred != {}
  }

  /** What a surface is told on its first look. */
  predicate Reported(filters: seq<Filter>, me: nat, clip: set<Point>, behind: (nat, set<Point>) -> bool)
    requires me < |filters| && filters[me].Blur?
  {
    var looked := clip * filters[me].glass.area.Points();
    behind(me, looked) || OtherGlassRefreshes(filters, me, looked)
  }

  function Grown(clip: set<Point>, layout: Rect, marginX: nat, marginY: nat): set<Point> {
    clip + Reached(clip, marginX, marginY, layout.Points())
  }

  /** One filter's turn; a hidden surface forgets its texture, which is no part of this frame's clip. */
  function Apply(filters: seq<Filter>, me: nat, clip: set<Point>, layout: Rect, behind: (nat, set<Point>) -> bool): Pass
    requires me < |filters|
  {
    match filters[me]
    case Blur(glass, shown, course) =>
      if !shown then Pass(filters[me], clip, false) else
      var turn := TakeTurn(course, clip, layout, glass, Reported(filters, me, clip, behind));
      Pass(filters[me].(course := turn.course), turn.clip, turn.again)
    case Layer(marginX, marginY, repaints, clipGrown) =>
      if !repaints || clipGrown then Pass(filters[me], clip, false) else
      Pass(filters[me].(clipGrown := true), Grown(clip, layout, marginX, marginY), true)
  }

  /** Surfaces blur only what's on the view. */
  ghost predicate OnView(filter: Filter, layout: Rect) {
    filter.Blur? ==> filter.glass.area.Points() <= layout.Points()
  }

  ghost predicate FilterKept(filter: Filter, clip: set<Point>) {
    filter.Blur? && filter.shown ==> Kept(filter.course, clip, filter.glass)
  }

  /** The filter has had its turn with this clip and asks for no more. */
  ghost predicate Settled(filter: Filter, clip: set<Point>) {
    match filter
    case Blur(glass, shown, course) => shown ==> Closed(course, clip, glass)
    case Layer(marginX, marginY, repaints, clipGrown) => repaints ==> clipGrown
  }

  ghost predicate SameFilter(a: Filter, b: Filter) {
    match a
    case Blur(glass, shown, _) => b.Blur? && b.glass == glass && b.shown == shown
    case Layer(marginX, marginY, repaints, clipGrown) =>
      b.Layer? && b.marginX == marginX && b.marginY == marginY && b.repaints == repaints && (clipGrown ==> b.clipGrown)
  }

  function Waiting(filters: seq<Filter>): nat {
    if filters == [] then 0
    else
      var last := |filters| - 1;
      Waiting(filters[..last]) + (if filters[last].Layer? && !filters[last].clipGrown then 1 else 0)
  }

  lemma {:induction false} WaitingAfter(filters: seq<Filter>, i: nat, filter: Filter)
    requires i < |filters|
    ensures Waiting(filters[i := filter]) + (if filters[i].Layer? && !filters[i].clipGrown then 1 else 0)
         == Waiting(filters) + (if filter.Layer? && !filter.clipGrown then 1 else 0)
  {
    var last := |filters| - 1;
    if i < last {
      WaitingAfter(filters[..last], i, filter);
      assert filters[i := filter][..last] == filters[..last][i := filter];
    } else {
      assert filters[i := filter][..last] == filters[..last];
    }
  }

  /** What's still free to grow: pixels of the view outside the clip, and layers that haven't grown it. */
  function Room(filters: seq<Filter>, clip: set<Point>, layout: Rect): nat {
    |layout.Points() - clip| + Waiting(filters)
  }

  /** A filter that answers yes has taken some of what was free; one that answers no has settled. */
  lemma ApplyTakesRoom(filters: seq<Filter>, me: nat, clip: set<Point>, layout: Rect, behind: (nat, set<Point>) -> bool)
    requires me < |filters| && OnView(filters[me], layout) && FilterKept(filters[me], clip)
    ensures var pass := Apply(filters, me, clip, layout, behind);
      && SameFilter(filters[me], pass.filter)
      && FilterKept(pass.filter, pass.clip)
      && Carried(filters[me], pass.filter, clip, pass.clip, layout)
      && clip <= pass.clip <= clip + layout.Points()
      && (pass.again ==> Room(filters[me := pass.filter], pass.clip, layout) < Room(filters, clip, layout))
      && (!pass.again ==> pass.clip == clip && Settled(pass.filter, clip))
      && (!pass.again ==> Room(filters[me := pass.filter], clip, layout) == Room(filters, clip, layout))
  {
    var pass := Apply(filters, me, clip, layout, behind);
    WaitingAfter(filters, me, pass.filter);
    match filters[me]
    case Blur(glass, shown, course) =>
      if shown {
        TurnKeeps(course, clip, layout, glass, Reported(filters, me, clip, behind));
        if pass.again {
          var p :| p in pass.clip - clip;
          FewerLeft(layout.Points() - clip, layout.Points() - pass.clip, p);
        }
      }
    case Layer(_, _, _, _) =>
      NotMoreLeft(layout.Points() - pass.clip, layout.Points() - clip);
  }

  lemma FewerLeft(before: set<Point>, after: set<Point>, p: Point)
    requires after <= before && p in before && p !in after
    ensures |after| < |before|
  {
    NotMoreLeft(after, before - {p});
  }

  lemma {:induction false} NotMoreLeft(after: set<Point>, before: set<Point>)
    requires after <= before
    ensures |after| <= |before|
  {
    if after != {} {
      var p :| p in after;
      NotMoreLeft(after - {p}, before - {p});
    }
  }

  lemma ReachedGrows(fewer: set<Point>, more: set<Point>, reachX: int, reachY: int, area: set<Point>)
    requires fewer <= more
    ensures Reached(fewer, reachX, reachY, area) <= Reached(more, reachX, reachY, area)
  {
    forall p | p in Reached(fewer, reachX, reachY, area) ensures Touches(p, more, reachX, reachY) {
      var q :| q in fewer && Near(p, q, reachX, reachY);
      assert q in more;
    }
  }

  /** A layer that grew the clip carried at least every pixel the frame began with. */
  ghost predicate Carried(before: Filter, after: Filter, clip: set<Point>, grown: set<Point>, layout: Rect) {
    before.Layer? && !before.clipGrown && after.Layer? && after.clipGrown ==>
      Reached(clip, before.marginX, before.marginY, layout.Points()) <= grown
  }

  lemma CarriedOn(
    before: Filter, middle: Filter, after: Filter, clip: set<Point>, grown: set<Point>, larger: set<Point>,
    layout: Rect)
    requires SameFilter(before, middle) && SameFilter(middle, after) && clip <= grown <= larger
    requires Carried(before, middle, clip, grown, layout)
    requires Carried(middle, after, grown, larger, layout) || middle == after
    ensures Carried(before, after, clip, larger, layout)
  {
    if before.Layer? {
      ReachedGrows(clip, grown, before.marginX, before.marginY, layout.Points());
    }
  }

  /** What any number of turns leaves of one filter. */
  ghost predicate Onward(before: Filter, clip: set<Point>, after: Filter, grown: set<Point>, layout: Rect) {
    && SameFilter(before, after)
    && OnView(after, layout)
    && FilterKept(after, grown)
    && Carried(before, after, clip, grown, layout)
  }

  ghost predicate AllOnward(
    filters: seq<Filter>, clip: set<Point>, after: seq<Filter>, grown: set<Point>, layout: Rect)
  {
    && |after| == |filters|
    && clip <= grown <= clip + layout.Points()
    && forall i :: 0 <= i < |after| ==> Onward(filters[i], clip, after[i], grown, layout)
  }

  /** A filter goes on by its own turns, and by waiting while others grow the clip. */
  lemma OnwardTwice(
    before: Filter, middle: Filter, after: Filter, clip: set<Point>, grown: set<Point>, larger: set<Point>,
    layout: Rect)
    requires Onward(before, clip, middle, grown, layout) && clip <= grown <= larger
    requires Onward(middle, grown, after, larger, layout) || middle == after
    ensures Onward(before, clip, after, larger, layout)
  {
    CarriedOn(before, middle, after, clip, grown, larger, layout);
    if middle == after && after.Blur? && after.shown {
      KeptWhenClipGrows(after.course, grown, larger, after.glass);
    }
  }

  lemma ApplyGoesOnward(
    filters: seq<Filter>, clip: set<Point>, after: seq<Filter>, me: nat, grown: set<Point>, layout: Rect, pass: Pass)
    requires AllOnward(filters, clip, after, grown, layout) && me < |filters|
    requires grown <= pass.clip <= grown + layout.Points() && Onward(after[me], grown, pass.filter, pass.clip, layout)
    ensures AllOnward(filters, clip, after[me := pass.filter], pass.clip, layout)
  {
    forall i | 0 <= i < |after| ensures Onward(filters[i], clip, after[me := pass.filter][i], pass.clip, layout) {
      OnwardTwice(filters[i], after[i], after[me := pass.filter][i], clip, grown, pass.clip, layout);
    }
  }

  // Turns in a row.

  /** The filters of a view and its clip at some point of a frame. */
  datatype Stand = Stand(filters: seq<Filter>, clip: set<Point>)

  /** After as many turns of a round, each filter finds what those before it left. */
  ghost function InRound(start: Stand, layout: Rect, behind: (nat, set<Point>) -> bool, count: nat): (stand: Stand)
    requires count <= |start.filters|
    ensures |stand.filters| == |start.filters|
  {
    if count == 0 then start
    else
      var before := InRound(start, layout, behind, count - 1);
      var pass := Apply(before.filters, count - 1, before.clip, layout, behind);
      Stand(before.filters[count - 1 := pass.filter], pass.clip)
  }

  ghost function AfterRounds(start: Stand, layout: Rect, behind: (nat, set<Point>) -> bool, count: nat): (stand: Stand)
    ensures |stand.filters| == |start.filters|
  {
    if count == 0 then start
    else InRound(AfterRounds(start, layout, behind, count - 1), layout, behind, |start.filters|)
  }

  /** The scene behind a surface, another view, or other glass over what it blurs says that something changed. */
  ghost predicate ToldOf(stand: Stand, me: nat, behind: (nat, set<Point>) -> bool)
    requires me < |stand.filters| && stand.filters[me].Blur?
  {
    var area := stand.filters[me].glass.area;
    || behind(me, stand.clip * area.Points())
    || stand.filters[me].course.frame.behindChanged
    || exists i, p ::
      0 <= i < |stand.filters| && i != me && SpreadsTo(stand.filters[i], p) && p in stand.clip && area.Has(p)
  }

  predicate SpreadsTo(filter: Filter, p: Point) {
    filter.Blur? && filter.course.frame.changed && p in filter.course.frame.spread
  }

  predicate InReach(p: Point, q: Point, glass: Glass) {
    glass.area.Has(p) && glass.area.Has(q) && Near(p, q, glass.reach, glass.reach)
  }

  predicate IsToLook(filter: Filter) { filter.Blur? && filter.shown && !filter.course.frame.seen }

  /** A shown surface's first turn in a frame. */
  lemma FirstTurnIsTold(stand: Stand, me: nat, layout: Rect, behind: (nat, set<Point>) -> bool)
    requires me < |stand.filters| && IsToLook(stand.filters[me])
    ensures var after := Apply(stand.filters, me, stand.clip, layout, behind).filter;
      && after.Blur? && after.course.frame.seen && (after.course.told <==> ToldOf(stand, me, behind))
      && after.course.glimpsed == stand.clip * stand.filters[me].glass.area.Points()
  {
    var filter := stand.filters[me];
    var looked := stand.clip * filter.glass.area.Points();
    var reported := Reported(stand.filters, me, stand.clip, behind);
    TurnRemembers(filter.course, stand.clip, layout, filter.glass, reported);
    TurnStaysSeen(filter.course, stand.clip, layout, filter.glass, reported);
    if i :| 0 <= i < |stand.filters| && i != me && Refreshes(stand.filters[i], looked) {
      var p :| p in stand.filters[i].course.frame.spread * looked;
      assert SpreadsTo(stand.filters[i], p) && filter.glass.area.Has(p);
    }
    if i, p :|
      0 <= i < |stand.filters| && i != me && SpreadsTo(stand.filters[i], p)
      && p in stand.clip && filter.glass.area.Has(p) {
      assert p in stand.filters[i].course.frame.spread * looked;
      assert Refreshes(stand.filters[i], looked);
    }
  }

  /** What a surface was told of, and what it glimpsed then, isn't touched by later turns, its own or others'. */
  ghost predicate Remembers(before: Filter, after: Filter) {
    before.Blur? && before.shown && before.course.frame.seen ==>
      && after.Blur? && after.shown && after.course.frame.seen
      && after.course.told == before.course.told && after.course.glimpsed == before.course.glimpsed
  }

  lemma {:induction false} RoundRemembers(
    start: Stand, layout: Rect, behind: (nat, set<Point>) -> bool, count: nat, i: nat)
    requires count <= |start.filters| && i < |start.filters|
    ensures Remembers(start.filters[i], InRound(start, layout, behind, count).filters[i])
    ensures i >= count ==> InRound(start, layout, behind, count).filters[i] == start.filters[i]
  {
    if count > 0 {
      var me, before := count - 1, InRound(start, layout, behind, count - 1);
      RoundRemembers(start, layout, behind, me, i);
      if i == me && before.filters[me].Blur? {
        var filter := before.filters[me];
        var reported := Reported(before.filters, me, before.clip, behind);
        TurnRemembers(filter.course, before.clip, layout, filter.glass, reported);
        TurnStaysSeen(filter.course, before.clip, layout, filter.glass, reported);
      }
    }
  }

  lemma {:induction false} LaterTurnsLeaveItAlone(
    start: Stand, layout: Rect, behind: (nat, set<Point>) -> bool, some: nat, more: nat, i: nat)
    requires i < some <= more <= |start.filters|
    ensures InRound(start, layout, behind, more).filters[i] == InRound(start, layout, behind, some).filters[i]
  {
    if some < more {
      LaterTurnsLeaveItAlone(start, layout, behind, some, more - 1, i);
    }
  }

  lemma {:induction false} RoundsRemember(
    start: Stand, layout: Rect, behind: (nat, set<Point>) -> bool, count: nat, i: nat)
    requires i < |start.filters|
    ensures Remembers(start.filters[i], AfterRounds(start, layout, behind, count).filters[i])
  {
    if count > 0 {
      RoundsRemember(start, layout, behind, count - 1, i);
      RoundRemembers(AfterRounds(start, layout, behind, count - 1), layout, behind, |start.filters|, i);
    }
  }

  lemma {:induction false} FirstRoundComesFirst(
    start: Stand, layout: Rect, behind: (nat, set<Point>) -> bool, count: nat)
    ensures AfterRounds(start, layout, behind, count + 1)
      == AfterRounds(AfterRounds(start, layout, behind, 1), layout, behind, count)
  {
    if count > 0 {
      FirstRoundComesFirst(start, layout, behind, count - 1);
    } else {
      assert AfterRounds(start, layout, behind, 0) == start;
    }
  }

  /**
   * However many rounds there are, a surface that hadn't looked yet was told exactly what the scene, other views and
   * the other surfaces said as they stood at its own turn of the first round, and glimpsed the clip as it was then.
   */
  lemma ToldAtItsFirstTurn(start: Stand, layout: Rect, behind: (nat, set<Point>) -> bool, rounds: nat, i: nat)
    requires rounds > 0 && i < |start.filters| && IsToLook(start.filters[i])
    ensures var found := InRound(start, layout, behind, i);
      var after := AfterRounds(start, layout, behind, rounds).filters[i];
      && found.filters[i] == start.filters[i]
      && after.Blur? && after.course.frame.seen && (after.course.told <==> ToldOf(found, i, behind))
      && after.course.glimpsed == found.clip * start.filters[i].glass.area.Points()
  {
    var first := AfterRounds(start, layout, behind, 1);
    assert first == InRound(AfterRounds(start, layout, behind, 0), layout, behind, |start.filters|);
    RoundRemembers(start, layout, behind, i, i);
    FirstTurnIsTold(InRound(start, layout, behind, i), i, layout, behind);
    LaterTurnsLeaveItAlone(start, layout, behind, i + 1, |start.filters|, i);
    FirstRoundComesFirst(start, layout, behind, rounds - 1);
    RoundsRemember(first, layout, behind, rounds - 1, i);
  }

  /** A surface that hadn't looked yet was told what there was to tell at its own turn of the first round. */
  ghost predicate WasTold(start: Stand, i: nat, layout: Rect, behind: (nat, set<Point>) -> bool, after: Filter)
    requires i < |start.filters| && IsToLook(start.filters[i])
  {
    var found := InRound(start, layout, behind, i);
    && found.filters[i] == start.filters[i]
    && after.Blur? && after.course.frame.seen && (after.course.told <==> ToldOf(found, i, behind))
    && after.course.glimpsed == found.clip * start.filters[i].glass.area.Points()
  }

  /**
   * When all filters are done, a surface that was to look has refreshed exactly if the scene, other views or the other
   * surfaces told it to at its own turn of the first round, or more of the clip got to it than it had glimpsed then and
   * added itself; and if it has, all of it within reach of a pixel that isn't its own ring is repainted.
   */
  lemma RefreshedInTheEnd(
    start: Stand, layout: Rect, behind: (nat, set<Point>) -> bool, rounds: nat, i: nat, p: Point, q: Point)
    requires rounds > 0 && i < |start.filters| && IsToLook(start.filters[i])
    requires var end := AfterRounds(start, layout, behind, rounds);
      SameFilter(start.filters[i], end.filters[i]) && Settled(end.filters[i], end.clip)
    ensures var found, end := InRound(start, layout, behind, i), AfterRounds(start, layout, behind, rounds);
      var course, glass := end.filters[i].course, start.filters[i].glass;
      && found.filters[i] == start.filters[i]
      && (course.frame.changed <==>
            || (ToldOf(found, i, behind) && end.clip * glass.area.Points() != {})
            || found.clip * glass.area.Points() != end.clip * glass.area.Points() - course.ring)
      && (course.frame.changed && q in end.clip && q !in course.ring && InReach(p, q, glass) ==> p in end.clip)
  {
    var end := AfterRounds(start, layout, behind, rounds);
    var course, glass := end.filters[i].course, start.filters[i].glass;
    ToldAtItsFirstTurn(start, layout, behind, rounds, i);
    ToldIsNoticed(course, end.clip, glass);
    if course.frame.changed && q in end.clip && q !in course.ring && InReach(p, q, glass) {
      EverythingInReachIsRepainted(course, end.clip, glass, p, q);
    }
  }

  /** A layer that repaints carries exactly what its margins reach, once in a frame. */
  lemma LayerCarriesOnce(
    filters: seq<Filter>, me: nat, clip: set<Point>, layout: Rect, behind: (nat, set<Point>) -> bool, p: Point)
    requires me < |filters| && filters[me].Layer?
    ensures var layer, pass := filters[me], Apply(filters, me, clip, layout, behind);
      && (pass.again <==> layer.repaints && !layer.clipGrown)
      && (p in pass.clip <==>
            || p in clip
            || (pass.again && layout.Has(p) && exists q :: q in clip && Near(p, q, layer.marginX, layer.marginY)))
      && pass.filter == layer.(clipGrown := layer.clipGrown || layer.repaints)
  {
    var layer := filters[me];
    assert p in Reached(clip, layer.marginX, layer.marginY, layout.Points())
      <==> p in layout.Points() && Touches(p, clip, layer.marginX, layer.marginY);
  }

  /**
   * Runs the filters in rounds until none grows the clip, which comes to an end: every shown surface is then closed
   * over the final clip, and every layer that repaints has grown it.
   */
  method ApplyRedrawClipFilters(
    filters: seq<Filter>, clip: set<Point>, layout: Rect, behind: (nat, set<Point>) -> bool)
    returns (after: seq<Filter>, grown: set<Point>, ghost rounds: nat)
    requires forall i :: 0 <= i < |filters| ==> OnView(filters[i], layout) && FilterKept(filters[i], clip)
    ensures AllOnward(filters, clip, after, grown, layout)
    ensures forall i :: 0 <= i < |after| ==> Settled(after[i], grown)
    ensures rounds > 0 && Stand(after, grown) == AfterRounds(Stand(filters, clip), layout, behind, rounds)
    ensures forall i :: 0 <= i < |after| && IsToLook(filters[i]) ==>
      WasTold(Stand(filters, clip), i, layout, behind, after[i])
  {
    after, grown, rounds := filters, clip, 0;
    ghost var start := Stand(filters, clip);
    var again := true;
    while again
      invariant AllOnward(filters, clip, after, grown, layout)
      invariant Stand(after, grown) == AfterRounds(start, layout, behind, rounds)
      invariant !again ==> rounds > 0 && forall i :: 0 <= i < |after| ==> Settled(after[i], grown)
      decreases Room(after, grown, layout), if again then 1 else 0
    {
      ghost var middle, middleClip := after, grown;
      again, after, grown := RunRound(after, grown, layout, behind);
      rounds := rounds + 1;
      forall i | 0 <= i < |after| ensures Onward(filters[i], clip, after[i], grown, layout) {
        OnwardTwice(filters[i], middle[i], after[i], clip, middleClip, grown, layout);
      }
    }
    forall i | 0 <= i < |after| && IsToLook(filters[i]) ensures WasTold(start, i, layout, behind, after[i]) {
      ToldAtItsFirstTurn(start, layout, behind, rounds, i);
    }
  }

  /** One turn for every filter. */
  method RunRound(filters: seq<Filter>, clip: set<Point>, layout: Rect, behind: (nat, set<Point>) -> bool)
    returns (again: bool, after: seq<Filter>, grown: set<Point>)
    requires forall i :: 0 <= i < |filters| ==> OnView(filters[i], layout) && FilterKept(filters[i], clip)
    ensures AllOnward(filters, clip, after, grown, layout)
    ensures Stand(after, grown) == InRound(Stand(filters, clip), layout, behind, |filters|)
    ensures again ==> Room(after, grown, layout) < Room(filters, clip, layout)
    ensures !again ==> Room(after, grown, layout) == Room(filters, clip, layout) && grown == clip
    ensures !again ==> forall i :: 0 <= i < |after| ==> Settled(after[i], grown)
  {
    again, after, grown := false, filters, clip;
    for me := 0 to |filters|
      invariant AllOnward(filters, clip, after, grown, layout)
      invariant Stand(after, grown) == InRound(Stand(filters, clip), layout, behind, me)
      invariant again ==> Room(after, grown, layout) < Room(filters, clip, layout)
      invariant !again ==> Room(after, grown, layout) == Room(filters, clip, layout) && grown == clip
      invariant !again ==> forall i :: 0 <= i < me ==> Settled(after[i], grown)
    {
      ApplyTakesRoom(after, me, grown, layout, behind);
      var pass := Apply(after, me, grown, layout, behind);
      ApplyGoesOnward(filters, clip, after, me, grown, layout, pass);
      after, grown, again := after[me := pass.filter], pass.clip, again || pass.again;
    }
  }

  /** What another surface does only matters to the first look of a frame. */
  lemma OnlyTheFirstLookHears(course: Course, clip: set<Point>, layout: Rect, glass: Glass)
    ensures course.frame.seen ==>
      TakeTurn(course, clip, layout, glass, true) == TakeTurn(course, clip, layout, glass, false)
    ensures !course.frame.seen && Kept(course, clip, glass) && !course.frame.behindChanged ==>
      TakeTurn(course, clip, layout, glass, false).course.frame.changed == false
    ensures !course.frame.seen && Kept(course, clip, glass) && clip * glass.area.Points() != {} ==>
      TakeTurn(course, clip, layout, glass, true).course.frame.changed
  {
  }

  /**
   * So the order of the filters matters. Of two surfaces that share some of the clip, where only the second is told of
   * a change: if the first takes its turn before the second, it doesn't refresh although the second does under it, and
   * settles like that exactly if the second's ring brings nothing new into it; if it takes its turn after, it
   * refreshes.
   */
  lemma OrderDecidesWhetherGlassIsHeard(first: Glass, second: Glass, clip: set<Point>, layout: Rect, p: Point)
    requires p in clip * first.area.Points() * second.area.Points()
    ensures
      var unseen := NewCourse(NEW_FRAME);
      var looked := clip * first.area.Points();
      var reached := Reached(clip * second.area.Points(), second.reach, second.reach, second.area.Points());
      var refreshed := TakeTurn(unseen, clip, layout, second, true);
      var before := TakeTurn(unseen, clip, layout, first, Refreshes(Blur(second, true, unseen), looked));
      var told := Refreshes(Blur(second, true, refreshed.course), looked);
      var after := TakeTurn(unseen, clip + reached, layout, first, told);
      && Refreshes(Blur(second, true, refreshed.course), looked) && refreshed.clip == clip + reached
      && !before.course.frame.changed
      && (Closed(before.course, clip + reached, first) <==> reached * first.area.Points() <= clip)
      && after.course.frame.changed
  {
    var unseen := NewCourse(NEW_FRAME);
    var looked := clip * first.area.Points();
    var reached := Reached(clip * second.area.Points(), second.reach, second.reach, second.area.Points());
    var refreshed := TakeTurn(unseen, clip, layout, second, true).course;
    ToldTurn(second, clip, layout, p);
    assert p in refreshed.frame.spread * looked;
    assert Refreshes(Blur(second, true, refreshed), looked) && !Refreshes(Blur(second, true, unseen), looked);
    UntoldTurn(first, clip, clip + reached, layout);
    OnlyReachedMatters(clip, reached, first.area.Points());
    ToldTurn(first, clip + reached, layout, p);
  }

  lemma ToldTurn(glass: Glass, clip: set<Point>, layout: Rect, p: Point)
    requires p in clip * glass.area.Points()
    ensures var turn := TakeTurn(NewCourse(NEW_FRAME), clip, layout, glass, true);
      && turn.clip == clip + Reached(clip * glass.area.Points(), glass.reach, glass.reach, glass.area.Points())
      && turn.course.frame.changed && p in turn.course.frame.spread
  {
    AloneItGrowsOnce(NEW_FRAME, clip, layout, glass);
  }

  lemma UntoldTurn(glass: Glass, clip: set<Point>, larger: set<Point>, layout: Rect)
    requires clip <= larger
    ensures var course := TakeTurn(NewCourse(NEW_FRAME), clip, layout, glass, false).course;
      && !course.frame.changed
      && (Closed(course, larger, glass) <==> larger * glass.area.Points() == clip * glass.area.Points())
  {
    NewCourseIsKept(NEW_FRAME, clip, glass);
    TurnKeeps(NewCourse(NEW_FRAME), clip, layout, glass, false);
    KeptWhenClipGrows(TakeTurn(NewCourse(NEW_FRAME), clip, layout, glass, false).course, clip, larger, glass);
  }

  lemma OnlyReachedMatters(clip: set<Point>, reached: set<Point>, area: set<Point>)
    ensures (clip + reached) * area == clip * area <==> reached * area <= clip
  {
    if reached * area <= clip {
      assert forall p :: p in (clip + reached) * area ==> p in clip * area;
    } else {
      var p :| p in reached * area && p !in clip;
      assert p in (clip + reached) * area;
    }
  }

  /**
   * When all filters are done and one surface has refreshed under what another blurs, the other has too, unless it
   * wasn't told on its first look and the clip gained nothing in it since but its own ring.
   */
  lemma HeardInTheEnd(filters: seq<Filter>, clip: set<Point>, i: nat, j: nat)
    requires i < |filters| && j < |filters| && filters[i].Blur? && filters[j].Blur? && filters[i].shown
    requires Settled(filters[i], clip) && Refreshes(filters[j], clip * filters[i].glass.area.Points())
    ensures var course, area := filters[i].course, filters[i].glass.area.Points();
      course.frame.changed <==> course.told || course.glimpsed != clip * area - course.ring
  {
    ToldIsNoticed(filters[i].course, clip, filters[i].glass);
  }
}
