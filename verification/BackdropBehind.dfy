/**
 * How a blurred surface notices what changed behind it: a fingerprint of what is stacked below it, and the boxes of
 * what was damaged.
 */
module BackdropBehind {
  import opened Options
  import opened Fingerprints
  import opened Lists
  import opened Regions
  import opened Words

  /** The bits of a single-precision number. */
  type U32 = x: int | 0 <= x < 0x1_0000_0000

  datatype ActorClip = NoClip | ClipBits(x: U32, y: U32, width: U32, height: U32)

  datatype Placement = Placement(actor: U64, bounded: bool, box: Rect)

  /** An actor below the surface's branch; whether it's mapped and not fully transparent, and whether it was damaged. */
  datatype Sibling = Sibling(placement: Placement, paints: bool, damaged: bool)

  /** An ancestor of the surface, with what it paints before the surface's branch. */
  datatype Level = Level(
    parent: U64,
    opacity: Byte,
    clip: ActorClip,
    damaged: bool,
    damagedChild: bool,
    below: seq<Sibling>)

  function ClipValues(clip: ActorClip): seq<U64> {
    if clip.NoClip? then [0]
    else [clip.x, clip.y, clip.width, clip.height]
  }

  function SiblingValues(below: seq<Sibling>): seq<U64> {
    if below == [] then []
    else
      var last := |below| - 1;
      SiblingValues(below[..last]) + (if below[last].paints then [below[last].placement.actor] else [])
  }

  function LevelValues(level: Level): seq<U64> {
    [level.parent, level.opacity] + ClipValues(level.clip) + SiblingValues(level.below)
  }

  function Values(levels: seq<Level>): seq<U64> {
    if levels == [] then [] else Values(levels[..|levels| - 1]) + LevelValues(levels[|levels| - 1])
  }

  function Print(mix: Mixer, levels: seq<Level>): U64 {
    MixAll(mix, SEED, Values(levels))
  }

  /** Scenes whose values differ in exactly one place never share a print. */
  lemma OneDifferenceShows(one: seq<Level>, other: seq<Level>, i: nat)
    requires |Values(one)| == |Values(other)| && i < |Values(one)|
    requires forall j :: 0 <= j < |Values(one)| ==> (Values(one)[j] == Values(other)[j] <==> j != i)
    ensures Print(Mix, one) != Print(Mix, other)
  {
    var a, b := Values(one), Values(other);
    MixTellsApart();
    assert a == a[..i] + [a[i]] + a[i + 1..] && b == a[..i] + [b[i]] + a[i + 1..];
    DifferenceShows(Mix, SEED, a[..i], a[i], b[i], a[i + 1..]);
  }

  lemma {:induction false} ValuesOfBoth(one: seq<Level>, other: seq<Level>)
    ensures Values(one + other) == Values(one) + Values(other)
  {
    if other == [] {
      assert one + other == one;
    } else {
      var last := |other| - 1;
      var most := other[..last];
      assert one + other == one + most + [other[last]] && other == most + [other[last]];
      ValuesOfBoth(one, most);
      ValuesWithLast(one + most, other[last]);
      ValuesWithLast(most, other[last]);
      Associates(Values(one), Values(most), LevelValues(other[last]));
    }
  }

  lemma ValuesWithLast(levels: seq<Level>, level: Level)
    ensures Values(levels + [level]) == Values(levels) + LevelValues(level)
  {
    assert (levels + [level])[..|levels|] == levels;
  }

  /** A level of which one value is another than before is never missed, whatever is around it. */
  lemma LevelShows(levels: seq<Level>, i: nat, changed: Level, a: seq<U64>, x: U64, y: U64, b: seq<U64>)
    requires i < |levels| && x != y
    requires LevelValues(levels[i]) == a + [x] + b && LevelValues(changed) == a + [y] + b
    ensures Print(Mix, levels[i := changed]) != Print(Mix, levels)
  {
    assert levels == levels[..i] + [levels[i]] + levels[i + 1..];
    assert levels[i := changed] == levels[..i] + [changed] + levels[i + 1..];
    ValuesAround(levels[..i], levels[i], levels[i + 1..]);
    ValuesAround(levels[..i], changed, levels[i + 1..]);
    Regroup(Values(levels[..i]), a, x, b, Values(levels[i + 1..]));
    Regroup(Values(levels[..i]), a, y, b, Values(levels[i + 1..]));
    MixTellsApart();
    DifferenceShows(Mix, SEED, Values(levels[..i]) + a, x, y, b + Values(levels[i + 1..]));
  }

  lemma ValuesAround(before: seq<Level>, level: Level, after: seq<Level>)
    ensures Values(before + [level] + after) == Values(before) + LevelValues(level) + Values(after)
  {
    ValuesOfBoth(before + [level], after);
    ValuesWithLast(before, level);
  }

  lemma Regroup(before: seq<U64>, a: seq<U64>, x: U64, b: seq<U64>, after: seq<U64>)
    ensures before + (a + [x] + b) + after == before + a + [x] + (b + after)
  {
  }

  /** An ancestor that's only more or less transparent than before is never missed. */
  lemma OpacityShows(levels: seq<Level>, i: nat, opacity: Byte)
    requires i < |levels| && opacity != levels[i].opacity
    ensures Print(Mix, levels[i := levels[i].(opacity := opacity)]) != Print(Mix, levels)
  {
    var level := levels[i];
    LevelShows(
      levels, i, level.(opacity := opacity), [level.parent], level.opacity, opacity,
      ClipValues(level.clip) + SiblingValues(level.below));
  }

  /** Nor is one that's another actor, */
  lemma ParentShows(levels: seq<Level>, i: nat, parent: U64)
    requires i < |levels| && parent != levels[i].parent
    ensures Print(Mix, levels[i := levels[i].(parent := parent)]) != Print(Mix, levels)
  {
    var level := levels[i];
    LevelShows(
      levels, i, level.(parent := parent), [], level.parent, parent,
      [level.opacity] + ClipValues(level.clip) + SiblingValues(level.below));
  }

  /** one whose clip has moved or changed its size along one side, */
  lemma ClipShows(levels: seq<Level>, i: nat, clip: ActorClip, side: nat)
    requires i < |levels| && levels[i].clip.ClipBits? && clip.ClipBits? && side < 4
    requires forall k :: 0 <= k < 4 ==> (ClipValues(clip)[k] == ClipValues(levels[i].clip)[k] <==> k != side)
    ensures Print(Mix, levels[i := levels[i].(clip := clip)]) != Print(Mix, levels)
  {
    var level, own := levels[i], [levels[i].parent, levels[i].opacity];
    var before, after := ClipValues(level.clip), ClipValues(clip);
    assert before == before[..side] + [before[side]] + before[side + 1..];
    assert after == before[..side] + [after[side]] + before[side + 1..];
    LevelShows(
      levels, i, level.(clip := clip), own + before[..side], before[side], after[side],
      before[side + 1..] + SiblingValues(level.below));
  }

  /** or another actor in the place of one that it paints below. */
  lemma ActorShows(levels: seq<Level>, i: nat, j: nat, sibling: Sibling)
    requires i < |levels| && j < |levels[i].below| && levels[i].below[j].paints && sibling.paints
    requires sibling.placement.actor != levels[i].below[j].placement.actor
    ensures Print(Mix, levels[i := levels[i].(below := levels[i].below[j := sibling])]) != Print(Mix, levels)
  {
    var level, own := levels[i], [levels[i].parent, levels[i].opacity] + ClipValues(levels[i].clip);
    SiblingsAround(level.below, j, level.below[j]);
    SiblingsAround(level.below, j, sibling);
    assert level.below[j := level.below[j]] == level.below;
    LevelShows(
      levels, i, level.(below := level.below[j := sibling]), own + SiblingValues(level.below[..j]),
      level.below[j].placement.actor, sibling.placement.actor, SiblingValues(level.below[j + 1..]));
  }

  lemma {:induction false} SiblingsOfBoth(one: seq<Sibling>, other: seq<Sibling>)
    ensures SiblingValues(one + other) == SiblingValues(one) + SiblingValues(other)
  {
    if other == [] {
      assert one + other == one;
    } else {
      var last := |other| - 1;
      assert (one + other)[..|one + other| - 1] == one + other[..last];
      SiblingsOfBoth(one, other[..last]);
      Associates(
        SiblingValues(one), SiblingValues(other[..last]),
        if other[last].paints then [other[last].placement.actor] else []);
    }
  }

  lemma SiblingsAround(below: seq<Sibling>, j: nat, sibling: Sibling)
    requires j < |below| && sibling.paints
    ensures SiblingValues(below[j := sibling])
      == SiblingValues(below[..j]) + [sibling.placement.actor] + SiblingValues(below[j + 1..])
  {
    assert below[j := sibling] == below[..j] + [sibling] + below[j + 1..];
    SiblingsOfBoth(below[..j] + [sibling], below[j + 1..]);
    SiblingsOfBoth(below[..j], [sibling]);
    assert [sibling][..0] == [];
  }

  // Damage.

  predicate BoxReaches(box: Rect, region: set<Point>) {
    box.Points() * region != {}
  }

  /** Where an actor was when the surface last looked. */
  function PreviousPlacement(previous: seq<Placement>, actor: U64): (found: Option<Placement>)
    ensures found.Some? ==> found.value in previous && found.value.actor == actor
    ensures found.None? ==> forall i :: 0 <= i < |previous| ==> previous[i].actor != actor
  {
    if previous == [] then None
    else if previous[0].actor == actor then Some(previous[0])
    else PreviousPlacement(previous[1..], actor)
  }

  predicate DamageReaches(placement: Placement, before: Option<Placement>, region: set<Point>) {
    || !placement.bounded
    || (before.Some? && !before.value.bounded)
    || BoxReaches(placement.box, region)
    || (before.Some? && BoxReaches(before.value.box, region))
  }

  /** Something below that paints was damaged, and where it is or was reaches the region. */
  predicate SiblingReaches(sibling: Sibling, previous: seq<Placement>, region: set<Point>) {
    sibling.paints && sibling.damaged
    && DamageReaches(sibling.placement, PreviousPlacement(previous, sibling.placement.actor), region)
  }

  predicate SomeReaches(below: seq<Sibling>, previous: seq<Placement>, region: set<Point>) {
    exists i :: 0 <= i < |below| && SiblingReaches(below[i], previous, region)
  }

  predicate LevelReaches(level: Level, previous: seq<Placement>, region: set<Point>) {
    SomeReaches(level.below, previous, region)
  }

  predicate SceneReaches(levels: seq<Level>, previous: seq<Placement>, region: set<Point>) {
    exists i :: 0 <= i < |levels| && LevelReaches(levels[i], previous, region)
  }

  predicate OwnDamage(levels: seq<Level>) {
    exists i :: 0 <= i < |levels| && levels[i].damaged && !levels[i].damagedChild
  }

  function SiblingPlacements(below: seq<Sibling>): seq<Placement> {
    if below == [] then []
    else
      var last := |below| - 1;
      SiblingPlacements(below[..last]) + (if below[last].paints then [below[last].placement] else [])
  }

  function Placements(levels: seq<Level>): seq<Placement> {
    if levels == [] then [] else Placements(levels[..|levels| - 1]) + SiblingPlacements(levels[|levels| - 1].below)
  }

  /** What a look answers for a region: the scene was rearranged, or something damaged reaches the region. */
  predicate Told(mix: Mixer, fingerprint: U64, previous: seq<Placement>, levels: seq<Level>, region: set<Point>) {
    OwnDamage(levels) || Print(mix, levels) != fingerprint || SceneReaches(levels, previous, region)
  }

  /** A level that paints something new itself, rather than for a child. */
  ghost predicate SomeRepaints(levels: seq<Level>) {
    exists level :: level in levels && level.damaged && !level.damagedChild
  }

  predicate Covers(placement: Placement, region: set<Point>) {
    !placement.bounded || exists p :: p in region && placement.box.Has(p)
  }

  /** Something that paints below was damaged, and may be or have been in a region. */
  ghost predicate SomeDisturbs(levels: seq<Level>, previous: seq<Placement>, region: set<Point>) {
    exists level, sibling :: level in levels && sibling in level.below && sibling.paints && sibling.damaged
      && (Covers(sibling.placement, region) || WasThere(sibling.placement.actor, previous, region))
  }

  /** Where an actor was found first, it was in a region. */
  ghost predicate WasThere(actor: U64, previous: seq<Placement>, region: set<Point>) {
    exists k :: 0 <= k < |previous| && previous[k].actor == actor && Covers(previous[k], region)
      && forall l :: 0 <= l < k ==> previous[l].actor != actor
  }

  lemma FoundFirst(previous: seq<Placement>, actor: U64)
    ensures var found := PreviousPlacement(previous, actor);
      found.Some? ==> exists k ::
        0 <= k < |previous| && previous[k] == found.value && forall l :: 0 <= l < k ==> previous[l].actor != actor
  {
    if previous != [] && previous[0].actor != actor && PreviousPlacement(previous, actor).Some? {
      var rest := previous[1..];
      FoundFirst(rest, actor);
      var k :| 0 <= k < |rest| && rest[k] == PreviousPlacement(rest, actor).value
        && forall l :: 0 <= l < k ==> rest[l].actor != actor;
      assert previous[k + 1] == rest[k];
      assert forall l :: 0 < l < k + 1 ==> previous[l] == rest[l - 1];
    }
  }

  lemma DamageDisturbs(sibling: Sibling, previous: seq<Placement>, region: set<Point>)
    ensures SiblingReaches(sibling, previous, region) <==>
      sibling.paints && sibling.damaged
      && (Covers(sibling.placement, region) || WasThere(sibling.placement.actor, previous, region))
  {
    var found := PreviousPlacement(previous, sibling.placement.actor);
    FoundFirst(previous, sibling.placement.actor);
    BoxCovers(sibling.placement, region);
    if found.Some? {
      BoxCovers(found.value, region);
    }
  }

  lemma BoxCovers(placement: Placement, region: set<Point>)
    ensures Covers(placement, region) <==> !placement.bounded || BoxReaches(placement.box, region)
  {
    assert forall p :: p in placement.box.Points() * region <==> p in region && placement.box.Has(p);
  }

  /** Something is to be seen in a region, if only because other values make up the scene. */
  ghost predicate Differs(levels: seq<Level>, another: bool, previous: seq<Placement>, region: set<Point>) {
    SomeRepaints(levels) || another || SomeDisturbs(levels, previous, region)
  }

  /**
   * Exactly when a look finds something: a level repaints itself, the scene has another print, or something damaged may
   * be or have been in the region.
   */
  lemma ToldExactly(mix: Mixer, fingerprint: U64, previous: seq<Placement>, levels: seq<Level>, region: set<Point>)
    ensures Told(mix, fingerprint, previous, levels, region)
      <==> Differs(levels, Print(mix, levels) != fingerprint, previous, region)
  {
    if SceneReaches(levels, previous, region) {
      var i :| 0 <= i < |levels| && LevelReaches(levels[i], previous, region);
      var j :| 0 <= j < |levels[i].below| && SiblingReaches(levels[i].below[j], previous, region);
      DamageDisturbs(levels[i].below[j], previous, region);
      assert levels[i] in levels && levels[i].below[j] in levels[i].below;
    }
    if SomeDisturbs(levels, previous, region) {
      var level, sibling :| level in levels && sibling in level.below && sibling.paints && sibling.damaged
        && (Covers(sibling.placement, region) || WasThere(sibling.placement.actor, previous, region));
      DamageDisturbs(sibling, previous, region);
      assert SomeReaches(level.below, previous, region);
      assert LevelReaches(level, previous, region);
    }
  }

  class Behind {
    const mix: Mixer
    var placements: seq<Placement>
    var previous: seq<Placement>
    var fingerprint: U64

    constructor ()
      ensures mix == Mix && placements == [] && previous == [] && fingerprint == 0
    {
      mix := Mix;
      placements, previous, fingerprint := [], [], 0;
    }

    predicate Tells(levels: seq<Level>, region: set<Point>)
      reads this
    {
      Told(mix, fingerprint, previous, levels, region)
    }

    /** Whether something changed behind the surface where it's blurred, or anywhere that's repainted. */
    method BehindChanged(
      levels: seq<Level>, repainted: set<Point>, blurred: set<Point>) returns (here: bool, elsewhere: bool)
      modifies this
      ensures fingerprint == Print(mix, levels) && previous == Placements(levels) && placements == old(previous)
      ensures here == Told(mix, old(fingerprint), old(previous), levels, blurred)
      ensures elsewhere == Told(mix, old(fingerprint), old(previous), levels, repainted)
      ensures here <==> Differs(levels, fingerprint != old(fingerprint), old(previous), blurred)
      ensures elsewhere <==> Differs(levels, fingerprint != old(fingerprint), old(previous), repainted)
    {
      ToldExactly(mix, fingerprint, previous, levels, blurred);
      ToldExactly(mix, fingerprint, previous, levels, repainted);
      var mixed := SEED;
      var rearranged := false;
      here, elsewhere := false, false;
      placements := [];
      for i := 0 to |levels|
        invariant mixed == Print(mix, levels[..i]) && placements == Placements(levels[..i])
        invariant previous == old(previous) && fingerprint == old(fingerprint)
        invariant rearranged == OwnDamage(levels[..i])
        invariant here == SceneReaches(levels[..i], previous, blurred)
        invariant elsewhere == SceneReaches(levels[..i], previous, repainted)
      {
        var level := levels[i];
        var reachesHere, reachesElsewhere;
        rearranged := rearranged || (level.damaged && !level.damagedChild);
        mixed, reachesHere, reachesElsewhere := LookAtLevel(mixed, level, repainted, blurred);
        here, elsewhere := here || reachesHere, elsewhere || reachesElsewhere;
        NextLevel(levels, i, previous, repainted);
        NextLevel(levels, i, previous, blurred);
        NextPrint(mix, levels, i);
      }
      assert levels[..|levels|] == levels;
      rearranged := rearranged || mixed != fingerprint;
      fingerprint := mixed;
      previous, placements := placements, previous;
      here, elsewhere := rearranged || here, rearranged || elsewhere;
    }

    /** One ancestor: itself, and what it paints before the surface's branch. */
    method LookAtLevel(start: U64, level: Level, repainted: set<Point>, blurred: set<Point>)
      returns (mixed: U64, here: bool, elsewhere: bool)
      modifies this`placements
      ensures mixed == MixAll(mix, start, LevelValues(level))
      ensures placements == old(placements) + SiblingPlacements(level.below)
      ensures here == LevelReaches(level, previous, blurred)
      ensures elsewhere == LevelReaches(level, previous, repainted)
    {
      mixed := mix(start, level.parent);
      mixed := mix(mixed, level.opacity);
      mixed := MixClip(mix, mixed, level.clip);
      ghost var own := mixed;
      here, elsewhere := false, false;
      for i := 0 to |level.below|
        invariant mixed == MixAll(mix, own, SiblingValues(level.below[..i]))
        invariant placements == old(placements) + SiblingPlacements(level.below[..i])
        invariant here == SomeReaches(level.below[..i], previous, blurred)
        invariant elsewhere == SomeReaches(level.below[..i], previous, repainted)
      {
        var reachesHere, reachesElsewhere;
        mixed, reachesHere, reachesElsewhere := LookAtSibling(mixed, level.below[i], repainted, blurred);
        here, elsewhere := here || reachesHere, elsewhere || reachesElsewhere;
        NextSibling(mix, own, level.below, i, previous, repainted);
        NextSibling(mix, own, level.below, i, previous, blurred);
      }
      assert level.below[..|level.below|] == level.below;
      MixLevel(mix, start, level);
    }

    method LookAtSibling(start: U64, sibling: Sibling, repainted: set<Point>, blurred: set<Point>)
      returns (mixed: U64, here: bool, elsewhere: bool)
      modifies this`placements
      ensures mixed == if sibling.paints then mix(start, sibling.placement.actor) else start
      ensures placements == old(placements) + (if sibling.paints then [sibling.placement] else [])
      ensures here == SiblingReaches(sibling, previous, blurred)
      ensures elsewhere == SiblingReaches(sibling, previous, repainted)
    {
      mixed, here, elsewhere := start, false, false;
      if sibling.paints {
        mixed := mix(mixed, sibling.placement.actor);
        placements := placements + [sibling.placement];
        if sibling.damaged {
          var before := PreviousPlacement(previous, sibling.placement.actor);
          elsewhere := DamageReaches(sibling.placement, before, repainted);
          here := DamageReaches(sibling.placement, before, blurred);
        }
      }
    }
  }

  /** Two looks at scenes whose values differ in one place: the second reports a change here and elsewhere. */
  method LookTwice(
    behind: Behind, one: seq<Level>, other: seq<Level>, i: nat, repainted: set<Point>, blurred: set<Point>)
    returns (here: bool, elsewhere: bool)
    requires behind.mix == Mix && |Values(one)| == |Values(other)| && i < |Values(one)|
    requires forall j :: 0 <= j < |Values(one)| ==> (Values(one)[j] == Values(other)[j] <==> j != i)
    modifies behind
    ensures here && elsewhere && behind.previous == Placements(other)
  {
    here, elsewhere := behind.BehindChanged(one, repainted, blurred);
    OneDifferenceShows(one, other, i);
    here, elsewhere := behind.BehindChanged(other, repainted, blurred);
  }

  /** What a look keeps for the next one is where everything is that paints. */
  lemma {:induction false} KeptIsPainted(levels: seq<Level>, placement: Placement)
    ensures placement in Placements(levels)
      <==> exists level, s :: level in levels && s in level.below && s.paints && s.placement == placement
  {
    if levels != [] {
      var most, last := levels[..|levels| - 1], levels[|levels| - 1];
      KeptIsPainted(most, placement);
      KeptOfLevel(last.below, placement);
      assert forall level :: level in levels <==> level in most || level == last;
    }
  }

  lemma {:induction false} KeptOfLevel(below: seq<Sibling>, placement: Placement)
    ensures placement in SiblingPlacements(below) <==> exists s :: s in below && s.paints && s.placement == placement
  {
    if below != [] {
      var most, last := below[..|below| - 1], below[|below| - 1];
      KeptOfLevel(most, placement);
      assert forall s :: s in below <==> s in most || s == last;
    }
  }

  // Two views that look at one scene.

  function Damaged(levels: seq<Level>): set<Sibling> {
    set i, j |
      0 <= i < |levels| && 0 <= j < |levels[i].below| && levels[i].below[j].paints && levels[i].below[j].damaged ::
      levels[i].below[j]
  }

  lemma SceneReachesDamaged(levels: seq<Level>, previous: seq<Placement>, region: set<Point>)
    ensures SceneReaches(levels, previous, region)
      <==> exists s :: s in Damaged(levels) && SiblingReaches(s, previous, region)
  {
    if SceneReaches(levels, previous, region) {
      var i :| 0 <= i < |levels| && LevelReaches(levels[i], previous, region);
      var j :| 0 <= j < |levels[i].below| && SiblingReaches(levels[i].below[j], previous, region);
      assert levels[i].below[j] in Damaged(levels);
    }
    if s :| s in Damaged(levels) && SiblingReaches(s, previous, region) {
      var i, j :| 0 <= i < |levels| && 0 <= j < |levels[i].below| && levels[i].below[j] == s;
      assert SomeReaches(levels[i].below, previous, region);
      assert LevelReaches(levels[i], previous, region);
    }
  }

  ghost predicate EachActorOnce(levels: seq<Level>) {
    var placements := Placements(levels);
    forall i, j :: 0 <= i < j < |placements| ==> placements[i].actor != placements[j].actor
  }

  lemma {:induction false} SiblingIsPlaced(below: seq<Sibling>, j: nat)
    requires j < |below| && below[j].paints
    ensures below[j].placement in SiblingPlacements(below)
  {
    var last := |below| - 1;
    if j < last {
      SiblingIsPlaced(below[..last], j);
    }
  }

  lemma {:induction false} LevelIsPlaced(levels: seq<Level>, i: nat, placement: Placement)
    requires i < |levels| && placement in SiblingPlacements(levels[i].below)
    ensures placement in Placements(levels)
  {
    var last := |levels| - 1;
    if i < last {
      LevelIsPlaced(levels[..last], i, placement);
    }
  }

  /** A second look finds everything where the first one saw it. */
  lemma PlacedWhereSeen(levels: seq<Level>, s: Sibling)
    requires EachActorOnce(levels) && s in Damaged(levels)
    ensures PreviousPlacement(Placements(levels), s.placement.actor) == Some(s.placement)
  {
    var i, j :| 0 <= i < |levels| && 0 <= j < |levels[i].below| && levels[i].below[j] == s && s.paints;
    SiblingIsPlaced(levels[i].below, j);
    LevelIsPlaced(levels, i, s.placement);
    var placements := Placements(levels);
    var k :| 0 <= k < |placements| && placements[k] == s.placement;
    var found := PreviousPlacement(placements, s.placement.actor);
    assert found.Some?;
    var l :| 0 <= l < |placements| && placements[l] == found.value;
  }

  /** Something damaged was in a region when the surface last looked and isn't any more. */
  predicate HasLeft(s: Sibling, previous: seq<Placement>, region: set<Point>) {
    var before := PreviousPlacement(previous, s.placement.actor);
    before.Some? && BoxReaches(before.value.box, region) && s.placement.bounded && !BoxReaches(s.placement.box, region)
  }

  predicate IsThere(s: Sibling, region: set<Point>) { !s.placement.bounded || BoxReaches(s.placement.box, region) }

  ghost predicate OnlyLeft(levels: seq<Level>, previous: seq<Placement>, region: set<Point>) {
    && (exists s :: s in Damaged(levels) && HasLeft(s, previous, region))
    && (forall s :: s in Damaged(levels) ==> !IsThere(s, region))
  }

  /**
   * Each look forgets where things were before it. So of two views that look at one scene, of which the first finds
   * nothing elsewhere, the second isn't told of what it would have been told of as the first exactly when something
   * damaged has left its region and nothing damaged is in it.
   */
  lemma SecondLookMissesDepartures(
    mix: Mixer, fingerprint: U64, previous: seq<Placement>, levels: seq<Level>, repainted: set<Point>,
    region: set<Point>)
    requires EachActorOnce(levels) && !Told(mix, fingerprint, previous, levels, repainted)
    ensures (Told(mix, fingerprint, previous, levels, region)
        && !Told(mix, Print(mix, levels), Placements(levels), levels, region))
      <==> OnlyLeft(levels, previous, region)
  {
    SceneReachesDamaged(levels, previous, repainted);
    SceneReachesDamaged(levels, previous, region);
    SceneReachesDamaged(levels, Placements(levels), region);
    forall s | s in Damaged(levels)
      ensures SiblingReaches(s, Placements(levels), region) <==> IsThere(s, region)
      ensures SiblingReaches(s, previous, region) <==> IsThere(s, region) || HasLeft(s, previous, region)
    {
      PlacedWhereSeen(levels, s);
      assert !SiblingReaches(s, previous, repainted);
    }
  }

  /** One view looks, and then another, at the same scene. */
  method LookFromTwoViews(
    behind: Behind, levels: seq<Level>, repainted: set<Point>, blurred: set<Point>, otherRepainted: set<Point>,
    otherBlurred: set<Point>)
    returns (here: bool, elsewhere: bool, otherHere: bool, otherElsewhere: bool)
    requires EachActorOnce(levels)
    modifies behind
    ensures here == Told(behind.mix, old(behind.fingerprint), old(behind.previous), levels, blurred)
    ensures elsewhere == Told(behind.mix, old(behind.fingerprint), old(behind.previous), levels, repainted)
    ensures !elsewhere ==>
      (otherHere <==>
        && Told(behind.mix, old(behind.fingerprint), old(behind.previous), levels, otherBlurred)
        && !OnlyLeft(levels, old(behind.previous), otherBlurred))
  {
    if !Told(behind.mix, behind.fingerprint, behind.previous, levels, repainted) {
      SecondLookMissesDepartures(behind.mix, behind.fingerprint, behind.previous, levels, repainted, otherBlurred);
      if Told(behind.mix, Print(behind.mix, levels), Placements(levels), levels, otherBlurred) {
        SecondLookFindsNoMore(behind.mix, behind.fingerprint, behind.previous, levels, otherBlurred);
      }
    }
    here, elsewhere := behind.BehindChanged(levels, repainted, blurred);
    otherHere, otherElsewhere := behind.BehindChanged(levels, otherRepainted, otherBlurred);
  }

  lemma SecondLookFindsNoMore(
    mix: Mixer, fingerprint: U64, previous: seq<Placement>, levels: seq<Level>, region: set<Point>)
    requires EachActorOnce(levels) && Told(mix, Print(mix, levels), Placements(levels), levels, region)
    ensures Told(mix, fingerprint, previous, levels, region)
  {
    SceneReachesDamaged(levels, previous, region);
    SceneReachesDamaged(levels, Placements(levels), region);
    forall s | s in Damaged(levels) && SiblingReaches(s, Placements(levels), region)
      ensures SiblingReaches(s, previous, region)
    {
      PlacedWhereSeen(levels, s);
    }
  }

  /** A scene of one actor that moves, and is damaged for that. */
  function OneActor(box: Rect): seq<Level> {
    [Level(1, 255, NoClip, true, true, [Sibling(Placement(2, true, box), true, true)])]
  }

  /** Where an actor is doesn't show in the print. */
  lemma OneActorPrints(mix: Mixer, box: Rect, other: Rect)
    ensures Print(mix, OneActor(box)) == Print(mix, OneActor(other))
    ensures Placements(OneActor(box)) == [Placement(2, true, box)] && !OwnDamage(OneActor(box))
    ensures Damaged(OneActor(box)) == {OneActor(box)[0].below[0]} && EachActorOnce(OneActor(box))
  {
    var one, another := OneActor(box), OneActor(other);
    assert one == [] + [one[0]] && another == [] + [another[0]];
    ValuesWithLast([], one[0]);
    ValuesWithLast([], another[0]);
    assert one[0].below == [] + [one[0].below[0]] && another[0].below == [] + [another[0].below[0]];
    assert SiblingValues(one[0].below) == SiblingValues(another[0].below);
    assert one[0].below[..0] == [] && SiblingPlacements(one[0].below) == [one[0].below[0].placement];
    assert one[..0] == [];
  }

  lemma OneActorTold(mix: Mixer, start: Rect, end: Rect, region: set<Point>)
    ensures Told(mix, Print(mix, OneActor(start)), Placements(OneActor(start)), OneActor(end), region)
      <==> BoxReaches(start, region) || BoxReaches(end, region)
  {
    OneActorPrints(mix, start, end);
    OneActorPrints(mix, end, start);
    SceneReachesDamaged(OneActor(end), Placements(OneActor(start)), region);
    var sibling := OneActor(end)[0].below[0];
    assert sibling in Damaged(OneActor(end));
    assert PreviousPlacement(Placements(OneActor(start)), 2) == Some(Placement(2, true, start));
  }

  /**
   * An actor goes from one view's glass to where neither view shows it. If the other view looks first, neither is told
   * of it; if the view it left looks first, it's told.
   */
  method AnActorLeaves(start: Rect, end: Rect, staying: set<Point>, left: set<Point>)
    returns (toldFirst: bool, told: bool, toldAsFirst: bool)
    requires BoxReaches(start, left) && !BoxReaches(end, left) && !BoxReaches(start, staying)
    requires !BoxReaches(end, staying)
    ensures !toldFirst && !told && toldAsFirst
  {
    OneActorTold(Mix, start, end, staying);
    OneActorTold(Mix, start, end, left);
    OneActorTold(Mix, end, end, left);
    OneActorPrints(Mix, start, end);
    var behind := new Behind();
    var here, elsewhere := behind.BehindChanged(OneActor(start), staying, staying);
    here, elsewhere := behind.BehindChanged(OneActor(end), staying, staying);
    toldFirst := here || elsewhere;
    told, elsewhere := behind.BehindChanged(OneActor(end), left, left);
    var again := new Behind();
    here, elsewhere := again.BehindChanged(OneActor(start), staying, staying);
    toldAsFirst, elsewhere := again.BehindChanged(OneActor(end), left, left);
  }

  lemma NextSibling(mix: Mixer, start: U64, below: seq<Sibling>, i: nat, previous: seq<Placement>, region: set<Point>)
    requires i < |below|
    ensures SomeReaches(below[..i + 1], previous, region)
      == (SomeReaches(below[..i], previous, region) || SiblingReaches(below[i], previous, region))
    ensures SiblingPlacements(below[..i + 1])
      == SiblingPlacements(below[..i]) + (if below[i].paints then [below[i].placement] else [])
    ensures MixAll(mix, start, SiblingValues(below[..i + 1])) == if below[i].paints
      then mix(MixAll(mix, start, SiblingValues(below[..i])), below[i].placement.actor)
      else MixAll(mix, start, SiblingValues(below[..i]))
  {
    assert below[..i + 1][..i] == below[..i];
    assert forall j :: 0 <= j < i ==> below[..i + 1][j] == below[..i][j];
    MixOne(mix, start, SiblingValues(below[..i]), below[i].placement.actor);
    assert SiblingValues(below[..i]) + [] == SiblingValues(below[..i]);
  }

  lemma NextLevel(levels: seq<Level>, i: nat, previous: seq<Placement>, region: set<Point>)
    requires i < |levels|
    ensures SceneReaches(levels[..i + 1], previous, region)
      == (SceneReaches(levels[..i], previous, region) || LevelReaches(levels[i], previous, region))
    ensures OwnDamage(levels[..i + 1]) == (OwnDamage(levels[..i]) || (levels[i].damaged && !levels[i].damagedChild))
  {
    assert forall j :: 0 <= j < i ==> levels[..i + 1][j] == levels[..i][j];
  }

  lemma NextPrint(mix: Mixer, levels: seq<Level>, i: nat)
    requires i < |levels|
    ensures Placements(levels[..i + 1]) == Placements(levels[..i]) + SiblingPlacements(levels[i].below)
    ensures Print(mix, levels[..i + 1]) == MixAll(mix, Print(mix, levels[..i]), LevelValues(levels[i]))
  {
    ValuesOn(levels, i);
    MixAllOn(mix, SEED, Values(levels[..i]), LevelValues(levels[i]));
  }

  lemma ValuesOn(levels: seq<Level>, i: nat)
    requires i < |levels|
    ensures Placements(levels[..i + 1]) == Placements(levels[..i]) + SiblingPlacements(levels[i].below)
    ensures Values(levels[..i + 1]) == Values(levels[..i]) + LevelValues(levels[i])
  {
    assert levels[..i + 1][..i] == levels[..i];
  }

  lemma MixLevel(mix: Mixer, start: U64, level: Level)
    ensures MixAll(mix, start, LevelValues(level))
      == MixAll(
           mix, MixAll(mix, mix(mix(start, level.parent), level.opacity), ClipValues(level.clip)),
           SiblingValues(level.below))
  {
    var own := [level.parent, level.opacity];
    MixTwo(mix, start, level.parent, level.opacity);
    MixAllOn(mix, start, own + ClipValues(level.clip), SiblingValues(level.below));
    MixAllOn(mix, start, own, ClipValues(level.clip));
  }

  method MixClip(mix: Mixer, hash: U64, clip: ActorClip) returns (mixed: U64)
    ensures mixed == MixAll(mix, hash, ClipValues(clip))
  {
    if clip.NoClip? {
      MixOne(mix, hash, [], 0);
      return mix(hash, 0);
    }
    mixed := mix(hash, clip.x);
    mixed := mix(mixed, clip.y);
    mixed := mix(mixed, clip.width);
    mixed := mix(mixed, clip.height);
    MixFour(mix, hash, clip.x, clip.y, clip.width, clip.height);
  }

  /** What reaches where the surface is blurred reaches what's repainted. */
  lemma HereIsElsewhere(levels: seq<Level>, previous: seq<Placement>, repainted: set<Point>, blurred: set<Point>)
    requires blurred <= repainted && SceneReaches(levels, previous, blurred)
    ensures SceneReaches(levels, previous, repainted)
  {
    var i :| 0 <= i < |levels| && LevelReaches(levels[i], previous, blurred);
    var j :| 0 <= j < |levels[i].below| && SiblingReaches(levels[i].below[j], previous, blurred);
    assert SiblingReaches(levels[i].below[j], previous, repainted);
    assert LevelReaches(levels[i], previous, repainted);
  }
}
