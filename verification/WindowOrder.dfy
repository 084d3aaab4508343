/** How an app's windows are sorted: the active workspace first, then visible ones, then those used last. */
module WindowOrder {

  /** What a window says of itself. Times are unsigned 32-bit. */
  datatype Window = Window(workspace: nat, visible: bool, userTime: int, skipTaskbar: bool, overrideRedirect: bool)

  type Windows = map<nat, Window>

  const NO_WINDOW := Window(0, false, 0, true, false)

  function Info(all: Windows, id: nat): Window { if id in all then all[id] else NO_WINDOW }

  const HALF: int := 0x8000_0000
  const WHOLE: int := 0x1_0000_0000

  predicate IsTime(time: int) { 0 <= time < WHOLE }

  /** The difference of two times, as it comes out of unsigned subtraction and a conversion to signed. */
  function Difference(time: int, other: int): int {
    var wrapped := (time - other) % WHOLE;
    if wrapped < HALF then wrapped else wrapped - WHOLE
  }

  function Compare(a: Window, b: Window, active: nat): int {
    if (a.workspace == active) != (b.workspace == active) then (if a.workspace == active then -1 else 1)
    else if a.visible != b.visible then (if a.visible then -1 else 1)
    else Difference(b.userTime, a.userTime)
  }

  // What the order is meant to be.

  function Rank(w: Window, active: nat): int {
    (if w.workspace == active then 2 else 0) + (if w.visible then 1 else 0)
  }

  predicate Above(a: Window, b: Window, active: nat) {
    Rank(a, active) > Rank(b, active) || (Rank(a, active) == Rank(b, active) && a.userTime >= b.userTime)
  }

  predicate Near(a: Window, b: Window) {
    IsTime(a.userTime) && IsTime(b.userTime) && b.userTime - a.userTime < HALF && a.userTime - b.userTime <= HALF
  }

  /**
   * Windows that rank the same are compared rightly exactly while the later is used less than half the clock after the
   * other.
   */
  lemma ComparesRightlyWhileNear(a: Window, b: Window, active: nat)
    requires IsTime(a.userTime) && IsTime(b.userTime) && Rank(a, active) == Rank(b, active)
    ensures (Compare(a, b, active) <= 0 <==> Above(a, b, active)) <==> Near(a, b)
  {
  }

  lemma CompareIsAbove(a: Window, b: Window, active: nat)
    requires Near(a, b)
    ensures Compare(a, b, active) <= 0 <==> Above(a, b, active)
  {
  }

  // Sorting.

  /** In front of the first that doesn't come before it. */
  function Insert(id: nat, ids: seq<nat>, all: Windows, active: nat): (more: seq<nat>)
    ensures |more| == |ids| + 1
  {
    if ids == [] || Compare(Info(all, id), Info(all, ids[0]), active) <= 0 then [id] + ids
    else [ids[0]] + Insert(id, ids[1..], all, active)
  }

  /** A stable sort. */
  function Sort(ids: seq<nat>, all: Windows, active: nat): (sorted: seq<nat>)
    ensures |sorted| == |ids|
  {
    if ids == [] then [] else Insert(ids[0], Sort(ids[1..], all, active), all, active)
  }

  ghost predicate Sorted(ids: seq<nat>, all: Windows, active: nat) {
    forall i, j :: 0 <= i < j < |ids| ==> Above(Info(all, ids[i]), Info(all, ids[j]), active)
  }

  ghost predicate AllNear(ids: seq<nat>, all: Windows) {
    forall i, j :: 0 <= i < |ids| && 0 <= j < |ids| ==> Near(Info(all, ids[i]), Info(all, ids[j]))
  }

  lemma {:induction false} InsertTakesAll(id: nat, ids: seq<nat>, all: Windows, active: nat)
    ensures multiset(Insert(id, ids, all, active)) == multiset{id} + multiset(ids)
  {
    if ids == [] || Compare(Info(all, id), Info(all, ids[0]), active) <= 0 {
    } else {
      InsertTakesAll(id, ids[1..], all, active);
      assert ids == [ids[0]] + ids[1..];
    }
  }

  /** Sorting leaves nothing out and adds nothing. */
  lemma {:induction false} SortIsPermutation(ids: seq<nat>, all: Windows, active: nat)
    ensures multiset(Sort(ids, all, active)) == multiset(ids)
  {
    if ids != [] {
      SortIsPermutation(ids[1..], all, active);
      InsertTakesAll(ids[0], Sort(ids[1..], all, active), all, active);
      assert ids == [ids[0]] + ids[1..];
    }
  }

  lemma SameMembers(ids: seq<nat>, others: seq<nat>)
    requires multiset(ids) == multiset(others)
    ensures forall id :: id in ids <==> id in others
  {
    forall id ensures id in ids <==> id in others {
      assert id in multiset(ids) <==> id in multiset(others);
    }
  }

  lemma {:induction false} InsertKeepsSorted(id: nat, ids: seq<nat>, all: Windows, active: nat)
    requires Sorted(ids, all, active)
    requires forall other :: other in ids ==> Near(Info(all, id), Info(all, other))
    ensures Sorted(Insert(id, ids, all, active), all, active)
  {
    if ids != [] {
      var first := Info(all, ids[0]);
      CompareIsAbove(Info(all, id), first, active);
      if Compare(Info(all, id), first, active) > 0 {
        var rest := ids[1..];
        InsertKeepsSorted(id, rest, all, active);
        InsertTakesAll(id, rest, all, active);
        var more := Insert(id, rest, all, active);
        forall j | 0 <= j < |more| ensures Above(first, Info(all, more[j]), active) {
          assert more[j] in multiset(more);
          if more[j] != id {
            var k :| 0 <= k < |rest| && rest[k] == more[j];
            assert ids[k + 1] == rest[k];
          }
        }
      }
    }
  }

  /** Windows used at times near each other come out in order. */
  lemma {:induction false} SortSorts(ids: seq<nat>, all: Windows, active: nat)
    requires AllNear(ids, all)
    ensures Sorted(Sort(ids, all, active), all, active)
  {
    if ids != [] {
      var rest := ids[1..];
      assert AllNear(rest, all);
      SortSorts(rest, all, active);
      SortIsPermutation(rest, all, active);
      SameMembers(Sort(rest, all, active), rest);
      forall other | other in Sort(rest, all, active) ensures Near(Info(all, ids[0]), Info(all, other)) {
        var k :| 0 <= k < |rest| && rest[k] == other;
        assert ids[k + 1] == other;
      }
      InsertKeepsSorted(ids[0], Sort(rest, all, active), all, active);
    }
  }

  /** Whether a window would be in its place between those before and after it. */
  predicate FitsAt(ids: seq<nat>, k: nat, w: Window, all: Windows, active: nat)
    requires k < |ids|
  {
    && (k > 0 ==> Above(Info(all, ids[k - 1]), w, active))
    && (k + 1 < |ids| ==> Above(w, Info(all, ids[k + 1]), active))
  }

  /**
   * A sorted list stays sorted when one of its windows changes if and only if that still fits between its neighbours.
   */
  lemma SortedWhileItFits(ids: seq<nat>, k: nat, w: Window, all: Windows, active: nat)
    requires Sorted(ids, all, active) && k < |ids|
    requires forall i :: 0 <= i < |ids| && i != k ==> ids[i] != ids[k]
    ensures Sorted(ids, all[ids[k] := w], active) <==> FitsAt(ids, k, w, all, active)
  {
    var changed := all[ids[k] := w];
    assert forall i :: 0 <= i < |ids| ==> Info(changed, ids[i]) == if i == k then w else Info(all, ids[i]);
    if Sorted(ids, changed, active) {
      if k > 0 {
        assert Above(Info(changed, ids[k - 1]), Info(changed, ids[k]), active);
      }
      if k + 1 < |ids| {
        assert Above(Info(changed, ids[k]), Info(changed, ids[k + 1]), active);
      }
    }
    if FitsAt(ids, k, w, all, active) {
      forall i, j | 0 <= i < j < |ids| ensures Above(Info(changed, ids[i]), Info(changed, ids[j]), active) {
        AboveNeighbours(ids, k, i, all, active);
        AboveNeighbours(ids, k, j, all, active);
      }
    }
  }

  lemma AboveNeighbours(ids: seq<nat>, k: nat, i: nat, all: Windows, active: nat)
    requires Sorted(ids, all, active) && k < |ids| && i < |ids|
    ensures i < k ==> Above(Info(all, ids[i]), Info(all, ids[k - 1]), active)
    ensures i > k ==> Above(Info(all, ids[k + 1]), Info(all, ids[i]), active)
  {
  }

  /** Times half the clock apart come out the wrong way around. */
  lemma FarTimesSortWrongly()
    ensures var all := map[1 := Window(0, true, 0, false, false), 2 := Window(0, true, HALF, false, false)];
      Sort([1, 2], all, 0) == [1, 2] && !Sorted([1, 2], all, 0)
  {
    var all := map[1 := Window(0, true, 0, false, false), 2 := Window(0, true, HALF, false, false)];
    assert Compare(Info(all, 1), Info(all, 2), 0) <= 0;
    assert Sort([2], all, 0) == [2] by {
      assert [2][1..] == [];
    }
    assert [1, 2][1..] == [2];
    assert !Above(Info(all, [1, 2][0]), Info(all, [1, 2][1]), 0);
  }
}
