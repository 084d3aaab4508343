/**
 * Apps, the windows they have and the set of those that run. A window is tracked for one app at a time, and tells its
 * app when it's used and when it's taken off the taskbar or put back.
 */
module Apps {
  import opened Lists
  import opened WindowOrder

  datatype AppState = Stopped | Starting | Running

  /** Without a running state there are no windows, and what's kept of them is as it was at first. */
  datatype App = App(state: AppState, hasRunningState: bool, windows: seq<nat>, interesting: nat, sortStale: bool)

  const NEW_APP := App(Stopped, false, [], 0, false)

  /** An app and the set it's in while it runs. */
  datatype Seen = Seen(id: nat, app: App, running: set<nat>)

  // One app.

  /** The set of running apps follows what an app becomes. A running app never becomes a starting one. */
  function Transition(s: Seen, state: AppState): Seen {
    if s.app.state == state || (s.app.state == Running && state == Starting) then s
    else s.(
      app := s.app.(state := state),
      running := match state
        case Running => s.running + {s.id}
        case Starting => s.running
        case Stopped => s.running - {s.id})
  }

  lemma TransitionIsSound(s: Seen, state: AppState)
    requires InItsSet(s)
    ensures var after := Transition(s, state);
      && after.app == s.app.(state := if s.app.state == Running && state == Starting then Running else state)
      && after.id == s.id && InItsSet(after)
      && forall other :: other != s.id ==> (other in after.running <==> other in s.running)
  {
  }

  function SyncRunningState(s: Seen): Seen {
    if s.app.state == Starting then s else Transition(s, if s.app.interesting == 0 then Stopped else Running)
  }

  /** An unsigned counter, which wraps around below zero. */
  function OneLess(count: nat): nat { if count == 0 then 0xffff_ffff else count - 1 }

  function AddWindow(s: Seen, id: nat, skip: bool): Seen {
    if s.app.hasRunningState && id in s.app.windows then s
    else SyncRunningState(s.(app := s.app.(
      hasRunningState := true, sortStale := true, windows := [id] + s.app.windows,
      interesting := if skip then s.app.interesting else s.app.interesting + 1)))
  }

  function RemoveWindow(s: Seen, id: nat, skip: bool): Seen {
    if id !in s.app.windows then s
    else
      var synced := SyncRunningState(s.(app := s.app.(
        windows := Without(s.app.windows, id),
        interesting := if skip then s.app.interesting else OneLess(s.app.interesting))));
      if synced.app.windows == [] then synced.(app := NEW_APP.(state := synced.app.state)) else synced
  }

  function SkipTaskbarChanged(s: Seen, id: nat, skip: bool): Seen {
    if id !in s.app.windows then s
    else SyncRunningState(s.(app := s.app.(
      interesting := if skip then OneLess(s.app.interesting) else s.app.interesting + 1)))
  }

  function HandleStartupSequence(s: Seen, completed: bool): Seen {
    if !completed then (if s.app.state == Stopped then Transition(s, Starting) else s)
    else Transition(s, if s.app.hasRunningState && s.app.windows != [] then Running else Stopped)
  }

  /** All windows are let go of, one after another. */
  function Dispose(s: Seen, all: Windows): Seen
    decreases |s.app.windows|
  {
    if s.app.windows == [] then s
    else
      var next := RemoveWindow(s, s.app.windows[0], Info(all, s.app.windows[0]).skipTaskbar);
      if |next.app.windows| < |s.app.windows| then Dispose(next, all) else next
  }

  /** A window that was used, unless it's in front already. */
  function UserTimeChanged(app: App, id: nat): App {
    if id in app.windows && id != app.windows[0] then app.(sortStale := true) else app
  }

  function WorkspaceSwitched(app: App): App {
    if app.hasRunningState then app.(sortStale := true) else app
  }

  function Refreshed(app: App, all: Windows, active: nat): App {
    if app.hasRunningState && app.sortStale then app.(windows := Sort(app.windows, all, active), sortStale := false)
    else app
  }

  function Managed(ids: seq<nat>, all: Windows): seq<nat> {
    if ids == [] then [] else (if Info(all, ids[0]).overrideRedirect then [] else [ids[0]]) + Managed(ids[1..], all)
  }

  function GetWindows(app: App, all: Windows, active: nat): seq<nat> {
    Managed(Refreshed(app, all, active).windows, all)
  }

  // What's kept of one app.

  function Interesting(ids: seq<nat>, all: Windows): nat {
    if ids == [] then 0 else (if Info(all, ids[0]).skipTaskbar then 0 else 1) + Interesting(ids[1..], all)
  }

  ghost predicate NoneTwice(ids: seq<nat>) {
    forall i, j :: 0 <= i < j < |ids| ==> ids[i] != ids[j]
  }

  ghost predicate Counted(app: App, all: Windows) {
    NoneTwice(app.windows) && app.interesting == Interesting(app.windows, all)
  }

  predicate InItsSet(s: Seen) { s.id in s.running <==> s.app.state == Running }

  /**
   * The counter is the number of windows on the taskbar, there's a running state exactly while there are windows, a
   * running app has a window, and one that's stopped has none on the taskbar.
   */
  ghost predicate Sound(s: Seen, all: Windows) {
    && Counted(s.app, all)
    && (s.app.hasRunningState <==> s.app.windows != [])
    && (!s.app.hasRunningState ==> s.app == NEW_APP.(state := s.app.state))
    && (s.app.state == Running ==> s.app.windows != [])
    && (s.app.state == Stopped ==> s.app.interesting == 0)
    && InItsSet(s)
  }

  ghost predicate OnlyItself(s: Seen, after: Seen) {
    after.id == s.id && forall id :: id != s.id ==> (id in after.running <==> id in s.running)
  }

  lemma {:induction false} WithoutOne(ids: seq<nat>, id: nat, all: Windows)
    requires NoneTwice(ids) && id in ids
    ensures NoneTwice(Without(ids, id)) && |Without(ids, id)| == |ids| - 1
    ensures forall other :: other in Without(ids, id) <==> other in ids && other != id
    ensures Interesting(ids, all) == Interesting(Without(ids, id), all) + (if Info(all, id).skipTaskbar then 0 else 1)
  {
    var rest := ids[1..];
    assert forall other :: other in ids <==> other == ids[0] || other in rest;
    if ids[0] != id {
      WithoutOne(rest, id, all);
      var left := Without(rest, id);
      assert ([ids[0]] + left)[1..] == left;
      assert forall other :: other in [ids[0]] + left <==> other == ids[0] || other in left;
      assert ids[0] !in left;
    }
  }

  lemma SyncIsSound(s: Seen, all: Windows)
    requires Counted(s.app, all) && InItsSet(s)
    ensures var after := SyncRunningState(s);
      && after.app == s.app.(state := after.app.state) && InItsSet(after) && OnlyItself(s, after)
      && (after.app.state == Running ==> s.app.interesting > 0)
      && (after.app.state == Stopped ==> s.app.interesting == 0)
  {
  }

  lemma AddIsSound(s: Seen, id: nat, all: Windows)
    requires Sound(s, all)
    ensures var after := AddWindow(s, id, Info(all, id).skipTaskbar);
      && Sound(after, all) && OnlyItself(s, after)
      && forall other :: other in after.app.windows <==> other in s.app.windows || other == id
  {
    if id !in s.app.windows {
      var more := [id] + s.app.windows;
      assert more[1..] == s.app.windows;
      SyncIsSound(
        s.(app := s.app.(
          hasRunningState := true, sortStale := true, windows := more,
          interesting := if Info(all, id).skipTaskbar then s.app.interesting else s.app.interesting + 1)),
        all);
    }
  }

  /** The counter never goes below zero, and when the last window goes the running state does. */
  lemma RemoveIsSound(s: Seen, id: nat, all: Windows)
    requires Sound(s, all)
    ensures var after := RemoveWindow(s, id, Info(all, id).skipTaskbar);
      && Sound(after, all) && OnlyItself(s, after)
      && (id in s.app.windows ==>
            after.app.windows == Without(s.app.windows, id) && |after.app.windows| < |s.app.windows|)
      && (s.app.state == Starting <==> after.app.state == Starting)
      && forall other :: other in after.app.windows <==> other in s.app.windows && other != id
  {
    if id in s.app.windows {
      WithoutOne(s.app.windows, id, all);
      SyncIsSound(
        s.(app := s.app.(
          windows := Without(s.app.windows, id),
          interesting := if Info(all, id).skipTaskbar then s.app.interesting else OneLess(s.app.interesting))),
        all);
    }
  }

  lemma {:induction false} ToggleCounts(ids: seq<nat>, id: nat, all: Windows, changed: Window)
    requires NoneTwice(ids) && changed.skipTaskbar == !Info(all, id).skipTaskbar
    ensures Interesting(ids, all[id := changed])
      == Interesting(ids, all) + if id !in ids then 0 else if changed.skipTaskbar then -1 else 1
  {
    if ids != [] {
      ToggleCounts(ids[1..], id, all, changed);
      assert id in ids <==> id == ids[0] || id in ids[1..];
    }
  }

  lemma {:induction false} OthersCount(ids: seq<nat>, all: Windows, other: Windows)
    requires forall id :: id in ids ==> Info(all, id).skipTaskbar == Info(other, id).skipTaskbar
    ensures Interesting(ids, all) == Interesting(ids, other)
  {
    if ids != [] {
      OthersCount(ids[1..], all, other);
    }
  }

  lemma SkipChangeIsSound(s: Seen, id: nat, all: Windows, changed: Window)
    requires Sound(s, all) && changed.skipTaskbar == !Info(all, id).skipTaskbar
    ensures var after := SkipTaskbarChanged(s, id, changed.skipTaskbar);
      Sound(after, all[id := changed]) && OnlyItself(s, after) && after.app.windows == s.app.windows
  {
    ToggleCounts(s.app.windows, id, all, changed);
    if id in s.app.windows {
      SyncIsSound(
        s.(app := s.app.(
          interesting := if changed.skipTaskbar then OneLess(s.app.interesting) else s.app.interesting + 1)),
        all[id := changed]);
    }
  }

  lemma StartupIsSound(s: Seen, completed: bool, all: Windows)
    requires Sound(s, all)
    ensures var after := HandleStartupSequence(s, completed);
      && Sound(after, all) && OnlyItself(s, after) && after.app == s.app.(state := after.app.state)
      && (completed ==> after.app.state == if s.app.windows == [] then Stopped else Running)
      && (!completed ==> after.app.state == if s.app.state == Stopped then Starting else s.app.state)
  {
  }

  /** Disposing of an app leaves it stopped, unless it was starting. */
  lemma {:induction false} DisposeStops(s: Seen, all: Windows)
    requires Sound(s, all)
    ensures var after := Dispose(s, all);
      && Sound(after, all) && OnlyItself(s, after) && after.app.windows == [] && !after.app.hasRunningState
      && after.app.state == (if s.app.state == Starting then Starting else Stopped)
    decreases |s.app.windows|
  {
    if s.app.windows != [] {
      RemoveIsSound(s, s.app.windows[0], all);
      DisposeStops(RemoveWindow(s, s.app.windows[0], Info(all, s.app.windows[0]).skipTaskbar), all);
    }
  }
}
