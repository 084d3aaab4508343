/** All apps over any run: which ones run, what they count, and in which order their windows are given. */
module AppSystem {
  import opened Lists
  import opened Options
  import opened WindowOrder
  import opened Apps

  // The order of one app's windows.

  /** While it isn't marked stale, the list of windows is sorted. */
  ghost predicate SortedUnlessStale(app: App, all: Windows, active: nat) {
    !app.sortStale ==> Sorted(app.windows, all, active)
  }

  lemma {:induction false} WithoutStaysSorted(ids: seq<nat>, id: nat, all: Windows, active: nat)
    requires Sorted(ids, all, active)
    ensures Sorted(Without(ids, id), all, active) && forall other :: other in Without(ids, id) ==> other in ids
  {
    if ids != [] && ids[0] != id {
      var rest := ids[1..];
      WithoutStaysSorted(rest, id, all, active);
      var left := Without(rest, id);
      forall j | 0 <= j < |left| ensures Above(Info(all, ids[0]), Info(all, left[j]), active) {
        assert left[j] in rest;
        var k :| 0 <= k < |rest| && rest[k] == left[j];
        assert ids[k + 1] == left[j];
      }
    }
  }

  lemma RemoveStaysSorted(s: Seen, id: nat, skip: bool, all: Windows, active: nat)
    requires SortedUnlessStale(s.app, all, active)
    ensures SortedUnlessStale(RemoveWindow(s, id, skip).app, all, active)
  {
    if !s.app.sortStale {
      WithoutStaysSorted(s.app.windows, id, all, active);
    }
  }

  lemma {:induction false} DisposeStaysSorted(s: Seen, all: Windows, active: nat)
    requires SortedUnlessStale(s.app, all, active)
    ensures SortedUnlessStale(Dispose(s, all).app, all, active)
    decreases |s.app.windows|
  {
    if s.app.windows != [] {
      var skip := Info(all, s.app.windows[0]).skipTaskbar;
      RemoveStaysSorted(s, s.app.windows[0], skip, all, active);
      var next := RemoveWindow(s, s.app.windows[0], skip);
      if |next.app.windows| < |s.app.windows| {
        DisposeStaysSorted(next, all, active);
      }
    }
  }

  /** The window in front stays there when it's used again; any other makes the order stale. */
  lemma UserTimeStaysSorted(app: App, id: nat, all: Windows, time: int, active: nat)
    requires NoneTwice(app.windows) && SortedUnlessStale(app, all, active) && id in all && time >= all[id].userTime
    ensures SortedUnlessStale(UserTimeChanged(app, id), all[id := all[id].(userTime := time)], active)
    ensures UserTimeChanged(app, id).sortStale <==> app.sortStale || (id in app.windows && id != app.windows[0])
  {
    var changed := all[id := all[id].(userTime := time)];
    var ids := app.windows;
    if !UserTimeChanged(app, id).sortStale {
      forall i, j | 0 <= i < j < |ids| ensures Above(Info(changed, ids[i]), Info(changed, ids[j]), active) {
        assert ids[j] in ids;
        assert Above(Info(all, ids[i]), Info(all, ids[j]), active);
      }
    }
  }

  lemma {:induction false} InterestingOfPermutation(ids: seq<nat>, others: seq<nat>, all: Windows)
    requires multiset(ids) == multiset(others)
    ensures Interesting(ids, all) == Interesting(others, all)
  {
    if ids == [] {
      assert |multiset(others)| == 0;
    } else {
      var first := ids[0];
      assert ids == [first] + ids[1..];
      assert first in multiset(others);
      TakeOut(others, first);
      TakeOutCounts(others, first, all);
      InterestingOfPermutation(ids[1..], Without(others, first), all);
    }
  }

  lemma {:induction false} TakeOut(ids: seq<nat>, id: nat)
    requires id in ids
    ensures multiset(Without(ids, id)) == multiset(ids) - multiset{id}
  {
    FirstOut(ids);
    if ids[0] != id {
      TakeOut(ids[1..], id);
      var left := [ids[0]] + Without(ids[1..], id);
      FirstOut(left);
      assert left[1..] == Without(ids[1..], id);
    }
  }

  lemma {:induction false} TakeOutCounts(ids: seq<nat>, id: nat, all: Windows)
    requires id in ids
    ensures Interesting(ids, all) == Interesting(Without(ids, id), all) + (if Info(all, id).skipTaskbar then 0 else 1)
  {
    if ids[0] != id {
      TakeOutCounts(ids[1..], id, all);
      var left := [ids[0]] + Without(ids[1..], id);
      assert left[1..] == Without(ids[1..], id);
    }
  }

  lemma FirstOut(ids: seq<nat>)
    requires ids != []
    ensures multiset(ids) == multiset{ids[0]} + multiset(ids[1..])
  {
    assert ids == [ids[0]] + ids[1..];
  }

  lemma NoneTwiceOfPermutation(ids: seq<nat>, others: seq<nat>)
    requires multiset(ids) == multiset(others) && NoneTwice(ids)
    ensures NoneTwice(others)
  {
    forall i, j | 0 <= i < j < |others| ensures others[i] != others[j] {
      if others[i] == others[j] {
        TwiceCounts(others, i, j);
        OnceCounts(ids, others[i]);
      }
    }
  }

  lemma TwiceCounts(ids: seq<nat>, i: nat, j: nat)
    requires i < j < |ids| && ids[i] == ids[j]
    ensures multiset(ids)[ids[i]] >= 2
  {
    assert ids == ids[..j] + ids[j..] && ids[i] == ids[..j][i] && ids[j] == ids[j..][0];
    assert multiset(ids) == multiset(ids[..j]) + multiset(ids[j..]);
    assert ids[i] in multiset(ids[..j]) && ids[j] in multiset(ids[j..]);
  }

  lemma {:induction false} OnceCounts(ids: seq<nat>, id: nat)
    requires NoneTwice(ids)
    ensures multiset(ids)[id] <= 1
  {
    if ids != [] {
      assert ids == [ids[0]] + ids[1..];
      OnceCounts(ids[1..], id);
      if ids[0] == id {
        assert id !in ids[1..];
      }
    }
  }

  lemma RefreshedIsSound(s: Seen, all: Windows, active: nat)
    requires Sound(s, all)
    ensures Sound(s.(app := Refreshed(s.app, all, active)), all)
    ensures multiset(Refreshed(s.app, all, active).windows) == multiset(s.app.windows)
  {
    var ids, sorted := s.app.windows, Sort(s.app.windows, all, active);
    SortIsPermutation(ids, all, active);
    NoneTwiceOfPermutation(ids, sorted);
    InterestingOfPermutation(ids, sorted, all);
  }

  lemma RefreshedIsSorted(app: App, all: Windows, active: nat)
    requires SortedUnlessStale(app, all, active) && AllNear(app.windows, all)
    requires !app.hasRunningState ==> app.windows == []
    ensures Sorted(Refreshed(app, all, active).windows, all, active)
    ensures app.hasRunningState ==> !Refreshed(app, all, active).sortStale
  {
    if app.hasRunningState && app.sortStale {
      SortSorts(app.windows, all, active);
    }
  }

  lemma {:induction false} ManagedCounts(ids: seq<nat>, all: Windows, id: nat)
    ensures multiset(Managed(ids, all))[id] == if Info(all, id).overrideRedirect then 0 else multiset(ids)[id]
  {
    if ids != [] {
      FirstOut(ids);
      ManagedCounts(ids[1..], all, id);
    }
  }

  lemma {:induction false} ManagedStaysSorted(ids: seq<nat>, all: Windows, active: nat)
    requires Sorted(ids, all, active)
    ensures Sorted(Managed(ids, all), all, active) && forall id :: id in Managed(ids, all) ==> id in ids
  {
    if ids != [] {
      var rest := ids[1..];
      ManagedStaysSorted(rest, all, active);
      var left := Managed(rest, all);
      forall j | 0 <= j < |left| ensures Above(Info(all, ids[0]), Info(all, left[j]), active) {
        assert left[j] in rest;
        var k :| 0 <= k < |rest| && rest[k] == left[j];
        assert ids[k + 1] == left[j];
      }
    }
  }

  // All apps.

  /** `aborted` is set when an assertion of the shell fails, which ends it. */
  datatype System = System(apps: map<nat, App>, running: set<nat>, all: Windows, active: nat, aborted: bool)

  function NewSystem(active: nat): System { System(map[], {}, map[], active, false) }

  datatype Event =
    | NewApp(app: nat)
    | NewWindow(window: nat, info: Window)
    | Add(app: nat, window: nat)
    | Remove(app: nat, window: nat)
    | SkipChanges(app: nat, window: nat)
    | Used(app: nat, window: nat, time: int)
    | Changes(app: nat, window: nat, workspace: nat, visible: bool)
    | SwitchTo(workspace: nat)
    | Startup(app: nat, completed: bool)
    | Refresh(app: nat)
    | DisposeOf(app: nat)

  function See(s: System, id: nat): Seen
    requires id in s.apps
  {
    Seen(id, s.apps[id], s.running)
  }

  function Put(s: System, seen: Seen): System {
    s.(apps := s.apps[seen.id := seen.app], running := seen.running)
  }

  function Next(s: System, event: Event): System
    requires Allowed(s, event)
  {
    match event
    case NewApp(app) => s.(apps := s.apps[app := NEW_APP])
    case NewWindow(window, info) => s.(all := s.all[window := info])
    case Add(app, window) => Put(s, AddWindow(See(s, app), window, s.all[window].skipTaskbar))
    case Remove(app, window) =>
      if !s.apps[app].hasRunningState then s.(aborted := true)
      else Put(s, RemoveWindow(See(s, app), window, Info(s.all, window).skipTaskbar))
    case SkipChanges(app, window) =>
      var info := s.all[window].(skipTaskbar := !s.all[window].skipTaskbar);
      Put(s.(all := s.all[window := info]), SkipTaskbarChanged(See(s, app), window, info.skipTaskbar))
    case Used(app, window, time) =>
      s.(
        all := s.all[window := s.all[window].(userTime := time)],
        apps := s.apps[app := UserTimeChanged(s.apps[app], window)])
    case Changes(app, window, workspace, visible) =>
      s.(all := s.all[window := s.all[window].(workspace := workspace, visible := visible)])
    case SwitchTo(workspace) =>
      s.(active := workspace, apps := map app | app in s.apps :: WorkspaceSwitched(s.apps[app]))
    case Startup(app, completed) => Put(s, HandleStartupSequence(See(s, app), completed))
    case Refresh(app) => s.(apps := s.apps[app := Refreshed(s.apps[app], s.all, s.active)])
    case DisposeOf(app) =>
      var disposed := Put(s, Dispose(See(s, app), s.all));
      disposed.(aborted := s.aborted || disposed.apps[app].state != Stopped)
  }

  predicate OnlyOf(s: System, app: nat, window: nat) {
    app in s.apps && forall other :: other in s.apps && other != app ==> window !in s.apps[other].windows
  }

  ghost predicate TimesNear(all: Windows) {
    forall a, b :: a in all && b in all ==> Near(all[a], all[b])
  }

  /** A window is one app's at a time, and the times windows are used at grow and stay near each other. */
  ghost predicate Allowed(s: System, event: Event) {
    match event
    case NewApp(app) => app !in s.apps
    case NewWindow(window, info) => window !in s.all && TimesNear(s.all[window := info])
    case Add(app, window) => OnlyOf(s, app, window) && window in s.all
    case Remove(app, window) => app in s.apps
    case SkipChanges(app, window) => OnlyOf(s, app, window) && window in s.all
    case Used(app, window, time) =>
      && OnlyOf(s, app, window) && window in s.all && time >= s.all[window].userTime
      && TimesNear(s.all[window := s.all[window].(userTime := time)])
    case Changes(app, window, workspace, visible) => OnlyOf(s, app, window) && window in s.all
    case SwitchTo(workspace) => true
    case Startup(app, completed) => app in s.apps
    case Refresh(app) => app in s.apps
    case DisposeOf(app) => app in s.apps
  }

  ghost predicate Tracked(s: System, id: nat)
    requires id in s.apps
  {
    && Sound(See(s, id), s.all)
    && forall window :: window in s.apps[id].windows ==> window in s.all
  }

  ghost predicate Apart(apps: map<nat, App>) {
    forall a, b, window :: a in apps && b in apps && a != b && window in apps[a].windows ==> window !in apps[b].windows
  }

  /** The running apps are exactly those whose state says so, and every app's windows are counted and its own. */
  ghost predicate Kept(s: System) {
    && (forall id :: id in s.apps ==> Tracked(s, id))
    && (forall id :: id in s.running <==> id in s.apps && s.apps[id].state == Running)
    && Apart(s.apps)
    && TimesNear(s.all)
  }

  /** A step of one app that changes nothing else. */
  lemma PutKeeps(s: System, seen: Seen)
    requires Kept(s) && seen.id in s.apps && Sound(seen, s.all) && OnlyItself(See(s, seen.id), seen)
    requires forall window :: window in seen.app.windows ==> window in s.all
    requires forall window :: window in seen.app.windows ==> OnlyOf(s, seen.id, window)
    ensures Kept(Put(s, seen))
  {
    var after := Put(s, seen);
    PutStaysApart(s, seen);
    forall id | id in after.apps ensures Tracked(after, id) {
      if id != seen.id {
        assert Tracked(s, id);
      }
    }
  }

  lemma PutStaysApart(s: System, seen: Seen)
    requires Apart(s.apps) && seen.id in s.apps
    requires forall window :: window in seen.app.windows ==> OnlyOf(s, seen.id, window)
    ensures Apart(Put(s, seen).apps)
  {
  }

  lemma OwnAreOnlyOf(s: System, app: nat)
    requires Apart(s.apps) && app in s.apps
    ensures forall window :: window in s.apps[app].windows ==> OnlyOf(s, app, window)
  {
  }

  /** A change of a window that another app has doesn't touch an app. */
  lemma OthersAreTracked(s: System, id: nat, window: nat, info: Window)
    requires id in s.apps && Tracked(s, id) && window !in s.apps[id].windows
    ensures Tracked(s.(all := s.all[window := info]), id)
  {
    OthersCount(s.apps[id].windows, s.all, s.all[window := info]);
  }

  lemma AddKeeps(s: System, app: nat, window: nat)
    requires Kept(s) && Allowed(s, Add(app, window))
    ensures Kept(Next(s, Add(app, window)))
  {
    assert Tracked(s, app);
    AddIsSound(See(s, app), window, s.all);
    OwnAreOnlyOf(s, app);
    PutKeeps(s, AddWindow(See(s, app), window, s.all[window].skipTaskbar));
  }

  lemma RemoveKeeps(s: System, app: nat, window: nat)
    requires Kept(s) && app in s.apps
    ensures Kept(Next(s, Remove(app, window)))
  {
    assert Tracked(s, app);
    if s.apps[app].hasRunningState {
      var skip := Info(s.all, window).skipTaskbar;
      RemoveIsSound(See(s, app), window, s.all);
      OwnAreOnlyOf(s, app);
      PutKeeps(s, RemoveWindow(See(s, app), window, skip));
    } else {
      KeptIsOf(s, Next(s, Remove(app, window)));
    }
  }

  lemma KeptIsOf(s: System, after: System)
    requires Kept(s) && after == s.(aborted := after.aborted)
    ensures Kept(after)
  {
    forall id | id in after.apps ensures Tracked(after, id) {
      assert Tracked(s, id);
    }
  }

  lemma DisposeKeeps(s: System, app: nat)
    requires Kept(s) && app in s.apps
    ensures Kept(Next(s, DisposeOf(app)))
  {
    assert Tracked(s, app);
    DisposeStops(See(s, app), s.all);
    var disposed := Put(s, Dispose(See(s, app), s.all));
    PutKeeps(s, Dispose(See(s, app), s.all));
    KeptIsOf(disposed, Next(s, DisposeOf(app)));
  }

  lemma StartupKeeps(s: System, app: nat, completed: bool)
    requires Kept(s) && app in s.apps
    ensures Kept(Next(s, Startup(app, completed)))
  {
    assert Tracked(s, app);
    StartupIsSound(See(s, app), completed, s.all);
    OwnAreOnlyOf(s, app);
    PutKeeps(s, HandleStartupSequence(See(s, app), completed));
  }

  lemma RefreshKeeps(s: System, app: nat)
    requires Kept(s) && app in s.apps
    ensures Kept(Next(s, Refresh(app)))
  {
    assert Tracked(s, app);
    var seen := See(s, app).(app := Refreshed(s.apps[app], s.all, s.active));
    RefreshedIsSound(See(s, app), s.all, s.active);
    SameMembers(seen.app.windows, s.apps[app].windows);
    OwnAreOnlyOf(s, app);
    PutKeeps(s, seen);
    assert Next(s, Refresh(app)) == Put(s, seen);
  }

  lemma WindowsAreNear(s: System, app: nat)
    requires TimesNear(s.all) && app in s.apps && forall window :: window in s.apps[app].windows ==> window in s.all
    ensures AllNear(s.apps[app].windows, s.all)
  {
    var ids := s.apps[app].windows;
    forall i, j | 0 <= i < |ids| && 0 <= j < |ids| ensures Near(Info(s.all, ids[i]), Info(s.all, ids[j])) {
      assert ids[i] in ids && ids[j] in ids;
    }
  }

  lemma SwitchKeeps(s: System, workspace: nat)
    requires Kept(s)
    ensures Kept(Next(s, SwitchTo(workspace)))
  {
    var after := Next(s, SwitchTo(workspace));
    forall id | id in after.apps ensures Tracked(after, id) {
      assert Tracked(s, id);
    }
  }

  lemma NewAppKeeps(s: System, app: nat)
    requires Kept(s) && app !in s.apps
    ensures Kept(Next(s, NewApp(app)))
  {
    var after := Next(s, NewApp(app));
    forall id | id in after.apps ensures Tracked(after, id) {
      if id != app {
        assert Tracked(s, id);
      }
    }
  }

  lemma NewWindowKeeps(s: System, window: nat, info: Window)
    requires Kept(s) && Allowed(s, NewWindow(window, info))
    ensures Kept(Next(s, NewWindow(window, info)))
  {
    forall id | id in s.apps ensures Tracked(Next(s, NewWindow(window, info)), id) {
      OthersAreTracked(s, id, window, info);
    }
  }

  /** A step of one app together with a change of a window that only it may have. */
  lemma ChangeKeeps(s: System, seen: Seen, window: nat, info: Window)
    requires Kept(s) && OnlyOf(s, seen.id, window) && window in s.all && TimesNear(s.all[window := info])
    requires Sound(seen, s.all[window := info]) && OnlyItself(See(s, seen.id), seen)
    requires seen.app.windows == s.apps[seen.id].windows
    ensures Kept(Put(s.(all := s.all[window := info]), seen))
  {
    var changed := s.(all := s.all[window := info]);
    var after := Put(changed, seen);
    assert Tracked(s, seen.id);
    OwnAreOnlyOf(changed, seen.id);
    PutStaysApart(changed, seen);
    forall id | id in after.apps ensures Tracked(after, id) {
      if id != seen.id {
        OthersAreTracked(s, id, window, info);
      }
    }
  }

  lemma SortedOfSame(ids: seq<nat>, all: Windows, other: Windows, active: nat)
    requires forall id :: id in ids ==> Info(all, id).(skipTaskbar := true) == Info(other, id).(skipTaskbar := true)
    requires Sorted(ids, all, active)
    ensures Sorted(ids, other, active)
  {
    forall i, j | 0 <= i < j < |ids| ensures Above(Info(other, ids[i]), Info(other, ids[j]), active) {
      assert ids[i] in ids && ids[j] in ids;
      assert Above(Info(all, ids[i]), Info(all, ids[j]), active);
    }
  }

  lemma SkipKeeps(s: System, app: nat, window: nat)
    requires Kept(s) && Allowed(s, SkipChanges(app, window))
    ensures Kept(Next(s, SkipChanges(app, window)))
  {
    var info := s.all[window].(skipTaskbar := !s.all[window].skipTaskbar);
    assert Tracked(s, app);
    SkipChangeIsSound(See(s, app), window, s.all, info);
    ChangeKeeps(s, SkipTaskbarChanged(See(s, app), window, info.skipTaskbar), window, info);
  }

  lemma UsedKeeps(s: System, app: nat, window: nat, time: int)
    requires Kept(s) && Allowed(s, Used(app, window, time))
    ensures Kept(Next(s, Used(app, window, time)))
  {
    var info := s.all[window].(userTime := time);
    var seen := See(s, app).(app := UserTimeChanged(s.apps[app], window));
    assert Tracked(s, app);
    OthersCount(s.apps[app].windows, s.all, s.all[window := info]);
    ChangeKeeps(s, seen, window, info);
    assert Next(s, Used(app, window, time)) == Put(s.(all := s.all[window := info]), seen);
  }

  lemma ChangesKeep(s: System, app: nat, window: nat, workspace: nat, visible: bool)
    requires Kept(s) && Allowed(s, Changes(app, window, workspace, visible))
    ensures Kept(Next(s, Changes(app, window, workspace, visible)))
  {
    var info := s.all[window].(workspace := workspace, visible := visible);
    assert Tracked(s, app);
    OthersCount(s.apps[app].windows, s.all, s.all[window := info]);
    ChangeKeeps(s, See(s, app), window, info);
    ChangesAnInfo(s, app, window, workspace, visible);
  }

  lemma ChangesAnInfo(s: System, app: nat, window: nat, workspace: nat, visible: bool)
    requires Allowed(s, Changes(app, window, workspace, visible))
    ensures var info := s.all[window].(workspace := workspace, visible := visible);
      Next(s, Changes(app, window, workspace, visible)) == Put(s.(all := s.all[window := info]), See(s, app))
  {
  }

  lemma NextKeeps(s: System, event: Event)
    requires Kept(s) && Allowed(s, event)
    ensures Kept(Next(s, event))
  {
    match event
    case NewApp(app) => NewAppKeeps(s, app);
    case NewWindow(window, info) => NewWindowKeeps(s, window, info);
    case Add(app, window) => AddKeeps(s, app, window);
    case Remove(app, window) => RemoveKeeps(s, app, window);
    case SkipChanges(app, window) => SkipKeeps(s, app, window);
    case Used(app, window, time) => UsedKeeps(s, app, window, time);
    case Changes(app, window, workspace, visible) => ChangesKeep(s, app, window, workspace, visible);
    case SwitchTo(workspace) => SwitchKeeps(s, workspace);
    case Startup(app, completed) => StartupKeeps(s, app, completed);
    case Refresh(app) => RefreshKeeps(s, app);
    case DisposeOf(app) => DisposeKeeps(s, app);
  }

  ghost function Run(start: nat, events: seq<Event>): Option<System> {
    if events == [] then Some(NewSystem(start))
    else
      var before := Run(start, events[..|events| - 1]);
      if before.None? || !Allowed(before.value, events[|events| - 1]) then None
      else Some(Next(before.value, events[|events| - 1]))
  }

  /** Over any run of windows and apps coming and going. */
  lemma {:induction false} RunKeeps(start: nat, events: seq<Event>)
    requires Run(start, events).Some?
    ensures Kept(Run(start, events).value)
  {
    if events != [] {
      RunKeeps(start, events[..|events| - 1]);
      NextKeeps(Run(start, events[..|events| - 1]).value, events[|events| - 1]);
    }
  }

  // What every step does.

  /** A window is in an app's list after a step exactly if it was added, or was there and neither removed nor let go. */
  ghost predicate Listed(s: System, event: Event, after: System, app: nat, id: nat)
    requires app in s.apps
  {
    && app in after.apps
    && (id in after.apps[app].windows <==>
          || event == Add(app, id)
          || (id in s.apps[app].windows && event != Remove(app, id) && event != DisposeOf(app)))
  }

  lemma AddLists(s: System, other: nat, window: nat, app: nat, id: nat)
    requires Kept(s) && Allowed(s, Add(other, window)) && app in s.apps
    ensures Listed(s, Add(other, window), Next(s, Add(other, window)), app, id)
  {
    assert Tracked(s, other);
    AddIsSound(See(s, other), window, s.all);
  }

  lemma RemoveLists(s: System, other: nat, window: nat, app: nat, id: nat)
    requires Kept(s) && Allowed(s, Remove(other, window)) && app in s.apps
    ensures Listed(s, Remove(other, window), Next(s, Remove(other, window)), app, id)
  {
    assert Tracked(s, other);
    RemoveIsSound(See(s, other), window, s.all);
  }

  lemma DisposeLists(s: System, other: nat, app: nat, id: nat)
    requires Kept(s) && Allowed(s, DisposeOf(other)) && app in s.apps
    ensures Listed(s, DisposeOf(other), Next(s, DisposeOf(other)), app, id)
  {
    assert Tracked(s, other);
    DisposeStops(See(s, other), s.all);
  }

  lemma SkipLists(s: System, other: nat, window: nat, app: nat, id: nat)
    requires Kept(s) && Allowed(s, SkipChanges(other, window)) && app in s.apps
    ensures Listed(s, SkipChanges(other, window), Next(s, SkipChanges(other, window)), app, id)
  {
    assert Tracked(s, other);
    SkipChangeIsSound(See(s, other), window, s.all, s.all[window].(skipTaskbar := !s.all[window].skipTaskbar));
  }

  lemma RefreshLists(s: System, other: nat, app: nat, id: nat)
    requires Kept(s) && Allowed(s, Refresh(other)) && app in s.apps
    ensures Listed(s, Refresh(other), Next(s, Refresh(other)), app, id)
  {
    assert Tracked(s, other);
    RefreshedIsSound(See(s, other), s.all, s.active);
    SameMembers(Refreshed(s.apps[other], s.all, s.active).windows, s.apps[other].windows);
  }

  lemma StartupLists(s: System, other: nat, completed: bool, app: nat, id: nat)
    requires Kept(s) && Allowed(s, Startup(other, completed)) && app in s.apps
    ensures Listed(s, Startup(other, completed), Next(s, Startup(other, completed)), app, id)
  {
    assert Tracked(s, other);
    StartupIsSound(See(s, other), completed, s.all);
  }

  /** Every app has exactly the windows that were added to it and neither removed nor let go of. */
  lemma ListsExactly(s: System, event: Event, app: nat, id: nat)
    requires Kept(s) && Allowed(s, event) && app in s.apps
    ensures Listed(s, event, Next(s, event), app, id)
  {
    match event
    case Add(other, window) => AddLists(s, other, window, app, id);
    case Remove(other, window) => RemoveLists(s, other, window, app, id);
    case DisposeOf(other) => DisposeLists(s, other, app, id);
    case SkipChanges(other, window) => SkipLists(s, other, window, app, id);
    case Refresh(other) => RefreshLists(s, other, app, id);
    case Startup(other, completed) => StartupLists(s, other, completed, app, id);
    case _ =>
  }

  /** An app that's new has nothing yet, and no other app is touched by it. */
  lemma NewAppsAreEmpty(s: System, app: nat)
    requires Allowed(s, NewApp(app))
    ensures var after := Next(s, NewApp(app));
      && after.apps.Keys == s.apps.Keys + {app} && after.apps[app] == App(Stopped, false, [], 0, false)
      && forall other :: other in s.apps ==> after.apps[other] == s.apps[other]
  {
  }

  /** The windows themselves, and the workspace, are as the events say. */
  lemma WorldFollows(s: System, event: Event, id: nat)
    requires Allowed(s, event)
    ensures Next(s, event).active == if event.SwitchTo? then event.workspace else s.active
    ensures id in Next(s, event).all <==> id in s.all || (event.NewWindow? && id == event.window)
    ensures id in s.all ==> Next(s, event).all[id] == match event
      case SkipChanges(_, window) =>
        if id == window then s.all[id].(skipTaskbar := !s.all[id].skipTaskbar) else s.all[id]
      case Used(_, window, time) => if id == window then s.all[id].(userTime := time) else s.all[id]
      case Changes(_, window, workspace, visible) =>
        if id == window then s.all[id].(workspace := workspace, visible := visible) else s.all[id]
      case _ => s.all[id]
  {
  }

  /** A window is taken from an app that has none, or an app is disposed of that's starting. */
  predicate Aborts(s: System, event: Event) {
    || (event.Remove? && event.app in s.apps && s.apps[event.app].windows == [])
    || (event.DisposeOf? && event.app in s.apps && s.apps[event.app].state == Starting)
  }

  lemma StepAborts(s: System, event: Event)
    requires Kept(s) && Allowed(s, event)
    ensures Next(s, event).aborted <==> s.aborted || Aborts(s, event)
  {
    if event.Remove? || event.DisposeOf? {
      assert Tracked(s, event.app);
      DisposeStops(See(s, event.app), s.all);
    }
  }

  ghost predicate EverAborts(start: nat, events: seq<Event>)
    requires Run(start, events).Some?
  {
    events != [] &&
    (EverAborts(start, events[..|events| - 1])
     || Aborts(Run(start, events[..|events| - 1]).value, events[|events| - 1]))
  }

  /** Over any run, an assertion fails exactly if one of these two happens. */
  lemma {:induction false} AbortsExactly(start: nat, events: seq<Event>)
    requires Run(start, events).Some?
    ensures Run(start, events).value.aborted <==> EverAborts(start, events)
  {
    if events != [] {
      AbortsExactly(start, events[..|events| - 1]);
      RunKeeps(start, events[..|events| - 1]);
      StepAborts(Run(start, events[..|events| - 1]).value, events[|events| - 1]);
    }
  }

  // The order over a run.

  ghost predicate InOrder(s: System, app: nat)
    requires app in s.apps
  {
    SortedUnlessStale(s.apps[app], s.all, s.active)
  }

  /** A window of a list that's not marked stale comes to have another place than between its neighbours. */
  ghost predicate Misplaces(s: System, event: Event, app: nat)
    requires app in s.apps && Allowed(s, event)
  {
    event.Changes? && !s.apps[app].sortStale &&
    var info := s.all[event.window].(workspace := event.workspace, visible := event.visible);
    exists k: nat :: k < |s.apps[app].windows| && s.apps[app].windows[k] == event.window
      && !FitsAt(s.apps[app].windows, k, info, s.all, s.active)
  }

  lemma ChangeOrders(s: System, event: Event, app: nat)
    requires Kept(s) && Allowed(s, event) && app in s.apps && InOrder(s, app) && event.Changes?
    ensures InOrder(Next(s, event), app) <==> !Misplaces(s, event, app)
  {
    assert Tracked(s, app);
    var ids, window := s.apps[app].windows, event.window;
    var info := s.all[window].(workspace := event.workspace, visible := event.visible);
    if !s.apps[app].sortStale {
      if k: nat :| k < |ids| && ids[k] == window {
        SortedWhileItFits(ids, k, info, s.all, s.active);
      } else {
        SortedOfSame(ids, s.all, s.all[window := info], s.active);
      }
    }
  }

  lemma UseOrders(s: System, event: Event, app: nat)
    requires Kept(s) && Allowed(s, event) && app in s.apps && InOrder(s, app) && event.Used?
    ensures InOrder(Next(s, event), app)
  {
    assert Tracked(s, app);
    if event.app == app {
      UserTimeStaysSorted(s.apps[app], event.window, s.all, event.time, s.active);
    } else if !s.apps[app].sortStale {
      SortedOfSame(
        s.apps[app].windows, s.all, s.all[event.window := s.all[event.window].(userTime := event.time)], s.active);
    }
  }

  lemma RemoveOrders(s: System, event: Event, app: nat)
    requires Kept(s) && Allowed(s, event) && app in s.apps && InOrder(s, app) && (event.Remove? || event.DisposeOf?)
    ensures InOrder(Next(s, event), app)
  {
    var seen := See(s, event.app);
    assert Tracked(s, event.app);
    if event.Remove? {
      RemoveIsSound(seen, event.window, s.all);
    } else {
      DisposeStops(seen, s.all);
    }
    if event.app == app {
      if event.Remove? {
        RemoveStaysSorted(seen, event.window, Info(s.all, event.window).skipTaskbar, s.all, s.active);
      } else {
        DisposeStaysSorted(seen, s.all, s.active);
      }
    }
  }

  lemma WindowStepsOrder(s: System, event: Event, app: nat)
    requires Kept(s) && Allowed(s, event) && app in s.apps && InOrder(s, app)
    requires event.NewWindow? || event.SkipChanges?
    ensures app in Next(s, event).apps && InOrder(Next(s, event), app)
  {
    assert Tracked(s, app);
    match event
    case NewWindow(window, info) =>
      if !s.apps[app].sortStale {
        SortedOfSame(s.apps[app].windows, s.all, s.all[window := info], s.active);
      }
    case SkipChanges(other, window) =>
      var info := s.all[window].(skipTaskbar := !s.all[window].skipTaskbar);
      assert Tracked(s, other);
      SkipChangeIsSound(See(s, other), window, s.all, info);
      if !s.apps[app].sortStale {
        SortedOfSame(s.apps[app].windows, s.all, s.all[window := info], s.active);
      }
  }

  lemma OtherStepsOrder(s: System, event: Event, app: nat)
    requires Kept(s) && Allowed(s, event) && app in s.apps && InOrder(s, app)
    requires event.NewApp? || event.Add? || event.SwitchTo? || event.Startup? || event.Refresh?
    ensures app in Next(s, event).apps && InOrder(Next(s, event), app)
  {
    assert Tracked(s, app);
    match event
    case Add(other, window) =>
      assert Tracked(s, other);
      AddIsSound(See(s, other), window, s.all);
    case Startup(other, completed) =>
      assert Tracked(s, other);
      StartupIsSound(See(s, other), completed, s.all);
    case Refresh(other) =>
      WindowsAreNear(s, app);
      RefreshedIsSorted(s.apps[app], s.all, s.active);
    case _ =>
  }

  /** Every step leaves an app's order right, if and only if it doesn't misplace one of its windows unnoticed. */
  lemma OrderedUnlessMisplaced(s: System, event: Event, app: nat)
    requires Kept(s) && Allowed(s, event) && app in s.apps && InOrder(s, app)
    ensures app in Next(s, event).apps && (InOrder(Next(s, event), app) <==> !Misplaces(s, event, app))
  {
    if event.Changes? {
      ChangeOrders(s, event, app);
    } else if event.Used? {
      UseOrders(s, event, app);
    } else if event.Remove? || event.DisposeOf? {
      RemoveOrders(s, event, app);
    } else if event.NewWindow? || event.SkipChanges? {
      WindowStepsOrder(s, event, app);
    } else {
      OtherStepsOrder(s, event, app);
    }
  }

  /** An app that wasn't there before a step is a new one. */
  lemma OnlyNewAppsCome(s: System, event: Event, app: nat)
    requires Kept(s) && Allowed(s, event) && app !in s.apps && app in Next(s, event).apps
    ensures Next(s, event).apps[app] == NEW_APP
  {
    if event.Add? || event.Remove? || event.SkipChanges? || event.Startup? || event.DisposeOf? {
      var seen := See(s, event.app);
      assert Tracked(s, event.app);
      match event
      case Add(_, window) => AddIsSound(seen, window, s.all);
      case Remove(_, window) => RemoveIsSound(seen, window, s.all);
      case SkipChanges(_, window) =>
        SkipChangeIsSound(seen, window, s.all, s.all[window].(skipTaskbar := !s.all[window].skipTaskbar));
      case Startup(_, completed) => StartupIsSound(seen, completed, s.all);
      case DisposeOf(_) => DisposeStops(seen, s.all);
    }
  }

  /**
   * No window of the app was misplaced since its list was last marked stale, which has it sorted the next time it's
   * asked for.
   */
  ghost predicate Undisturbed(start: nat, events: seq<Event>, app: nat)
    requires Run(start, events).Some?
  {
    events != [] ==>
      var before, after := Run(start, events[..|events| - 1]).value, Run(start, events).value;
      || app !in before.apps || before.apps[app].sortStale
      || (app in after.apps && after.apps[app].sortStale)
      || (Undisturbed(start, events[..|events| - 1], app) && !Misplaces(before, events[|events| - 1], app))
  }

  lemma {:induction false} UndisturbedIsInOrder(start: nat, events: seq<Event>, app: nat)
    requires Run(start, events).Some? && Undisturbed(start, events, app) && app in Run(start, events).value.apps
    ensures InOrder(Run(start, events).value, app)
  {
    var before := Run(start, events[..|events| - 1]).value;
    RunKeeps(start, events[..|events| - 1]);
    if app !in before.apps {
      OnlyNewAppsCome(before, events[|events| - 1], app);
    } else if !Run(start, events).value.apps[app].sortStale {
      if !before.apps[app].sortStale {
        UndisturbedIsInOrder(start, events[..|events| - 1], app);
      }
      OrderedUnlessMisplaced(before, events[|events| - 1], app);
    }
  }

  /**
   * What an app gives as its windows, after any run: all that aren't override-redirect, once each. If none was
   * misplaced since the list was last marked stale, those on the active workspace come first, then visible ones, then
   * those used last.
   */
  lemma GivenWindowsAreSorted(start: nat, events: seq<Event>, s: System, app: nat)
    requires Run(start, events) == Some(s) && app in s.apps
    ensures var given := GetWindows(s.apps[app], s.all, s.active);
      && (Undisturbed(start, events, app) ==> Sorted(given, s.all, s.active))
      && forall id: nat ::
           multiset(given)[id] == if id in s.apps[app].windows && !Info(s.all, id).overrideRedirect then 1 else 0
  {
    RunKeeps(start, events);
    assert Tracked(s, app);
    var ids := Refreshed(s.apps[app], s.all, s.active).windows;
    RefreshedIsSound(See(s, app), s.all, s.active);
    if Undisturbed(start, events, app) {
      UndisturbedIsInOrder(start, events, app);
      WindowsAreNear(s, app);
      RefreshedIsSorted(s.apps[app], s.all, s.active);
      ManagedStaysSorted(ids, s.all, s.active);
    }
    forall id: nat
      ensures multiset(Managed(ids, s.all))[id]
        == if id in s.apps[app].windows && !Info(s.all, id).overrideRedirect then 1 else 0
    {
      ManagedCounts(ids, s.all, id);
      OnceCounts(s.apps[app].windows, id);
      assert id in s.apps[app].windows <==> multiset(s.apps[app].windows)[id] > 0;
    }
  }

  /** Disposing of an app trips the shell's assertion exactly when the app is starting. */
  lemma DisposeAbortsWhileStarting(s: System, app: nat)
    requires Kept(s) && !s.aborted && app in s.apps
    ensures Next(s, DisposeOf(app)).aborted <==> s.apps[app].state == Starting
    ensures !Next(s, DisposeOf(app)).apps[app].hasRunningState
  {
    assert Tracked(s, app);
    DisposeStops(See(s, app), s.all);
  }

  /** A starting app goes on starting, whatever windows it gets or loses, until a sequence of its own is completed. */
  lemma StartingLasts(s: System, event: Event, app: nat)
    requires Kept(s) && Allowed(s, event) && app in s.apps && s.apps[app].state == Starting
    requires event != Startup(app, true)
    ensures app in Next(s, event).apps && Next(s, event).apps[app].state == Starting
  {
    assert Tracked(s, app);
    if event.Remove? || event.DisposeOf? || event.Add? {
      StartingLastsOver(s, event, app);
    }
  }

  lemma StartingLastsOver(s: System, event: Event, app: nat)
    requires Kept(s) && Allowed(s, event) && app in s.apps && s.apps[app].state == Starting
    requires event.Remove? || event.DisposeOf? || event.Add?
    ensures app in Next(s, event).apps && Next(s, event).apps[app].state == Starting
  {
    assert Tracked(s, event.app);
    match event
    case Remove(other, window) => RemoveIsSound(See(s, other), window, s.all);
    case DisposeOf(other) => DisposeStops(See(s, other), s.all);
    case Add(other, window) => AddIsSound(See(s, other), window, s.all);
  }

  /**
   * Of two visible windows the one in front is hidden: the list isn't marked stale, and is given in the wrong order.
   */
  lemma HidingIsNotNoticed(s: System, app: nat, front: nat, other: nat)
    requires Kept(s) && app in s.apps && InOrder(s, app) && !s.apps[app].sortStale
    requires s.apps[app].windows == [front, other]
    requires front in s.all && other in s.all && s.all[front].visible && s.all[other].visible
    requires s.all[front].workspace == s.all[other].workspace
    requires !s.all[front].overrideRedirect && !s.all[other].overrideRedirect
    ensures var hiding := Changes(app, front, s.all[front].workspace, false);
      Allowed(s, hiding) &&
      var after := Next(s, hiding);
      && GetWindows(after.apps[app], after.all, after.active) == [front, other]
      && !Sorted([front, other], after.all, after.active)
  {
    assert Tracked(s, app);
    assert front in s.apps[app].windows;
    var after := Next(s, Changes(app, front, s.all[front].workspace, false));
    assert [front, other][0] != [front, other][1];
    assert [front, other][1..] == [other] && [other][1..] == [];
    assert Managed([], after.all) == [] && Managed([other], after.all) == [other];
    assert !Above(Info(after.all, [front, other][0]), Info(after.all, [front, other][1]), after.active);
  }
}
