/** Apps as the objects they are, which tell the system they're in what becomes of them. */
module AppObjects {
  import opened Lists
  import opened WindowOrder
  import opened Apps

  class RunningApps {
    var running: set<nat>

    constructor ()
      ensures running == {}
    {
      running := {};
    }

    method NotifyAppStateChanged(id: nat, state: AppState)
      modifies this
      ensures running == match state
        case Running => old(running) + {id}
        case Starting => old(running)
        case Stopped => old(running) - {id}
    {
      match state
      case Running => running := running + {id};
      case Starting =>
      case Stopped => running := running - {id};
    }
  }

  class AppObject {
    const id: nat
    const system: RunningApps
    var state: AppState
    var hasRunningState: bool
    var windows: seq<nat>
    var interesting: nat
    var sortStale: bool

    function Value(): App
      reads this
    {
      App(state, hasRunningState, windows, interesting, sortStale)
    }

    function Seen(): Apps.Seen
      reads this, system
    {
      Apps.Seen(id, Value(), system.running)
    }

    constructor (id: nat, system: RunningApps)
      ensures this.id == id && this.system == system && Value() == NEW_APP
    {
      this.id, this.system := id, system;
      state, hasRunningState, windows, interesting, sortStale := Stopped, false, [], 0, false;
    }

    method StateTransition(next: AppState)
      modifies this, system
      ensures Seen() == Transition(old(Seen()), next)
    {
      if state == next || (state == Running && next == Starting) {
        return;
      }
      state := next;
      system.NotifyAppStateChanged(id, next);
    }

    method Sync()
      modifies this, system
      ensures Seen() == SyncRunningState(old(Seen()))
    {
      if state != Starting {
        StateTransition(if interesting == 0 then Stopped else Running);
      }
    }

    method Add(window: nat, skip: bool)
      modifies this, system
      ensures Seen() == AddWindow(old(Seen()), window, skip)
    {
      if hasRunningState && window in windows {
        return;
      }
      if !hasRunningState {
        hasRunningState := true;
      }
      sortStale := true;
      windows := [window] + windows;
      if !skip {
        interesting := interesting + 1;
      }
      Sync();
    }

    method Remove(window: nat, skip: bool)
      requires hasRunningState
      modifies this, system
      ensures Seen() == RemoveWindow(old(Seen()), window, skip)
    {
      if window !in windows {
        return;
      }
      windows := Without(windows, window);
      if !skip {
        interesting := OneLess(interesting);
      }
      Sync();
      if windows == [] {
        hasRunningState, interesting, sortStale := false, 0, false;
      }
    }

    method OnSkipTaskbarChanged(window: nat, skip: bool)
      requires window in windows
      modifies this, system
      ensures Seen() == SkipTaskbarChanged(old(Seen()), window, skip)
    {
      if skip {
        interesting := OneLess(interesting);
      } else {
        interesting := interesting + 1;
      }
      Sync();
    }

    method OnUserTimeChanged(window: nat)
      requires window in windows
      modifies this`sortStale
      ensures Value() == UserTimeChanged(old(Value()), window)
    {
      if window != windows[0] {
        sortStale := true;
      }
    }

    method OnWorkspaceSwitch()
      requires hasRunningState
      modifies this`sortStale
      ensures Value() == WorkspaceSwitched(old(Value()))
    {
      sortStale := true;
    }

    method HandleStartup(completed: bool)
      modifies this, system
      ensures Seen() == HandleStartupSequence(old(Seen()), completed)
    {
      if !completed {
        if state == Stopped {
          StateTransition(Starting);
        }
      } else if hasRunningState && windows != [] {
        StateTransition(Running);
      } else {
        StateTransition(Stopped);
      }
    }

    /** Sorts the list when that's due, and gives those windows that are managed, in the same order. */
    method Windows(all: WindowOrder.Windows, active: nat) returns (given: seq<nat>)
      requires !hasRunningState ==> windows == []
      modifies this`windows, this`sortStale
      ensures given == GetWindows(old(Value()), all, active)
      ensures Value() == Refreshed(old(Value()), all, active)
    {
      given := [];
      if !hasRunningState {
        return;
      }
      if sortStale {
        windows := Sort(windows, all, active);
        sortStale := false;
      }
      var i := |windows|;
      while i > 0
        invariant 0 <= i <= |windows| && given == Managed(windows[i..], all)
      {
        i := i - 1;
        assert windows[i..][1..] == windows[i + 1..];
        if !Info(all, windows[i]).overrideRedirect {
          given := [windows[i]] + given;
        }
      }
    }

    /** Lets go of every window; a running state always has one. */
    method DisposeOfWindows(all: WindowOrder.Windows)
      requires Sound(Seen(), all)
      modifies this, system
      ensures Seen() == Dispose(old(Seen()), all) && Sound(Seen(), all) && !hasRunningState
      ensures state == if old(state) == Starting then Starting else Stopped
    {
      ghost var before := Seen();
      DisposeStops(before, all);
      while hasRunningState
        invariant Sound(Seen(), all) && Dispose(Seen(), all) == Dispose(before, all)
        decreases |windows|
      {
        ghost var seen := Seen();
        RemoveIsSound(seen, windows[0], all);
        Remove(windows[0], Info(all, windows[0]).skipTaskbar);
        DisposeStops(Seen(), all);
      }
    }
  }
}
