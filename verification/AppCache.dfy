/**
 * How the app cache reloads what it knows of the apps: changes are waited for until it's quiet, though not forever, and
 * a reload that another one overtakes is thrown away. Times are in microseconds.
 */
module AppCache {
  import opened Options

  const QUIET: int := 250_000

  const LONGEST_WAIT: int := 2_000_000

  /** A reload on its thread, which reads the disk no earlier than it was started. */
  datatype Task = Task(started: int, cancelled: bool)

  /** A reload that was started, and the notifications it's for. */
  datatype Reload = Reload(started: int, burst: seq<int>)

  /**
   * `due` is when the queued update runs, `current` the reload that may still be applied, `applied` when the one that's
   * shown was started. What has been notified and started is kept beside it.
   */
  datatype Cache = Cache(
    due: Option<int>, firstQueued: int, current: Option<nat>, tasks: map<nat, Task>, applied: int, glyphsChanged: bool,
    clock: int, notified: seq<int>, pending: seq<int>, reloads: seq<Reload>)

  function NewCache(now: int): Cache { Cache(None, 0, None, map[], now, false, now, [], [], []) }

  datatype Event = Notify(now: int, glyphs: bool) | TimeIsUp(now: int) | TaskReturns(now: int, id: nat)

  function QueueUpdate(c: Cache, now: int): Cache {
    if c.due.None? then c.(firstQueued := now, due := Some(now + QUIET))
    else if now - c.firstQueued >= LONGEST_WAIT then c
    else c.(due := Some(now + QUIET))
  }

  function Cancelled(c: Cache): map<nat, Task> {
    if c.current.Some? && c.current.value in c.tasks
    then c.tasks[c.current.value := c.tasks[c.current.value].(cancelled := true)]
    else c.tasks
  }

  /** The reload under way is cancelled, and a new one takes its place. */
  function DoUpdate(c: Cache, now: int): Cache {
    var id := |c.reloads|;
    c.(
      due := None, firstQueued := 0, current := Some(id), tasks := Cancelled(c)[id := Task(now, false)],
      pending := [], reloads := c.reloads + [Reload(now, c.pending)])
  }

  function ApplyUpdate(c: Cache, id: nat): Cache
    requires id in c.tasks
  {
    var done := c.(tasks := c.tasks - {id});
    if c.tasks[id].cancelled then done else done.(applied := c.tasks[id].started, glyphsChanged := false)
  }

  function Next(c: Cache, event: Event): Cache
    requires event.TaskReturns? ==> event.id in c.tasks
  {
    match event
    case Notify(now, glyphs) =>
      QueueUpdate(
        c.(clock := now, notified := c.notified + [now], pending := c.pending + [now],
           glyphsChanged := c.glyphsChanged || glyphs),
        now)
    case TimeIsUp(now) => DoUpdate(c.(clock := now), now)
    case TaskReturns(now, id) => ApplyUpdate(c.(clock := now), id)
  }

  /** Time goes on, and what's due runs no later than `late` after that. */
  predicate Allowed(c: Cache, event: Event, late: nat) {
    && c.clock <= event.now
    && (c.due.Some? ==> event.now <= c.due.value + late)
    && (event.TimeIsUp? ==> c.due.Some? && c.due.value <= event.now)
    && (event.TaskReturns? ==> event.id in c.tasks)
  }

  function Run(start: int, events: seq<Event>, late: nat): Option<Cache> {
    if events == [] then Some(NewCache(start))
    else
      var before := Run(start, events[..|events| - 1], late);
      if before.None? || !Allowed(before.value, events[|events| - 1], late) then None
      else Some(Next(before.value, events[|events| - 1]))
  }

  // What every run keeps.

  function Bursts(reloads: seq<Reload>): seq<int> {
    if reloads == [] then [] else Bursts(reloads[..|reloads| - 1]) + reloads[|reloads| - 1].burst
  }

  /** Nothing was notified shortly before, unless notifications have gone on for long enough. */
  ghost predicate Quiet(burst: seq<int>, time: int)
    requires burst != []
  {
    burst[|burst| - 1] + QUIET <= time || burst[0] + LONGEST_WAIT <= burst[|burst| - 1]
  }

  /** A reload starts once it's quiet, no earlier than anything it's for, and in time for the first of it. */
  ghost predicate InTime(reload: Reload, late: nat) {
    && reload.burst != [] && Quiet(reload.burst, reload.started)
    && (forall i :: 0 <= i < |reload.burst| ==> reload.burst[i] <= reload.started)
    && reload.started < reload.burst[0] + LONGEST_WAIT + QUIET + late
  }

  /** What's notified is waited for exactly while an update is queued, and it's due in time. */
  ghost predicate Queued(c: Cache) {
    && (c.due.Some? <==> c.pending != [])
    && (c.due.Some? ==> c.firstQueued == c.pending[0])
    && (c.due.Some? ==> c.due.value < c.firstQueued + LONGEST_WAIT + QUIET && Quiet(c.pending, c.due.value))
    && (forall i :: 0 <= i < |c.pending| ==> c.pending[i] <= c.clock)
  }

  /** Every notification is in the burst of one reload, in order, or still waited for. */
  ghost predicate Served(c: Cache, late: nat) {
    && Bursts(c.reloads) + c.pending == c.notified
    && (forall i :: 0 <= i < |c.reloads| ==> InTime(c.reloads[i], late) && c.reloads[i].started <= c.clock)
    && (forall i :: 0 <= i < |c.notified| ==> c.notified[i] <= c.clock)
    && (c.reloads != [] ==>
         forall i :: 0 <= i < |c.notified| - |c.pending| ==> c.notified[i] <= c.reloads[|c.reloads| - 1].started)
  }

  /** Only the last reload that was started is still to be applied; without it, it's what was applied last. */
  ghost predicate LastWins(c: Cache) {
    && (c.current.Some? <==> c.reloads != [])
    && (c.current.Some? ==> c.current.value == |c.reloads| - 1)
    && (forall id :: id in c.tasks ==>
         && id < |c.reloads| && c.tasks[id].started == c.reloads[id].started
         && (c.tasks[id].cancelled <==> id < |c.reloads| - 1))
    && (c.reloads != [] && |c.reloads| - 1 !in c.tasks ==> c.applied == c.reloads[|c.reloads| - 1].started)
    && (c.glyphsChanged ==> c.due.Some? || (c.reloads != [] && |c.reloads| - 1 in c.tasks))
  }

  ghost predicate Kept(c: Cache, late: nat) {
    Queued(c) && Served(c, late) && LastWins(c)
  }

  lemma NotifyIsQueued(c: Cache, now: int, glyphs: bool, late: nat)
    requires Queued(c) && Allowed(c, Notify(now, glyphs), late)
    ensures Queued(Next(c, Notify(now, glyphs)))
  {
  }

  lemma NotifyIsServed(c: Cache, now: int, glyphs: bool, late: nat)
    requires Served(c, late) && Allowed(c, Notify(now, glyphs), late)
    ensures Served(Next(c, Notify(now, glyphs)), late)
  {
    var after := Next(c, Notify(now, glyphs));
    assert after.notified == c.notified + [now] && after.pending == c.pending + [now] && after.reloads == c.reloads;
    AppendTo(Bursts(c.reloads), c.pending, now);
  }

  lemma AppendTo(first: seq<int>, second: seq<int>, last: int)
    ensures first + (second + [last]) == first + second + [last]
  {
  }

  lemma NotifyKeeps(c: Cache, now: int, glyphs: bool, late: nat)
    requires Kept(c, late) && Allowed(c, Notify(now, glyphs), late)
    ensures Kept(Next(c, Notify(now, glyphs)), late)
  {
    NotifyIsQueued(c, now, glyphs, late);
    NotifyIsServed(c, now, glyphs, late);
  }

  lemma ReturnKeeps(c: Cache, now: int, id: nat, late: nat)
    requires Kept(c, late) && Allowed(c, TaskReturns(now, id), late)
    ensures Kept(Next(c, TaskReturns(now, id)), late)
  {
  }

  lemma TimeIsUpKeeps(c: Cache, now: int, late: nat)
    requires Kept(c, late) && Allowed(c, TimeIsUp(now), late)
    ensures Kept(Next(c, TimeIsUp(now)), late)
  {
    TimeIsUpServes(c, now, late);
    TimeIsUpStartsLast(c, now, late);
  }

  lemma TimeIsUpServes(c: Cache, now: int, late: nat)
    requires Queued(c) && Served(c, late) && Allowed(c, TimeIsUp(now), late)
    ensures Queued(Next(c, TimeIsUp(now))) && Served(Next(c, TimeIsUp(now)), late)
  {
    var after := Next(c, TimeIsUp(now));
    assert after.reloads == c.reloads + [Reload(now, c.pending)] && after.pending == [];
    assert after.reloads[..|after.reloads| - 1] == c.reloads;
    assert InTime(Reload(now, c.pending), late);
  }

  lemma TimeIsUpStartsLast(c: Cache, now: int, late: nat)
    requires Kept(c, late) && Allowed(c, TimeIsUp(now), late)
    ensures LastWins(Next(c, TimeIsUp(now)))
  {
    var after := Next(c, TimeIsUp(now));
    assert after.current == Some(|c.reloads|) && after.tasks[|c.reloads|] == Task(now, false);
    assert forall id :: id in after.tasks && id != |c.reloads| ==>
      id in c.tasks && after.tasks[id].cancelled && after.tasks[id].started == c.tasks[id].started;
  }

  lemma NextKeeps(c: Cache, event: Event, late: nat)
    requires Kept(c, late) && Allowed(c, event, late)
    ensures Kept(Next(c, event), late)
  {
    match event
    case Notify(now, glyphs) => NotifyKeeps(c, now, glyphs, late);
    case TimeIsUp(now) => TimeIsUpKeeps(c, now, late);
    case TaskReturns(now, id) => ReturnKeeps(c, now, id, late);
  }

  /** Every notification is followed by a reload in time, and a reload that was overtaken is never applied. */
  lemma {:induction false} RunKeeps(start: int, events: seq<Event>, late: nat)
    requires Run(start, events, late).Some?
    ensures Kept(Run(start, events, late).value, late)
  {
    if events != [] {
      RunKeeps(start, events[..|events| - 1], late);
      NextKeeps(Run(start, events[..|events| - 1], late).value, events[|events| - 1], late);
    }
  }

  predicate AtRest(c: Cache) { c.due.None? && forall id :: id in c.tasks ==> c.tasks[id].cancelled }

  /** At rest the cache shows what was read after the last notification, and replaced glyphs have been shown. */
  lemma RestIsUpToDate(start: int, events: seq<Event>, late: nat)
    requires Run(start, events, late).Some? && AtRest(Run(start, events, late).value)
    ensures var c := Run(start, events, late).value;
      && (forall i :: 0 <= i < |c.notified| ==> c.notified[i] <= c.applied)
      && !c.glyphsChanged
  {
    RunKeeps(start, events, late);
    var c := Run(start, events, late).value;
    if c.reloads == [] {
      assert c.notified == [];
    }
  }

  /** What's applied only ever moves on: an older reload never replaces a newer one. */
  lemma AppliedMovesOn(c: Cache, event: Event, late: nat)
    requires Kept(c, late) && Allowed(c, event, late) && Next(c, event).applied != c.applied
    ensures event.TaskReturns? && event.id == |c.reloads| - 1 && Next(c, event).applied == c.reloads[event.id].started
  {
  }

  /** A reload that wasn't cancelled comes back. */
  predicate Applies(c: Cache, event: Event) {
    event.TaskReturns? && event.id in c.tasks && !c.tasks[event.id].cancelled
  }

  /** Glyphs were replaced since a reload was last applied. */
  ghost predicate GlyphsWait(start: int, events: seq<Event>, late: nat)
    requires Run(start, events, late).Some?
  {
    events != [] &&
    var most, last := events[..|events| - 1], events[|events| - 1];
    (last.Notify? && last.glyphs) || (!Applies(Run(start, most, late).value, last) && GlyphsWait(start, most, late))
  }

  /** Replaced glyphs are remembered exactly until the next reload is applied, which shows them. */
  lemma {:induction false} GlyphsAreRemembered(start: int, events: seq<Event>, late: nat)
    requires Run(start, events, late).Some?
    ensures Run(start, events, late).value.glyphsChanged <==> GlyphsWait(start, events, late)
  {
    if events != [] {
      GlyphsAreRemembered(start, events[..|events| - 1], late);
    }
  }

  /** A reload is under way from when its time is up until it comes back, which it does once. */
  lemma TasksExactly(c: Cache, event: Event, id: nat, late: nat)
    requires Kept(c, late) && Allowed(c, event, late)
    ensures id in Next(c, event).tasks
      <==> (id in c.tasks && !(event.TaskReturns? && event.id == id)) || (event.TimeIsUp? && id == |c.reloads|)
    ensures Next(c, event).reloads
      == c.reloads + if event.TimeIsUp? then [Reload(event.now, c.pending)] else []
    ensures Applies(c, event) ==> event.id == |c.reloads| - 1
    ensures Next(c, event).applied == if Applies(c, event) then c.reloads[event.id].started else c.applied
  {
  }

  // The cache itself.

  class CacheObject {
    var due: Option<int>
    var firstQueued: int
    var current: Option<nat>
    var tasks: map<nat, Task>
    var applied: int
    var glyphsChanged: bool
    ghost var clock: int
    ghost var notified: seq<int>
    ghost var pending: seq<int>
    ghost var reloads: seq<Reload>
    var started: nat

    ghost function State(): Cache
      reads this
    {
      Cache(due, firstQueued, current, tasks, applied, glyphsChanged, clock, notified, pending, reloads)
    }

    ghost predicate Valid()
      reads this
    {
      started == |reloads|
    }

    constructor (now: int)
      ensures Valid() && State() == NewCache(now)
    {
      due, firstQueued, current, tasks, applied, glyphsChanged := None, 0, None, map[], now, false;
      clock, notified, pending, reloads, started := now, [], [], [], 0;
    }

    method QueueUpdate(now: int)
      requires Valid()
      modifies this
      ensures Valid() && State() == Next(old(State()), Notify(now, false))
    {
      clock, notified, pending := now, notified + [now], pending + [now];
      if due.None? {
        firstQueued := now;
      } else if now - firstQueued >= LONGEST_WAIT {
        return;
      }
      due := Some(now + QUIET);
    }

    method OnCustomGlyphsChanged(now: int)
      requires Valid()
      modifies this
      ensures Valid() && State() == Next(old(State()), Notify(now, true))
    {
      glyphsChanged := true;
      QueueUpdate(now);
    }

    method DoUpdate(now: int)
      requires Valid()
      modifies this
      ensures Valid() && State() == Next(old(State()), TimeIsUp(now))
    {
      clock := now;
      due, firstQueued := None, 0;
      CancelCurrent();
      current := Some(started);
      tasks := tasks[started := Task(now, false)];
      started := started + 1;
      pending, reloads := [], reloads + [Reload(now, pending)];
    }

    method CancelCurrent()
      modifies this`tasks
      ensures tasks == Cancelled(old(State()))
    {
      if current.Some? && current.value in tasks {
        tasks := tasks[current.value := tasks[current.value].(cancelled := true)];
      }
    }

    /** A cancelled reload reports only that. */
    method ApplyUpdate(now: int, id: nat)
      requires Valid() && id in tasks
      modifies this
      ensures Valid() && State() == Next(old(State()), TaskReturns(now, id))
    {
      clock := now;
      var task := tasks[id];
      tasks := tasks - {id};
      if task.cancelled {
        return;
      }
      applied := task.started;
      if glyphsChanged {
        glyphsChanged := false;
      }
    }
  }
}
