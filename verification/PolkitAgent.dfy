/**
 * The authentication agent's queue: one request is with the user at a time, the others wait, and each is answered once.
 * Requests are numbered in the order they arrive.
 */
module PolkitAgent {
  import opened Lists
  import opened Options

  datatype Answer = Dismissed | Finished

  datatype Returned = Returned(id: nat, answer: Answer)

  /**
   * What the agent holds, and what it has done: which requests were cancelled, begun with the user and answered, and
   * for which the user was told to stop.
   */
  datatype Queue = Queue(
    current: Option<nat>, scheduled: seq<nat>, idle: set<nat>,
    arrivals: nat, cancelled: set<nat>, begun: seq<nat>, returned: seq<Returned>, stopped: seq<nat>)

  const NEW_QUEUE := Queue(None, [], {}, 0, {}, [], [], [])

  datatype Event =
    | Arrive(cancelled: bool)
    | Cancel(id: nat)
    | IdleTurn(id: nat)
    | Answered(dismissed: bool)
    | Unregister

  function ProcessNext(q: Queue): Queue {
    if q.current.None? && q.scheduled != []
    then q.(current := Some(q.scheduled[0]), scheduled := q.scheduled[1..], begun := q.begun + [q.scheduled[0]])
    else q
  }

  function Complete(q: Queue, id: nat, dismissed: bool): Queue {
    var answer := Returned(id, if dismissed then Dismissed else Finished);
    if q.current == Some(id)
    then ProcessNext(q.(current := None, idle := q.idle - {id}, returned := q.returned + [answer]))
    else q.(scheduled := Without(q.scheduled, id), idle := q.idle - {id}, returned := q.returned + [answer])
  }

  predicate Live(q: Queue, id: nat) { q.current == Some(id) || id in q.scheduled }

  function Dismissals(ids: seq<nat>): (answers: seq<Returned>)
    ensures |answers| == |ids| && forall i :: 0 <= i < |ids| ==> answers[i] == Returned(ids[i], Dismissed)
  {
    seq(|ids|, i requires 0 <= i < |ids| => Returned(ids[i], Dismissed))
  }

  function Members(ids: seq<nat>): set<nat> { set id | id in ids }

  /** All that wait are dismissed, and then the one that's with the user. */
  function Unregistered(q: Queue): Queue {
    var left := q.(
      scheduled := [], idle := q.idle - Members(q.scheduled),
      returned := q.returned + Dismissals(q.scheduled));
    if left.current.None? then left else Complete(left, left.current.value, true)
  }

  /**
   * A request's cancellable is only heard while the request is there, and an answer is only taken for a current one.
   */
  function Next(q: Queue, event: Event): Queue {
    match event
    case Arrive(cancelled) =>
      var id := q.arrivals;
      ProcessNext(q.(
        arrivals := id + 1, scheduled := q.scheduled + [id],
        idle := if cancelled then q.idle + {id} else q.idle,
        cancelled := if cancelled then q.cancelled + {id} else q.cancelled))
    case Cancel(id) =>
      if Live(q, id) && id !in q.cancelled then q.(idle := q.idle + {id}, cancelled := q.cancelled + {id}) else q
    case IdleTurn(id) =>
      if id !in q.idle then q
      else if q.current == Some(id) then q.(idle := q.idle - {id}, stopped := q.stopped + [id])
      else Complete(q, id, false)
    case Answered(dismissed) => if q.current.None? then q else Complete(q, q.current.value, dismissed)
    case Unregister => Unregistered(q)
  }

  function Run(events: seq<Event>): Queue {
    if events == [] then NEW_QUEUE else Next(Run(events[..|events| - 1]), events[|events| - 1])
  }

  // What every step keeps.

  ghost predicate Increasing(ids: seq<nat>) {
    forall i, j :: 0 <= i < j < |ids| ==> ids[i] < ids[j]
  }

  ghost predicate HasReturned(returned: seq<Returned>, id: nat) {
    exists i :: 0 <= i < |returned| && returned[i].id == id
  }

  ghost predicate NoneTwice(returned: seq<Returned>) {
    forall i, j :: 0 <= i < j < |returned| ==> returned[i].id != returned[j].id
  }

  /** Requests begin in the order they arrived, and those that wait came after every one that has begun. */
  ghost predicate InOrder(q: Queue) {
    && Increasing(q.begun)
    && Increasing(q.scheduled)
    && (forall a: nat, b: nat :: a in q.begun && b in q.scheduled ==> a < b)
    && (forall id: nat :: id in q.scheduled ==> id < q.arrivals)
    && (forall id: nat :: id in q.begun ==> id < q.arrivals)
  }

  /** Every request that ever arrived is live or has been answered once, never both. */
  ghost predicate AnsweredOnce(q: Queue) {
    && NoneTwice(q.returned)
    && (forall id: nat :: HasReturned(q.returned, id) ==> id < q.arrivals && !Live(q, id))
    && (forall id: nat :: 0 <= id < q.arrivals ==> Live(q, id) || HasReturned(q.returned, id))
  }

  /** An answer that isn't a dismissal was the user's, or stands for a request that was cancelled while it waited. */
  ghost predicate AnsweredForAReason(q: Queue) {
    && q.idle <= q.cancelled
    && (forall id: nat :: id in q.idle ==> Live(q, id))
    && (forall r :: r in q.returned && r.answer == Finished ==> r.id in q.begun || r.id in q.cancelled)
    && (forall id: nat :: id in q.stopped ==> id in q.begun && id in q.cancelled)
  }

  ghost predicate CurrentHasBegun(q: Queue) {
    q.current.Some? ==> q.begun != [] && q.begun[|q.begun| - 1] == q.current.value
  }

  ghost predicate NoneWaitsAlone(q: Queue) {
    q.current.None? ==> q.scheduled == []
  }

  /** All that's kept even while the next request is still to be begun. */
  ghost predicate AlmostKept(q: Queue) {
    InOrder(q) && CurrentHasBegun(q) && AnsweredOnce(q) && AnsweredForAReason(q)
  }

  /** Requests begin in order, one at a time, the last begun is the current one, and each is answered once. */
  ghost predicate Kept(q: Queue) {
    AlmostKept(q) && NoneWaitsAlone(q)
  }

  lemma {:induction false} WithoutTakesOne(ids: seq<nat>, id: nat)
    requires Increasing(ids)
    ensures Increasing(Without(ids, id)) && forall x: nat :: x in Without(ids, id) <==> x in ids && x != id
  {
    if ids != [] {
      FirstOfIncreasing(ids);
      if ids[0] != id {
        WithoutTakesOne(ids[1..], id);
        PrependToIncreasing(ids[0], Without(ids[1..], id));
      }
    }
  }

  lemma PrependToIncreasing(id: nat, ids: seq<nat>)
    requires Increasing(ids) && forall x: nat :: x in ids ==> id < x
    ensures Increasing([id] + ids) && forall x: nat :: x in [id] + ids <==> x == id || x in ids
  {
    forall i, j | 0 <= i < j < |ids| + 1 ensures ([id] + ids)[i] < ([id] + ids)[j] {
      assert ([id] + ids)[j] == ids[j - 1] && ids[j - 1] in ids;
    }
  }

  lemma FirstOfIncreasing(ids: seq<nat>)
    requires ids != [] && Increasing(ids)
    ensures Increasing(ids[1..]) && forall x: nat :: x in ids <==> x == ids[0] || x in ids[1..]
    ensures forall x: nat :: x in ids[1..] ==> ids[0] < x
  {
  }

  lemma AppendToIncreasing(ids: seq<nat>, id: nat)
    requires Increasing(ids) && forall x: nat :: x in ids ==> x < id
    ensures Increasing(ids + [id]) && forall x: nat :: x in ids + [id] <==> x in ids || x == id
  {
    forall i, j | 0 <= i < j < |ids| + 1 ensures (ids + [id])[i] < (ids + [id])[j] {
      assert ids[i] in ids;
    }
  }

  lemma ProcessNextKeeps(q: Queue)
    requires AlmostKept(q)
    ensures Kept(ProcessNext(q))
  {
    if q.current.None? && q.scheduled != [] {
      var next, first := ProcessNext(q), q.scheduled[0];
      FirstOfIncreasing(q.scheduled);
      assert forall id: nat :: Live(next, id) <==> Live(q, id);
      assert first in q.scheduled;
      AppendToIncreasing(q.begun, first);
    }
  }

  /** A live request taken out and answered. */
  lemma AnswerKeeps(q: Queue, taken: Queue, id: nat, answer: Answer)
    requires AlmostKept(q) && Live(q, id)
    requires taken.arrivals == q.arrivals && taken.cancelled == q.cancelled && taken.begun == q.begun
    requires taken.stopped == q.stopped
    requires taken.idle == q.idle - {id} && taken.returned == q.returned + [Returned(id, answer)]
    requires InOrder(taken) && CurrentHasBegun(taken) && forall x: nat :: Live(taken, x) <==> Live(q, x) && x != id
    requires answer == Finished ==> id in q.begun || id in q.cancelled
    ensures AlmostKept(taken)
  {
    var more := [Returned(id, answer)];
    assert more[0].id == id;
    if q.current == Some(id) {
      assert id in q.begun;
    }
    AnsweredOnceWithMore(q, taken, more);
    ReasonsWithMore(q, taken, more);
  }

  lemma ReasonsWithMore(q: Queue, taken: Queue, more: seq<Returned>)
    requires AnsweredForAReason(q)
    requires taken.cancelled == q.cancelled && taken.begun == q.begun && taken.stopped == q.stopped
    requires taken.idle <= q.idle
    requires taken.returned == q.returned + more && forall id: nat :: id in taken.idle ==> Live(taken, id)
    requires forall r :: r in more && r.answer == Finished ==> r.id in q.begun || r.id in q.cancelled
    ensures AnsweredForAReason(taken)
  {
    assert forall r :: r in taken.returned <==> r in q.returned || r in more;
  }

  lemma AnsweredOnceWithMore(q: Queue, taken: Queue, more: seq<Returned>)
    requires AnsweredOnce(q) && NoneTwice(more) && taken.arrivals == q.arrivals && taken.returned == q.returned + more
    requires forall id: nat :: HasReturned(more, id) ==> Live(q, id) && id < q.arrivals
    requires forall id: nat :: Live(taken, id) <==> Live(q, id) && !HasReturned(more, id)
    ensures AnsweredOnce(taken)
  {
    ReturnedWithMore(q.returned, more);
  }

  lemma ReturnedWithMore(returned: seq<Returned>, more: seq<Returned>)
    requires NoneTwice(returned) && NoneTwice(more) && forall id: nat :: HasReturned(returned, id) ==>
      !HasReturned(more, id)
    ensures NoneTwice(returned + more)
    ensures forall id: nat :: HasReturned(returned + more, id) <==> HasReturned(returned, id) || HasReturned(more, id)
  {
    var all := returned + more;
    assert forall i :: 0 <= i < |returned| ==> HasReturned(returned, returned[i].id) && all[i] == returned[i];
    assert forall i :: 0 <= i < |more| ==> HasReturned(more, more[i].id) && all[|returned| + i] == more[i];
    assert forall i :: 0 <= i < |all| ==> all[i] == if i < |returned| then returned[i] else more[i - |returned|];
  }

  lemma CompleteKeeps(q: Queue, id: nat, dismissed: bool)
    requires AlmostKept(q) && Live(q, id) && (q.current == Some(id) || dismissed || id in q.cancelled)
    requires q.current == Some(id) || NoneWaitsAlone(q)
    ensures Kept(Complete(q, id, dismissed))
  {
    var answer := if dismissed then Dismissed else Finished;
    WithoutTakesOne(q.scheduled, id);
    if q.current == Some(id) {
      assert id in q.begun;
      var taken := q.(current := None, idle := q.idle - {id}, returned := q.returned + [Returned(id, answer)]);
      AnswerKeeps(q, taken, id, answer);
      ProcessNextKeeps(taken);
    } else {
      AnswerKeeps(q, Complete(q, id, dismissed), id, answer);
    }
  }

  lemma ArriveKeeps(q: Queue, cancelled: bool)
    requires Kept(q)
    ensures Kept(Next(q, Arrive(cancelled)))
  {
    var id := q.arrivals;
    var arrived := q.(
      arrivals := id + 1, scheduled := q.scheduled + [id],
      idle := if cancelled then q.idle + {id} else q.idle,
      cancelled := if cancelled then q.cancelled + {id} else q.cancelled);
    AppendToIncreasing(q.scheduled, id);
    assert forall x: nat :: Live(arrived, x) <==> Live(q, x) || x == id;
    ProcessNextKeeps(arrived);
  }

  lemma DismissalsAreOfAll(ids: seq<nat>)
    requires Increasing(ids)
    ensures NoneTwice(Dismissals(ids)) && forall id: nat :: id in ids <==> HasReturned(Dismissals(ids), id)
  {
    forall id | id in ids ensures HasReturned(Dismissals(ids), id) {
      var i :| 0 <= i < |ids| && ids[i] == id;
      assert Dismissals(ids)[i].id == id;
    }
  }

  lemma UnregisterKeeps(q: Queue)
    requires Kept(q)
    ensures Kept(Unregistered(q))
  {
    var left := q.(
      scheduled := [], idle := q.idle - Members(q.scheduled),
      returned := q.returned + Dismissals(q.scheduled));
    DismissalsAreOfAll(q.scheduled);
    if q.current.Some? {
      assert q.current.value in q.begun;
    }
    AnsweredOnceWithMore(q, left, Dismissals(q.scheduled));
    ReasonsWithMore(q, left, Dismissals(q.scheduled));
    if left.current.Some? {
      CompleteKeeps(left, left.current.value, true);
    }
  }

  lemma NextKeeps(q: Queue, event: Event)
    requires Kept(q)
    ensures Kept(Next(q, event))
  {
    match event
    case Arrive(cancelled) => ArriveKeeps(q, cancelled);
    case Cancel(id) =>
    case IdleTurn(id) =>
      if id in q.idle && q.current != Some(id) {
        CompleteKeeps(q, id, false);
      }
    case Answered(dismissed) =>
      if q.current.Some? {
        CompleteKeeps(q, q.current.value, dismissed);
      }
    case Unregister => UnregisterKeeps(q);
  }

  /** Over any run of arrivals, cancellations, answers and unregistering. */
  lemma {:induction false} RunKeeps(events: seq<Event>)
    ensures Kept(Run(events))
  {
    if events != [] {
      RunKeeps(events[..|events| - 1]);
      NextKeeps(Run(events[..|events| - 1]), events[|events| - 1]);
    }
  }

  /** Unregistering answers everything that ever arrived, and begins nothing. */
  lemma UnregisterLeavesNothing(events: seq<Event>)
    ensures var q := Run(events + [Unregister]);
      && q.current == None && q.scheduled == [] && q.idle == {} && q.begun == Run(events).begun
      && (forall id: nat :: 0 <= id < q.arrivals ==> HasReturned(q.returned, id))
      && NoneTwice(q.returned)
  {
    assert (events + [Unregister])[..|events|] == events;
    RunKeeps(events);
    RunKeeps(events + [Unregister]);
  }

  // Which answer a request gets.

  /**
   * What an event answers a request with: the user's answer to the one that's current, success to one that was
   * cancelled while it waits, a dismissal to all at the end.
   */
  function AnswerTo(q: Queue, event: Event, id: nat): Option<Answer> {
    match event
    case Answered(dismissed) => if q.current == Some(id) then Some(if dismissed then Dismissed else Finished) else None
    case IdleTurn(other) => if other == id && id in q.idle && id in q.scheduled then Some(Finished) else None
    case Unregister => if q.current == Some(id) || id in q.scheduled then Some(Dismissed) else None
    case _ => None
  }

  /** An answer while a request is current is returned for that one, as what the user said. */
  lemma UserIsHeard(q: Queue, dismissed: bool)
    ensures var after := Next(q, Answered(dismissed));
      if q.current.Some? then
        after.returned == q.returned + [Returned(q.current.value, if dismissed then Dismissed else Finished)]
      else after == q
  {
  }

  lemma DismissedAll(ids: seq<nat>, id: nat, answer: Answer)
    ensures Returned(id, answer) in Dismissals(ids) <==> answer == Dismissed && id in ids
  {
    if id in ids && answer == Dismissed {
      var i :| 0 <= i < |ids| && ids[i] == id;
      assert Dismissals(ids)[i] == Returned(id, answer);
    }
  }

  /** All that a step returns. */
  lemma StepReturns(q: Queue, event: Event)
    ensures Next(q, event).returned == q.returned + match event
      case Answered(dismissed) =>
        if q.current.Some? then [Returned(q.current.value, if dismissed then Dismissed else Finished)] else []
      case IdleTurn(id) => if id in q.idle && q.current != Some(id) then [Returned(id, Finished)] else []
      case Unregister =>
        Dismissals(q.scheduled) + (if q.current.Some? then [Returned(q.current.value, Dismissed)] else [])
      case _ => []
  {
  }

  lemma OneOfMore(returned: seq<Returned>, more: seq<Returned>, answer: Returned)
    ensures answer in returned + more <==> answer in returned || answer in more
  {
  }

  lemma CurrentDoesNotWait(q: Queue)
    requires Kept(q) && q.current.Some?
    ensures q.current.value !in q.scheduled
  {
    assert q.current.value in q.begun;
  }

  lemma StepAnswers(q: Queue, event: Event, id: nat, answer: Answer)
    requires Kept(q)
    ensures Returned(id, answer) in Next(q, event).returned
      <==> Returned(id, answer) in q.returned || AnswerTo(q, event, id) == Some(answer)
  {
    StepReturns(q, event);
    if q.current.Some? {
      CurrentDoesNotWait(q);
    }
    var it := Returned(id, answer);
    match event
    case Unregister =>
      var last := if q.current.Some? then [Returned(q.current.value, Dismissed)] else [];
      DismissedAll(q.scheduled, id, answer);
      OneOfMore(q.returned, Dismissals(q.scheduled) + last, it);
      OneOfMore(Dismissals(q.scheduled), last, it);
    case Answered(dismissed) =>
      if q.current.Some? {
        OneOfMore(q.returned, [Returned(q.current.value, if dismissed then Dismissed else Finished)], it);
      }
    case IdleTurn(other) =>
      if other in q.idle && q.current != Some(other) {
        assert Live(q, other);
        OneOfMore(q.returned, [Returned(other, Finished)], it);
      }
    case _ =>
  }

  /** An event answered a request like that at some point of a run. */
  ghost predicate GotAnswer(events: seq<Event>, id: nat, answer: Answer) {
    exists i :: 0 <= i < |events| && Answers(events, i, id, answer)
  }

  predicate Answers(events: seq<Event>, i: nat, id: nat, answer: Answer)
    requires i < |events|
  {
    AnswerTo(Run(events[..i]), events[i], id) == Some(answer)
  }

  lemma GotEarlierOrLast(events: seq<Event>, id: nat, answer: Answer)
    requires events != []
    ensures var last := |events| - 1;
      GotAnswer(events, id, answer) <==> GotAnswer(events[..last], id, answer) || Answers(events, last, id, answer)
  {
    var last := |events| - 1;
    forall i | 0 <= i < last ensures Answers(events[..last], i, id, answer) == Answers(events, i, id, answer) {
      assert events[..last][..i] == events[..i] && events[..last][i] == events[i];
    }
  }

  /**
   * Over any run a request is answered as finished exactly if the user didn't dismiss it or its idle turn came while it
   * waited, and as dismissed exactly if the user dismissed it or the agent was unregistered while it was live.
   */
  lemma {:induction false} AnswersAreDeserved(events: seq<Event>, id: nat, answer: Answer)
    ensures Returned(id, answer) in Run(events).returned <==> GotAnswer(events, id, answer)
  {
    if events != [] {
      var last := |events| - 1;
      AnswersAreDeserved(events[..last], id, answer);
      RunKeeps(events[..last]);
      StepAnswers(Run(events[..last]), events[last], id, answer);
      GotEarlierOrLast(events, id, answer);
    }
  }

  /** A request's idle turn is due from its cancellation until it comes or the request is gone. */
  lemma IdleExactly(q: Queue, event: Event, id: nat)
    requires Kept(q)
    ensures id in Next(q, event).idle <==>
      && Live(Next(q, event), id)
      && (|| (id in q.idle && event != IdleTurn(id))
          || (event == Cancel(id) && id !in q.cancelled)
          || (event == Arrive(true) && id == q.arrivals))
  {
    NextKeeps(q, event);
    match event
    case IdleTurn(other) => WithoutTakesOne(q.scheduled, other);
    case Answered(_) =>
      if q.current.Some? {
        CurrentDoesNotWait(q);
        assert Live(Next(q, event), id) <==> id in q.scheduled;
      }
    case Unregister =>
      assert Next(q, event).current == None && Next(q, event).scheduled == [];
    case Cancel(other) =>
    case Arrive(cancelled) =>
      assert Live(Next(q, event), id) <==> Live(q, id) || id == q.arrivals;
  }

  /** The user is told to stop exactly by the idle turn of the current request. */
  lemma StopsExactly(q: Queue, event: Event)
    ensures Next(q, event).stopped == q.stopped
      + if event.IdleTurn? && event.id in q.idle && q.current == Some(event.id) then [event.id] else []
  {
  }

  /** Without a cancellation or an end, every answer moves the queue on by one. */
  lemma {:induction false} TurnsCome(q: Queue, answers: seq<bool>)
    requires Kept(q) && q.current.Some? && 0 < |answers| <= |q.scheduled|
    ensures var after := AfterAnswers(q, answers);
      Kept(after) && after.current == Some(q.scheduled[|answers| - 1]) && after.scheduled == q.scheduled[|answers|..]
  {
    var most, last := answers[..|answers| - 1], answers[|answers| - 1];
    if most != [] {
      TurnsCome(q, most);
    }
    AnswerMovesOn(AfterAnswers(q, most), last);
  }

  lemma AnswerMovesOn(q: Queue, dismissed: bool)
    requires Kept(q) && q.current.Some? && q.scheduled != []
    ensures var after := Next(q, Answered(dismissed));
      Kept(after) && after.current == Some(q.scheduled[0]) && after.scheduled == q.scheduled[1..]
  {
    NextKeeps(q, Answered(dismissed));
  }

  function AfterAnswers(q: Queue, answers: seq<bool>): Queue {
    if answers == [] then q else Next(AfterAnswers(q, answers[..|answers| - 1]), Answered(answers[|answers| - 1]))
  }

  // The agent itself.

  class Agent {
    var current: Option<nat>
    var scheduled: seq<nat>
    var idle: set<nat>
    var arrivals: nat
    var cancelled: set<nat>
    ghost var begun: seq<nat>
    ghost var returned: seq<Returned>
    ghost var stopped: seq<nat>

    ghost function State(): Queue
      reads this
    {
      Queue(current, scheduled, idle, arrivals, cancelled, begun, returned, stopped)
    }

    constructor ()
      ensures State() == NEW_QUEUE
    {
      current, scheduled, idle, arrivals, cancelled := None, [], {}, 0, {};
      begun, returned, stopped := [], [], [];
    }

    method InitiateAuthentication(alreadyCancelled: bool) returns (id: nat)
      modifies this
      ensures id == old(arrivals) && State() == Next(old(State()), Arrive(alreadyCancelled))
    {
      id := arrivals;
      arrivals := arrivals + 1;
      if alreadyCancelled {
        OnRequestCancelled(id);
      }
      scheduled := scheduled + [id];
      MaybeProcessNextRequest();
    }

    method MaybeProcessNextRequest()
      modifies this
      ensures State() == ProcessNext(old(State()))
    {
      if current.None? && scheduled != [] {
        var request := scheduled[0];
        current, scheduled := Some(request), Without(scheduled, request);
        begun := begun + [request];
      }
    }

    method OnRequestCancelled(id: nat)
      modifies this`idle, this`cancelled
      ensures State() == old(State()).(idle := old(idle) + {id}, cancelled := old(cancelled) + {id})
    {
      cancelled := cancelled + {id};
      idle := idle + {id};
    }

    /**
     * What a cancelled request does once the main loop is idle: a current one tells the user, a waiting one is done.
     */
    method HandleCancelledInIdle(id: nat)
      requires id in idle
      modifies this
      ensures State() == Next(old(State()), IdleTurn(id))
    {
      idle := idle - {id};
      if current == Some(id) {
        stopped := stopped + [id];
      } else {
        AuthRequestComplete(id, false);
        assert old(idle) - {id} - {id} == old(idle) - {id};
      }
    }

    method AuthRequestComplete(id: nat, dismissed: bool)
      modifies this
      ensures State() == Complete(old(State()), id, dismissed)
    {
      var isCurrent := current == Some(id);
      if !isCurrent {
        scheduled := Without(scheduled, id);
      }
      returned := returned + [Returned(id, if dismissed then Dismissed else Finished)];
      idle := idle - {id};
      if isCurrent {
        current := None;
        MaybeProcessNextRequest();
      }
    }

    /** The user's answer; without a current request there's nothing to answer. */
    method CompleteCurrent(dismissed: bool)
      modifies this
      ensures State() == Next(old(State()), Answered(dismissed))
      ensures old(current).Some? ==>
        returned == old(returned) + [Returned(old(current).value, if dismissed then Dismissed else Finished)]
      ensures old(current).None? ==> State() == old(State())
    {
      if current.Some? {
        AuthRequestComplete(current.value, dismissed);
      }
    }

    method Unregister()
      requires Increasing(scheduled) && (current.Some? ==> current.value !in scheduled)
      modifies this
      ensures State() == Next(old(State()), Event.Unregister)
    {
      ghost var before := State();
      var requests := scheduled;
      for i := 0 to |requests|
        invariant State() == before.(
          scheduled := requests[i..], idle := before.idle - Members(requests[..i]),
          returned := before.returned + Dismissals(requests[..i]))
      {
        AuthRequestComplete(requests[i], true);
        DismissedOneMore(requests, i, before.idle, before.returned);
      }
      assert requests[..|requests|] == requests;
      if current.Some? {
        AuthRequestComplete(current.value, true);
      }
    }
  }

  lemma DismissedOneMore(ids: seq<nat>, i: nat, idle: set<nat>, returned: seq<Returned>)
    requires i < |ids|
    ensures Without(ids[i..], ids[i]) == ids[i + 1..]
    ensures idle - Members(ids[..i]) - {ids[i]} == idle - Members(ids[..i + 1])
    ensures returned + Dismissals(ids[..i]) + [Returned(ids[i], Dismissed)] == returned + Dismissals(ids[..i + 1])
  {
    assert ids[..i + 1] == ids[..i] + [ids[i]];
    assert ids[i..][1..] == ids[i + 1..];
  }
}
