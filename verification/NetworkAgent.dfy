/**
 * The network agent's open requests for secrets: searches of the keyring that may still be under way, dialogs, and
 * what the network manager takes back. Calls are numbered in the order they're made.
 */
module NetworkAgent {
  import opened Options

  type Texts = map<string, string>

  /** An unanswered call. Without entries its search is still under way; with them, it's with the user. */
  datatype Request = Request(
    serial: nat, setting: string, requestNew: bool, mayInteract: bool, entries: Option<Texts>, vpn: Texts)

  datatype Answer =
    | Secrets(setting: string, entries: Texts, vpn: Texts)
    | AgentCanceled
    | UserCanceled
    | Failed

  datatype Reply = Reply(serial: nat, answer: Answer)

  /** A search of the keyring that hasn't come back, for the request that's kept under an id. */
  datatype Search = Search(id: string, cancelled: bool)

  /** `broken` is set when something is done to a request that's gone. */
  datatype Agent = Agent(
    requests: map<string, Request>, searches: map<nat, Search>,
    calls: nat, replies: seq<Reply>, shown: seq<nat>, saved: seq<nat>, broken: bool)

  const NEW_AGENT := Agent(map[], map[], 0, [], [], [], false)

  datatype Response = Confirmed | Canceled | InternalError

  datatype Event =
    | GetSecrets(path: string, setting: string, requestNew: bool, mayInteract: bool, alwaysAsk: bool)
    | SearchReturns(serial: nat, found: Texts)
    | SetPassword(id: string, key: string, text: string)
    | AddVpnSecret(id: string, key: string, text: string)
    | Respond(id: string, response: Response)
    | CancelGetSecrets(path: string, setting: string)
    | Finalize(order: seq<string>)

  const VPN := "vpn"

  // Ids.

  function Id(path: string, setting: string): string { path + "/" + setting }

  /** Names of settings without a slash make an id stand for one connection and one setting. */
  lemma IdTellsApart(path: string, setting: string, otherPath: string, otherSetting: string)
    requires '/' !in setting && '/' !in otherSetting && Id(path, setting) == Id(otherPath, otherSetting)
    ensures path == otherPath && setting == otherSetting
  {
    var id := Id(path, setting);
    LastSlash(path, setting);
    LastSlash(otherPath, otherSetting);
    assert id[..|path|] == path && id[..|otherPath|] == otherPath;
    assert id[|path| + 1..] == setting && id[|otherPath| + 1..] == otherSetting;
  }

  lemma LastSlash(path: string, setting: string)
    requires '/' !in setting
    ensures Id(path, setting)[|path|] == '/'
    ensures forall i :: |path| < i < |Id(path, setting)| ==> Id(path, setting)[i] != '/'
  {
    assert forall i :: |path| < i < |Id(path, setting)| ==> Id(path, setting)[i] == setting[i - |path| - 1];
  }

  /** One pair's path goes on with part of what is the other's setting. */
  ghost predicate Overlap(path: string, setting: string, otherPath: string, otherSetting: string) {
    exists part :: otherPath == Id(path, part) && setting == Id(part, otherSetting)
  }

  lemma OverlapIsAtSlash(path: string, setting: string, otherPath: string, otherSetting: string)
    requires Id(path, setting) == Id(otherPath, otherSetting) && |path| < |otherPath|
    ensures Overlap(path, setting, otherPath, otherSetting)
  {
    var id := Id(path, setting);
    var part := id[|path| + 1..|otherPath|];
    assert otherPath == id[..|otherPath|] && path == id[..|path|];
    assert otherPath == Id(path, part);
    assert setting == id[|path| + 1..] && otherSetting == id[|otherPath| + 1..] && id[|otherPath|] == '/';
    assert setting == Id(part, otherSetting);
  }

  lemma OverlapIsSameId(path: string, setting: string, otherPath: string, otherSetting: string)
    requires Overlap(path, setting, otherPath, otherSetting)
    ensures Id(path, setting) == Id(otherPath, otherSetting)
  {
    var part :| otherPath == Id(path, part) && setting == Id(part, otherSetting);
    assert path + "/" + (part + "/" + otherSetting) == path + "/" + part + "/" + otherSetting;
  }

  /** Two pairs share an id exactly if they're the same, or one's path reaches over a slash into the other's setting. */
  lemma IdsCoincide(path: string, setting: string, otherPath: string, otherSetting: string)
    ensures Id(path, setting) == Id(otherPath, otherSetting) <==>
      || (path == otherPath && setting == otherSetting)
      || Overlap(path, setting, otherPath, otherSetting)
      || Overlap(otherPath, otherSetting, path, setting)
  {
    if Id(path, setting) == Id(otherPath, otherSetting) {
      var id := Id(path, setting);
      if |path| < |otherPath| {
        OverlapIsAtSlash(path, setting, otherPath, otherSetting);
      } else if |otherPath| < |path| {
        OverlapIsAtSlash(otherPath, otherSetting, path, setting);
      } else {
        assert path == id[..|path|] && otherPath == id[..|path|];
        assert setting == id[|path| + 1..] && otherSetting == id[|path| + 1..];
      }
    } else {
      if Overlap(path, setting, otherPath, otherSetting) {
        OverlapIsSameId(path, setting, otherPath, otherSetting);
      }
      if Overlap(otherPath, otherSetting, path, setting) {
        OverlapIsSameId(otherPath, otherSetting, path, setting);
      }
    }
  }

  // Steps.

  /** Freeing a request cancels its search. */
  function Remove(a: Agent, id: string): Agent
    requires id in a.requests
  {
    var serial := a.requests[id].serial;
    a.(
      requests := a.requests - {id},
      searches :=
        if serial in a.searches then a.searches[serial := a.searches[serial].(cancelled := true)] else a.searches)
  }

  function ReplyAndRemove(a: Agent, id: string, answer: Answer): Agent
    requires id in a.requests
  {
    Remove(a.(replies := a.replies + [Reply(a.requests[id].serial, answer)]), id)
  }

  function CancelIfAny(a: Agent, id: string): Agent {
    if id in a.requests then ReplyAndRemove(a, id, AgentCanceled) else a
  }

  function Begin(a: Agent, id: string, setting: string, requestNew: bool, mayInteract: bool, alwaysAsk: bool): Agent {
    var ask := requestNew || (mayInteract && alwaysAsk);
    var request := Request(a.calls, setting, requestNew, mayInteract, if ask then Some(map[]) else None, map[]);
    a.(
      calls := a.calls + 1, requests := a.requests[id := request],
      shown := if ask then a.shown + [a.calls] else a.shown,
      searches := if ask then a.searches else a.searches[a.calls := Search(id, false)])
  }

  /** What's found answers the call, unless it's for a VPN, or nothing is found and the user may be asked. */
  function SearchReturned(a: Agent, serial: nat, found: Texts): Agent
    requires serial in a.searches
  {
    var search := a.searches[serial];
    var back := a.(searches := a.searches - {serial});
    if search.cancelled then back
    else if search.id !in a.requests || a.requests[search.id].serial != serial then back.(broken := true)
    else
      var request := a.requests[search.id];
      if request.setting == VPN || (found == map[] && request.mayInteract)
      then back.(requests := a.requests[search.id := request.(entries := Some(found))], shown := a.shown + [serial])
      else ReplyAndRemove(back, search.id, Secrets(request.setting, found, map[]))
  }

  function Responded(a: Agent, id: string, response: Response): Agent
    requires id in a.requests && (response.Confirmed? ==> a.requests[id].entries.Some?)
  {
    var request := a.requests[id];
    match response
    case Canceled => ReplyAndRemove(a, id, UserCanceled)
    case InternalError => ReplyAndRemove(a, id, Failed)
    case Confirmed =>
      var saved := if request.requestNew || request.mayInteract then a.(saved := a.saved + [request.serial]) else a;
      ReplyAndRemove(saved, id, Secrets(request.setting, request.entries.value, request.vpn))
  }

  function CancelAll(a: Agent, order: seq<string>): Agent {
    if order == [] then a else CancelIfAny(CancelAll(a, order[..|order| - 1]), order[|order| - 1])
  }

  /** What concerns a request that isn't there is ignored. */
  function Next(a: Agent, event: Event): Agent
    requires Allowed(a, event)
  {
    match event
    case GetSecrets(path, setting, requestNew, mayInteract, alwaysAsk) =>
      Begin(CancelIfAny(a, Id(path, setting)), Id(path, setting), setting, requestNew, mayInteract, alwaysAsk)
    case SearchReturns(serial, found) => SearchReturned(a, serial, found)
    case SetPassword(id, key, text) =>
      if id !in a.requests then a
      else
        var request := a.requests[id];
        a.(requests := a.requests[id := request.(entries := Some(request.entries.value[key := text]))])
    case AddVpnSecret(id, key, text) =>
      if id !in a.requests then a
      else a.(requests := a.requests[id := a.requests[id].(vpn := a.requests[id].vpn[key := text])])
    case Respond(id, response) => if id !in a.requests then a else Responded(a, id, response)
    case CancelGetSecrets(path, setting) => CancelIfAny(a, Id(path, setting))
    case Finalize(order) => CancelAll(a, order)
  }

  /**
   * A search comes back once, the user only fills in and confirms what was shown, and the last step goes through all
   * requests.
   */
  predicate Allowed(a: Agent, event: Event) {
    match event
    case SearchReturns(serial, found) => serial in a.searches
    case SetPassword(id, key, text) => id in a.requests ==> a.requests[id].entries.Some?
    case Respond(id, response) => id in a.requests && response.Confirmed? ==> a.requests[id].entries.Some?
    case Finalize(order) => forall id :: id in a.requests ==> id in order
    case _ => true
  }

  // What every step keeps.

  ghost predicate HasReply(replies: seq<Reply>, serial: nat) {
    exists i :: 0 <= i < |replies| && replies[i].serial == serial
  }

  ghost predicate NoneTwice(replies: seq<Reply>) {
    forall i, j :: 0 <= i < j < |replies| ==> replies[i].serial != replies[j].serial
  }

  ghost predicate Open(requests: map<string, Request>, serial: nat) {
    exists id :: id in requests && requests[id].serial == serial
  }

  /** The open requests are exactly the unanswered calls, each kept once, and no call is answered twice. */
  ghost predicate AnsweredOnce(a: Agent) {
    && (forall id, other ::
         id in a.requests && other in a.requests && a.requests[id].serial == a.requests[other].serial ==> id == other)
    && (forall serial: nat :: Open(a.requests, serial) <==> serial < a.calls && !HasReply(a.replies, serial))
    && (forall serial: nat :: HasReply(a.replies, serial) ==> serial < a.calls)
    && NoneTwice(a.replies)
  }

  /**
   * A request waits for its search exactly while that's under way, and a search for a request that's gone is cancelled.
   */
  ghost predicate SearchesBelong(a: Agent) {
    && (forall serial :: serial in a.searches ==> serial < a.calls)
    && (forall serial :: serial in a.searches && !a.searches[serial].cancelled ==>
         var id := a.searches[serial].id;
         id in a.requests && a.requests[id].serial == serial && a.requests[id].entries.None?)
    && (forall id :: id in a.requests && a.requests[id].entries.None? ==>
         a.requests[id].serial in a.searches && a.searches[a.requests[id].serial] == Search(id, false))
  }

  ghost predicate Kept(a: Agent) {
    AnsweredOnce(a) && SearchesBelong(a) && !a.broken
  }

  lemma ReplyWithMore(replies: seq<Reply>, more: Reply)
    ensures forall serial: nat ::
      HasReply(replies + [more], serial) <==> HasReply(replies, serial) || serial == more.serial
    ensures NoneTwice(replies) && !HasReply(replies, more.serial) ==> NoneTwice(replies + [more])
  {
    assert (replies + [more])[|replies|] == more;
    forall serial: nat | HasReply(replies, serial) ensures HasReply(replies + [more], serial) {
      var i :| 0 <= i < |replies| && replies[i].serial == serial;
      assert (replies + [more])[i].serial == serial;
    }
  }

  lemma ReplyKeeps(a: Agent, id: string, answer: Answer)
    requires AnsweredOnce(a) && id in a.requests
    ensures AnsweredOnce(ReplyAndRemove(a, id, answer))
    ensures SearchesBelong(a) ==> SearchesBelong(ReplyAndRemove(a, id, answer))
  {
    var serial, after := a.requests[id].serial, ReplyAndRemove(a, id, answer);
    ReplyWithMore(a.replies, Reply(serial, answer));
    assert Open(a.requests, serial);
    forall other: nat ensures Open(after.requests, other) <==> Open(a.requests, other) && other != serial {
      if Open(a.requests, other) && other != serial {
        var key :| key in a.requests && a.requests[key].serial == other;
        assert key in after.requests;
      }
    }
  }

  lemma CancelKeeps(a: Agent, id: string)
    requires Kept(a)
    ensures Kept(CancelIfAny(a, id)) && id !in CancelIfAny(a, id).requests
    ensures CancelIfAny(a, id).calls == a.calls
  {
    if id in a.requests {
      ReplyKeeps(a, id, AgentCanceled);
    }
  }

  lemma BeginKeeps(a: Agent, id: string, setting: string, requestNew: bool, mayInteract: bool, alwaysAsk: bool)
    requires Kept(a) && id !in a.requests
    ensures Kept(Begin(a, id, setting, requestNew, mayInteract, alwaysAsk))
  {
    var after := Begin(a, id, setting, requestNew, mayInteract, alwaysAsk);
    assert !HasReply(a.replies, a.calls) && !Open(a.requests, a.calls);
    forall serial: nat ensures Open(after.requests, serial) <==> Open(a.requests, serial) || serial == a.calls {
      if Open(a.requests, serial) {
        var key :| key in a.requests && a.requests[key].serial == serial;
        assert key in after.requests && after.requests[key].serial == serial;
      }
      if serial == a.calls {
        assert after.requests[id].serial == serial;
      }
    }
    assert forall key :: key in a.requests ==> Open(a.requests, a.requests[key].serial);
    BeginSearches(a, id, setting, requestNew, mayInteract, alwaysAsk);
  }

  lemma BeginSearches(a: Agent, id: string, setting: string, requestNew: bool, mayInteract: bool, alwaysAsk: bool)
    requires Kept(a) && id !in a.requests
    ensures SearchesBelong(Begin(a, id, setting, requestNew, mayInteract, alwaysAsk))
  {
    assert a.calls !in a.searches;
    assert forall key :: key in a.requests ==> Open(a.requests, a.requests[key].serial);
  }

  /** A request that's changed in place. */
  lemma ChangeKeeps(a: Agent, after: Agent, id: string)
    requires AnsweredOnce(a) && id in a.requests && id in after.requests
    requires after.requests == a.requests[id := after.requests[id]]
    requires after.requests[id].serial == a.requests[id].serial
    requires after.replies == a.replies && after.calls == a.calls
    ensures AnsweredOnce(after)
  {
    forall serial: nat ensures Open(after.requests, serial) <==> Open(a.requests, serial) {
      if Open(a.requests, serial) {
        var key :| key in a.requests && a.requests[key].serial == serial;
        assert key in after.requests && after.requests[key].serial == serial;
      }
      if Open(after.requests, serial) {
        var key :| key in after.requests && after.requests[key].serial == serial;
        assert key in a.requests && a.requests[key].serial == serial;
      }
    }
  }

  lemma ShownKeeps(a: Agent, serial: nat, found: Texts)
    requires Kept(a) && serial in a.searches && !a.searches[serial].cancelled
    requires var request := a.requests[a.searches[serial].id];
      request.setting == VPN || (found == map[] && request.mayInteract)
    ensures Kept(SearchReturned(a, serial, found))
  {
    ChangeKeeps(a, SearchReturned(a, serial, found), a.searches[serial].id);
  }

  lemma SearchKeeps(a: Agent, serial: nat, found: Texts)
    requires Kept(a) && serial in a.searches
    ensures Kept(SearchReturned(a, serial, found))
  {
    var search := a.searches[serial];
    var back := a.(searches := a.searches - {serial});
    if !search.cancelled {
      var request := a.requests[search.id];
      if request.setting == VPN || (found == map[] && request.mayInteract) {
        ShownKeeps(a, serial, found);
      } else {
        FoundKeeps(a, back, serial, Secrets(request.setting, found, map[]));
      }
    }
  }

  lemma FoundKeeps(a: Agent, back: Agent, serial: nat, answer: Answer)
    requires Kept(a) && serial in a.searches && !a.searches[serial].cancelled
    requires back == a.(searches := a.searches - {serial})
    ensures a.searches[serial].id in back.requests && Kept(ReplyAndRemove(back, a.searches[serial].id, answer))
  {
    ReplyKeeps(back, a.searches[serial].id, answer);
    FoundLeavesTheRest(a, back, serial, answer);
  }

  lemma FoundLeavesTheRest(a: Agent, back: Agent, serial: nat, answer: Answer)
    requires Kept(a) && serial in a.searches && !a.searches[serial].cancelled
    requires back == a.(searches := a.searches - {serial})
    ensures SearchesBelong(ReplyAndRemove(back, a.searches[serial].id, answer))
  {
    var id := a.searches[serial].id;
    var after := ReplyAndRemove(back, id, answer);
    assert after.searches == a.searches - {serial} && after.requests == a.requests - {id};
    assert forall other :: other in after.requests ==> a.requests[other].serial != serial;
  }

  lemma {:induction false} CancelAllKeeps(a: Agent, order: seq<string>)
    requires Kept(a)
    ensures var after := CancelAll(a, order);
      && Kept(after) && after.calls == a.calls
      && forall id :: id in after.requests <==> id in a.requests && id !in order
  {
    if order != [] {
      var most, last := order[..|order| - 1], order[|order| - 1];
      CancelAllKeeps(a, most);
      CancelKeeps(CancelAll(a, most), last);
      assert forall id :: id in order <==> id in most || id == last;
    }
  }

  lemma NextKeeps(a: Agent, event: Event)
    requires Kept(a) && Allowed(a, event)
    ensures Kept(Next(a, event))
  {
    match event
    case GetSecrets(path, setting, requestNew, mayInteract, alwaysAsk) =>
      CancelKeeps(a, Id(path, setting));
      BeginKeeps(CancelIfAny(a, Id(path, setting)), Id(path, setting), setting, requestNew, mayInteract, alwaysAsk);
    case SearchReturns(serial, found) => SearchKeeps(a, serial, found);
    case SetPassword(id, key, text) =>
      if id in a.requests {
        ChangeKeeps(a, Next(a, event), id);
      }
    case AddVpnSecret(id, key, text) =>
      if id in a.requests {
        ChangeKeeps(a, Next(a, event), id);
      }
    case Respond(id, response) =>
      if id in a.requests {
        RespondKeeps(a, id, response);
      }
    case CancelGetSecrets(path, setting) => CancelKeeps(a, Id(path, setting));
    case Finalize(order) => CancelAllKeeps(a, order);
  }

  lemma RespondKeeps(a: Agent, id: string, response: Response)
    requires Kept(a) && id in a.requests && (response.Confirmed? ==> a.requests[id].entries.Some?)
    ensures Kept(Responded(a, id, response))
  {
    var request := a.requests[id];
    match response
    case Canceled => ReplyKeeps(a, id, UserCanceled);
    case InternalError => ReplyKeeps(a, id, Failed);
    case Confirmed =>
      var saved := if request.requestNew || request.mayInteract then a.(saved := a.saved + [request.serial]) else a;
      ReplyKeeps(saved, id, Secrets(request.setting, request.entries.value, request.vpn));
  }

  /** What a run of allowed steps comes to. */
  function Run(events: seq<Event>): Option<Agent> {
    if events == [] then Some(NEW_AGENT)
    else
      var before := Run(events[..|events| - 1]);
      if before.None? || !Allowed(before.value, events[|events| - 1]) then None
      else Some(Next(before.value, events[|events| - 1]))
  }

  /**
   * Over any run, the open requests are exactly the unanswered calls, no call is answered twice, and nothing is done to
   * a request that's gone.
   */
  lemma {:induction false} RunKeeps(events: seq<Event>)
    requires Run(events).Some?
    ensures Kept(Run(events).value)
  {
    if events != [] {
      RunKeeps(events[..|events| - 1]);
      NextKeeps(Run(events[..|events| - 1]).value, events[|events| - 1]);
    }
  }

  /** Whether the user may be asked at all. */
  predicate MayBeShown(request: Request) {
    request.requestNew || request.mayInteract || request.setting == VPN
  }

  /** The user is only ever asked for an open call that allows it, or for a VPN's, and one at a time. */
  lemma AskedOnlyWhenAllowed(a: Agent, event: Event)
    requires Kept(a) && Allowed(a, event) && Next(a, event).shown != a.shown
    ensures var after := Next(a, event);
      exists id :: id in after.requests && MayBeShown(after.requests[id]) && after.requests[id].entries.Some?
        && after.shown == a.shown + [after.requests[id].serial]
  {
    var after := Next(a, event);
    match event
    case GetSecrets(path, setting, requestNew, mayInteract, alwaysAsk) =>
      assert after.requests[Id(path, setting)].serial == a.calls;
    case SearchReturns(serial, found) =>
      assert after.requests[a.searches[serial].id].serial == serial;
    case Finalize(order) => CancelAllShowsNothing(a, order);
    case _ =>
  }

  lemma {:induction false} CancelAllShowsNothing(a: Agent, order: seq<string>)
    ensures CancelAll(a, order).shown == a.shown
  {
    if order != [] {
      CancelAllShowsNothing(a, order[..|order| - 1]);
    }
  }

  /**
   * A search that comes back in time answers its call at once, with what it found, or the user is asked, never both.
   */
  lemma SearchAnswersOrAsks(a: Agent, serial: nat, found: Texts)
    requires Kept(a) && serial in a.searches && !a.searches[serial].cancelled
    ensures var after := Next(a, SearchReturns(serial, found));
      var request := a.requests[a.searches[serial].id];
      var answered := request.setting != VPN && (found != map[] || !request.mayInteract);
      && after.replies
         == (if answered then a.replies + [Reply(serial, Secrets(request.setting, found, map[]))] else a.replies)
      && after.shown == (if answered then a.shown else a.shown + [serial])
      && (Open(after.requests, serial) <==> !answered)
  {
    SearchKeeps(a, serial, found);
    var after := Next(a, SearchReturns(serial, found));
    var request := a.requests[a.searches[serial].id];
    if request.setting != VPN && (found != map[] || !request.mayInteract) {
      ReplyWithMore(a.replies, Reply(serial, Secrets(request.setting, found, map[])));
    } else {
      assert after.requests[a.searches[serial].id].serial == serial;
    }
  }

  /** A call for what's already asked for takes the place of the first, which is told it's cancelled. */
  lemma RepeatedCallDisplaces(
    a: Agent, path: string, setting: string, requestNew: bool, mayInteract: bool, alwaysAsk: bool)
    requires Kept(a) && Id(path, setting) in a.requests
    ensures var id := Id(path, setting);
      var first := a.requests[id].serial;
      var after := Next(a, GetSecrets(path, setting, requestNew, mayInteract, alwaysAsk));
      && after.replies == a.replies + [Reply(first, AgentCanceled)] && first != a.calls
      && after.requests[id].serial == a.calls && after.requests.Keys == a.requests.Keys
      && (first in after.searches ==> after.searches[first].cancelled)
  {
    assert Open(a.requests, a.requests[Id(path, setting)].serial);
  }

  /** At the end every call has been answered, and whatever search is still to come back is ignored. */
  lemma FinalizeAnswersAll(a: Agent, order: seq<string>)
    requires Kept(a) && Allowed(a, Finalize(order))
    ensures var after := Next(a, Finalize(order));
      && after.requests == map[] && (forall serial: nat :: HasReply(after.replies, serial) <==> serial < a.calls)
      && NoneTwice(after.replies)
      && forall serial, found :: serial in after.searches ==>
           Next(after, SearchReturns(serial, found)) == after.(searches := after.searches - {serial})
  {
    CancelAllKeeps(a, order);
    var after := Next(a, Finalize(order));
    assert after.requests.Keys == {};
    assert forall serial: nat :: !Open(after.requests, serial);
  }

  // When the user is asked, and which answer a call gets.

  /** A call is put to the user at once exactly if it wants new secrets, or may ask and always does. */
  lemma AskedAtOnce(a: Agent, event: Event)
    requires Kept(a) && event.GetSecrets?
    ensures var id, after := Id(event.path, event.setting), Next(a, event);
      var atOnce := event.requestNew || (event.mayInteract && event.alwaysAsk);
      && id in after.requests && after.requests[id].serial == a.calls
      && after.requests[id].setting == event.setting
      && after.requests[id].requestNew == event.requestNew && after.requests[id].mayInteract == event.mayInteract
      && after.requests[id].vpn == map[]
      && after.requests[id].entries == (if atOnce then Some(map[]) else None)
      && after.shown == (if atOnce then a.shown + [a.calls] else a.shown)
      && (a.calls in after.searches <==> !atOnce)
      && (!atOnce ==> after.searches[a.calls] == Search(id, false))
  {
  }

  /** A confirmed dialog is saved exactly if it was shown for secrets that may be asked for; nothing else is. */
  lemma SavedWhenConfirmed(a: Agent, event: Event)
    requires Kept(a) && Allowed(a, event)
    ensures Next(a, event).saved == a.saved
      + if event.Respond? && event.response == Confirmed && event.id in a.requests
          && (a.requests[event.id].requestNew || a.requests[event.id].mayInteract)
        then [a.requests[event.id].serial] else []
  {
    if event.Finalize? {
      CancelAllReplies(a, event.order, 0, Failed);
    }
  }

  /**
   * What an event answers a request in the table with: that it's cancelled, if it's called for again, called off or the
   * agent goes; what was found; or what the user made of the dialog.
   */
  function AnswerTo(a: Agent, event: Event, id: string): Option<Answer>
    requires Allowed(a, event) && id in a.requests
  {
    var request := a.requests[id];
    match event
    case GetSecrets(path, setting, _, _, _) => if Id(path, setting) == id then Some(AgentCanceled) else None
    case CancelGetSecrets(path, setting) => if Id(path, setting) == id then Some(AgentCanceled) else None
    case Finalize(_) => Some(AgentCanceled)
    case SearchReturns(serial, found) =>
      if serial == request.serial && !a.searches[serial].cancelled
        && request.setting != VPN && (found != map[] || !request.mayInteract)
      then Some(Secrets(request.setting, found, map[])) else None
    case Respond(other, response) =>
      if other != id then None
      else (
        match response
        case Canceled => Some(UserCanceled)
        case InternalError => Some(Failed)
        case Confirmed => Some(Secrets(request.setting, request.entries.value, request.vpn)))
    case _ => None
  }

  ghost predicate AnswersCall(a: Agent, event: Event, serial: nat, answer: Answer) {
    Allowed(a, event) && exists id ::
      id in a.requests && a.requests[id].serial == serial && AnswerTo(a, event, id) == Some(answer)
  }

  lemma OneOfMore(replies: seq<Reply>, more: Reply, reply: Reply)
    ensures reply in replies + [more] <==> reply in replies || reply == more
  {
  }

  lemma CancelIfAnyReplies(a: Agent, id: string, serial: nat, answer: Answer)
    ensures Reply(serial, answer) in CancelIfAny(a, id).replies
      <==> || Reply(serial, answer) in a.replies
           || (id in a.requests && a.requests[id].serial == serial && answer == AgentCanceled)
    ensures forall other :: other != id && other in a.requests ==>
      other in CancelIfAny(a, id).requests && CancelIfAny(a, id).requests[other] == a.requests[other]
  {
    if id in a.requests {
      OneOfMore(a.replies, Reply(a.requests[id].serial, AgentCanceled), Reply(serial, answer));
    }
  }

  lemma {:induction false} CancelAllReplies(a: Agent, order: seq<string>, serial: nat, answer: Answer)
    requires Kept(a)
    ensures Reply(serial, answer) in CancelAll(a, order).replies
      <==> || Reply(serial, answer) in a.replies
           || (answer == AgentCanceled
               && exists id :: id in order && id in a.requests && a.requests[id].serial == serial)
    ensures forall id :: id in a.requests && id !in order ==>
      id in CancelAll(a, order).requests && CancelAll(a, order).requests[id] == a.requests[id]
    ensures CancelAll(a, order).saved == a.saved
  {
    if order != [] {
      var most, last := order[..|order| - 1], order[|order| - 1];
      CancelAllReplies(a, most, serial, answer);
      CancelAllKeeps(a, most);
      CancelIfAnyReplies(CancelAll(a, most), last, serial, answer);
      assert forall id :: id in order <==> id in most || id == last;
    }
  }

  lemma StepAnswers(a: Agent, event: Event, serial: nat, answer: Answer)
    requires Kept(a) && Allowed(a, event)
    ensures Reply(serial, answer) in Next(a, event).replies
      <==> Reply(serial, answer) in a.replies || AnswersCall(a, event, serial, answer)
  {
    match event
    case GetSecrets(path, setting, _, _, _) => CancelIfAnyReplies(a, Id(path, setting), serial, answer);
    case CancelGetSecrets(path, setting) => CancelIfAnyReplies(a, Id(path, setting), serial, answer);
    case Finalize(order) => CancelAllReplies(a, order, serial, answer);
    case SearchReturns(which, found) => SearchAnswers(a, which, found, serial, answer);
    case Respond(id, response) =>
      if id in a.requests {
        var more := Reply(a.requests[id].serial, AnswerTo(a, event, id).value);
        OneOfMore(a.replies, more, Reply(serial, answer));
      }
    case _ =>
  }

  lemma SearchAnswers(a: Agent, which: nat, found: Texts, serial: nat, answer: Answer)
    requires Kept(a) && which in a.searches
    ensures Reply(serial, answer) in Next(a, SearchReturns(which, found)).replies
      <==> Reply(serial, answer) in a.replies || AnswersCall(a, SearchReturns(which, found), serial, answer)
  {
    var event := SearchReturns(which, found);
    if !a.searches[which].cancelled {
      var id := a.searches[which].id;
      if AnswerTo(a, event, id).Some? {
        OneOfMore(a.replies, Reply(which, AnswerTo(a, event, id).value), Reply(serial, answer));
      }
    }
  }

  /** An event answered a call like that at some point of a run. */
  ghost predicate GotAnswer(events: seq<Event>, serial: nat, answer: Answer) {
    exists i :: 0 <= i < |events| && AnsweredAt(events, i, serial, answer)
  }

  ghost predicate AnsweredAt(events: seq<Event>, i: nat, serial: nat, answer: Answer)
    requires i < |events|
  {
    Run(events[..i]).Some? && AnswersCall(Run(events[..i]).value, events[i], serial, answer)
  }

  lemma GotEarlierOrLast(events: seq<Event>, serial: nat, answer: Answer)
    requires events != []
    ensures var last := |events| - 1;
      GotAnswer(events, serial, answer)
      <==> GotAnswer(events[..last], serial, answer) || AnsweredAt(events, last, serial, answer)
  {
    var last := |events| - 1;
    forall i | 0 <= i < last
      ensures AnsweredAt(events[..last], i, serial, answer) == AnsweredAt(events, i, serial, answer)
    {
      assert events[..last][..i] == events[..i] && events[..last][i] == events[i];
    }
  }

  /** Over any run, a call is answered with something exactly if an event answered it with that. */
  lemma {:induction false} AnswersAreDeserved(events: seq<Event>, serial: nat, answer: Answer)
    requires Run(events).Some?
    ensures Reply(serial, answer) in Run(events).value.replies <==> GotAnswer(events, serial, answer)
  {
    if events != [] {
      var last := |events| - 1;
      AnswersAreDeserved(events[..last], serial, answer);
      RunKeeps(events[..last]);
      StepAnswers(Run(events[..last]).value, events[last], serial, answer);
      GotEarlierOrLast(events, serial, answer);
    }
  }

  // What the user enters is what's answered.

  /** One thing the user enters: a password, or a secret of a VPN's. */
  datatype Entry = Password(key: string, text: string) | VpnSecret(key: string, text: string)

  function Passwords(entries: Texts, more: seq<Entry>): Texts {
    if more == [] then entries
    else
      var before, last := Passwords(entries, more[..|more| - 1]), more[|more| - 1];
      if last.Password? then before[last.key := last.text] else before
  }

  function VpnSecrets(vpn: Texts, more: seq<Entry>): Texts {
    if more == [] then vpn
    else
      var before, last := VpnSecrets(vpn, more[..|more| - 1]), more[|more| - 1];
      if last.VpnSecret? then before[last.key := last.text] else before
  }

  function EventOf(id: string, entry: Entry): Event {
    if entry.Password? then SetPassword(id, entry.key, entry.text) else AddVpnSecret(id, entry.key, entry.text)
  }

  function EnterAll(a: Agent, id: string, more: seq<Entry>): (after: Agent)
    requires id in a.requests && a.requests[id].entries.Some?
    ensures id in after.requests && after.requests[id].entries.Some?
  {
    if more == [] then a else Next(EnterAll(a, id, more[..|more| - 1]), EventOf(id, more[|more| - 1]))
  }

  lemma {:induction false} EnteredIsKept(a: Agent, id: string, more: seq<Entry>)
    requires id in a.requests && a.requests[id].entries.Some?
    ensures var request, after := a.requests[id], EnterAll(a, id, more);
      after == a.(requests := after.requests)
      && after.requests[id]
        == request.(entries := Some(Passwords(request.entries.value, more)), vpn := VpnSecrets(request.vpn, more))
  {
    if more != [] {
      EnteredIsKept(a, id, more[..|more| - 1]);
    }
  }

  /**
   * A confirmed dialog answers the call it's shown for with what it was shown with, and over that all that was entered,
   * passwords and VPN secrets in any order.
   */
  lemma ConfirmedAnswer(a: Agent, id: string, more: seq<Entry>)
    requires id in a.requests && a.requests[id].entries.Some?
    ensures var request := a.requests[id];
      Next(EnterAll(a, id, more), Respond(id, Confirmed)).replies
        == a.replies + [Reply(
             request.serial,
             Secrets(request.setting, Passwords(request.entries.value, more), VpnSecrets(request.vpn, more)))]
  {
    EnteredIsKept(a, id, more);
  }

  /** A dialog is shown with what the keyring held if that was searched, and with nothing if it's shown at once. */
  lemma ShownWith(a: Agent, event: Event)
    requires Kept(a) && Allowed(a, event) && Next(a, event).shown != a.shown
    requires event.GetSecrets? || event.SearchReturns?
    ensures var after := Next(a, event);
      var id := if event.GetSecrets? then Id(event.path, event.setting) else a.searches[event.serial].id;
      && id in after.requests && after.shown == a.shown + [after.requests[id].serial]
      && after.requests[id].entries == Some(if event.GetSecrets? then map[] else event.found)
      && after.requests[id].vpn == (if event.GetSecrets? then map[] else a.requests[id].vpn)
  {
    assert event.GetSecrets? ==> CancelIfAny(a, Id(event.path, event.setting)).shown == a.shown;
  }

  // The agent itself.

  class NetworkAgent {
    var requests: map<string, Request>
    var searches: map<nat, Search>
    var calls: nat
    ghost var replies: seq<Reply>
    ghost var shown: seq<nat>
    ghost var saved: seq<nat>
    ghost var broken: bool

    ghost function State(): Agent
      reads this
    {
      Agent(requests, searches, calls, replies, shown, saved, broken)
    }

    constructor ()
      ensures State() == NEW_AGENT
    {
      requests, searches, calls := map[], map[], 0;
      replies, shown, saved, broken := [], [], [], false;
    }

    method RemoveRequest(id: string)
      requires id in requests
      modifies this`requests, this`searches
      ensures State() == Remove(old(State()), id)
    {
      var serial := requests[id].serial;
      if serial in searches {
        searches := searches[serial := searches[serial].(cancelled := true)];
      }
      requests := requests - {id};
    }

    /** Calls back, and forgets the request. */
    method CallBack(id: string, answer: Answer)
      requires id in requests
      modifies this
      ensures State() == ReplyAndRemove(old(State()), id, answer)
    {
      replies := replies + [Reply(requests[id].serial, answer)];
      RemoveRequest(id);
    }

    method GetSecrets(path: string, setting: string, requestNew: bool, mayInteract: bool, alwaysAsk: bool)
      modifies this
      ensures State() == Next(old(State()), Event.GetSecrets(path, setting, requestNew, mayInteract, alwaysAsk))
    {
      var id := Id(path, setting);
      if id in requests {
        CallBack(id, AgentCanceled);
      }
      BeginRequest(id, setting, requestNew, mayInteract, alwaysAsk);
    }

    method BeginRequest(id: string, setting: string, requestNew: bool, mayInteract: bool, alwaysAsk: bool)
      modifies this
      ensures State() == Begin(old(State()), id, setting, requestNew, mayInteract, alwaysAsk)
    {
      var serial := calls;
      calls := calls + 1;
      var request := Request(serial, setting, requestNew, mayInteract, None, map[]);
      if requestNew || (mayInteract && alwaysAsk) {
        request := request.(entries := Some(map[]));
        requests := requests[id := request];
        shown := shown + [serial];
        return;
      }
      requests := requests[id := request];
      searches := searches[serial := Search(id, false)];
    }

    /** A cancelled search is let go before its request is looked at. */
    method SearchReturns(serial: nat, found: Texts)
      requires serial in searches
      modifies this
      ensures State() == Next(old(State()), Event.SearchReturns(serial, found))
    {
      var search := searches[serial];
      searches := searches - {serial};
      if search.cancelled {
        return;
      }
      if search.id !in requests || requests[search.id].serial != serial {
        broken := true;
        return;
      }
      var request := requests[search.id];
      if request.setting == VPN || (found == map[] && request.mayInteract) {
        requests := requests[search.id := request.(entries := Some(found))];
        shown := shown + [serial];
        return;
      }
      CallBack(search.id, Secrets(request.setting, found, map[]));
    }

    method SetPassword(id: string, key: string, text: string)
      requires id in requests ==> requests[id].entries.Some?
      modifies this`requests
      ensures State() == Next(old(State()), Event.SetPassword(id, key, text))
    {
      if id in requests {
        requests := requests[id := requests[id].(entries := Some(requests[id].entries.value[key := text]))];
      }
    }

    method AddVpnSecret(id: string, key: string, text: string)
      modifies this`requests
      ensures State() == Next(old(State()), Event.AddVpnSecret(id, key, text))
    {
      if id in requests {
        requests := requests[id := requests[id].(vpn := requests[id].vpn[key := text])];
      }
    }

    method Respond(id: string, response: Response)
      requires id in requests && response.Confirmed? ==> requests[id].entries.Some?
      modifies this
      ensures State() == Next(old(State()), Event.Respond(id, response))
    {
      if id !in requests {
        return;
      }
      var request := requests[id];
      if response == Canceled {
        CallBack(id, UserCanceled);
        return;
      }
      if response == InternalError {
        CallBack(id, Failed);
        return;
      }
      if request.mayInteract || request.requestNew {
        saved := saved + [request.serial];
      }
      CallBack(id, Secrets(request.setting, request.entries.value, request.vpn));
    }

    method CancelGetSecrets(path: string, setting: string)
      modifies this
      ensures State() == Next(old(State()), Event.CancelGetSecrets(path, setting))
    {
      var id := Id(path, setting);
      if id in requests {
        CallBack(id, AgentCanceled);
      }
    }

    /** Goes through the open requests, in whatever order the table holds them. */
    method Finalize() returns (ghost order: seq<string>)
      modifies this
      ensures Allowed(old(State()), Event.Finalize(order)) && State() == Next(old(State()), Event.Finalize(order))
      ensures requests == map[]
    {
      order := [];
      ghost var before := State();
      while requests != map[]
        invariant State() == CancelAll(before, order)
        invariant forall id :: id in before.requests ==> id in requests || id in order
        decreases |requests|
      {
        assert requests.Keys != {};
        var id :| id in requests.Keys;
        CallBack(id, AgentCanceled);
        order := order + [id];
        assert order[..|order| - 1] + [id] == order;
      }
    }
  }
}
