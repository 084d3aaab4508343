/** Saving a connection's secrets: old ones are deleted, new ones are stored one by one, and the caller is told once. */
module KeyringSave {
  import opened Lists
  import opened Options

  /** A secret's text and who keeps it. */
  datatype Secret = Secret(text: Option<string>, flags: nat)

  /** A value of a setting: most are one string or something else, a VPN's secrets are many. */
  datatype Value = Plain(secret: bool, isString: bool, value: Secret) | Vpn(secret: bool, secrets: seq<Secret>)

  const AGENT_OWNED: nat := 1

  /** Whether a secret is stored: it isn't empty, and the agent and nobody else keeps it. */
  predicate Kept(secret: Secret) {
    secret.text.Some? && secret.text.value != "" && secret.flags == AGENT_OWNED
  }

  function OfSecrets(secrets: seq<Secret>): seq<string> {
    if secrets == [] then []
    else
      var last := secrets[|secrets| - 1];
      OfSecrets(secrets[..|secrets| - 1]) + if Kept(last) then [last.text.value] else []
  }

  function OfValue(value: Value): seq<string> {
    if !value.secret then []
    else if value.Vpn? then OfSecrets(value.secrets)
    else if value.isString && Kept(value.value) then [value.value.text.value]
    else []
  }

  /** What is stored of a connection's values, in their order. */
  function OfValues(values: seq<Value>): seq<string> {
    if values == [] then [] else OfValues(values[..|values| - 1]) + OfValue(values[|values| - 1])
  }

  lemma {:induction false} StoredOfSecrets(secrets: seq<Secret>, text: string)
    ensures text in OfSecrets(secrets) <==> exists s :: s in secrets && Kept(s) && s.text.value == text
  {
    if secrets != [] {
      var most, last := secrets[..|secrets| - 1], secrets[|secrets| - 1];
      StoredOfSecrets(most, text);
      assert forall s :: s in secrets <==> s in most || s == last;
    }
  }

  /** Whether a secret is one that a value of a setting brings to be stored. */
  predicate Brings(value: Value, secret: Secret) {
    value.secret && if value.Vpn? then secret in value.secrets else value.isString && secret == value.value
  }

  lemma StoredOfValue(value: Value, text: string)
    ensures text in OfValue(value) <==> exists s :: Brings(value, s) && Kept(s) && s.text.value == text
  {
    if value.Vpn? {
      StoredOfSecrets(value.secrets, text);
      if value.secret {
        assert forall s :: Brings(value, s) <==> s in value.secrets;
      }
    } else if value.secret && value.isString {
      assert Brings(value, value.value);
    }
  }

  /** Of all of a connection's values, exactly the texts of the agent's own secrets that aren't empty are stored. */
  lemma {:induction false} StoredSecrets(values: seq<Value>, text: string)
    ensures text in OfValues(values)
      <==> text != "" && exists value, s :: value in values && Brings(value, s) && s.text == Some(text) && s.flags == 1
  {
    if values != [] {
      var most, last := values[..|values| - 1], values[|values| - 1];
      StoredSecrets(most, text);
      StoredOfValue(last, text);
      assert forall value :: value in values <==> value in most || value == last;
    }
  }

  /** They're stored in the order they come in, each as often as it comes. */
  lemma {:induction false} StoredInOrder(values: seq<Value>, more: seq<Value>)
    ensures OfValues(values + more) == OfValues(values) + OfValues(more)
  {
    if more == [] {
      assert values + more == values;
    } else {
      var last := |more| - 1;
      assert (values + more)[..|values| + last] == values + more[..last];
      StoredInOrder(values, more[..last]);
      Associates(OfValues(values), OfValues(more[..last]), OfValue(more[last]));
    }
  }

  lemma StoredOfOne(value: Value)
    ensures OfValues([value]) == OfValue(value)
  {
    assert [value][..0] == [];
  }

  /** A plain secret is stored once or not at all, and a VPN's are stored as they'd be one by one. */
  lemma {:induction false} StoredOnce(secrets: seq<Secret>, secret: Secret)
    ensures OfValue(Plain(true, true, secret))
      == if secret.flags == 1 && secret.text.Some? && secret.text.value != "" then [secret.text.value] else []
    ensures OfValue(Vpn(true, secrets + [secret])) == OfValue(Vpn(true, secrets)) + OfValue(Plain(true, true, secret))
    ensures OfValue(Vpn(true, [])) == []
  {
    assert (secrets + [secret])[..|secrets|] == secrets;
  }

  // The counter.

  /**
   * A save under way: how many stores it still waits for, what it stored, which of those have come back, how often the
   * caller was told, and whether it has been freed. `broken` is set when a freed one is used.
   */
  datatype Save = Save(
    hasCallback: bool, deleted: bool, count: int, stored: seq<string>, back: set<nat>, told: nat, freed: bool,
    broken: bool)

  function NewSave(hasCallback: bool): Save { Save(hasCallback, false, 0, [], {}, 0, false, false) }

  datatype Event = Deleted(values: seq<Value>) | StoreReturns(store: nat)

  function Finish(s: Save): Save {
    s.(told := if s.hasCallback then s.told + 1 else s.told, freed := true)
  }

  function FinishedIfDone(s: Save): Save {
    if s.count == 0 then Finish(s) else s
  }

  function Next(s: Save, event: Event): Save {
    var used := s.(broken := s.broken || s.freed);
    match event
    case Deleted(values) =>
      var stored := OfValues(values);
      FinishedIfDone(used.(deleted := true, stored := s.stored + stored, count := s.count + |stored|))
    case StoreReturns(store) => FinishedIfDone(used.(count := s.count - 1, back := s.back + {store}))
  }

  /** The old secrets are deleted once, and a store comes back once, after what began it is over. */
  predicate Allowed(s: Save, event: Event) {
    match event
    case Deleted(values) => !s.deleted
    case StoreReturns(store) => s.deleted && store < |s.stored| && store !in s.back
  }

  function Run(hasCallback: bool, events: seq<Event>): Option<Save> {
    if events == [] then Some(NewSave(hasCallback))
    else
      var before := Run(hasCallback, events[..|events| - 1]);
      if before.None? || !Allowed(before.value, events[|events| - 1]) then None
      else Some(Next(before.value, events[|events| - 1]))
  }

  ghost predicate AllBack(s: Save) {
    s.deleted && forall i: nat :: i < |s.stored| ==> i in s.back
  }

  /** The caller is told once, if at all, and that's when every store that was begun has come back. */
  ghost predicate ToldInTheEnd(s: Save) {
    && !s.broken
    && (s.freed <==> AllBack(s))
    && s.told == (if AllBack(s) && s.hasCallback then 1 else 0)
  }

  ghost predicate Counted(s: Save) {
    && (forall i: nat :: i in s.back ==> i < |s.stored|)
    && s.count == |s.stored| - |s.back|
    && (!s.deleted ==> s.stored == [])
  }

  lemma {:induction false} CountBelow(count: nat, some: set<nat>)
    requires forall i: nat :: i in some ==> i < count
    ensures |some| <= count
    ensures |some| == count <==> forall i: nat :: i < count ==> i in some
  {
    if count == 0 {
      assert some == {};
    } else {
      var fewer := some - {count - 1};
      CountBelow(count - 1, fewer);
      if count - 1 in some {
        assert |some| == |fewer| + 1;
        assert forall i: nat :: i < count - 1 ==> (i in some <==> i in fewer);
      } else {
        assert fewer == some;
      }
    }
  }

  lemma NextKeeps(s: Save, event: Event)
    requires Counted(s) && ToldInTheEnd(s) && Allowed(s, event)
    ensures !s.freed
    ensures Counted(Next(s, event)) && ToldInTheEnd(Next(s, event))
  {
    var after := Next(s, event);
    CountBelow(|s.stored|, s.back);
    if event.Deleted? {
      assert s.back == {};
    }
    CountBelow(|after.stored|, after.back);
  }

  /** Over any run of the deletion and the stores coming back in any order. */
  lemma {:induction false} RunKeeps(hasCallback: bool, events: seq<Event>)
    requires Run(hasCallback, events).Some?
    ensures ToldInTheEnd(Run(hasCallback, events).value) && Counted(Run(hasCallback, events).value)
    ensures Run(hasCallback, events).value.hasCallback == hasCallback
    ensures events != [] ==> !Run(hasCallback, events[..|events| - 1]).value.freed
  {
    if events != [] {
      RunKeeps(hasCallback, events[..|events| - 1]);
      NextKeeps(Run(hasCallback, events[..|events| - 1]).value, events[|events| - 1]);
    }
  }

  // The request itself.

  class KeyringRequest {
    const hasCallback: bool
    var count: int
    ghost var deleted: bool
    ghost var stored: seq<string>
    ghost var back: set<nat>
    ghost var told: nat
    ghost var freed: bool
    ghost var broken: bool

    ghost function State(): Save
      reads this
    {
      Save(hasCallback, deleted, count, stored, back, told, freed, broken)
    }

    constructor (hasCallback: bool)
      ensures State() == NewSave(hasCallback)
    {
      this.hasCallback := hasCallback;
      count, deleted, stored, back, told, freed, broken := 0, false, [], {}, 0, false, false;
    }

    method FinishIfDone()
      modifies this
      ensures State() == FinishedIfDone(old(State()))
    {
      if count == 0 {
        if hasCallback {
          told := told + 1;
        }
        freed := true;
      }
    }

    method SaveSecretReturned(ghost store: nat)
      modifies this
      ensures State() == Next(old(State()), StoreReturns(store))
    {
      broken := broken || freed;
      back := back + {store};
      count := count - 1;
      FinishIfDone();
    }

    method SaveOneSecret(secret: Secret)
      requires secret.text.Some?
      modifies this`count, this`stored
      ensures stored == old(stored) + (if secret.flags == AGENT_OWNED then [secret.text.value] else [])
      ensures count - |stored| == old(count) - |old(stored)|
    {
      if secret.flags != AGENT_OWNED {
        return;
      }
      count := count + 1;
      stored := stored + [secret.text.value];
    }

    method WriteOneSecret(value: Value)
      modifies this`count, this`stored
      ensures stored == old(stored) + OfValue(value)
      ensures count - |stored| == old(count) - |old(stored)|
    {
      if !value.secret {
        return;
      }
      if value.Vpn? {
        for i := 0 to |value.secrets|
          invariant stored == old(stored) + OfSecrets(value.secrets[..i])
          invariant count - |stored| == old(count) - |old(stored)|
        {
          if value.secrets[i].text.Some? && value.secrets[i].text.value != "" {
            SaveOneSecret(value.secrets[i]);
          }
          assert value.secrets[..i + 1][..i] == value.secrets[..i];
        }
        assert value.secrets[..|value.secrets|] == value.secrets;
      } else if value.isString && value.value.text.Some? && value.value.text.value != "" {
        SaveOneSecret(value.value);
      }
    }

    /** The old secrets are gone, or couldn't be deleted, which makes no difference. */
    method SaveDeleted(values: seq<Value>)
      modifies this
      ensures State() == Next(old(State()), Deleted(values))
    {
      broken := broken || freed;
      deleted := true;
      for i := 0 to |values|
        invariant stored == old(stored) + OfValues(values[..i])
        invariant count - |stored| == old(count) - |old(stored)|
        invariant deleted && broken == (old(broken) || old(freed))
        invariant told == old(told) && freed == old(freed) && back == old(back)
      {
        WriteOneSecret(values[i]);
        assert values[..i + 1][..i] == values[..i];
      }
      assert values[..|values|] == values;
      FinishIfDone();
    }
  }
}
