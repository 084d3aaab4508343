/** Modifier keys pressed together with nothing else, such as Super and Alt, and what's told about them. */
module ModifierChord {

  datatype Mask = Shift | Control | Mod1 | Mod4 | Mod5 | Super | Lock

  datatype KeySymbol =
    | ShiftL | ShiftR | ControlL | ControlR | AltL | MetaL | AltR | MetaR | IsoLevel3Shift | SuperL | SuperR | OtherKey

  const KEYS: nat := 8

  const HELD_ELSEWHERE: set<Mask> := {Shift, Control, Mod1, Super, Mod4}

  const CHORD_MASKS: set<Mask> := {Shift, Control, Mod1, Super}

  /** The modifier key of a symbol, numbered by modifier and side; none is negative. */
  function KeyFor(symbol: KeySymbol): (key: int)
    ensures key < KEYS
    ensures key < 0 <==> symbol == OtherKey
  {
    match symbol
    case ShiftL => 0
    case ShiftR => 1
    case ControlL => 2
    case ControlR => 3
    case AltL | MetaL => 4
    case AltR | MetaR | IsoLevel3Shift => 5
    case SuperL => 6
    case SuperR => 7
    case OtherKey => -1
  }

  function KeyModifier(key: nat): (mask: Mask)
    ensures mask in CHORD_MASKS
  {
    if key < 2 then Shift else if key < 4 then Control else if key < 6 then Mod1 else Super
  }

  /** What an event says of its modifiers while a key is held. */
  function KeyStates(key: nat): set<Mask> {
    if key < 2 then {Shift} else if key < 4 then {Control} else if key < 6 then {Mod1, Mod5} else {Super, Mod4}
  }

  /** The modifier a symbol is a key of. */
  function ModifierOf(symbol: KeySymbol): Mask
    requires symbol != OtherKey
  {
    match symbol
    case ShiftL | ShiftR => Shift
    case ControlL | ControlR => Control
    case SuperL | SuperR => Super
    case _ => Mod1
  }

  /** The symbols one physical key may have, as its layout is. */
  predicate SameKey(a: KeySymbol, b: KeySymbol) {
    || a == b
    || {a, b} <= {AltL, MetaL}
    || {a, b} <= {AltR, MetaR, IsoLevel3Shift}
  }

  /** Every symbol is of a key with its modifier, which events tell by that modifier's masks. */
  lemma SymbolsHaveKeys(symbol: KeySymbol)
    requires symbol != OtherKey
    ensures KeyModifier(KeyFor(symbol)) == ModifierOf(symbol)
    ensures KeyStates(KeyFor(symbol)) == match ModifierOf(symbol)
      case Mod1 => {Mod1, Mod5}
      case Super => {Super, Mod4}
      case modifier => {modifier}
  {
  }

  lemma KeysTellApart(symbol: KeySymbol, other: KeySymbol)
    requires symbol != OtherKey && other != OtherKey
    ensures KeyFor(symbol) == KeyFor(other) <==> SameKey(symbol, other)
  {
  }

  datatype Signal = Activated | Released | Cancelled

  datatype Chord = Chord(modifiers: set<Mask>, keys: set<nat>, spoiled: bool, active: bool, signals: seq<Signal>)

  const NEW_CHORD := Chord({}, {}, false, false, [])

  datatype Event =
    | Press(symbol: KeySymbol, state: set<Mask>, repeated: bool, inhibited: bool)
    | Release(symbol: KeySymbol, state: set<Mask>, repeated: bool)
    | Pointer(state: set<Mask>)
    | SetModifiers(modifiers: set<Mask>)

  function Held(keys: set<nat>): set<Mask> { set key | key in keys :: KeyModifier(key) }

  /** Keys whose modifier isn't in an event's state any more were released without an event. */
  function Forget(keys: set<nat>, state: set<Mask>, current: int): (left: set<nat>)
    ensures left <= keys
  {
    set key | key in keys && (key == current || KeyStates(key) * state != {})
  }

  function Spoil(c: Chord): Chord {
    if c.active then c.(spoiled := true, active := false, signals := c.signals + [Cancelled]) else c.(spoiled := true)
  }

  function PressKey(c: Chord, key: int, state: set<Mask>, inhibited: bool): Chord {
    if key < 0 then (if c.keys != {} then Spoil(c) else c)
    else
      var down := c.(
        keys := c.keys + {key}, spoiled := if c.keys == {} then state * HELD_ELSEWHERE != {} else c.spoiled);
      if !(Held(down.keys) <= down.modifiers) then Spoil(down)
      else if Held(down.keys) == down.modifiers && !down.spoiled && !down.active then
        if inhibited then down.(spoiled := true) else down.(active := true, signals := down.signals + [Activated])
      else down
  }

  function ReleaseKey(c: Chord, key: int): Chord {
    if key < 0 then c
    else
      var up := c.(keys := c.keys - {key}, spoiled := c.spoiled && c.keys - {key} != {});
      if up.active then up.(active := false, signals := up.signals + [Released]) else up
  }

  function StopListening(c: Chord): Chord {
    c.(
      keys := {}, spoiled := false, active := false,
      signals := if c.active then c.signals + [Cancelled] else c.signals)
  }

  /** Events are heard only while there are modifiers to wait for. */
  function Next(c: Chord, event: Event): Chord {
    match event
    case SetModifiers(modifiers) =>
      if modifiers * CHORD_MASKS == c.modifiers then c else StopListening(c).(modifiers := modifiers * CHORD_MASKS)
    case Press(symbol, state, repeated, inhibited) =>
      if c.modifiers == {} || repeated then c
      else PressKey(c.(keys := Forget(c.keys, state, KeyFor(symbol))), KeyFor(symbol), state, inhibited)
    case Release(symbol, state, repeated) =>
      if c.modifiers == {} || repeated then c
      else ReleaseKey(c.(keys := Forget(c.keys, state, KeyFor(symbol))), KeyFor(symbol))
    case Pointer(state) =>
      if c.modifiers != {} && c.keys != {} && state * HELD_ELSEWHERE != {} then Spoil(c) else c
  }

  function Run(events: seq<Event>): Chord {
    if events == [] then NEW_CHORD else Next(Run(events[..|events| - 1]), events[|events| - 1])
  }

  // Signals.

  predicate Ends(signal: Signal) { signal == Released || signal == Cancelled }

  /** Every activation is followed by one release or cancellation before the next. */
  predicate Alternate(signals: seq<Signal>) {
    forall i :: 0 <= i < |signals| ==> if i % 2 == 0 then signals[i] == Activated else Ends(signals[i])
  }

  predicate Told(c: Chord) {
    && Alternate(c.signals)
    && (c.active <==> |c.signals| % 2 == 1)
    && (c.modifiers == {} ==> c.keys == {} && !c.active)
    && c.modifiers <= CHORD_MASKS
  }

  lemma NextStaysTold(c: Chord, event: Event)
    requires Told(c)
    ensures Told(Next(c, event))
  {
  }

  lemma {:induction false} SignalsAlternate(events: seq<Event>)
    ensures Told(Run(events))
  {
    if events != [] {
      SignalsAlternate(events[..|events| - 1]);
      NextStaysTold(Run(events[..|events| - 1]), events[|events| - 1]);
    }
  }

  // When it's activated.

  predicate Heard(c: Chord, event: Event) {
    c.modifiers != {} && (event.Press? || event.Release? ==> !event.repeated)
  }

  /** A modifier key comes down while none is held. */
  predicate Begins(c: Chord, event: Event) {
    && Heard(c, event) && event.Press?
    && KeyFor(event.symbol) >= 0 && Forget(c.keys, event.state, KeyFor(event.symbol)) == {}
  }

  /**
   * What spoils a chord: another key or a button while keys are held, a modifier that isn't wanted, one that was held
   * before, or a window that keeps shortcuts to itself.
   */
  predicate Spoils(c: Chord, event: Event) {
    Heard(c, event) &&
    match event
    case Press(symbol, state, repeated, inhibited) =>
      var left, key := Forget(c.keys, state, KeyFor(symbol)), KeyFor(symbol);
      if key < 0 then left != {}
      else
        || (left == {} && state * HELD_ELSEWHERE != {})
        || !(Held(left + {key}) <= c.modifiers)
        || (Held(left + {key}) == c.modifiers && !c.active && inhibited)
    case Pointer(state) => c.keys != {} && state * HELD_ELSEWHERE != {}
    case _ => false
  }

  /** Keys are held, and since the first of them came down nothing has spoiled the chord. */
  predicate Clean(events: seq<Event>) {
    events != [] &&
    var before, last := Run(events[..|events| - 1]), events[|events| - 1];
    Run(events).keys != {} && !Spoils(before, last) && (Begins(before, last) || Clean(events[..|events| - 1]))
  }

  lemma HeldIsEmpty(keys: set<nat>)
    ensures Held(keys) == {} <==> keys == {}
  {
    forall key | key in keys ensures KeyModifier(key) in Held(keys) {
    }
  }

  lemma SpoiledStep(c: Chord, event: Event)
    requires Told(c) && Next(c, event).keys != {}
    ensures !Next(c, event).spoiled <==> !Spoils(c, event) && (Begins(c, event) || (c.keys != {} && !c.spoiled))
  {
    if event.Press? && Heard(c, event) && KeyFor(event.symbol) >= 0 {
      var left := Forget(c.keys, event.state, KeyFor(event.symbol));
      HeldIsEmpty(left);
    }
  }

  /** The spoiled flag is exactly what the events say. */
  lemma {:induction false} UnspoiledIsClean(events: seq<Event>)
    requires Run(events).keys != {}
    ensures !Run(events).spoiled <==> Clean(events)
  {
    var most, last := events[..|events| - 1], events[|events| - 1];
    SignalsAlternate(most);
    SpoiledStep(Run(most), last);
    if Run(most).keys != {} {
      UnspoiledIsClean(most);
    } else {
      assert !Clean(most);
    }
  }

  /**
   * A chord is activated exactly by a modifier key that makes the held ones those that are wanted, while it isn't
   * active yet and nothing has spoiled it since no key was held.
   */
  lemma ActivatedExactly(events: seq<Event>, event: Event)
    ensures var c, after := Run(events), Run(events + [event]);
      after.signals == c.signals + [Activated] <==>
        && Heard(c, event) && event.Press? && KeyFor(event.symbol) >= 0
        && Held(after.keys) == c.modifiers && !c.active && Clean(events + [event])
  {
    assert (events + [event])[..|events|] == events;
    var c, after := Run(events), Run(events + [event]);
    SignalsAlternate(events);
    if Heard(c, event) && event.Press? && KeyFor(event.symbol) >= 0 {
      assert KeyFor(event.symbol) in after.keys;
      UnspoiledIsClean(events + [event]);
    }
    StepSignals(c, event);
  }

  lemma StepSignals(c: Chord, event: Event)
    requires Told(c)
    ensures Next(c, event).signals == c.signals + [Activated] <==>
      && Heard(c, event) && event.Press? && KeyFor(event.symbol) >= 0
      && Held(Next(c, event).keys) == c.modifiers && !c.active && !Next(c, event).spoiled
  {
    assert c.signals + [Activated] != c.signals;
    assert (c.signals + [Activated])[|c.signals|] != (c.signals + [Cancelled])[|c.signals|];
    assert (c.signals + [Activated])[|c.signals|] != (c.signals + [Released])[|c.signals|];
  }

  // How it ends.

  /** Another key or a button while keys are held, a modifier that isn't wanted, or other modifiers to wait for. */
  predicate Interrupts(c: Chord, event: Event) {
    match event
    case Press(symbol, state, _, _) =>
      var left, key := Forget(c.keys, state, KeyFor(symbol)), KeyFor(symbol);
      Heard(c, event) && if key < 0 then left != {} else !(Held(left + {key}) <= c.modifiers)
    case Release(_, _, _) => false
    case Pointer(state) => Heard(c, event) && c.keys != {} && state * HELD_ELSEWHERE != {}
    case SetModifiers(modifiers) => modifiers * CHORD_MASKS != c.modifiers
  }

  /** A modifier key comes up. */
  predicate LetsGo(c: Chord, event: Event) {
    Heard(c, event) && event.Release? && KeyFor(event.symbol) >= 0
  }

  /**
   * An active chord is released exactly by a modifier key that comes up, and cancelled exactly by what interrupts it;
   * nothing else is told while it's active, and nothing but an activation while it isn't.
   */
  lemma EndedExactly(events: seq<Event>, event: Event)
    ensures var c, after := Run(events), Run(events + [event]);
      if c.active then
        after.signals
        == c.signals + (if LetsGo(c, event) then [Released] else if Interrupts(c, event) then [Cancelled] else [])
      else after.signals == c.signals || after.signals == c.signals + [Activated]
  {
    RunOn(events, event);
    SignalsAlternate(events);
  }

  /** Which keys are held: those that came down and whose modifier events still tell, but for one that comes up. */
  lemma KeysExactly(events: seq<Event>, event: Event, key: nat)
    ensures var c, after := Run(events), Run(events + [event]);
      if event.SetModifiers? then
        && (Interrupts(c, event) ==> key !in after.keys && !after.active && !after.spoiled)
        && (!Interrupts(c, event) ==> after == c)
        && after.modifiers == event.modifiers * CHORD_MASKS
      else
        && after.modifiers == c.modifiers
        && (key in after.keys <==>
              if event.Pointer? || !Heard(c, event) then key in c.keys
              else if key == KeyFor(event.symbol) then event.Press?
              else key in c.keys && KeyStates(key) * event.state != {})
        && (LetsGo(c, event) && after.keys == {} ==> !after.spoiled)
  {
    RunOn(events, event);
    SignalsAlternate(events);
  }

  // While it's active.

  /** An active chord is held, all of it and nothing else, and isn't spoiled. */
  predicate Sound(c: Chord) {
    c.active ==> Held(c.keys) == c.modifiers && !c.spoiled
  }

  /** A key event by which a key is found to have been released without an event of its own. */
  predicate FindsMissedRelease(c: Chord, event: Event) {
    Heard(c, event) && (event.Press? || event.Release?) && Forget(c.keys, event.state, KeyFor(event.symbol)) != c.keys
  }

  /**
   * After a missed release an active chord is left behind by: another key coming up while the rest isn't the chord;
   * another key coming down once all are gone; and a modifier key coming down that doesn't make the chord whole, or
   * does so while modifiers are held that it doesn't know.
   */
  predicate LeavesBehind(c: Chord, event: Event) {
    c.active && FindsMissedRelease(c, event) &&
    var key := KeyFor(event.symbol);
    var left := Forget(c.keys, event.state, key);
    if event.Release? then key < 0 && Held(left) != c.modifiers
    else if key < 0 then left == {}
    else
      || Held(left + {key}) < c.modifiers
      || (Held(left + {key}) == c.modifiers && left == {} && event.state * HELD_ELSEWHERE != {})
  }

  /** A sound chord stays sound at exactly the steps that don't leave it behind. */
  lemma SoundUnlessLeftBehind(c: Chord, event: Event)
    requires Told(c) && Sound(c)
    ensures Sound(Next(c, event)) <==> !LeavesBehind(c, event)
  {
    if c.active && (event.Press? || event.Release?) && Heard(c, event) {
      var left := Forget(c.keys, event.state, KeyFor(event.symbol));
      HeldIsEmpty(left);
      HeldIsEmpty(c.keys);
      HeldGrows(left, c.keys);
      if KeyFor(event.symbol) >= 0 {
        HeldWith(left, KeyFor(event.symbol));
        HeldWith(c.keys, KeyFor(event.symbol));
      }
    }
  }

  lemma HeldGrows(fewer: set<nat>, more: set<nat>)
    requires fewer <= more
    ensures Held(fewer) <= Held(more)
  {
  }

  lemma HeldWith(keys: set<nat>, key: nat)
    ensures Held(keys + {key}) == Held(keys) + {KeyModifier(key)}
  {
  }

  predicate NoMissedRelease(events: seq<Event>) {
    events == [] ||
    (NoMissedRelease(events[..|events| - 1]) && !FindsMissedRelease(Run(events[..|events| - 1]), events[|events| - 1]))
  }

  /** While no release is missed, an active chord is held and unspoiled. */
  lemma {:induction false} ActiveIsHeld(events: seq<Event>)
    requires NoMissedRelease(events)
    ensures Sound(Run(events))
  {
    if events != [] {
      SignalsAlternate(events[..|events| - 1]);
      ActiveIsHeld(events[..|events| - 1]);
      SoundUnlessLeftBehind(Run(events[..|events| - 1]), events[|events| - 1]);
    }
  }

  lemma RunOn(events: seq<Event>, event: Event)
    ensures Run(events + [event]) == Next(Run(events), event)
  {
    assert (events + [event])[..|events|] == events;
  }

  lemma SuperComesDown()
    ensures Next(Chord({Super, Mod1}, {}, false, false, []), Press(SuperL, {}, false, false))
      == Chord({Super, Mod1}, {6}, false, false, [])
  {
    assert Forget({}, {}, 6) == {};
    HeldWith({}, 6);
    assert Held({}) == {} && Mod1 !in {Super};
  }

  lemma AltComesDown()
    ensures Next(Chord({Super, Mod1}, {6}, false, false, []), Press(AltL, {Super, Mod4}, false, false))
      == Chord({Super, Mod1}, {4, 6}, false, true, [Activated])
  {
    assert Super in KeyStates(6) * {Super, Mod4};
    assert Forget({6}, {Super, Mod4}, 4) == {6} && {6} + {4} == {4, 6};
    HeldWith({}, 6);
    HeldWith({6}, 4);
    assert Held({}) == {} && {} + {6} == {6};
  }

  /**
   * Super and Alt come down, are let go without an event, and a letter follows: the chord stays active with no key
   * held.
   */
  lemma MissedReleasesLeaveItActive(wanted: Event, super: Event, alt: Event, letter: Event)
    requires wanted == SetModifiers({Super, Mod1}) && super == Press(SuperL, {}, false, false)
    requires alt == Press(AltL, {Super, Mod4}, false, false) && letter == Press(OtherKey, {}, false, false)
    ensures Run([wanted, super, alt]) == Chord({Super, Mod1}, {4, 6}, false, true, [Activated])
    ensures Run([wanted, super, alt, letter]) == Chord({Super, Mod1}, {}, false, true, [Activated])
  {
    BothComeDown(wanted, super, alt);
    RunOn([wanted, super, alt], letter);
    assert [wanted, super, alt] + [letter] == [wanted, super, alt, letter];
    assert Forget({4, 6}, {}, -1) == {};
  }

  lemma BothComeDown(wanted: Event, super: Event, alt: Event)
    requires wanted == SetModifiers({Super, Mod1}) && super == Press(SuperL, {}, false, false)
    requires alt == Press(AltL, {Super, Mod4}, false, false)
    ensures Run([wanted, super, alt]) == Chord({Super, Mod1}, {4, 6}, false, true, [Activated])
  {
    RunOn([], wanted);
    RunOn([wanted], super);
    RunOn([wanted, super], alt);
    assert [] + [wanted] == [wanted] && [wanted] + [super] == [wanted, super];
    assert [wanted, super] + [alt] == [wanted, super, alt];
    assert {Super, Mod1} * CHORD_MASKS == {Super, Mod1};
    SuperComesDown();
    AltComesDown();
  }

  // The chord itself.

  function KeysBelow(keys: set<nat>, limit: nat): set<nat> { set key | key in keys && key < limit }

  class ChordObject {
    var modifiers: set<Mask>
    var keys: set<nat>
    var spoiled: bool
    var active: bool
    ghost var signals: seq<Signal>

    ghost function State(): Chord
      reads this
    {
      Chord(modifiers, keys, spoiled, active, signals)
    }

    ghost predicate Valid()
      reads this
    {
      forall key :: key in keys ==> key < KEYS
    }

    constructor ()
      ensures Valid() && State() == NEW_CHORD
    {
      modifiers, keys, spoiled, active, signals := {}, {}, false, false, [];
    }

    method HeldModifiers() returns (held: set<Mask>)
      requires Valid()
      ensures held == Held(keys)
    {
      held := {};
      for key := 0 to KEYS
        invariant held == Held(KeysBelow(keys, key))
      {
        if key in keys {
          held := held + {KeyModifier(key)};
          HeldWith(KeysBelow(keys, key), key);
          assert KeysBelow(keys, key + 1) == KeysBelow(keys, key) + {key};
        } else {
          assert KeysBelow(keys, key + 1) == KeysBelow(keys, key);
        }
      }
      assert KeysBelow(keys, KEYS) == keys;
    }

    method ForgetReleasedKeys(state: set<Mask>, current: int)
      requires Valid()
      modifies this`keys
      ensures Valid() && keys == Forget(old(keys), state, current)
    {
      for key := 0 to KEYS
        invariant keys == set k | k in old(keys) && (k >= key || k == current || KeyStates(k) * state != {})
      {
        if key != current && KeyStates(key) * state == {} {
          keys := keys - {key};
        }
      }
    }

    method SpoilChord()
      modifies this`spoiled, this`active, this`signals
      ensures State() == Spoil(old(State()))
    {
      spoiled := true;
      if !active {
        return;
      }
      active := false;
      signals := signals + [Cancelled];
    }

    method Pressed(key: int, state: set<Mask>, inhibited: bool)
      requires Valid() && key < KEYS
      modifies this
      ensures Valid() && State() == PressKey(old(State()), key, state, inhibited)
    {
      if key < 0 {
        if keys != {} {
          SpoilChord();
        }
        return;
      }
      if keys == {} {
        spoiled := state * HELD_ELSEWHERE != {};
      }
      keys := keys + {key};
      var held := HeldModifiers();
      if !(held <= modifiers) {
        SpoilChord();
      } else if held == modifiers && !spoiled && !active {
        if inhibited {
          spoiled := true;
          return;
        }
        active := true;
        signals := signals + [Activated];
      }
    }

    method ReleasedKey(key: int)
      requires Valid()
      modifies this
      ensures Valid() && State() == ReleaseKey(old(State()), key)
    {
      if key < 0 {
        return;
      }
      keys := keys - {key};
      if keys == {} {
        spoiled := false;
      }
      if !active {
        return;
      }
      active := false;
      signals := signals + [Released];
    }

    method FilterEvent(event: Event)
      requires Valid() && !event.SetModifiers? && modifiers != {}
      modifies this
      ensures Valid() && State() == Next(old(State()), event)
    {
      match event
      case Press(symbol, state, repeated, inhibited) =>
        if !repeated {
          ForgetReleasedKeys(state, KeyFor(symbol));
          Pressed(KeyFor(symbol), state, inhibited);
        }
      case Release(symbol, state, repeated) =>
        if !repeated {
          ForgetReleasedKeys(state, KeyFor(symbol));
          ReleasedKey(KeyFor(symbol));
        }
      case Pointer(state) =>
        if keys != {} && state * HELD_ELSEWHERE != {} {
          SpoilChord();
        }
    }

    method SetModifiers(wanted: set<Mask>)
      requires Valid()
      modifies this
      ensures Valid() && State() == Next(old(State()), Event.SetModifiers(wanted))
    {
      var masks := wanted * CHORD_MASKS;
      if modifiers == masks {
        return;
      }
      if active {
        active := false;
        signals := signals + [Cancelled];
      }
      keys, spoiled := {}, false;
      modifiers := masks;
    }
  }
}
