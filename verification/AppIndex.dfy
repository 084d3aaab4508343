/** Which app a window class or a Steam game belongs to, when several entries claim it. */
module AppIndex {
  import opened Options

  /** An installed entry; one that's not shown is only there to be launched. */
  datatype Entry = Entry(id: string, wmClass: Option<string>, shown: bool, commandLine: Option<string>)

  type Index = map<string, string>

  // Window classes.

  /** The class is the id, leaving out what desktop files end in. */
  predicate IsExact(id: string, wmClass: string) {
    wmClass <= id && (id[|wmClass|..] == "" || id[|wmClass|..] == ".desktop")
  }

  lemma ExactIds(id: string, wmClass: string)
    ensures IsExact(id, wmClass) <==> id == wmClass || id == wmClass + ".desktop"
  {
    assert (wmClass + ".desktop")[|wmClass|..] == ".desktop";
    if IsExact(id, wmClass) {
      assert id == wmClass + id[|wmClass|..];
    }
  }

  predicate Claims(entry: Entry, wmClass: string) { entry.wmClass == Some(wmClass) }

  predicate ClaimsExactly(entry: Entry, wmClass: string) { Claims(entry, wmClass) && IsExact(entry.id, wmClass) }

  predicate ClaimsShown(entry: Entry, wmClass: string) { Claims(entry, wmClass) && entry.shown }

  method ScanStartupWmClasses(entries: seq<Entry>) returns (index: Index)
    ensures index == ClassIndex(entries)
  {
    index := map[];
    var hidden: set<string> := {};
    for i := 0 to |entries|
      invariant index == ClassIndex(entries[..i]) && hidden == HiddenIds(entries[..i])
    {
      var entry := entries[i];
      assert entries[..i + 1][..i] == entries[..i];
      if entry.wmClass.None? {
        continue;
      }
      if !entry.shown {
        hidden := hidden + {entry.id};
      }
      var wmClass := entry.wmClass.value;
      var held: Option<string> := if wmClass in index then Some(index[wmClass]) else None;
      if held.Some? && IsExact(entry.id, wmClass) {
        held := None;
      }
      if held.Some? && entry.shown && held.value in hidden {
        held := None;
      }
      if held.None? {
        index := index[wmClass := entry.id];
      }
    }
    assert entries[..|entries|] == entries;
  }

  function HiddenIds(entries: seq<Entry>): set<string> {
    if entries == [] then {}
    else
      var last := entries[|entries| - 1];
      HiddenIds(entries[..|entries| - 1]) + if last.wmClass.Some? && !last.shown then {last.id} else {}
  }

  /** The index after each entry in turn had its claim weighed against the one that's there. */
  function ClassIndex(entries: seq<Entry>): Index {
    if entries == [] then map[]
    else
      var index, last := ClassIndex(entries[..|entries| - 1]), entries[|entries| - 1];
      if last.wmClass.None? then index
      else if last.wmClass.value !in index || IsExact(last.id, last.wmClass.value)
        || (last.shown && index[last.wmClass.value] in HiddenIds(entries))
      then index[last.wmClass.value := last.id]
      else index
  }

  // Which claim wins.

  ghost predicate NoneClaims(entries: seq<Entry>, wmClass: string, from: nat, to: nat)
    requires to <= |entries|
  {
    forall i :: from <= i < to ==> !Claims(entries[i], wmClass)
  }

  ghost predicate NoneClaimsExactly(entries: seq<Entry>, wmClass: string, from: nat, to: nat)
    requires to <= |entries|
  {
    forall i :: from <= i < to ==> !ClaimsExactly(entries[i], wmClass)
  }

  ghost predicate NoneClaimsShown(entries: seq<Entry>, wmClass: string, from: nat, to: nat)
    requires to <= |entries|
  {
    forall i :: from <= i < to ==> !ClaimsShown(entries[i], wmClass)
  }

  /** The last exact match, unless it's hidden and shown entries follow it. */
  ghost predicate IsExactWinner(entries: seq<Entry>, wmClass: string, i: nat)
    requires i < |entries|
  {
    && ClaimsExactly(entries[i], wmClass)
    && NoneClaimsExactly(entries, wmClass, i + 1, |entries|)
    && (entries[i].shown || NoneClaimsShown(entries, wmClass, i + 1, |entries|))
  }

  /** The first shown entry that follows a hidden exact match, the last one there is. */
  ghost predicate IsShownAfterExact(entries: seq<Entry>, wmClass: string, exact: nat, i: nat)
    requires exact < i < |entries|
  {
    && ClaimsExactly(entries[exact], wmClass) && !entries[exact].shown
    && NoneClaimsExactly(entries, wmClass, exact + 1, |entries|)
    && ClaimsShown(entries[i], wmClass) && NoneClaimsShown(entries, wmClass, exact + 1, i)
  }

  /** Without an exact match, the first shown entry. */
  ghost predicate IsFirstShown(entries: seq<Entry>, wmClass: string, i: nat)
    requires i < |entries|
  {
    && NoneClaimsExactly(entries, wmClass, 0, |entries|)
    && ClaimsShown(entries[i], wmClass) && NoneClaimsShown(entries, wmClass, 0, i)
  }

  /** Without an exact match or a shown entry, the first. */
  ghost predicate IsFirst(entries: seq<Entry>, wmClass: string, i: nat)
    requires i < |entries|
  {
    && NoneClaimsExactly(entries, wmClass, 0, |entries|) && NoneClaimsShown(entries, wmClass, 0, |entries|)
    && Claims(entries[i], wmClass) && NoneClaims(entries, wmClass, 0, i)
  }

  ghost predicate Wins(entries: seq<Entry>, wmClass: string, i: nat)
    requires i < |entries|
  {
    || IsExactWinner(entries, wmClass, i)
    || (exists exact: nat :: exact < i && IsShownAfterExact(entries, wmClass, exact, i))
    || IsFirstShown(entries, wmClass, i)
    || IsFirst(entries, wmClass, i)
  }

  ghost predicate UniqueIds(entries: seq<Entry>) {
    forall i, j :: 0 <= i < j < |entries| ==> entries[i].id != entries[j].id
  }

  /** There's one winner at most. */
  lemma OneWins(entries: seq<Entry>, wmClass: string, i: nat, j: nat)
    requires i < |entries| && j < |entries| && Wins(entries, wmClass, i) && Wins(entries, wmClass, j)
    ensures i == j
  {
  }

  lemma {:induction false} HiddenIdsAreHidden(entries: seq<Entry>, i: nat)
    requires UniqueIds(entries) && i < |entries| && entries[i].wmClass.Some?
    ensures entries[i].id in HiddenIds(entries) <==> !entries[i].shown
  {
    var last := |entries| - 1;
    if i < last {
      HiddenIdsAreHidden(entries[..last], i);
    } else {
      OthersAreNotHidden(entries[..last], entries[last].id);
    }
  }

  lemma {:induction false} OthersAreNotHidden(entries: seq<Entry>, id: string)
    requires forall i :: 0 <= i < |entries| ==> entries[i].id != id
    ensures id !in HiddenIds(entries)
  {
    if entries != [] {
      OthersAreNotHidden(entries[..|entries| - 1], id);
    }
  }

  lemma WinnerStays(entries: seq<Entry>, wmClass: string, i: nat)
    requires entries != [] && i < |entries| - 1 && Wins(entries[..|entries| - 1], wmClass, i)
    requires var last := entries[|entries| - 1];
      !Claims(last, wmClass) || (!IsExact(last.id, wmClass) && !(last.shown && !entries[i].shown))
    ensures Wins(entries, wmClass, i)
  {
    var most := entries[..|entries| - 1];
    if exact: nat :| exact < i && IsShownAfterExact(most, wmClass, exact, i) {
      assert IsShownAfterExact(entries, wmClass, exact, i);
    }
  }

  lemma LastWins(entries: seq<Entry>, wmClass: string, i: nat)
    requires entries != [] && i < |entries| - 1 && Wins(entries[..|entries| - 1], wmClass, i)
    requires var last := entries[|entries| - 1];
      Claims(last, wmClass) && (IsExact(last.id, wmClass) || (last.shown && !entries[i].shown))
    ensures Wins(entries, wmClass, |entries| - 1)
  {
    var most, end := entries[..|entries| - 1], |entries| - 1;
    if !IsExact(entries[end].id, wmClass) && IsExactWinner(most, wmClass, i) {
      assert IsShownAfterExact(entries, wmClass, i, end);
    }
  }

  lemma FirstWins(entries: seq<Entry>, wmClass: string)
    requires entries != [] && NoneClaims(entries, wmClass, 0, |entries| - 1) && Claims(entries[|entries| - 1], wmClass)
    ensures Wins(entries, wmClass, |entries| - 1)
  {
  }

  ghost predicate HoldsWinner(entries: seq<Entry>, wmClass: string, i: nat) {
    && i < |entries| && Wins(entries, wmClass, i)
    && wmClass in ClassIndex(entries) && ClassIndex(entries)[wmClass] == entries[i].id
  }

  /** The index holds a class exactly when some entry claims it, and then the winner's id. */
  lemma {:induction false} IndexHoldsWinner(entries: seq<Entry>, wmClass: string)
    requires UniqueIds(entries)
    ensures if wmClass in ClassIndex(entries) then exists i: nat :: HoldsWinner(entries, wmClass, i)
      else NoneClaims(entries, wmClass, 0, |entries|)
  {
    if entries != [] {
      var most, last := entries[..|entries| - 1], entries[|entries| - 1];
      IndexHoldsWinner(most, wmClass);
      if wmClass in ClassIndex(most) {
        var i: nat :| HoldsWinner(most, wmClass, i);
        HiddenIdsAreHidden(entries, i);
        if Claims(last, wmClass) && (IsExact(last.id, wmClass) || (last.shown && !entries[i].shown)) {
          LastWins(entries, wmClass, i);
          assert HoldsWinner(entries, wmClass, |most|);
        } else {
          WinnerStays(entries, wmClass, i);
          assert HoldsWinner(entries, wmClass, i);
        }
      } else if Claims(last, wmClass) {
        FirstWins(entries, wmClass);
        assert HoldsWinner(entries, wmClass, |most|);
      }
    }
  }

  // Steam games.

  const STEAM_GAME_URI := "steam://rungameid/"

  predicate IsDigit(c: char) { '0' <= c <= '9' }

  /** Where a text first occurs in another. */
  function Find(text: string, part: string): (at: Option<nat>)
    ensures at.Some? ==> at.value <= |text| && part <= text[at.value..]
    ensures forall i :: 0 <= i < (if at.Some? then at.value else |text| + 1) ==> !(part <= text[i..])
  {
    if part <= text then Some(0)
    else if text == [] then None
    else
      var rest := Find(text[1..], part);
      assert forall i :: 1 <= i <= |text| ==> text[1..][i - 1..] == text[i..];
      assert forall i :: 1 <= i <= |text| ==> !(part <= text[i..]) || part <= text[1..][i - 1..];
      if rest.None? then None else Some(1 + rest.value)
  }

  function LeadingDigits(text: string): (digits: string)
    ensures digits <= text && (forall c :: c in digits ==> IsDigit(c))
    ensures |digits| < |text| ==> !IsDigit(text[|digits|])
  {
    if text == "" || !IsDigit(text[0]) then "" else [text[0]] + LeadingDigits(text[1..])
  }

  function GameAfter(uri: string, commandLine: Option<string>): Option<string> {
    if commandLine.None? || Find(commandLine.value, uri).None? then None
    else Some(LeadingDigits(commandLine.value[Find(commandLine.value, uri).value + |uri|..]))
  }

  function SteamGame(commandLine: Option<string>): Option<string> { GameAfter(STEAM_GAME_URI, commandLine) }

  /** A command line that starts a game by its address gives the game's number, whatever is around it. */
  lemma GameIsFound(uri: string, before: string, game: string, after: string)
    requires forall i :: 0 <= i < |before| ==> !(uri <= (before + uri + game + after)[i..])
    requires (forall c :: c in game ==> IsDigit(c)) && (after != "" ==> !IsDigit(after[0]))
    ensures GameAfter(uri, Some(before + uri + game + after)) == Some(game)
  {
    var line := before + uri + game + after;
    assert line == before + uri + (game + after);
    Parts(before, uri, game + after);
    FoundAt(line, uri, |before|);
    AllDigitsLead(game, after);
  }

  lemma Parts(before: string, part: string, after: string)
    ensures part <= (before + part + after)[|before|..] && (before + part + after)[|before| + |part|..] == after
  {
    assert (before + part + after)[|before|..] == part + after;
  }

  lemma FoundAt(text: string, part: string, at: nat)
    requires at <= |text| && part <= text[at..] && forall i :: 0 <= i < at ==> !(part <= text[i..])
    ensures Find(text, part) == Some(at)
  {
    var found := Find(text, part);
    var upTo := if found.Some? then found.value else |text| + 1;
    assert !(at < upTo);
    assert found.Some? && part <= text[found.value..];
  }

  lemma {:induction false} AllDigitsLead(digits: string, after: string)
    requires (forall c :: c in digits ==> IsDigit(c)) && (after != "" ==> !IsDigit(after[0]))
    ensures LeadingDigits(digits + after) == digits
  {
    if digits != "" {
      AllDigitsLead(digits[1..], after);
      assert (digits + after)[1..] == digits[1..] + after;
      assert [digits[0]] + digits[1..] == digits;
    } else {
      assert digits + after == after;
    }
  }

  method ScanSteamGames(entries: seq<Entry>) returns (index: Index)
    ensures index == SteamIndex(SteamGame, entries)
  {
    index := map[];
    for i := 0 to |entries|
      invariant index == SteamIndex(SteamGame, entries[..i])
    {
      assert entries[..i + 1][..i] == entries[..i];
      var game := SteamGame(entries[i].commandLine);
      if game.None? {
        continue;
      }
      if entries[i].shown || game.value !in index {
        index := index[game.value := entries[i].id];
      }
    }
    assert entries[..|entries|] == entries;
  }

  type Games = Option<string> -> Option<string>

  function SteamIndex(games: Games, entries: seq<Entry>): Index {
    if entries == [] then map[]
    else
      var index, last := SteamIndex(games, entries[..|entries| - 1]), entries[|entries| - 1];
      var game := games(last.commandLine);
      if game.Some? && (last.shown || game.value !in index) then index[game.value := last.id] else index
  }

  predicate Launches(games: Games, entry: Entry, game: string) { games(entry.commandLine) == Some(game) }

  /** The last shown entry that launches a game, or without one the first that does. */
  ghost predicate LaunchesBest(games: Games, entries: seq<Entry>, game: string, i: nat)
    requires i < |entries|
  {
    Launches(games, entries[i], game) &&
    if entries[i].shown then forall j :: i < j < |entries| ==> !(Launches(games, entries[j], game) && entries[j].shown)
    else
      && (forall j :: 0 <= j < i ==> !Launches(games, entries[j], game))
      && (forall j :: 0 <= j < |entries| ==> !(Launches(games, entries[j], game) && entries[j].shown))
  }

  ghost predicate HoldsBest(games: Games, entries: seq<Entry>, game: string, i: nat) {
    && i < |entries| && LaunchesBest(games, entries, game, i)
    && game in SteamIndex(games, entries) && SteamIndex(games, entries)[game] == entries[i].id
  }

  lemma {:induction false} SteamIndexHoldsBest(games: Games, entries: seq<Entry>, game: string)
    ensures if game in SteamIndex(games, entries) then exists i: nat :: HoldsBest(games, entries, game, i)
      else forall i :: 0 <= i < |entries| ==> !Launches(games, entries[i], game)
  {
    if entries != [] {
      var most, last := entries[..|entries| - 1], entries[|entries| - 1];
      SteamIndexHoldsBest(games, most, game);
      if Launches(games, last, game) && (last.shown || game !in SteamIndex(games, most)) {
        assert HoldsBest(games, entries, game, |most|);
      } else if game in SteamIndex(games, most) {
        var i: nat :| HoldsBest(games, most, game, i);
        assert HoldsBest(games, entries, game, i);
      }
    }
  }
}
