/**
 * The local court page (`js/modules/court.js`): the signed players of the
 * picked date, kept in `localStorage` and written back after every change,
 * the random four-player court and the "save game" button.
 */
module CourtModule {
  import opened Common
  import opened Seqs
  import opened Utils
  import opened GameModule

  /** A signed player: a name typed in, and whether they have arrived. */
  datatype Guest = Guest(name: string, arrived: bool)

  function SignedKey(date: string): string {
    "signedPlayers-" + date
  }

  /** `signedPlayers.filter(p => p.arrived)`. */
  function Arrived(players: seq<Guest>): seq<Guest> {
    Filter(players, (p: Guest) => p.arrived)
  }

  /** `signedPlayers.splice(index, 1)`: a negative index counts from the end, and one past the ends removes nothing. */
  function SpliceOne(s: seq<Guest>, index: int): (r: seq<Guest>)
    ensures 0 <= index < |s| ==> r == RemoveAt(s, index)
    ensures -|s| <= index < 0 ==> r == RemoveAt(s, |s| + index)
    ensures index < -|s| && s != [] ==> r == RemoveAt(s, 0)
    ensures index >= |s| || s == [] ==> r == s
  {
    var start := if index < 0 then Max(|s| + index, 0) else Min(index, |s|);
    if start < |s| then RemoveAt(s, start) else s
  }

  /** Removing index `k` keeps every other player, in order. */
  lemma RemoveKeepsOthers(s: seq<Guest>, k: int)
    requires 0 <= k < |s|
    ensures var r := SpliceOne(s, k);
            (forall j :: 0 <= j < k ==> r[j] == s[j]) && (forall j :: k <= j < |r| ==> r[j] == s[j + 1])
  {
  }

  /** The random order of `arrivedPlayers.sort(() => 0.5 - Math.random())`: a permutation of the positions. */
  predicate IsPermutation(order: seq<nat>, n: nat) {
    |order| == n && Distinct(order) && forall i :: 0 <= i < n ==> order[i] < n
  }

  /** `shuffled.slice(0, 4)`. */
  function Picked(arrived: seq<Guest>, order: seq<nat>): (sel: seq<Guest>)
    requires |arrived| >= 4 && IsPermutation(order, |arrived|)
    ensures |sel| == 4 && forall k :: 0 <= k < 4 ==> sel[k] == arrived[order[k]]
  {
    [arrived[order[0]], arrived[order[1]], arrived[order[2]], arrived[order[3]]]
  }

  function Names(sel: seq<Guest>): (names: seq<string>)
    ensures |names| == |sel| && forall k :: 0 <= k < |sel| ==> names[k] == sel[k].name
  {
    seq(|sel|, k requires 0 <= k < |sel| => sel[k].name)
  }

  /** The four chosen players come from four different arrived positions and have all arrived. */
  lemma PickedAreArrived(players: seq<Guest>, order: seq<nat>)
    requires |Arrived(players)| >= 4 && IsPermutation(order, |Arrived(players)|)
    ensures var sel := Picked(Arrived(players), order);
            (forall k :: 0 <= k < 4 ==> sel[k].arrived && sel[k] in players)
            && (forall k, l :: 0 <= k < l < 4 ==> order[k] != order[l])
  {
    var a := Arrived(players);
    var p := (g: Guest) => g.arrived;
    forall k | 0 <= k < 4
      ensures a[order[k]].arrived && a[order[k]] in players
    {
      FilterMembership(players, p, a[order[k]]);
    }
  }

  /** The court card: team A is the first two chosen names, team B the last two. */
  function CourtCard(sel: seq<Guest>): (teams: (seq<string>, seq<string>))
    requires |sel| == 4
    ensures teams.0 + teams.1 == Names(sel)
    ensures teams.0 == [sel[0].name, sel[1].name] && teams.1 == [sel[2].name, sel[3].name]
  {
    (Names(sel)[..2], Names(sel)[2..])
  }

  /** The page's module state, its `localStorage` items and the game log it saves to. */
  class CourtPage {
    var signedPlayers: seq<Guest>
    var selectedDate: string
    var currentGame: Option<Game>
    var saved: map<string, Raw<seq<Guest>>>
    const log: GameStore

    constructor (today: string, saved: map<string, Raw<seq<Guest>>>, log: GameStore)
      ensures selectedDate == today && this.saved == saved && this.log == log
      ensures signedPlayers == [] && currentGame == None
    {
      selectedDate := today;
      this.saved := saved;
      this.log := log;
      signedPlayers := [];
      currentGame := None;
    }

    /** `renderSignedPlayers` ends by writing the list under the date's key. */
    method SaveSigned()
      modifies this`saved
      ensures saved == old(saved)[SignedKey(selectedDate) := Value(signedPlayers)]
    {
      saved := saved[SignedKey(selectedDate) := Value(signedPlayers)];
    }

    /**
     * `loadSignedPlayers` then the first render; text that does not parse
     * throws before either. The throw also ends `initCourtSystem` before it
     * wires the add, randomize and save buttons, so after `ok == false` the
     * page has no `AddGuest`, `RandomizeToCourt` or `SaveCurrentGame`; the
     * class does not track that.
     */
    method Load() returns (ok: bool)
      modifies this`signedPlayers, this`saved
      ensures ok == !(SignedKey(selectedDate) in old(saved) && old(saved)[SignedKey(selectedDate)].Malformed?)
      ensures ok ==> signedPlayers == LoadFrom(old(saved), SignedKey(selectedDate), [])
      ensures ok ==> saved == old(saved)[SignedKey(selectedDate) := Value(signedPlayers)]
      ensures !ok ==> signedPlayers == old(signedPlayers) && saved == old(saved)
    {
      var key := SignedKey(selectedDate);
      if key in saved && saved[key].Malformed? {
        return false;
      }
      signedPlayers := LoadFrom(saved, key, []);
      SaveSigned();
      ok := true;
    }

    /** `addGuestPlayer`: a cancelled or empty prompt does nothing; a name goes last, not arrived. */
    method AddGuest(name: Option<string>)
      modifies this`signedPlayers, this`saved
      ensures name.None? || name.value == "" ==> signedPlayers == old(signedPlayers) && saved == old(saved)
      ensures name.Some? && name.value != "" ==>
                signedPlayers == old(signedPlayers) + [Guest(name.value, false)]
                && saved == old(saved)[SignedKey(selectedDate) := Value(signedPlayers)]
    {
      if name.None? || name.value == "" {
        return;
      }
      signedPlayers := signedPlayers + [Guest(name.value, false)];
      SaveSigned();
    }

    /** `toggleArrived(index)`: only that player flips; an index with no player throws before anything changes. */
    method ToggleArrived(index: int)
      modifies this`signedPlayers, this`saved
      ensures !(0 <= index < |old(signedPlayers)|) ==> signedPlayers == old(signedPlayers) && saved == old(saved)
      ensures 0 <= index < |old(signedPlayers)| ==>
                |signedPlayers| == |old(signedPlayers)|
                && signedPlayers[index] == old(signedPlayers)[index].(arrived := !old(signedPlayers)[index].arrived)
                && (forall j :: 0 <= j < |signedPlayers| && j != index ==> signedPlayers[j] == old(signedPlayers)[j])
                && saved == old(saved)[SignedKey(selectedDate) := Value(signedPlayers)]
    {
      if !(0 <= index < |signedPlayers|) {
        return;
      }
      signedPlayers := signedPlayers[index := signedPlayers[index].(arrived := !signedPlayers[index].arrived)];
      SaveSigned();
    }

    /** `removePlayer(index)`: one `splice`, then the list is saved. */
    method RemovePlayer(index: int)
      modifies this`signedPlayers, this`saved
      ensures signedPlayers == SpliceOne(old(signedPlayers), index)
      ensures saved == old(saved)[SignedKey(selectedDate) := Value(signedPlayers)]
    {
      signedPlayers := SpliceOne(signedPlayers, index);
      SaveSigned();
    }

    /**
     * `randomizeToCourt`: with fewer than four arrived players nothing happens;
     * otherwise the first four of the shuffled arrived players make the
     * current game on court 1 and the card shows them two by two. The signed
     * list itself is not reordered, because the filter made a copy.
     */
    method RandomizeToCourt(order: seq<nat>, start: string) returns (card: Option<(seq<string>, seq<string>)>)
      requires IsPermutation(order, |Arrived(signedPlayers)|)
      modifies this`currentGame
      ensures |Arrived(signedPlayers)| < 4 ==> currentGame == old(currentGame) && card.None?
      ensures |Arrived(signedPlayers)| >= 4 ==>
                var sel := Picked(Arrived(signedPlayers), order);
                currentGame == Some(Game(selectedDate, 1, Names(sel), start, None))
                && card == Some(CourtCard(sel))
    {
      var arrived := Arrived(signedPlayers);
      if |arrived| < 4 {
        return None;
      }
      var sel := Picked(arrived, order);
      card := Some(CourtCard(sel));
      currentGame := Some(Game(selectedDate, 1, Names(sel), start, None));
    }

    /**
     * `saveCurrentGame`: with no game nothing happens; otherwise the game gets
     * its end time, is appended to its date's log and is cleared. When the
     * log cannot be read the save throws and the game stays, end time set.
     */
    method SaveCurrentGame(end: string)
      modifies this`currentGame, log`items
      ensures old(currentGame).None? ==> currentGame == None && log.items == old(log.items)
      ensures old(currentGame).Some? ==>
                var g := old(currentGame).value.(end := Some(end));
                if GamesOf(old(log.items), g.date).Some? then
                  currentGame == None && log.items == AfterSave(old(log.items), g).value
                else
                  currentGame == Some(g) && log.items == old(log.items)
    {
      if currentGame.None? {
        return;
      }
      var g := currentGame.value.(end := Some(end));
      currentGame := Some(g);
      var ok := log.SaveGame(g);
      if ok {
        currentGame := None;
      }
    }
  }
}
