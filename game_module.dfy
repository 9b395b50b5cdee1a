/**
 * The local game log of the court page (`js/modules/game.js`): the games of
 * a date are one JSON array stored under `"games-" + date`.
 */
module GameModule {
  import opened Common
  import opened Utils

  /** A stored game: date, court number, the four names, and ISO start and end times. */
  datatype Game = Game(date: string, court: int, players: seq<string>, start: string, end: Option<string>)

  function GamesKey(date: string): (k: string)
    ensures |k| == 6 + |date| && k[6..] == date
  {
    "games-" + date
  }

  /** Different dates use different keys. */
  lemma GamesKeyInjective(a: string, b: string)
    ensures a != b ==> GamesKey(a) != GamesKey(b)
  {
    assert GamesKey(a)[6..] == a && GamesKey(b)[6..] == b;
  }

  /**
   * `getGamesByDate(date)`: a missing or empty item is `[]`, a stored array
   * is itself, and text that does not parse makes `JSON.parse` throw (`None`).
   */
  function GamesOf(items: map<string, Raw<seq<Game>>>, date: string): (r: Option<seq<Game>>)
    ensures GamesKey(date) !in items ==> r == Some([])
    ensures r.None? <==> GamesKey(date) in items && items[GamesKey(date)].Malformed?
  {
    var key := GamesKey(date);
    if key !in items then Some([])
    else match items[key]
      case Empty => Some([])
      case Value(v) => Some(v)
      case Malformed => None
  }

  /** The items after `saveGameToStorage(game)`, or `None` when the read throws and nothing is written. */
  function AfterSave(items: map<string, Raw<seq<Game>>>, game: Game): (r: Option<map<string, Raw<seq<Game>>>>)
    ensures r.None? <==> GamesOf(items, game.date).None?
    ensures r.Some? ==> r.value.Keys == items.Keys + {GamesKey(game.date)}
  {
    match GamesOf(items, game.date)
    case None => None
    case Some(games) => Some(items[GamesKey(game.date) := Value(games + [game])])
  }

  /**
   * A save appends the game to its date's list, so that list grows by exactly
   * one, and every other date reads as before.
   */
  lemma SaveAppends(items: map<string, Raw<seq<Game>>>, game: Game, other: string)
    requires GamesOf(items, game.date).Some?
    ensures var after := AfterSave(items, game).value;
            GamesOf(after, game.date) == Some(GamesOf(items, game.date).value + [game])
            && |GamesOf(after, game.date).value| == |GamesOf(items, game.date).value| + 1
    ensures other != game.date ==> GamesOf(AfterSave(items, game).value, other) == GamesOf(items, other)
  {
    GamesKeyInjective(other, game.date);
  }

  /** The game log in `localStorage`. */
  class GameStore {
    var items: map<string, Raw<seq<Game>>>

    constructor (items: map<string, Raw<seq<Game>>>)
      ensures this.items == items
    {
      this.items := items;
    }

    function GetGamesByDate(date: string): (r: Option<seq<Game>>)
      reads this
      ensures r == GamesOf(items, date)
    {
      GamesOf(items, date)
    }

    /** `saveGameToStorage`: read the date's list, push the game, write the list back. `ok` is false when the read throws. */
    method SaveGame(game: Game) returns (ok: bool)
      modifies this`items
      ensures ok == GamesOf(old(items), game.date).Some?
      ensures ok ==> items == old(items)[GamesKey(game.date) := Value(GamesOf(old(items), game.date).value + [game])]
      ensures !ok ==> items == old(items)
    {
      var key := GamesKey(game.date);
      var games: seq<Game>;
      if key !in items {
        games := [];
      } else {
        match items[key]
        case Empty =>
          games := [];
        case Value(v) =>
          games := v;
        case Malformed =>
          return false;
      }
      games := games + [game];
      items := items[key := Value(games)];
      ok := true;
    }
  }
}
