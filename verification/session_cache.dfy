/**
 * The session cache: live sessions stored under "active_game:<game id>", with
 * the fallback that rebuilds a session from its `games` row on a miss and
 * writes it back. The cache and the database are plain maps; time-to-live
 * expiry is not modelled.
 */
module SessionCache {
  import opened Wrappers
  import opened Ids
  import opened Sessions
  import opened Records
  import Text
  import TimeControls

  const KeyPrefix: string := "active_game:"

  /** `_key`: the cache key of a game. */
  function Key(id: GameId): string {
    KeyPrefix + Text.NatToString(id)
  }

  /** Distinct games never share a cache key. */
  lemma KeyInjective(a: GameId, b: GameId)
    ensures Key(a) == Key(b) <==> a == b
  {
    if Key(a) == Key(b) {
      assert Text.NatToString(a) == Key(a)[|KeyPrefix|..];
      assert Text.NatToString(b) == Key(b)[|KeyPrefix|..];
      Text.NatToStringInjective(a, b);
    }
  }

  type Cache = map<string, ActiveGame>

  /**
   * The session rebuilt from a `games` row: the stored time control is
   * parsed (its ValueError propagates), white is to move from the stored
   * initial position, both clocks hold the full initial time, and the
   * remaining fields take their defaults.
   */
  function Reconstruct(row: GameRow): (r: Result<ActiveGame>)
    ensures r.Success? <==> TimeControls.ParseTimeControl(row.timeControl).Success?
    ensures r.Success? ==>
              var g := r.value;
              var (initial, increment) := TimeControls.ParseTimeControl(row.timeControl).value;
              && HasDefaults(g)
              && g.gameId == row.id && g.whiteId == row.whiteId && g.blackId == row.blackId
              && g.turn == White && g.currentFen == row.initialFen
              && g.initialTime == initial && g.increment == increment
              && g.Remaining(White) == initial && g.Remaining(Black) == initial
              && g.whiteRating == row.whiteRating && g.blackRating == row.blackRating
              && g.timeControlStr == row.timeControlStr
  {
    var (initial, increment) :- TimeControls.ParseTimeControl(row.timeControl);
    Success(NewActiveGame(row.id, row.whiteId, row.blackId, row.initialFen, White,
                          initial, increment, row.timeControlStr, initial, initial,
                          row.whiteRating, row.blackRating))
  }

  /** The session found (if any) and the cache afterwards. */
  datatype Lookup = Lookup(game: Option<ActiveGame>, cache: Cache)

  /**
   * `get_active_game`: a cached session is returned as stored; on a miss the
   * `games` row is consulted, no row gives None, and a row gives the rebuilt
   * session, which is written back under the game's key.
   */
  function GetActiveGame(cache: Cache, db: Db, id: GameId): (r: Result<Lookup>)
    ensures Key(id) in cache ==> r == Success(Lookup(Some(cache[Key(id)]), cache))
    ensures Key(id) !in cache && id !in db ==> r == Success(Lookup(None, cache))
    ensures Key(id) !in cache && id in db ==>
              && (r.Success? <==> Reconstruct(db[id]).Success?)
              && (r.Success? ==> r.value.game == Some(Reconstruct(db[id]).value))
    ensures r.Success? && r.value.game.Some? ==>
              Key(id) in r.value.cache && r.value.cache[Key(id)] == r.value.game.value
    ensures r.Success? ==> forall k :: k != Key(id) ==> (k in r.value.cache <==> k in cache)
    ensures r.Success? ==> forall k :: k != Key(id) && k in cache ==> r.value.cache[k] == cache[k]
  {
    if Key(id) in cache then Success(Lookup(Some(cache[Key(id)]), cache))
    else if id !in db then Success(Lookup(None, cache))
    else
      var g :- Reconstruct(db[id]);
      Success(Lookup(Some(g), cache[Key(id) := g]))
  }

  /** `save_active_game`: stores the session under its own game's key. */
  function SaveActiveGame(cache: Cache, g: ActiveGame): (r: Cache)
    ensures Key(g.gameId) in r && r[Key(g.gameId)] == g
    ensures forall k :: k != Key(g.gameId) ==> (k in r <==> k in cache)
    ensures forall k :: k != Key(g.gameId) && k in cache ==> r[k] == cache[k]
  {
    cache[Key(g.gameId) := g]
  }

  /** `delete_active_game`: removes that game's key and no other. */
  function DeleteActiveGame(cache: Cache, id: GameId): (r: Cache)
    ensures Key(id) !in r
    ensures forall k :: k != Key(id) ==> (k in r <==> k in cache)
    ensures forall k :: k != Key(id) && k in cache ==> r[k] == cache[k]
  {
    cache - {Key(id)}
  }

  /** Getting a game right after saving it returns the saved session, whatever the database holds. */
  lemma SaveThenGet(cache: Cache, db: Db, g: ActiveGame)
    ensures GetActiveGame(SaveActiveGame(cache, g), db, g.gameId) ==
            Success(Lookup(Some(g), SaveActiveGame(cache, g)))
  {
  }

  /** A second lookup finds what the first one returned, and leaves the cache as it was. */
  lemma GetIsStable(cache: Cache, db: Db, id: GameId)
    requires GetActiveGame(cache, db, id).Success?
    requires GetActiveGame(cache, db, id).value.game.Some?
    ensures var first := GetActiveGame(cache, db, id).value;
            GetActiveGame(first.cache, db, id) == Success(first)
  {
  }

  /** Deleting one game does not change what a lookup of any other game returns. */
  lemma DeleteSparesOtherGames(cache: Cache, db: Db, id: GameId, other: GameId)
    requires other != id
    ensures GetActiveGame(DeleteActiveGame(cache, id), db, other).Success? == GetActiveGame(cache, db, other).Success?
    ensures GetActiveGame(cache, db, other).Success? ==>
              GetActiveGame(DeleteActiveGame(cache, id), db, other).value.game == GetActiveGame(cache, db, other).value.game
  {
    KeyInjective(id, other);
  }
}
