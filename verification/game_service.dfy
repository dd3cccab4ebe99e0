/**
 * The game service: the per-player view of a finished game, pagination
 * arithmetic, creating a game for two queued players (the older version,
 * which pairs by join order and caches the session, and the newer one, which
 * shuffles colours and reads ratings from the profiles), and the finalizer
 * that updates both profiles.
 */
module GameService {
  import opened Wrappers
  import opened Ids
  import opened Sessions
  import opened Records
  import opened Live
  import Text
  import TimeControls
  import SessionCache
  import GameRegistry

  /** A player waiting in a matchmaking queue. */
  datatype QueuedPlayer = QueuedPlayer(
    userId: UserId,
    rating: int,
    timeControl: string,
    timeControlStr: string,
    joinedAt: Instant)

  /** The rating a player has in a category they were never rated in. */
  const DefaultRating: int := 1200

  // ---------------------------------------------------------------------------
  // Per-player view of a game

  /**
   * `map_result`: "draw", "win" or "loss" from `color`'s side. The stored
   * result is converted with `GameResult(...)` first, so a null result
   * raises ValueError.
   */
  function MapResult(result: Option<GameResult>, color: Color): (r: Result<string>)
    ensures r.Success? <==> result.Some?
    ensures r.Success? ==> (r.value == "draw" <==> result.value == Draw)
    ensures r.Success? ==> (r.value == "win" <==> result.value == WinFor(color))
    ensures r.Success? ==> (r.value == "loss" <==> result.value == LossFor(color))
  {
    match result
    case None => Failure("ValueError: None is not a valid GameResult")
    case Some(res) =>
      if res == Draw then Success("draw")
      else if (res == WhiteWin && color == White) || (res == BlackWin && color == Black) then Success("win")
      else Success("loss")
  }

  /** The two sides of a decisive game see opposite outcomes; a draw is a draw for both. */
  lemma MapResultOpposite(result: GameResult, color: Color)
    ensures var mine := MapResult(Some(result), color).value;
            var theirs := MapResult(Some(result), Opponent(color)).value;
            && (mine == "draw" <==> theirs == "draw")
            && (mine == "win" <==> theirs == "loss")
  {
  }

  /** `get_rating_change`: the stored change for that colour; null reads as 0. */
  function GetRatingChange(row: GameRow, color: Color): (r: int)
    ensures color == White && row.whiteRatingChange.Some? ==> r == row.whiteRatingChange.value
    ensures color == Black && row.blackRatingChange.Some? ==> r == row.blackRatingChange.value
    ensures (if color == White then row.whiteRatingChange else row.blackRatingChange).None? ==> r == 0
  {
    if color == White then row.whiteRatingChange.GetOr(0) else row.blackRatingChange.GetOr(0)
  }

  // ---------------------------------------------------------------------------
  // Pagination of a player's games

  /** The number of games before page `page`. */
  function Offset(page: int, pageSize: int): (o: int)
    ensures page >= 1 && pageSize >= 0 ==> o >= 0
    ensures o + pageSize == page * pageSize
  {
    (page - 1) * pageSize
  }

  /** `(total + page_size - 1) // page_size`; a page size of zero raises ZeroDivisionError. */
  function TotalPages(total: int, pageSize: int): (r: Result<int>)
    ensures r.Success? <==> pageSize != 0
  {
    Text.FloorDiv(total + pageSize - 1, pageSize)
  }

  /**
   * For a positive page size the page count is the ceiling of total/size:
   * the pages hold every game, the last page is not empty, and no games
   * means no pages.
   */
  lemma TotalPagesIsCeiling(total: nat, pageSize: int)
    requires pageSize > 0
    ensures var n := TotalPages(total, pageSize).value;
            && n >= 0
            && total <= n * pageSize
            && (total > 0 ==> Offset(n, pageSize) < total)
            && (n == 0 <==> total == 0)
  {
    var n := TotalPages(total, pageSize).value;
    assert n * pageSize <= total + pageSize - 1 < (n + 1) * pageSize;
  }

  // ---------------------------------------------------------------------------
  // Creating a game

  /** A fresh `games` row with the columns `create_game` sets and the defaults of the others. */
  function NewRow(id: GameId, whiteId: UserId, blackId: UserId, timeControl: string, timeControlStr: string,
                  now: Instant, whiteRating: int, blackRating: int): (row: GameRow)
    ensures row.id == id && row.whiteId == whiteId && row.blackId == blackId
    ensures row.status == Active && row.result.None? && row.termination.None? && row.endTime.None?
    ensures row.initialFen == StartFen && row.startTime == now
    ensures row.whiteRating == whiteRating && row.blackRating == blackRating
    ensures row.whiteRatingChange.None? && row.blackRatingChange.None?
  {
    GameRow(id, whiteId, blackId, timeControl, timeControlStr, now, None, Active, None, None,
            StartFen, None, None, whiteRating, blackRating, None, None)
  }

  /** The older pairing: the earlier `joined_at` plays white; on a tie the first argument does (the sort is stable). */
  function JoinOrder(p1: QueuedPlayer, p2: QueuedPlayer): (r: (QueuedPlayer, QueuedPlayer))
    ensures multiset{r.0, r.1} == multiset{p1, p2}
    ensures r.0.joinedAt <= r.1.joinedAt
    ensures p1.joinedAt <= p2.joinedAt ==> r == (p1, p2)
  {
    if p2.joinedAt < p1.joinedAt then (p2, p1) else (p1, p2)
  }

  /**
   * The database and cache after a game creation, and its outcome: the new
   * game's id, or the exception that escaped after the row was committed.
   */
  datatype Created = Created(cache: SessionCache.Cache, db: Db, outcome: Result<GameId>)

  /**
   * `create_game_and_active_game`, older version: the row is committed with
   * both ratings at 1200 and white's time control; then the time control is
   * parsed (a ValueError escapes with the row already written and nothing
   * cached) and a fresh session, white to move from the start position with
   * full clocks, is cached under "active_game:<id>".
   */
  function CreateGameJoinOrder(cache: SessionCache.Cache, db: Db, id: GameId, p1: QueuedPlayer, p2: QueuedPlayer,
                               now: Instant): (r: Created)
    ensures r.db == db[id := JoinOrderRow(id, JoinOrder(p1, p2), now)]
    ensures r.outcome.Success? <==> TimeControls.ParseTimeControl(JoinOrder(p1, p2).0.timeControl).Success?
    ensures r.outcome.Failure? ==> r.cache == cache
    ensures r.outcome.Success? ==>
              && r.outcome.value == id
              && r.cache == SessionCache.SaveActiveGame(cache, JoinOrderSession(id, JoinOrder(p1, p2),
                                TimeControls.ParseTimeControl(JoinOrder(p1, p2).0.timeControl).value))
  {
    var players := JoinOrder(p1, p2);
    var db' := db[id := JoinOrderRow(id, players, now)];
    var parsed := TimeControls.ParseTimeControl(players.0.timeControl);
    if parsed.Failure? then Created(cache, db', Failure(parsed.error))
    else
      Created(SessionCache.SaveActiveGame(cache, JoinOrderSession(id, players, parsed.value)), db', Success(id))
  }

  /** The session the older creation caches, from the players in colour order and the parsed time control. */
  function JoinOrderSession(id: GameId, players: (QueuedPlayer, QueuedPlayer), parsed: (int, int)): (g: ActiveGame)
    ensures IsFreshSession(g, id, players, parsed)
  {
    NewActiveGame(id, players.0.userId, players.1.userId, StartFen, White, parsed.0, parsed.1, "",
                  parsed.0, parsed.0, DefaultRating, DefaultRating)
  }

  /** The row the older creation commits: white's time control, no category, both ratings at 1200. */
  function JoinOrderRow(id: GameId, players: (QueuedPlayer, QueuedPlayer), now: Instant): GameRow
  {
    NewRow(id, players.0.userId, players.1.userId, players.0.timeControl, "", now, DefaultRating, DefaultRating)
  }

  /**
   * The session the older creation caches: the defaults, the paired players
   * in colour order, white to move from the start position, both clocks at
   * the parsed initial time, no category and both ratings at 1200.
   */
  predicate IsFreshSession(g: ActiveGame, id: GameId, players: (QueuedPlayer, QueuedPlayer), parsed: (int, int)) {
    && HasDefaults(g) && g.gameId == id
    && g.whiteId == players.0.userId && g.blackId == players.1.userId
    && g.turn == White && g.currentFen == StartFen
    && g.Remaining(White) == parsed.0 && g.Remaining(Black) == parsed.0
    && g.initialTime == parsed.0 && g.increment == parsed.1
    && g.whiteRating == DefaultRating && g.blackRating == DefaultRating
    && g.timeControlStr == ""
  }

  /**
   * The older creation agrees with the cache's rebuild: on success the cached
   * session is exactly what a miss would rebuild from the committed row; on
   * failure the row stays behind, and with nothing cached every later lookup
   * of the game raises the same parse error.
   */
  lemma JoinOrderSessionIsRebuild(cache: SessionCache.Cache, db: Db, id: GameId, p1: QueuedPlayer, p2: QueuedPlayer,
                                  now: Instant)
    ensures var r := CreateGameJoinOrder(cache, db, id, p1, p2, now);
            && id in r.db
            && SessionCache.Reconstruct(r.db[id]).Success? == r.outcome.Success?
            && (r.outcome.Success? ==> r.cache[SessionCache.Key(id)] == SessionCache.Reconstruct(r.db[id]).value)
            && (r.outcome.Failure? && SessionCache.Key(id) !in cache ==>
                  SessionCache.GetActiveGame(r.cache, r.db, id).Failure?)
  {
  }

  /** A rating from a profile's table, 1200 when the category is missing. */
  function RatingOr(p: Profile, category: string): (r: int)
    ensures category in p.ratings ==> r == p.ratings[category]
    ensures category !in p.ratings ==> r == DefaultRating
  {
    if category in p.ratings then p.ratings[category] else DefaultRating
  }

  /**
   * `create_game_and_active_game`, newer version: `swap` stands for the
   * shuffle's outcome. Both profiles must exist (HTTP 404 otherwise); each
   * rating snapshot is that player's rating in white's time-control
   * category, or 1200. Only the row is written; the session is left to the
   * cache's rebuild from the row.
   */
  function CreateGameShuffled(profiles: Profiles, db: Db, id: GameId, p1: QueuedPlayer, p2: QueuedPlayer,
                              swap: bool, now: Instant): (r: Result<Db>)
    ensures var (white, black) := if swap then (p2, p1) else (p1, p2);
            && (r.Success? <==> white.userId in profiles && black.userId in profiles)
            && (r.Success? ==>
                  && id in r.value
                  && r.value == db[id := r.value[id]]
                  && multiset{r.value[id].whiteId, r.value[id].blackId} == multiset{p1.userId, p2.userId}
                  && r.value[id].whiteId == white.userId
                  && r.value[id].status == Active
                  && r.value[id].timeControl == white.timeControl
                  && r.value[id].timeControlStr == white.timeControlStr
                  && r.value[id].whiteRating == RatingOr(profiles[white.userId], white.timeControlStr)
                  && r.value[id].blackRating == RatingOr(profiles[black.userId], white.timeControlStr))
  {
    var (white, black) := if swap then (p2, p1) else (p1, p2);
    var wp :- ProfileOf(profiles, white.userId);
    var bp :- ProfileOf(profiles, black.userId);
    var category := white.timeControlStr;
    Success(db[id := NewRow(id, white.userId, black.userId, white.timeControl, white.timeControlStr, now,
                            RatingOr(wp, category), RatingOr(bp, category))])
  }

  /**
   * The newer version writes no session, but the cache's rebuild from its row
   * yields a fresh game carrying the row's rating snapshots and category.
   */
  lemma ShuffledGameRebuilds(profiles: Profiles, db: Db, id: GameId, p1: QueuedPlayer, p2: QueuedPlayer,
                             swap: bool, now: Instant)
    requires p1.userId in profiles && p2.userId in profiles
    requires TimeControls.IsTimeControl((if swap then p2 else p1).timeControl)
    ensures var row := CreateGameShuffled(profiles, db, id, p1, p2, swap, now).value[id];
            var rebuilt := SessionCache.GetActiveGame(map[], CreateGameShuffled(profiles, db, id, p1, p2, swap, now).value, id);
            && rebuilt.Success? && rebuilt.value.game.Some?
            && HasDefaults(rebuilt.value.game.value)
            && rebuilt.value.game.value.currentFen == StartFen
            && rebuilt.value.game.value.whiteRating == row.whiteRating
            && rebuilt.value.game.value.blackRating == row.blackRating
            && rebuilt.value.game.value.timeControlStr == (if swap then p2 else p1).timeControlStr
  {
    TimeControls.AllTimeControlsParse();
  }

  // ---------------------------------------------------------------------------
  // Finalizing with rating and counter updates

  /** A profile after one game: total played, and one of win, loss or draw. */
  function Tally(p: Profile, outcome: string): (q: Profile)
    ensures q.totalGames == p.totalGames + 1
    ensures q.wins == p.wins + (if outcome == "win" then 1 else 0)
    ensures q.losses == p.losses + (if outcome == "loss" then 1 else 0)
    ensures q.draws == p.draws + (if outcome != "win" && outcome != "loss" then 1 else 0)
    ensures q.ratings == p.ratings && q.activePuzzleId == p.activePuzzleId
  {
    var p1 := p.(totalGames := p.totalGames + 1);
    if outcome == "win" then p1.(wins := p1.wins + 1)
    else if outcome == "loss" then p1.(losses := p1.losses + 1)
    else p1.(draws := p1.draws + 1)
  }

  /** `ratings[category] += delta`, which raises KeyError for a category the profile lacks. */
  function Credit(p: Profile, category: string, delta: int): (r: Result<Profile>)
    ensures r.Success? <==> category in p.ratings
    ensures r.Success? ==> category in r.value.ratings && r.value.ratings[category] == p.ratings[category] + delta
    ensures r.Success? ==> forall c :: c != category ==> (c in r.value.ratings <==> c in p.ratings)
    ensures r.Success? ==> forall c :: c != category && c in p.ratings ==> r.value.ratings[c] == p.ratings[c]
    ensures r.Success? ==> r.value.(ratings := p.ratings) == p
  {
    if category !in p.ratings then Failure("KeyError: " + category)
    else Success(p.(ratings := p.ratings[category := p.ratings[category] + delta]))
  }

  /** The outcome string of colour `c` in a finished game. */
  function Outcome(result: GameResult, c: Color): string {
    if result == Draw then "draw" else if result == WinFor(c) then "win" else "loss"
  }

  /**
   * The profile part of `handle_game_over`, in the source's order: white's
   * rating, black's rating, both totals, then the win/loss/draw counters.
   * Between distinct players each profile gets its own delta and its own
   * outcome and no other profile changes.
   */
  function UpdateProfiles(ps: Profiles, whiteId: UserId, blackId: UserId, category: string,
                          wc: int, bc: int, result: GameResult): (r: Result<Profiles>)
    requires whiteId in ps && blackId in ps
    ensures r.Success? ==> r.value.Keys == ps.Keys
    ensures r.Success? ==> forall u :: u in ps && u != whiteId && u != blackId ==> r.value[u] == ps[u]
    ensures whiteId != blackId ==>
              && (r.Success? <==> category in ps[whiteId].ratings && category in ps[blackId].ratings)
              && (r.Success? ==>
                    && r.value[whiteId] == Tally(Credit(ps[whiteId], category, wc).value, Outcome(result, White))
                    && r.value[blackId] == Tally(Credit(ps[blackId], category, bc).value, Outcome(result, Black)))
  {
    var w :- Credit(ps[whiteId], category, wc);
    var ps1 := ps[whiteId := w];
    var b :- Credit(ps1[blackId], category, bc);
    var ps2 := ps1[blackId := b];
    var ps3 := ps2[whiteId := ps2[whiteId].(totalGames := ps2[whiteId].totalGames + 1)];
    var ps4 := ps3[blackId := ps3[blackId].(totalGames := ps3[blackId].totalGames + 1)];
    Success(TallyResult(ps4, whiteId, blackId, result))
  }

  /** The win/loss/draw branch of `handle_game_over`, applied to the two profiles in turn. */
  function TallyResult(ps: Profiles, whiteId: UserId, blackId: UserId, result: GameResult): (r: Profiles)
    requires whiteId in ps && blackId in ps
    ensures r.Keys == ps.Keys
    ensures forall u :: u in ps && u != whiteId && u != blackId ==> r[u] == ps[u]
    ensures whiteId != blackId ==>
              && r[whiteId] == Tally(ps[whiteId], Outcome(result, White)).(totalGames := ps[whiteId].totalGames)
              && r[blackId] == Tally(ps[blackId], Outcome(result, Black)).(totalGames := ps[blackId].totalGames)
  {
    if result == WhiteWin then
      var ps1 := ps[whiteId := ps[whiteId].(wins := ps[whiteId].wins + 1)];
      ps1[blackId := ps1[blackId].(losses := ps1[blackId].losses + 1)]
    else if result == BlackWin then
      var ps1 := ps[blackId := ps[blackId].(wins := ps[blackId].wins + 1)];
      ps1[whiteId := ps1[whiteId].(losses := ps1[whiteId].losses + 1)]
    else
      var ps1 := ps[whiteId := ps[whiteId].(draws := ps[whiteId].draws + 1)];
      ps1[blackId := ps1[blackId].(draws := ps1[blackId].draws + 1)]
  }

  /** When one user holds both colours, both deltas and both tallies land on that one profile. */
  lemma SelfGameDoublesUp(ps: Profiles, u: UserId, category: string, wc: int, bc: int, result: GameResult)
    requires u in ps && category in ps[u].ratings
    ensures var r := UpdateProfiles(ps, u, u, category, wc, bc, result);
            && r.Success?
            && r.value[u].totalGames == ps[u].totalGames + 2
            && r.value[u].ratings[category] == ps[u].ratings[category] + wc + bc
            && r.value[u].wins + r.value[u].losses + r.value[u].draws == ps[u].wins + ps[u].losses + ps[u].draws + 2
  {
  }

  /** Profiles and store after `handle_game_over`. */
  datatype Settled = Settled(profiles: Profiles, step: Step)

  /**
   * `handle_game_over`: the Elo deltas (a parameter) for the session's rating
   * snapshots are added to each player's rating in the session's category,
   * and both profiles count the game; the row is completed with both deltas;
   * then both players are told. Every change is committed at once, so a
   * missing profile (404), a missing category (KeyError) or a missing row
   * (AttributeError) changes nothing.
   */
  function HandleGameOver(profiles: Profiles, s: Store, id: GameId, g: ActiveGame, result: GameResult,
                          termination: Termination, elo: (int, int, GameResult) -> (int, int),
                          now: Instant, failing: set<SocketId>): (r: Settled)
    ensures r.step.reply.Fault? || r.step.reply == Done
    ensures r.step.reply.Fault? ==> r.profiles == profiles && r.step.store == s && r.step.sent == []
    ensures r.step.reply == Done <==>
              && id in s.db && g.whiteId in profiles && g.blackId in profiles
              && UpdateProfiles(profiles, g.whiteId, g.blackId, g.timeControlStr,
                                elo(g.whiteRating, g.blackRating, result).0,
                                elo(g.whiteRating, g.blackRating, result).1, result).Success?
    ensures r.step.reply == Done ==>
              && r.profiles == UpdateProfiles(profiles, g.whiteId, g.blackId, g.timeControlStr,
                                              elo(g.whiteRating, g.blackRating, result).0,
                                              elo(g.whiteRating, g.blackRating, result).1, result).value
              && id in r.step.store.db
              && r.step.store.db[id] == CompletedRow(s.db[id], Some(result), Some(termination), g.currentFen, g.movesSan, now)
                                          .(whiteRatingChange := Some(elo(g.whiteRating, g.blackRating, result).0),
                                            blackRatingChange := Some(elo(g.whiteRating, g.blackRating, result).1))
              && r.step.store.cache == s.cache
              && r.step.sent == [Outbound(GameRegistry.Broadcast(s.conns, id, failing).to, GameOver(result, termination))]
  {
    var deltas := elo(g.whiteRating, g.blackRating, result);
    SettleWith(profiles, s, id, g, result, termination, deltas.0, deltas.1, now, failing)
  }

  /** `handle_game_over` once the two rating changes are known. */
  function SettleWith(profiles: Profiles, s: Store, id: GameId, g: ActiveGame, result: GameResult,
                      termination: Termination, wc: int, bc: int,
                      now: Instant, failing: set<SocketId>): (r: Settled)
    ensures r.step.reply.Fault? || r.step.reply == Done
    ensures r.step.reply.Fault? ==> r.profiles == profiles && r.step.store == s && r.step.sent == []
    ensures r.step.reply == Done <==>
              && id in s.db && g.whiteId in profiles && g.blackId in profiles
              && UpdateProfiles(profiles, g.whiteId, g.blackId, g.timeControlStr, wc, bc, result).Success?
    ensures r.step.reply == Done ==>
              && r.profiles == UpdateProfiles(profiles, g.whiteId, g.blackId, g.timeControlStr, wc, bc, result).value
              && id in r.step.store.db
              && r.step.store.db[id] == CompletedRow(s.db[id], Some(result), Some(termination), g.currentFen, g.movesSan, now)
                                          .(whiteRatingChange := Some(wc), blackRatingChange := Some(bc))
              && r.step.store.cache == s.cache
              && r.step.sent == [Outbound(GameRegistry.Broadcast(s.conns, id, failing).to, GameOver(result, termination))]
  {
    if g.whiteId !in profiles || g.blackId !in profiles then
      Settled(profiles, Step(s, [], Fault("HTTPException 404: Profile not found")))
    else
      match UpdateProfiles(profiles, g.whiteId, g.blackId, g.timeControlStr, wc, bc, result)
      case Failure(e) => Settled(profiles, Step(s, [], Fault(e)))
      case Success(ps) =>
        if id !in s.db then
          Settled(profiles, Step(s, [], Fault("AttributeError: 'NoneType' object has no attribute 'status'")))
        else Settled(ps, RatedEnd(s, id, g, result, termination, wc, bc, now, failing))
  }

  /** The row write and broadcast once the profiles are settled: the completed row also carries both rating changes. */
  function RatedEnd(s: Store, id: GameId, g: ActiveGame, result: GameResult, termination: Termination,
                    wc: int, bc: int, now: Instant, failing: set<SocketId>): (r: Step)
    requires id in s.db
    ensures r.reply == Done && id in r.store.db && r.store.cache == s.cache
    ensures r.store.db[id] == CompletedRow(s.db[id], Some(result), Some(termination), g.currentFen, g.movesSan, now)
                                .(whiteRatingChange := Some(wc), blackRatingChange := Some(bc))
    ensures r.sent == [Outbound(GameRegistry.Broadcast(s.conns, id, failing).to, GameOver(result, termination))]
  {
    var row := CompletedRow(s.db[id], Some(result), Some(termination), g.currentFen, g.movesSan, now)
                 .(whiteRatingChange := Some(wc), blackRatingChange := Some(bc));
    Broadcast(s.(db := s.db[id := row]), id, GameOver(result, termination), failing)
  }

  /**
   * Between two distinct players, a finished game adds one to each total
   * and exactly one win, loss or draw to each, matching the result: the
   * winner's win goes with the loser's loss.
   */
  lemma GameOverCounters(ps: Profiles, whiteId: UserId, blackId: UserId, category: string,
                         wc: int, bc: int, result: GameResult)
    requires whiteId in ps && blackId in ps && whiteId != blackId
    requires category in ps[whiteId].ratings && category in ps[blackId].ratings
    ensures var r := UpdateProfiles(ps, whiteId, blackId, category, wc, bc, result).value;
            var w, b := ps[whiteId], ps[blackId];
            && r[whiteId].totalGames == w.totalGames + 1 && r[blackId].totalGames == b.totalGames + 1
            && (r[whiteId].wins - w.wins) + (r[whiteId].losses - w.losses) + (r[whiteId].draws - w.draws) == 1
            && (r[blackId].wins - b.wins) + (r[blackId].losses - b.losses) + (r[blackId].draws - b.draws) == 1
            && (r[whiteId].wins > w.wins <==> result == WhiteWin)
            && (r[whiteId].wins > w.wins <==> r[blackId].losses > b.losses)
            && (r[blackId].wins > b.wins <==> r[whiteId].losses > w.losses)
            && (r[whiteId].draws > w.draws <==> result == Draw)
            && (r[whiteId].draws > w.draws <==> r[blackId].draws > b.draws)
            && r[whiteId].ratings[category] == w.ratings[category] + wc
            && r[blackId].ratings[category] == b.ratings[category] + bc
            && (forall c :: c in w.ratings && c != category ==> c in r[whiteId].ratings && r[whiteId].ratings[c] == w.ratings[c])
            && (forall c :: c in b.ratings && c != category ==> c in r[blackId].ratings && r[blackId].ratings[c] == b.ratings[c])
  {
  }
}
