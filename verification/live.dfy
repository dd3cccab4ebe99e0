/**
 * The state every live-game handler works on and the effects it has: the
 * session cache, the `games` table and the game connection registry, the
 * messages sent to sockets, and how the invocation ends. Each handler
 * invocation is one atomic step from a store to a store.
 */
module Live {
  import opened Wrappers
  import opened Ids
  import opened Sessions
  import opened Records
  import SessionCache
  import GameRegistry

  /** The JSON messages the server sends on a game socket, by their "type". */
  datatype Message =
    | MoveMade(uci: string, san: string, fen: string, turn: Color, whiteTime: int, blackTime: int)
    | GameOver(result: GameResult, termination: Termination)
    | DrawOffered(from: UserId)
    | ChatMessage(username: Option<string>, text: string)
    | ErrorMessage(text: string)
    | Reconnected
    | OpponentReconnected(user: UserId)
    | GameStart(gameId: GameId, initialFen: string, yourTime: int, opponentTime: int)
    | WaitingForOpponent

  /** One message and the sockets it reached. */
  datatype Outbound = Outbound(to: set<SocketId>, msg: Message)

  /**
   * How an invocation ended: normally, with a rejected move (`InvalidMove`),
   * with an exception nothing catches, or by closing the socket with a code.
   */
  datatype Reply = Done | Invalid(reason: string) | Fault(reason: string) | Closed(code: int)

  datatype Store = Store(cache: SessionCache.Cache, db: Db, conns: GameRegistry.Registry)

  /** The store after an invocation, what it sent, in order, and how it ended. */
  datatype Step = Step(store: Store, sent: seq<Outbound>, reply: Reply)

  /** Every cached session sits under its own game's key, and every row under its own id. */
  predicate WellKeyed(s: Store) {
    && (forall k :: k in s.cache ==> k == SessionCache.Key(s.cache[k].gameId))
    && (forall id :: id in s.db ==> s.db[id].id == id)
  }

  /** The session cached for game `id`, if any. */
  function Cached(s: Store, id: GameId): Option<ActiveGame> {
    if SessionCache.Key(id) in s.cache then Some(s.cache[SessionCache.Key(id)]) else None
  }

  /** Stores a session in the cache. */
  function Save(s: Store, g: ActiveGame): (r: Store)
    ensures Cached(r, g.gameId) == Some(g)
    ensures r.db == s.db && r.conns == s.conns
    ensures OthersCachedAlike(s, r, g.gameId)
    ensures WellKeyed(s) ==> WellKeyed(r)
  {
    forall id: GameId | id != g.gameId ensures SessionCache.Key(id) != SessionCache.Key(g.gameId) {
      SessionCache.KeyInjective(id, g.gameId);
    }
    s.(cache := SessionCache.SaveActiveGame(s.cache, g))
  }

  /** `broadcast_to_game` of one message: it reaches the live sockets, and failed ones are dropped. */
  function Broadcast(s: Store, id: GameId, msg: Message, failing: set<SocketId>): (r: Step)
    ensures r.reply == Done && r.store.cache == s.cache && r.store.db == s.db
    ensures r.sent == [Outbound(GameRegistry.Broadcast(s.conns, id, failing).to, msg)]
    ensures r.store.conns == GameRegistry.Broadcast(s.conns, id, failing).registry
  {
    var d := GameRegistry.Broadcast(s.conns, id, failing);
    Step(s.(conns := d.registry), [Outbound(d.to, msg)], Done)
  }

  /** Completing a game's row keeps the store well keyed. */
  lemma FinalizeKeepsKeys(s: Store, id: GameId, result: Option<GameResult>, termination: Option<Termination>,
                          finalFen: string, movesSan: seq<string>, now: Instant)
    requires WellKeyed(s) && id in s.db
    ensures WellKeyed(s.(db := FinalizeRow(s.db, id, result, termination, finalFen, movesSan, now).value))
  {
    var row := CompletedRow(s.db[id], result, termination, finalFen, movesSan, now);
    assert row.id == s.db[id].id;
  }

  /** The lookup every handler starts with, with the reconstruction's cache write kept. */
  datatype Found = Found(store: Store, game: Option<ActiveGame>)

  function Lookup(s: Store, id: GameId): (r: Result<Found>)
    ensures Cached(s, id).Some? ==> r == Success(Found(s, Cached(s, id)))
    ensures r.Success? ==> r.value.store.db == s.db && r.value.store.conns == s.conns
    ensures r.Success? && r.value.game.Some? ==> Cached(r.value.store, id) == r.value.game
    ensures r.Success? ==> OthersCachedAlike(s, r.value.store, id)
    ensures r.Success? && r.value.game.None? ==> r.value.store == s && id !in s.db
    ensures WellKeyed(s) && r.Success? && r.value.game.Some? ==> r.value.game.value.gameId == id
    ensures WellKeyed(s) && r.Success? ==> WellKeyed(r.value.store)
  {
    var l :- SessionCache.GetActiveGame(s.cache, s.db, id);
    OnlyOwnKeyWritten(s, l.cache, id);
    assert WellKeyed(s) ==> WellKeyed(s.(cache := l.cache)) && (l.game.Some? ==> l.game.value.gameId == id) by {
      if WellKeyed(s) { AdoptedLookupKeyed(s, id); }
    }
    Success(Found(s.(cache := l.cache), l.game))
  }

  /** In a well-keyed store the looked-up session belongs to the game asked for, and the written-back cache stays well keyed. */
  lemma AdoptedLookupKeyed(s: Store, id: GameId)
    requires WellKeyed(s) && SessionCache.GetActiveGame(s.cache, s.db, id).Success?
    ensures var l := SessionCache.GetActiveGame(s.cache, s.db, id).value;
            && (l.game.Some? ==> l.game.value.gameId == id)
            && WellKeyed(s.(cache := l.cache))
  {
    var l := SessionCache.GetActiveGame(s.cache, s.db, id).value;
    var key := SessionCache.Key(id);
    if key in s.cache {
      assert l.cache == s.cache;
      SessionCache.KeyInjective(l.game.value.gameId, id);
    } else if id in s.db {
      var g := SessionCache.Reconstruct(s.db[id]).value;
      assert l.game == Some(g) && g.gameId == s.db[id].id == id;
      assert s.(cache := l.cache) == Save(s, g);
    } else {
      assert l.cache == s.cache;
    }
  }

  /** Every game other than `id` has the same cached session in `s` and `t`. */
  ghost predicate OthersCachedAlike(s: Store, t: Store, id: GameId) {
    forall other: GameId :: other != id ==> Cached(t, other) == Cached(s, other)
  }

  /** A cache that differs from the store's only under game `id`'s key leaves every other game's session alone. */
  lemma OnlyOwnKeyWritten(s: Store, c: SessionCache.Cache, id: GameId)
    requires forall k :: k != SessionCache.Key(id) ==> (k in c <==> k in s.cache)
    requires forall k :: k != SessionCache.Key(id) && k in s.cache ==> c[k] == s.cache[k]
    ensures OthersCachedAlike(s, s.(cache := c), id)
  {
    forall other: GameId | other != id ensures Cached(s.(cache := c), other) == Cached(s, other) {
      SessionCache.KeyInjective(other, id);
    }
  }

  /** The game row records the end of the game: completed, with the final position, the moves, and the reason's result and termination (both null without one). */
  predicate RecordsEnd(row: GameRow, reason: Option<(GameResult, Termination)>, g: ActiveGame) {
    && row.status == Completed
    && row.finalFen == Some(g.currentFen)
    && row.pgn == Some(Pgn(g.movesSan))
    && row.result == (if reason.Some? then Some(reason.value.0) else None)
    && row.termination == (if reason.Some? then Some(reason.value.1) else None)
  }

  /**
   * The ending shared by resignation, draw agreement and timeout: the session
   * is stored with the termination's name as its status, then the row is
   * completed and both players are told.
   */
  function Finish(s: Store, id: GameId, g: ActiveGame, result: GameResult, termination: Termination,
                  now: Instant, failing: set<SocketId>): (r: Step)
    requires g.gameId == id
    ensures Cached(r.store, id) == Some(g.(status := TerminationName(termination)))
    ensures r.reply == Done <==> id in s.db
    ensures id in s.db ==>
              && id in r.store.db
              && RecordsEnd(r.store.db[id], Some((result, termination)), g)
              && r.sent == [Outbound(GameRegistry.Broadcast(s.conns, id, failing).to, GameOver(result, termination))]
    ensures r.reply != Done ==> r.reply.Fault? && r.sent == []
    ensures WellKeyed(s) ==> WellKeyed(r.store)
  {
    var s1 := Save(s, g.(status := TerminationName(termination)));
    assert WellKeyed(s) && id in s.db ==> WellKeyed(s1.(db := FinalizeRow(s1.db, id, Some(result), Some(termination), g.currentFen, g.movesSan, now).value)) by {
      if WellKeyed(s) && id in s.db { FinalizeKeepsKeys(s1, id, Some(result), Some(termination), g.currentFen, g.movesSan, now); }
    }
    Conclude(s1, id, g, result, termination, now, failing)
  }

  /**
   * The row write and `game_over` broadcast every resign, draw and timeout
   * path ends with; fetching a missing row raises before anything is sent.
   */
  function Conclude(s: Store, id: GameId, g: ActiveGame, result: GameResult, termination: Termination,
                    now: Instant, failing: set<SocketId>): (r: Step)
    ensures id !in s.db ==> r == Step(s, [], Fault(FinalizeRow(s.db, id, Some(result), Some(termination), g.currentFen, g.movesSan, now).error))
    ensures id in s.db ==>
              && r.reply == Done
              && r.store.cache == s.cache
              && r.store.db == s.db[id := CompletedRow(s.db[id], Some(result), Some(termination), g.currentFen, g.movesSan, now)]
              && r.sent == [Outbound(GameRegistry.Broadcast(s.conns, id, failing).to, GameOver(result, termination))]
  {
    match FinalizeRow(s.db, id, Some(result), Some(termination), g.currentFen, g.movesSan, now)
    case Failure(e) => Step(s, [], Fault(e))
    case Success(db) => Broadcast(s.(db := db), id, GameOver(result, termination), failing)
  }
}
