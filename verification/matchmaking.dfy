/**
 * Matchmaking: one FIFO queue of waiting players per time control, scanned
 * from the front for the first candidate that still has a matchmaking
 * connection, and the `match_found` notice that ends each matched player's
 * search.
 */
module Matchmaking {
  import opened Wrappers
  import opened Ids
  import opened Records
  import MatchRegistry
  import SessionCache
  import GameService

  type QueuedPlayer = GameService.QueuedPlayer

  /** The queues, by key; a key never written reads as an empty queue. */
  type Queues = map<string, seq<QueuedPlayer>>

  const QueuePrefix: string := "queue:"

  /** The cache key of the queue for a time control. */
  function QueueKey(timeControl: string): (k: string)
    ensures |k| == |QueuePrefix| + |timeControl|
    ensures k[..|QueuePrefix|] == QueuePrefix && k[|QueuePrefix|..] == timeControl
  {
    QueuePrefix + timeControl
  }

  /** `cache.get(key) or []`. */
  function QueueAt(qs: Queues, key: string): seq<QueuedPlayer> {
    if key in qs then qs[key] else []
  }

  /**
   * The scan of `find_match`: candidates are popped from the front; one
   * without a live matchmaking connection is dropped for good, and the first
   * live one is taken. The result is the candidate (if any) and what is left
   * behind it.
   */
  function Scan(queue: seq<QueuedPlayer>, conns: MatchRegistry.Registry): (r: (Option<QueuedPlayer>, seq<QueuedPlayer>))
    ensures r.0.None? ==> r.1 == [] && forall k :: 0 <= k < |queue| ==> queue[k].userId !in conns
    ensures r.0.Some? ==>
              exists i :: && 0 <= i < |queue| && queue[i] == r.0.value && queue[i].userId in conns
                          && (forall k :: 0 <= k < i ==> queue[k].userId !in conns)
                          && r.1 == queue[i + 1..]
  {
    if |queue| == 0 then (None, [])
    else if queue[0].userId in conns then (Some(queue[0]), queue[1..])
    else
      var r := Scan(queue[1..], conns);
      if r.0.Some? then
        var i :| && 0 <= i < |queue[1..]| && queue[1..][i] == r.0.value && queue[1..][i].userId in conns
                 && (forall k :: 0 <= k < i ==> queue[1..][k].userId !in conns)
                 && r.1 == queue[1..][i + 1..];
        assert queue[i + 1] == r.0.value && queue[i + 2..] == r.1;
        r
      else r
  }

  /** The match-making socket's messages. */
  datatype LobbyMessage = MatchFound(gameId: GameId) | WaitingForMatch | LobbyError(text: string)

  datatype Notice = Notice(to: SocketId, msg: LobbyMessage)

  /** The registry after notifying, and the notices that went out. */
  datatype Notified = Notified(conns: MatchRegistry.Registry, sent: seq<Notice>)

  /**
   * `notify_players`: each listed user with a connection is sent
   * `match_found` and unregistered; a failed send (RuntimeError) is caught
   * and unregisters the user just the same; unconnected users are skipped.
   */
  function NotifyPlayers(conns: MatchRegistry.Registry, gameId: GameId, uids: seq<UserId>,
                         failing: set<SocketId>): (r: Notified)
    ensures forall u :: u in uids ==> u !in r.conns
    ensures forall u :: u !in uids ==> MatchRegistry.Get(r.conns, u) == MatchRegistry.Get(conns, u)
    ensures forall n :: n in r.sent ==>
              && n.msg == MatchFound(gameId) && n.to !in failing
              && exists v :: v in uids && v in conns && conns[v] == n.to
    ensures forall u :: u in uids && u in conns && conns[u] !in failing ==> Notice(conns[u], MatchFound(gameId)) in r.sent
    ensures |r.sent| <= |uids|
    decreases |uids|
  {
    if |uids| == 0 then Notified(conns, [])
    else
      var d := MatchRegistry.SendToUser(conns, uids[0], failing);
      var here := if d.to == {} then [] else [Notice(conns[uids[0]], MatchFound(gameId))];
      var rest := NotifyPlayers(MatchRegistry.Disconnect(conns, uids[0]), gameId, uids[1..], failing);
      assert forall u :: u in uids ==> u == uids[0] || u in uids[1..];
      Notified(rest.conns, here + rest.sent)
  }

  /** No two users share a matchmaking socket. */
  predicate DistinctSockets(conns: MatchRegistry.Registry) {
    forall a, b :: a in conns && b in conns && a != b ==> conns[a] != conns[b]
  }

  /**
   * Every listed user who is connected on a working socket gets exactly one
   * `match_found`, however often the user is listed: the first notice
   * unregisters the user, so later entries are skipped.
   */
  lemma {:induction false} NotifiedExactlyOnce(conns: MatchRegistry.Registry, gameId: GameId, uids: seq<UserId>,
                                               failing: set<SocketId>, u: UserId)
    requires DistinctSockets(conns)
    requires u in uids && u in conns && conns[u] !in failing
    ensures multiset(NotifyPlayers(conns, gameId, uids, failing).sent)[Notice(conns[u], MatchFound(gameId))] == 1
    decreases |uids|
  {
    var n := Notice(conns[u], MatchFound(gameId));
    var c1 := MatchRegistry.Disconnect(conns, uids[0]);
    var rest := NotifyPlayers(c1, gameId, uids[1..], failing);
    var here := if uids[0] in conns && conns[uids[0]] !in failing then [Notice(conns[uids[0]], MatchFound(gameId))] else [];
    assert NotifyPlayers(conns, gameId, uids, failing).sent == here + rest.sent;
    if uids[0] == u {
      assert n !in rest.sent;
      assert multiset(rest.sent)[n] == 0;
    } else {
      assert multiset(here)[n] == 0;
      assert u in uids[1..];
      NotifiedExactlyOnce(c1, gameId, uids[1..], failing, u);
    }
  }

  /** Two distinct connected players with working sockets are each told once, in order. */
  lemma NotifyPair(conns: MatchRegistry.Registry, gameId: GameId, a: UserId, b: UserId, failing: set<SocketId>)
    requires a != b && a in conns && b in conns && conns[a] !in failing && conns[b] !in failing
    ensures NotifyPlayers(conns, gameId, [a, b], failing).sent == [Notice(conns[a], MatchFound(gameId)), Notice(conns[b], MatchFound(gameId))]
  {
    var c1 := MatchRegistry.Disconnect(conns, a);
    assert [a, b][1..] == [b];
    assert NotifyPlayers(c1, gameId, [b], failing).sent == [Notice(c1[b], MatchFound(gameId))] by {
      assert [b][1..] == [];
    }
  }

  /** The matchmaking state: the queues, the lobby registry, and the game cache and table a match writes. */
  datatype Lobby = Lobby(queues: Queues, conns: MatchRegistry.Registry, cache: SessionCache.Cache, db: Db)

  /** The outcome of `find_match`: the lobby, the notices sent, and the new game's id or None, or a fault. */
  datatype Matched = Matched(lobby: Lobby, sent: seq<Notice>, game: Result<Option<GameId>>)

  /**
   * `find_match`. A live candidate that is the player themself is dropped
   * and the player goes to the back. A different live candidate is paired
   * with the player through the older `create_game_and_active_game` (the
   * new player first, under fresh id `newId`); the queue keeps only what lay
   * behind the candidate, and both are notified. With no live candidate the
   * queue becomes just the player.
   */
  function FindMatch(l: Lobby, player: QueuedPlayer, newId: GameId, now: Instant,
                     failing: set<SocketId>): (r: Matched)
    ensures var queue := QueueAt(l.queues, QueueKey(player.timeControl));
            var (opp, rest) := Scan(queue, l.conns);
            && (opp.None? ==> r == Matched(l.(queues := l.queues[QueueKey(player.timeControl) := [player]]), [], Success(None)))
            && (opp.Some? && opp.value.userId == player.userId ==>
                  r == Matched(l.(queues := l.queues[QueueKey(player.timeControl) := rest + [player]]), [], Success(None)))
            && (opp.Some? && opp.value.userId != player.userId ==>
                  var made := GameService.CreateGameJoinOrder(l.cache, l.db, newId, player, opp.value, now);
                  && (made.outcome.Failure? ==> r == Matched(l.(db := made.db), [], Failure(made.outcome.error)))
                  && (made.outcome.Success? ==>
                        var n := NotifyPlayers(l.conns, newId, [player.userId, opp.value.userId], failing);
                        && r.game == Success(Some(newId))
                        && r.lobby.queues == l.queues[QueueKey(player.timeControl) := rest]
                        && r.lobby.db == made.db && r.lobby.cache == made.cache
                        && r.lobby.conns == n.conns && r.sent == n.sent
                        && player.userId !in r.lobby.conns && opp.value.userId !in r.lobby.conns
                        && (forall u :: u != player.userId && u != opp.value.userId ==>
                              MatchRegistry.Get(r.lobby.conns, u) == MatchRegistry.Get(l.conns, u))
                        && (player.userId in l.conns && l.conns[player.userId] !in failing ==>
                              Notice(l.conns[player.userId], MatchFound(newId)) in r.sent)
                        && (l.conns[opp.value.userId] !in failing ==>
                              Notice(l.conns[opp.value.userId], MatchFound(newId)) in r.sent)))
  {
    var key := QueueKey(player.timeControl);
    var (opp, rest) := Scan(QueueAt(l.queues, key), l.conns);
    match opp
    case None =>
      assert rest + [player] == [player];
      Matched(l.(queues := l.queues[key := rest + [player]]), [], Success(None))
    case Some(o) =>
      if o.userId == player.userId then Matched(l.(queues := l.queues[key := rest + [player]]), [], Success(None))
      else
        var made := GameService.CreateGameJoinOrder(l.cache, l.db, newId, player, o, now);
        if made.outcome.Failure? then Matched(l.(db := made.db), [], Failure(made.outcome.error))
        else
          var n := NotifyPlayers(l.conns, newId, [player.userId, o.userId], failing);
          Matched(Lobby(l.queues[key := rest], n.conns, made.cache, made.db), n.sent, Success(Some(newId)))
  }

  /** Every player left in a queue after a scan was queued before, in the same relative order: a scan only removes. */
  lemma ScanLeavesSuffix(queue: seq<QueuedPlayer>, conns: MatchRegistry.Registry)
    ensures var (_, rest) := Scan(queue, conns);
            exists i :: 0 <= i <= |queue| && rest == queue[i..]
  {
    var (opp, rest) := Scan(queue, conns);
    if opp.None? {
      assert rest == queue[|queue|..];
    }
  }
}
