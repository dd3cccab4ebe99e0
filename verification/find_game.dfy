/**
 * The match-making websocket: a `find_game` request validates the time
 * control and queues the player through `find_match`; `cancel_search`
 * removes the player from a queue and ends the search; a dropped transport
 * unregisters the user.
 */
module FindGame {
  import opened Wrappers
  import opened Ids
  import MatchRegistry
  import TimeControls
  import GameService
  import Matchmaking

  type QueuedPlayer = GameService.QueuedPlayer

  /** The inbound messages by "type"; a field the client left out is None. */
  datatype LobbyRequest =
    | FindGameRequest(timeControl: Option<string>, timeControlStr: string)
    | CancelSearchRequest(timeControl: Option<string>)
    | OtherRequest

  const InvalidControlText: string := "Invalid or missing time control"
  /** The time control `cancel_search` falls back to when the message names none. */
  const DefaultCancelControl: string := "blitz_5min"
  /** The rating every queued player is given. */
  const QueuedRating: int := 1200

  /** The lobby after one message, what was sent, whether the socket was closed, and an escaped exception. */
  datatype LobbyStep = LobbyStep(lobby: Matchmaking.Lobby, sent: seq<Matchmaking.Notice>, closed: bool, fault: Option<string>)

  /** The queue without any entry of `user`, in the original order. */
  function Without(queue: seq<QueuedPlayer>, user: UserId): (r: seq<QueuedPlayer>)
    ensures forall k :: 0 <= k < |r| ==> r[k].userId != user
    ensures forall p :: multiset(r)[p] == if p.userId == user then 0 else multiset(queue)[p]
    ensures |r| <= |queue|
  {
    if |queue| == 0 then []
    else
      assert queue == [queue[0]] + queue[1..];
      if queue[0].userId == user then Without(queue[1..], user)
      else [queue[0]] + Without(queue[1..], user)
  }

  /** Filtering splits over concatenation, so the kept entries stay in their original order. */
  lemma {:induction false} WithoutAppend(a: seq<QueuedPlayer>, b: seq<QueuedPlayer>, user: UserId)
    ensures Without(a + b, user) == Without(a, user) + Without(b, user)
  {
    if |a| > 0 {
      assert (a + b)[1..] == a[1..] + b;
      WithoutAppend(a[1..], b, user);
    } else {
      assert a + b == b;
    }
  }

  /** A queue without an entry of the user is left exactly as it is. */
  lemma {:induction false} WithoutAbsent(queue: seq<QueuedPlayer>, user: UserId)
    requires forall k :: 0 <= k < |queue| ==> queue[k].userId != user
    ensures Without(queue, user) == queue
  {
    if |queue| > 0 {
      WithoutAbsent(queue[1..], user);
      assert queue == [queue[0]] + queue[1..];
    }
  }

  /** Cancelling twice is the same as cancelling once. */
  lemma WithoutIdempotent(queue: seq<QueuedPlayer>, user: UserId)
    ensures Without(Without(queue, user), user) == Without(queue, user)
  {
    WithoutAbsent(Without(queue, user), user);
  }

  /** Opening the socket registers it as the user's. */
  function Open(l: Matchmaking.Lobby, user: UserId, ws: SocketId): (r: Matchmaking.Lobby)
    ensures MatchRegistry.Get(r.conns, user) == Some(ws)
    ensures r.queues == l.queues && r.cache == l.cache && r.db == l.db
  {
    l.(conns := MatchRegistry.Connect(l.conns, user, ws))
  }

  /**
   * One message on the socket. A `find_game` without a valid time control
   * gets an error, the socket is closed and the user unregistered, with no
   * queue touched. A valid one queues the player (rating 1200, joined now)
   * through `find_match` and answers `waiting_for_match` only when no game
   * came of it. `cancel_search` rewrites the named queue (by default
   * "blitz_5min") without the user's entries, unregisters the user and
   * closes.
   */
  function Receive(l: Matchmaking.Lobby, user: UserId, ws: SocketId, req: LobbyRequest, newId: GameId,
                   now: Instant, failing: set<SocketId>): (r: LobbyStep)
    ensures req.FindGameRequest? && (req.timeControl.None? || !TimeControls.IsTimeControl(req.timeControl.value)) ==>
              && r.closed && r.fault.None?
              && r.sent == [Matchmaking.Notice(ws, Matchmaking.LobbyError(InvalidControlText))]
              && r.lobby == l.(conns := MatchRegistry.Disconnect(l.conns, user))
    ensures req.FindGameRequest? && req.timeControl.Some? && TimeControls.IsTimeControl(req.timeControl.value) ==>
              var player := GameService.QueuedPlayer(user, QueuedRating, req.timeControl.value, req.timeControlStr, now);
              var m := Matchmaking.FindMatch(l, player, newId, now, failing);
              && !r.closed && r.lobby == m.lobby
              && (m.game == Success(None) ==> r.sent == m.sent + [Matchmaking.Notice(ws, Matchmaking.WaitingForMatch)])
              && (m.game.Success? && m.game.value.Some? ==> r.sent == m.sent)
              && (r.fault.Some? <==> m.game.Failure?)
    ensures req.CancelSearchRequest? ==>
              var key := Matchmaking.QueueKey(req.timeControl.GetOr(DefaultCancelControl));
              && r.closed && r.sent == [] && r.fault.None?
              && MatchRegistry.Get(r.lobby.conns, user).None?
              && r.lobby.queues == l.queues[key := Without(Matchmaking.QueueAt(l.queues, key), user)]
    ensures req.OtherRequest? ==> r == LobbyStep(l, [], false, None)
  {
    match req
    case FindGameRequest(tc, tcStr) =>
      if tc.None? || tc.value == "" || !TimeControls.IsTimeControl(tc.value) then
        LobbyStep(l.(conns := MatchRegistry.Disconnect(l.conns, user)),
                  [Matchmaking.Notice(ws, Matchmaking.LobbyError(InvalidControlText))], true, None)
      else
        var player := GameService.QueuedPlayer(user, QueuedRating, tc.value, tcStr, now);
        var m := Matchmaking.FindMatch(l, player, newId, now, failing);
        (match m.game
         case Failure(e) => LobbyStep(m.lobby, m.sent, false, Some(e))
         case Success(None) => LobbyStep(m.lobby, m.sent + [Matchmaking.Notice(ws, Matchmaking.WaitingForMatch)], false, None)
         case Success(Some(_)) => LobbyStep(m.lobby, m.sent, false, None))
    case CancelSearchRequest(tc) =>
      var key := Matchmaking.QueueKey(tc.GetOr(DefaultCancelControl));
      var kept := Without(Matchmaking.QueueAt(l.queues, key), user);
      LobbyStep(l.(queues := l.queues[key := kept], conns := MatchRegistry.Disconnect(l.conns, user)), [], true, None)
    case OtherRequest => LobbyStep(l, [], false, None)
  }

  /** The `WebSocketDisconnect` branch: the user is unregistered and nothing else changes. */
  function Drop(l: Matchmaking.Lobby, user: UserId): (r: Matchmaking.Lobby)
    ensures MatchRegistry.Get(r.conns, user).None?
    ensures forall v: UserId :: v != user ==> MatchRegistry.Get(r.conns, v) == MatchRegistry.Get(l.conns, v)
    ensures r.queues == l.queues && r.cache == l.cache && r.db == l.db
  {
    l.(conns := MatchRegistry.Disconnect(l.conns, user))
  }

  /** The default time control of `cancel_search` is not one `find_game` accepts, so no player is ever queued under its key. */
  lemma DefaultCancelMissesEveryQueue()
    ensures !TimeControls.IsTimeControl(DefaultCancelControl)
  {
  }
}
